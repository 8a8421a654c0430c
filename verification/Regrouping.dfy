/** Grouping what has been grouped: when `Group` accepts its own result, and that it then leaves it alone
    (internal/finding/group.go, path.go). */
module Regrouping {
  import opened Text
  import opened Sorting
  import opened Findings

  // ---- which paths stay valid when they are cleaned

  lemma {:induction false} PortableAppend(a: string, b: string)
    ensures Portable(a + b) == Portable(a) + Portable(b)
  {
    if a == "" {
      assert a + b == b;
    } else {
      PortableAppend(a[1..], b);
      assert (a + b)[1..] == a[1..] + b;
    }
  }

  lemma SplitStep(c: char, s: string, sep: char)
    ensures var rest := Split(s, sep);
            Split([c] + s, sep) == if c == sep then [""] + rest else [[c] + rest[0]] + rest[1..]
  {
    assert ([c] + s)[1..] == s;
  }

  lemma Glue(c: char, rest: seq<string>, tail: seq<string>)
    requires rest != []
    ensures [[c] + (rest + tail)[0]] + (rest + tail)[1..] == [[c] + rest[0]] + rest[1..] + tail
    ensures [""] + (rest + tail) == [""] + rest + tail
  {
    assert (rest + tail)[1..] == rest[1..] + tail;
  }

  lemma {:induction false} SplitAppend(a: string, b: string, sep: char)
    ensures Split(a + [sep] + b, sep) == Split(a, sep) + Split(b, sep)
  {
    if a == "" {
      assert a + [sep] + b == [sep] + b;
      SplitStep(sep, b, sep);
    } else {
      hide Split;
      var c, front := a[0], a[1..];
      assert a == [c] + front && a + [sep] + b == [c] + (front + [sep] + b);
      SplitAppend(front, b, sep);
      SplitStep(c, front, sep);
      SplitStep(c, front + [sep] + b, sep);
      Glue(c, Split(front, sep), Split(b, sep));
    }
  }

  lemma HeadOrTail(parts: seq<string>, e: string)
    requires parts != []
    ensures (exists p :: p in parts && e in Split(Portable(p), '/')) <==>
      e in Split(Portable(parts[0]), '/') || exists p :: p in parts[1..] && e in Split(Portable(p), '/')
  {
    hide Split, Portable;
    assert parts == [parts[0]] + parts[1..];
  }

  /** Reading backslashes as slashes splits a path further, part by part. */
  lemma {:induction false} PortableParts(parts: seq<string>, e: string)
    requires parts != []
    ensures e in Split(Portable(Join(parts, '/')), '/') <==> exists p :: p in parts && e in Split(Portable(p), '/')
  {
    if |parts| == 1 {
      assert parts[0] in parts;
    } else {
      var rest := Join(parts[1..], '/');
      PortableParts(parts[1..], e);
      PortableAppend(parts[0] + ['/'], rest);
      PortableAppend(parts[0], ['/']);
      assert ['/'][1..] == "" && Portable(['/']) == ['/'];
      SplitAppend(Portable(parts[0]), Portable(rest), '/');
      assert Split(Portable(Join(parts, '/')), '/') == Split(Portable(parts[0]), '/') + Split(Portable(rest), '/');
      hide Split, Portable, Join;
      HeadOrTail(parts, e);
    }
  }

  /** Cleaning a path brings no `..` to light. */
  lemma NoTraversal(path: string)
    requires ".." !in Split(Portable(path), '/')
    ensures ".." !in Split(Portable(NormalizeFile(path)), '/')
  {
    var parts := Split(path, '/');
    var kept := Components(parts);
    if kept == [] {
      assert Portable(".") == "." + Portable("");
      SplitWord(".", '/');
    } else if ".." in Split(Portable(Join(kept, '/')), '/') {
      PortableParts(kept, "..");
      var p :| p in kept && ".." in Split(Portable(p), '/');
      assert p in parts;
      JoinSplit(path, '/');
      PortableParts(parts, "..");
      assert false;
    }
  }

  lemma CleanStart(path: string)
    ensures NormalizeFile(path) != "" && NormalizeFile(path)[0] != '/'
  {
    var kept := Components(Split(path, '/'));
    if kept != [] {
      assert kept[0] in kept && kept[0][0] in kept[0];
    }
  }

  /** A valid path stays valid unless a leading "./" was all that kept it from being blank, rooted or on a drive. */
  lemma StaysValid(path: string)
    requires ValidPath(path)
    ensures var clean := NormalizeFile(path);
            ValidPath(clean) <==> clean != "" && !Blank(clean) && clean[0] != '\\' && !WindowsAbsolute(Portable(clean))
  {
    NoTraversal(path);
    CleanStart(path);
    hide NormalizeFile, Split, Blank, WindowsAbsolute;
  }

  // ---- what is valid after grouping

  predicate CleanPath(f: Finding) {
    ValidPath(NormalizeFile(f.file))
  }

  /** A combination of acceptable findings lacks nothing for validity but perhaps a valid path. */
  lemma CombinationValid(findings: seq<Finding>, g: Finding, f: Finding)
    requires Acceptable(findings) && IsCombination(Members(findings, g.fingerprint), g)
    requires f in findings && Fingerprint(f) == g.fingerprint
    ensures Valid(g) <==> CleanPath(f)
  {
    var members := Members(findings, g.fingerprint);
    hide Members, Normalized, StrictlySorted, LessMetadata, NormalizeFile, ValidPath, ToolQualified, Blank;
    MembersAre(findings, g.fingerprint);
    MembersAlike(findings, g.fingerprint);
    NormalizedFacts(f);
    assert Normalized(f) in members;
    var leader :| Leads(members, g, leader);
    var led :| led in findings && Normalized(led) == leader && leader.fingerprint == g.fingerprint;
    NormalizedFacts(led);
    assert Valid(led) && Valid(f);
    FingerprintIsIdentity(f, led);
    assert IdentityFields(f)[2] == IdentityFields(led)[2];
    LocationsValid(findings, g);
    LedFields(led, g);
    SameIdentityFields(g, leader);
    NothingIsBlank();
  }

  lemma NothingIsBlank()
    ensures !ValidPath("")
  {
  }

  lemma LedFields(led: Finding, g: Finding)
    requires var x := Normalized(led);
             g == x.(line := g.line, endLine := g.endLine, severity := g.severity, occurrences := g.occurrences)
    ensures g.gate == led.gate && g.language == led.language && g.ruleID == led.ruleID && g.snippet == led.snippet
    ensures g.message == led.message && g.file == NormalizeFile(led.file)
  {
  }

  lemma SameIdentityFields(g: Finding, leader: Finding)
    requires leader == Normalized(leader)
    requires g == leader.(line := g.line, endLine := g.endLine, severity := g.severity, occurrences := g.occurrences)
    ensures g.fingerprint == Fingerprint(g)
  {
    NormalizedFacts(leader);
    assert IdentityFields(g) == IdentityFields(leader);
  }

  lemma LocationsValid(findings: seq<Finding>, g: Finding)
    requires Acceptable(findings) && IsCombination(Members(findings, g.fingerprint), g)
    ensures ValidLocation(FirstLocation(g)) && (forall o :: o in g.occurrences ==> ValidLocation(o))
    ensures ValidSeverity(g.severity)
  {
    var members := Members(findings, g.fingerprint);
    hide Members, Normalized, StrictlySorted, Leads, ValidIdentity, Sized, ValidLocation;
    MembersAre(findings, g.fingerprint);
    MembersAlike(findings, g.fingerprint);
    forall o | o in AllLocations(g) ensures ValidLocation(o) {
      assert Located(members, o);
      var m :| m in members && o in AllLocations(m);
      var f :| f in findings && Normalized(f) == m && m.fingerprint == g.fingerprint;
      NormalizedLocations(f);
      assert Valid(f);
    }
    assert FirstLocation(g) == AllLocations(g)[0];
  }

  /** The grouped findings are valid exactly when the cleaned paths of all findings are. */
  lemma GroupedValidExactly(findings: seq<Finding>, grouped: seq<Finding>)
    requires Acceptable(findings) && IsGrouping(findings, grouped)
    ensures (forall g :: g in grouped ==> Valid(g)) <==> (forall f :: f in findings ==> CleanPath(f))
  {
    hide Valid, Sized, IsCombination, StrictlySorted, Members, Normalized, CleanPath, Fingerprint;
    forall f | f in findings && !CleanPath(f) ensures exists g :: g in grouped && !Valid(g) {
      NormalizedFacts(f);
      var g :| g in grouped && g.fingerprint == Normalized(f).fingerprint;
      CombinationValid(findings, g, f);
    }
    forall g | g in grouped && !Valid(g) ensures exists f :: f in findings && !CleanPath(f) {
      MembersAre(findings, g.fingerprint);
      var m := Members(findings, g.fingerprint)[0];
      assert m in Members(findings, g.fingerprint);
      var f :| f in findings && Normalized(f) == m && m.fingerprint == g.fingerprint;
      NormalizedFacts(f);
      CombinationValid(findings, g, f);
    }
  }

  lemma GroupedSized(findings: seq<Finding>, grouped: seq<Finding>)
    requires Acceptable(findings) && IsGrouping(findings, grouped)
    ensures forall g :: g in grouped ==> Sized(g)
  {
    hide Members, Normalized, Valid, StrictlySorted, LessMetadata;
    forall g | g in grouped ensures Sized(g) {
      MembersAlike(findings, g.fingerprint);
      var leader :| Leads(Members(findings, g.fingerprint), g, leader);
      assert IdentityFields(g) == IdentityFields(leader);
    }
  }

  /** `Group` takes back what it has given, unchanged, exactly when the cleaned paths of all findings are valid;
      otherwise it refuses its own result. */
  lemma GroupingIsIdempotentExactly(findings: seq<Finding>, grouped: seq<Finding>, again: GroupResult)
    requires forall f :: f in findings ==> Sized(f)
    requires GroupAnswers(findings, Grouped(grouped)) && GroupAnswers(grouped, again)
    ensures again == Grouped(grouped) <==> forall f :: f in findings ==> CleanPath(f)
    ensures again.Invalid? <==> exists f :: f in findings && !CleanPath(f)
  {
    hide Valid, Sized, IsGrouping, CleanPath;
    GroupedValidExactly(findings, grouped);
    GroupedSized(findings, grouped);
    if again.Grouped? {
      GroupingOfGrouping(findings, grouped);
      GroupingIsUnique(grouped, grouped, again.findings, grouped);
    }
  }

  /** A finding whose path is blank but for a leading "./". */
  const BLANK_BUT_DOT := Finding("g", "go", "t/r", Error, "./ ", 1, 0, "x", [], "m", "")

  lemma BlankButDotIsCleaned()
    ensures NormalizeFile("./ ") == " " && ".." !in Split("./ ", '/')
  {
    assert "." + ['/'] + " " == "./ ";
    SplitFirst(".", " ", '/');
    SplitWord(" ", '/');
    hide Split;
    assert Components([" "]) == [" "] + Components([]);
    assert [".", " "][1..] == [" "] && Components([".", " "]) == [] + Components([" "]);
  }

  lemma BlankButDotIsPortable()
    ensures Portable("./ ") == "./ "
  {
    assert "./ "[1..] == "/ " && "/ "[1..] == " " && " "[1..] == "";
  }

  lemma BlankButDot()
    ensures NormalizeFile("./ ") == " " && ValidPath("./ ") && !ValidPath(" ")
  {
    hide Split, Portable, NormalizeFile;
    BlankButDotIsCleaned();
    BlankButDotIsPortable();
    assert "./ "[0] == '.' && '.' in "./ " && !IsSpace('.');
  }

  lemma OneWord()
    ensures NormalizeSnippet("x") == "x"
  {
    assert "x"[1..] == "" && "" + ["x"[0]] == "x" && !IsSpace('x');
    assert FieldsFrom("", "x") == ["x"];
    assert FieldsFrom("x", "") == ["x"];
  }

  lemma Visible(s: string)
    requires s != "" && !IsSpace(s[0])
    ensures !Blank(s)
  {
    assert s[0] in s;
  }

  lemma RuleQualified()
    ensures ToolQualified("t/r")
  {
    assert "t/r"[1] == '/';
  }

  lemma BlankButDotIsValid()
    ensures Valid(BLANK_BUT_DOT)
  {
    hide NormalizeFile, ValidPath, Blank, ToolQualified, IsSpace, Fingerprint;
    BlankButDot();
    RuleQualified();
    Seen();
  }

  lemma Seen()
    ensures !Blank("g") && !Blank("go") && !Blank("t/r") && !Blank("x") && !Blank("m")
  {
    Visible("g");
    Visible("go");
    Visible("t/r");
    Visible("x");
    Visible("m");
  }

  lemma BlankButDotIsSized()
    ensures Sized(BLANK_BUT_DOT)
  {
    hide NormalizeFile, NormalizeSnippet;
    BlankButDot();
    OneWord();
  }

  /** The refusal is real: this finding is valid, and grouping its group fails. */
  lemma RegroupingIsRefused(grouped: seq<Finding>, again: GroupResult)
    requires GroupAnswers([BLANK_BUT_DOT], Grouped(grouped)) && GroupAnswers(grouped, again)
    ensures Valid(BLANK_BUT_DOT) && again.Invalid?
  {
    hide IsGrouping, Valid, Sized, GroupAnswers;
    BlankButDot();
    BlankButDotIsValid();
    BlankButDotIsSized();
    assert BLANK_BUT_DOT in [BLANK_BUT_DOT];
    GroupingIsIdempotentExactly([BLANK_BUT_DOT], grouped, again);
  }
}
