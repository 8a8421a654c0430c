/** Semantic Versioning 2.0.0 on digit strings, and version constraints (internal/gate/version.go). */
module Version {
  import opened Options
  import opened Text

  datatype Identifier = Identifier(value: string, numeric: bool)

  datatype SemanticVersion = SemanticVersion(core: seq<string>, prerelease: seq<Identifier>)

  // ---- sections 2, 9 and 10: what a version may look like

  predicate IsDigit(c: char) {
    '0' <= c <= '9'
  }

  predicate AllDigits(s: string) {
    s != "" && forall c :: c in s ==> IsDigit(c)
  }

  predicate ValidNumericIdentifier(s: string) {
    AllDigits(s) && (|s| == 1 || s[0] != '0')
  }

  predicate IdentifierChar(c: char) {
    IsDigit(c) || 'A' <= c <= 'Z' || 'a' <= c <= 'z' || c == '-'
  }

  predicate ValidIdentifier(s: string, prerelease: bool) {
    && s != "" && (forall c :: c in s ==> IdentifierChar(c))
    && !(prerelease && AllDigits(s) && |s| > 1 && s[0] == '0')
  }

  predicate ValidIdentifiers(value: string, prerelease: bool) {
    value != "" && forall s :: s in Split(value, '.') ==> ValidIdentifier(s, prerelease)
  }

  /** A parsed version: three numeric identifiers and the pre-release identifiers. */
  ghost predicate ValidVersion(v: SemanticVersion) {
    && |v.core| == 3 && (forall s :: s in v.core ==> ValidNumericIdentifier(s))
    && (forall id :: id in v.prerelease ==> ValidIdentifier(id.value, true) && id.numeric == AllDigits(id.value))
  }

  function ValuesOf(ids: seq<Identifier>): (values: seq<string>)
    ensures |values| == |ids| && forall i :: 0 <= i < |ids| ==> values[i] == ids[i].value
  {
    seq(|ids|, i requires 0 <= i < |ids| => ids[i].value)
  }

  /** major.minor.patch and the pre-release; no build metadata. */
  function Render(v: SemanticVersion): string {
    Join(v.core, '.') + (if v.prerelease == [] then "" else "-" + Join(ValuesOf(v.prerelease), '.'))
  }

  /** The string writes this version, possibly with build metadata. */
  ghost predicate Writes(text: string, v: SemanticVersion) {
    && ValidVersion(v)
    && (text == Render(v) || exists build :: ValidIdentifiers(build, false) && text == Render(v) + "+" + build)
  }

  // ---- parsing

  /** `strings.Cut` on one character: what stands before its first occurrence, and what after. */
  function Cut(s: string, sep: char): (r: (string, Option<string>))
    ensures sep !in r.0
    ensures s == match r.1 case None => r.0 case Some(after) => r.0 + [sep] + after
  {
    if s == "" then ("", None)
    else if s[0] == sep then ("", Some(s[1..]))
    else
      var (before, after) := Cut(s[1..], sep);
      ([s[0]] + before, after)
  }

  lemma {:induction false} CutAbsent(s: string, sep: char)
    requires sep !in s
    ensures Cut(s, sep) == (s, None)
  {
    if s != "" {
      CutAbsent(s[1..], sep);
      assert [s[0]] + s[1..] == s;
    }
  }

  lemma {:induction false} CutPresent(before: string, after: string, sep: char)
    requires sep !in before
    ensures Cut(before + [sep] + after, sep) == (before, Some(after))
  {
    var s := before + [sep] + after;
    if before == "" {
      assert s[1..] == after;
    } else {
      assert s[1..] == before[1..] + [sep] + after;
      CutPresent(before[1..], after, sep);
      assert [before[0]] + before[1..] == before;
    }
  }

  method ParsePrerelease(text: string) returns (ids: seq<Identifier>)
    requires ValidIdentifiers(text, true)
    ensures ValuesOf(ids) == Split(text, '.')
    ensures forall id :: id in ids ==> ValidIdentifier(id.value, true) && id.numeric == AllDigits(id.value)
  {
    ids := [];
    var parts := Split(text, '.');
    for i := 0 to |parts|
      invariant |ids| == i && forall k :: 0 <= k < i ==> ids[k] == Identifier(parts[k], AllDigits(parts[k]))
    {
      ids := ids + [Identifier(parts[i], AllDigits(parts[i]))];
    }
  }

  method ParseSemanticVersion(value: string) returns (r: Option<SemanticVersion>)
    ensures r.Some? ==> Writes(value, r.value)
    ensures r.None? ==> forall v :: !Writes(value, v)
  {
    hide ValidIdentifier, ValidNumericIdentifier, AllDigits, Join, Split;
    hide IdentifierChar, ValidVersion, Writes, Render, Cut;
    var (versionText, build) := Cut(value, '+');
    if build.Some? && !ValidIdentifiers(build.value, false) {
      NothingWritten(value);
      return None;
    }
    var (coreText, prereleaseText) := Cut(versionText, '-');
    var core := Split(coreText, '.');
    if |core| != 3 || exists s :: s in core && !ValidNumericIdentifier(s) {
      NothingWritten(value);
      return None;
    }
    var prerelease := [];
    if prereleaseText.Some? {
      if !ValidIdentifiers(prereleaseText.value, true) {
        NothingWritten(value);
        return None;
      }
      prerelease := ParsePrerelease(prereleaseText.value);
    }
    ParsingWrites(value, prerelease);
    return Some(SemanticVersion(core, prerelease));
  }

  /** What the parser sees in a string, without building a version. */
  ghost predicate Parses(value: string) {
    var (versionText, build) := Cut(value, '+');
    var (coreText, prereleaseText) := Cut(versionText, '-');
    && (build.Some? ==> ValidIdentifiers(build.value, false))
    && |Split(coreText, '.')| == 3 && (forall s :: s in Split(coreText, '.') ==> ValidNumericIdentifier(s))
    && (prereleaseText.Some? ==> ValidIdentifiers(prereleaseText.value, true))
  }

  /** Writing a version and cutting the string at '+', '-' and '.' gives back its parts. */
  lemma WritingParses(value: string, v: SemanticVersion)
    requires Writes(value, v)
    ensures Parses(value)
    ensures var (coreText, prereleaseText) := Cut(Cut(value, '+').0, '-');
            && v.core == Split(coreText, '.')
            && (prereleaseText.None? <==> v.prerelease == [])
            && (prereleaseText.Some? ==> ValuesOf(v.prerelease) == Split(prereleaseText.value, '.'))
  {
    RenderParts(v);
    var text := Render(v);
    if value == text {
      CutAbsent(value, '+');
    } else {
      var build :| ValidIdentifiers(build, false) && value == text + "+" + build;
      CutPresent(text, build, '+');
    }
  }

  lemma NothingWritten(value: string)
    requires !Parses(value)
    ensures forall v :: !Writes(value, v)
  {
    hide Parses;
    forall v ensures !Writes(value, v) {
      if Writes(value, v) { WritingParses(value, v); }
    }
  }

  lemma {:induction false} JoinChars(parts: seq<string>, sep: char, c: char)
    requires c != sep && forall p :: p in parts ==> c !in p
    ensures c !in Join(parts, sep)
  {
    if |parts| == 1 {
      assert parts[0] in parts;
    } else if |parts| > 1 {
      assert parts[0] in parts;
      assert forall p :: p in parts[1..] ==> p in parts;
      JoinChars(parts[1..], sep, c);
    }
  }

  lemma {:induction false} JoinNonempty(parts: seq<string>, sep: char)
    requires parts != [] && parts[0] != ""
    ensures Join(parts, sep) != ""
  {
  }

  lemma RenderParts(v: SemanticVersion)
    requires ValidVersion(v)
    ensures '+' !in Render(v)
    ensures var (coreText, prereleaseText) := Cut(Render(v), '-');
            && v.core == Split(coreText, '.')
            && (prereleaseText.None? <==> v.prerelease == [])
            && (prereleaseText.Some? ==>
                  ValuesOf(v.prerelease) == Split(prereleaseText.value, '.') &&
                  ValidIdentifiers(prereleaseText.value, true))
  {
    var core := Join(v.core, '.');
    forall s | s in v.core ensures '-' !in s && '+' !in s && '.' !in s { }
    JoinChars(v.core, '.', '-');
    JoinChars(v.core, '.', '+');
    SplitJoin(v.core, '.');
    if v.prerelease == [] {
      assert Render(v) == core;
      CutAbsent(core, '-');
    } else {
      var values := ValuesOf(v.prerelease);
      forall s | s in values ensures '+' !in s && '.' !in s && ValidIdentifier(s, true) {
        var i :| 0 <= i < |values| && values[i] == s;
        assert v.prerelease[i] in v.prerelease;
      }
      JoinChars(values, '.', '+');
      SplitJoin(values, '.');
      assert values[0] in values;
      JoinNonempty(values, '.');
      var text := Join(values, '.');
      assert Render(v) == core + ['-'] + text;
      CutPresent(core, text, '-');
    }
  }

  lemma ParsingWrites(value: string, prerelease: seq<Identifier>)
    requires Parses(value)
    requires var (coreText, prereleaseText) := Cut(Cut(value, '+').0, '-');
             && (prereleaseText.None? ==> prerelease == [])
             && (prereleaseText.Some? ==> ValuesOf(prerelease) == Split(prereleaseText.value, '.'))
    requires forall id :: id in prerelease ==> ValidIdentifier(id.value, true) && id.numeric == AllDigits(id.value)
    ensures var coreText := Cut(Cut(value, '+').0, '-').0;
            Writes(value, SemanticVersion(Split(coreText, '.'), prerelease))
  {
    hide Split, Join, Cut, ValidIdentifier, ValidNumericIdentifier, AllDigits, IdentifierChar;
    var (versionText, build) := Cut(value, '+');
    var (coreText, prereleaseText) := Cut(versionText, '-');
    var v := SemanticVersion(Split(coreText, '.'), prerelease);
    JoinSplit(coreText, '.');
    if prereleaseText.Some? {
      JoinSplit(prereleaseText.value, '.');
      assert |ValuesOf(prerelease)| >= 1;
    }
    assert Render(v) == versionText;
    assert ValidVersion(v);
  }

  /** A string writes at most one version: only build metadata is lost in parsing. */
  lemma WritesIsUnique(value: string, v: SemanticVersion, w: SemanticVersion)
    requires Writes(value, v) && Writes(value, w)
    ensures v == w
  {
    WritingParses(value, v);
    WritingParses(value, w);
    hide Cut, Split, Parses, ValidIdentifier, ValidNumericIdentifier, AllDigits, Render;
    assert |v.prerelease| == |w.prerelease| by {
      assert |ValuesOf(v.prerelease)| == |v.prerelease| && |ValuesOf(w.prerelease)| == |w.prerelease|;
    }
    forall i | 0 <= i < |v.prerelease| ensures v.prerelease[i] == w.prerelease[i] {
      assert v.prerelease[i] in v.prerelease && w.prerelease[i] in w.prerelease;
      assert ValuesOf(v.prerelease)[i] == ValuesOf(w.prerelease)[i];
    }
  }

  // ---- comparison, as the source computes it

  function CompareStrings(left: string, right: string): int {
    if Less(left, right) then -1 else if Less(right, left) then 1 else 0
  }

  function CompareNumericIdentifiers(left: string, right: string): int {
    if |left| < |right| then -1
    else if |left| > |right| then 1
    else CompareStrings(left, right)
  }

  function ComparePrereleaseIdentifier(left: Identifier, right: Identifier): int {
    if left.numeric && right.numeric then CompareNumericIdentifiers(left.value, right.value)
    else if left.numeric then -1
    else if right.numeric then 1
    else CompareStrings(left.value, right.value)
  }

  /** What a sign says about two versions. */
  ghost predicate Decides(sign: int, a: SemanticVersion, b: SemanticVersion) {
    && (sign == -1 || sign == 0 || sign == 1)
    && (sign == -1 <==> Lower(a, b)) && (sign == 1 <==> Lower(b, a)) && (sign == 0 <==> a == b)
  }

  method CompareSemanticVersions(left: SemanticVersion, right: SemanticVersion) returns (sign: int)
    requires ValidVersion(left) && ValidVersion(right)
    ensures Decides(sign, left, right)
  {
    hide Lower, ValidVersion;
    sign := CompareCore(left, right);
    if sign != 0 {
      return;
    }
    sign := ComparePrerelease(left, right);
  }

  method CompareCore(left: SemanticVersion, right: SemanticVersion) returns (sign: int)
    requires ValidVersion(left) && ValidVersion(right)
    ensures sign != 0 ==> Decides(sign, left, right)
    ensures sign == 0 ==> left.core == right.core
  {
    ThreeParts(left, right);
    hide *;
    var i := 0;
    while i < 3
      invariant 0 <= i <= 3 && left.core[..i] == right.core[..i]
    {
      CoreStep(left, right, i);
      sign := CompareNumericIdentifiers(left.core[i], right.core[i]);
      if sign != 0 {
        SignDecidesOrder(left, right, sign);
        return;
      }
      i := i + 1;
    }
    return 0;
  }

  lemma ThreeParts(a: SemanticVersion, b: SemanticVersion)
    requires ValidVersion(a) && ValidVersion(b)
    ensures |a.core| == 3 && |b.core| == 3
    ensures a.core[..3] == b.core[..3] ==> a.core == b.core
  {
    assert a.core[..3] == a.core && b.core[..3] == b.core;
  }

  lemma SignDecidesOrder(a: SemanticVersion, b: SemanticVersion, sign: int)
    requires ValidVersion(a) && ValidVersion(b)
    requires (sign == -1 && Lower(a, b)) || (sign == 1 && Lower(b, a))
    ensures Decides(sign, a, b)
  {
    Trichotomy(a, b);
    Trichotomy(b, a);
  }

  lemma Deciding(a: SemanticVersion, b: SemanticVersion)
    requires ValidVersion(a) && ValidVersion(b)
    ensures (Lower(a, b) ==> Decides(-1, a, b)) && (Lower(b, a) ==> Decides(1, a, b)) && (a == b ==> Decides(0, a, b))
  {
    hide ValidVersion, Lower;
    Trichotomy(a, b);
    Trichotomy(b, a);
  }

  /** Releases rank above their pre-releases. */
  lemma Releases(a: SemanticVersion, b: SemanticVersion)
    requires ValidVersion(a) && ValidVersion(b) && a.core == b.core
    ensures a.prerelease == b.prerelease == [] ==> Decides(0, a, b)
    ensures a.prerelease == [] && b.prerelease != [] ==> Decides(1, a, b)
    ensures a.prerelease != [] && b.prerelease == [] ==> Decides(-1, a, b)
  {
    SameCore(a, b);
    Deciding(a, b);
    hide ValidVersion, Lower, Decides, IdentifierLower, FirstDifference;
  }

  /** The second half of the comparison, for versions with the same core. */
  method ComparePrerelease(left: SemanticVersion, right: SemanticVersion) returns (sign: int)
    requires ValidVersion(left) && ValidVersion(right) && left.core == right.core
    ensures Decides(sign, left, right)
  {
    hide *;
    Deciding(left, right);
    Releases(left, right);
    PrefixNone(left, right);
    if |left.prerelease| == 0 && |right.prerelease| == 0 {
      return 0;
    }
    if |left.prerelease| == 0 {
      return 1;
    }
    if |right.prerelease| == 0 {
      return -1;
    }
    var i := 0;
    while i < |left.prerelease| && i < |right.prerelease|
      invariant 0 <= i <= |left.prerelease| && i <= |right.prerelease|
      invariant SamePrefix(left, right, i)
    {
      PrereleaseStep(left, right, i);
      sign := ComparePrereleaseIdentifier(left.prerelease[i], right.prerelease[i]);
      if sign != 0 {
        return;
      }
      i := i + 1;
    }
    PrereleaseEnd(left, right, i);
    sign := if |left.prerelease| < |right.prerelease| then -1
            else if |left.prerelease| > |right.prerelease| then 1 else 0;
  }

  // ---- section 11: precedence

  function Power10(k: nat): (p: nat)
    ensures p >= 1
  {
    if k == 0 then 1 else 10 * Power10(k - 1)
  }

  /** The natural number that a digit string denotes. */
  function Value(s: string): nat {
    if s == "" then 0
    else Digit(s[0]) * Power10(|s| - 1) + Value(s[1..])
  }

  function Digit(c: char): (d: nat)
    ensures d <= 9
  {
    if IsDigit(c) then (c - '0') as int else 0
  }

  lemma {:induction false} ValueBound(s: string)
    requires forall c :: c in s ==> IsDigit(c)
    ensures Value(s) < Power10(|s|)
  {
    if s != "" {
      assert s[0] in s;
      assert forall c :: c in s[1..] ==> c in s;
      ValueBound(s[1..]);
      var d, p := Digit(s[0]), Power10(|s| - 1);
      assert d <= 9;
      assert d * p <= 9 * p by { Scale(d, 9, p); }
    }
  }

  lemma Scale(a: nat, b: nat, p: nat)
    requires a <= b
    ensures a * p <= b * p
  {
    assert (b - a) * p >= 0;
  }

  /** A number without a leading zero is at least the power of ten that its length says. */
  lemma ValueFloor(s: string)
    requires ValidNumericIdentifier(s) && |s| > 1
    ensures Value(s) >= Power10(|s| - 1)
  {
    assert s[0] in s;
    var d, p := Digit(s[0]), Power10(|s| - 1);
    assert d >= 1;
    Scale(1, d, p);
  }

  lemma {:induction false} Power10Grows(a: nat, b: nat)
    requires a <= b
    ensures Power10(a) <= Power10(b)
  {
    if a < b { Power10Grows(a, b - 1); }
  }

  lemma {:induction false} SameLengthOrder(a: string, b: string)
    requires |a| == |b| && (forall c :: c in a ==> IsDigit(c)) && (forall c :: c in b ==> IsDigit(c))
    ensures Less(a, b) <==> Value(a) < Value(b)
    ensures a == b <==> Value(a) == Value(b)
  {
    if a != "" {
      assert a[0] in a && b[0] in b;
      assert (forall c :: c in a[1..] ==> c in a) && (forall c :: c in b[1..] ==> c in b);
      SameLengthOrder(a[1..], b[1..]);
      assert a == [a[0]] + a[1..] && b == [b[0]] + b[1..];
      if a[0] != b[0] {
        HigherDigit(a, b);
        HigherDigit(b, a);
      }
    }
  }

  lemma HigherDigit(a: string, b: string)
    requires |a| == |b| > 0 && (forall c :: c in a ==> IsDigit(c)) && (forall c :: c in b ==> IsDigit(c))
    ensures a[0] < b[0] ==> Value(a) < Value(b)
  {
    if a[0] < b[0] {
      assert a[0] in a && b[0] in b;
      assert forall c :: c in a[1..] ==> c in a;
      ValueBound(a[1..]);
      LeadingDigitDecides(Digit(a[0]), Digit(b[0]), Power10(|a| - 1), Value(a[1..]), Value(b[1..]));
    }
  }

  lemma LeadingDigitDecides(d: nat, e: nat, p: nat, v: nat, w: nat)
    requires d < e && v < p
    ensures d * p + v < e * p + w
  {
    Scale(d + 1, e, p);
    assert (d + 1) * p == d * p + p;
  }

  /** Length first and then the digits: the order of the numbers themselves. */
  lemma NumericOrder(a: string, b: string)
    requires ValidNumericIdentifier(a) && ValidNumericIdentifier(b)
    ensures CompareNumericIdentifiers(a, b) == -1 <==> Value(a) < Value(b)
    ensures CompareNumericIdentifiers(a, b) == 1 <==> Value(a) > Value(b)
    ensures CompareNumericIdentifiers(a, b) == 0 <==> a == b
    ensures Value(a) == Value(b) <==> a == b
  {
    LongerIsGreater(a, b);
    LongerIsGreater(b, a);
    if |a| == |b| {
      SameLengthOrder(a, b);
      SameLengthOrder(b, a);
      LessTotal(a, b);
    }
  }

  lemma LongerIsGreater(a: string, b: string)
    requires ValidNumericIdentifier(a) && ValidNumericIdentifier(b)
    ensures |a| < |b| ==> Value(a) < Value(b)
  {
    if |a| < |b| {
      ValueBound(a);
      ValueFloor(b);
      Power10Grows(|a|, |b| - 1);
    }
  }

  ghost predicate ParsedIdentifier(id: Identifier) {
    ValidIdentifier(id.value, true) && id.numeric == AllDigits(id.value)
  }

  /** Numeric identifiers are compared as numbers and rank below all others, which are compared in ASCII order. */
  ghost predicate IdentifierLower(a: Identifier, b: Identifier) {
    && ParsedIdentifier(a) && ParsedIdentifier(b)
    && if a.numeric && b.numeric then Value(a.value) < Value(b.value)
       else if a.numeric || b.numeric then a.numeric
       else Less(a.value, b.value)
  }

  ghost predicate NumberLower(a: string, b: string) {
    ValidNumericIdentifier(a) && ValidNumericIdentifier(b) && Value(a) < Value(b)
  }

  /** Where the two lists first differ, the second is higher. */
  ghost predicate FirstDifference<T>(p: seq<T>, q: seq<T>, lower: (T, T) -> bool) {
    exists i :: 0 <= i < |p| && i < |q| && p[..i] == q[..i] && lower(p[i], q[i])
  }

  ghost predicate CoreLower(a: SemanticVersion, b: SemanticVersion) {
    FirstDifference(a.core, b.core, NumberLower)
  }

  /** A release ranks above its pre-releases; otherwise the first difference decides, and a longer
      list of identifiers ranks above its own beginning. */
  ghost predicate PrereleaseLower(a: SemanticVersion, b: SemanticVersion) {
    var p, q := a.prerelease, b.prerelease;
    if p == [] || q == [] then p != [] && q == []
    else p < q || FirstDifference(p, q, IdentifierLower)
  }

  /** Precedence as section 11 of Semantic Versioning 2.0.0 lays it down. */
  ghost predicate Lower(a: SemanticVersion, b: SemanticVersion) {
    CoreLower(a, b) || (a.core == b.core && PrereleaseLower(a, b))
  }

  // ---- the steps of the comparison

  lemma CoreMember(v: SemanticVersion, i: int)
    requires ValidVersion(v) && 0 <= i < 3
    ensures ValidNumericIdentifier(v.core[i])
  {
    assert v.core[i] in v.core;
  }

  lemma PrereleaseMember(v: SemanticVersion, i: int)
    requires ValidVersion(v) && 0 <= i < |v.prerelease|
    ensures ParsedIdentifier(v.prerelease[i])
    ensures v.prerelease[i].numeric ==> ValidNumericIdentifier(v.prerelease[i].value)
  {
    assert v.prerelease[i] in v.prerelease;
  }

  lemma IdentifierOrder(a: Identifier, b: Identifier)
    requires ParsedIdentifier(a) && ParsedIdentifier(b)
    ensures ComparePrereleaseIdentifier(a, b) == -1 <==> IdentifierLower(a, b)
    ensures ComparePrereleaseIdentifier(a, b) == 1 <==> IdentifierLower(b, a)
    ensures ComparePrereleaseIdentifier(a, b) == 0 <==> a == b
  {
    if a.numeric && b.numeric {
      NumericOrder(a.value, b.value);
    } else if !a.numeric && !b.numeric {
      LessIrreflexive(a.value);
      LessTotal(a.value, b.value);
      if Less(a.value, b.value) { LessAsymmetric(a.value, b.value); }
    }
  }

  lemma CoreStep(a: SemanticVersion, b: SemanticVersion, i: int)
    requires ValidVersion(a) && ValidVersion(b) && 0 <= i < 3 && a.core[..i] == b.core[..i]
    ensures var sign := CompareNumericIdentifiers(a.core[i], b.core[i]);
            && (sign == -1 ==> Lower(a, b)) && (sign == 1 ==> Lower(b, a))
            && (sign == -1 || sign == 0 || sign == 1)
            && (sign == 0 ==> a.core[..i + 1] == b.core[..i + 1])
  {
    CoreMember(a, i);
    CoreMember(b, i);
    NumericOrder(a.core[i], b.core[i]);
    hide ValidNumericIdentifier, ValidIdentifier, Value;
    if CompareNumericIdentifiers(a.core[i], b.core[i]) == 0 {
      assert a.core[..i + 1] == a.core[..i] + [a.core[i]] && b.core[..i + 1] == b.core[..i] + [b.core[i]];
    }
  }

  lemma SameCore(a: SemanticVersion, b: SemanticVersion)
    requires ValidVersion(a) && ValidVersion(b) && a.core == b.core
    ensures Lower(a, b) <==> PrereleaseLower(a, b)
    ensures Lower(b, a) <==> PrereleaseLower(b, a)
  {
    hide ValidNumericIdentifier, ValidIdentifier, Value, PrereleaseLower;
    forall i | 0 <= i < 3 ensures !NumberLower(a.core[i], b.core[i]) { }
  }

  lemma PrereleaseStep(a: SemanticVersion, b: SemanticVersion, i: int)
    requires ValidVersion(a) && ValidVersion(b) && a.core == b.core
    requires 0 <= i < |a.prerelease| && i < |b.prerelease| && SamePrefix(a, b, i)
    ensures var sign := ComparePrereleaseIdentifier(a.prerelease[i], b.prerelease[i]);
            && (sign == -1 ==> Lower(a, b)) && (sign == 1 ==> Lower(b, a))
            && (sign == -1 || sign == 0 || sign == 1)
            && (sign == 0 ==> SamePrefix(a, b, i + 1))
  {
    PrefixNext(a, b, i);
    hide *;
    PrereleaseMember(a, i);
    PrereleaseMember(b, i);
    IdentifierOrder(a.prerelease[i], b.prerelease[i]);
    SameCore(a, b);
    ComparisonIsSign(a.prerelease[i], b.prerelease[i]);
    DiffersAt(a, b, i);
    DiffersAt(b, a, i);
  }

  ghost predicate SamePrefix(a: SemanticVersion, b: SemanticVersion, i: int)
    requires 0 <= i <= |a.prerelease| && i <= |b.prerelease|
  {
    a.prerelease[..i] == b.prerelease[..i]
  }

  lemma PrefixNone(a: SemanticVersion, b: SemanticVersion)
    ensures SamePrefix(a, b, 0)
  {
  }

  lemma PrefixNext(a: SemanticVersion, b: SemanticVersion, i: int)
    requires 0 <= i < |a.prerelease| && i < |b.prerelease| && SamePrefix(a, b, i)
    ensures SamePrefix(b, a, i) && (a.prerelease[i] == b.prerelease[i] ==> SamePrefix(a, b, i + 1))
  {
    var p, q := a.prerelease, b.prerelease;
    assert p[..i + 1] == p[..i] + [p[i]] && q[..i + 1] == q[..i] + [q[i]];
  }

  lemma DiffersAt(a: SemanticVersion, b: SemanticVersion, i: int)
    requires 0 <= i < |a.prerelease| && i < |b.prerelease| && SamePrefix(a, b, i)
    ensures IdentifierLower(a.prerelease[i], b.prerelease[i]) ==> PrereleaseLower(a, b)
  {
    hide IdentifierLower;
  }

  lemma ComparisonIsSign(a: Identifier, b: Identifier)
    ensures var sign := ComparePrereleaseIdentifier(a, b); sign == -1 || sign == 0 || sign == 1
  {
  }

  lemma PrereleaseEnd(a: SemanticVersion, b: SemanticVersion, i: int)
    requires ValidVersion(a) && ValidVersion(b) && a.core == b.core && a.prerelease != [] && b.prerelease != []
    requires 0 <= i <= |a.prerelease| && i <= |b.prerelease| && SamePrefix(a, b, i)
    requires i == |a.prerelease| || i == |b.prerelease|
    ensures |a.prerelease| < |b.prerelease| ==> Lower(a, b)
    ensures |a.prerelease| > |b.prerelease| ==> Lower(b, a)
    ensures |a.prerelease| == |b.prerelease| ==> a == b
  {
    SameCore(a, b);
    hide ValidNumericIdentifier, ValidIdentifier, Value, Lower;
    var p, q := a.prerelease, b.prerelease;
    assert p[..|p|] == p && q[..|q|] == q;
  }

  // ---- precedence is a total order on parsed versions

  ghost predicate Strict<T(!new)>(lower: (T, T) -> bool) {
    && (forall x, y :: lower(x, y) ==> !lower(y, x))
    && (forall x, y, z :: lower(x, y) && lower(y, z) ==> lower(x, z))
  }

  lemma NumbersStrict()
    ensures Strict(NumberLower)
  {
  }

  lemma IdentifiersStrict()
    ensures Strict(IdentifierLower)
  {
    hide Value, ValidIdentifier, AllDigits, Less;
    forall x: Identifier, y: Identifier | IdentifierLower(x, y) ensures !IdentifierLower(y, x) {
      if Less(x.value, y.value) { LessAsymmetric(x.value, y.value); }
    }
    forall x: Identifier, y: Identifier, z: Identifier | IdentifierLower(x, y) && IdentifierLower(y, z)
      ensures IdentifierLower(x, z)
    {
      if Less(x.value, y.value) && Less(y.value, z.value) { LessTransitive(x.value, y.value, z.value); }
    }
  }

  lemma DifferenceStrict<T(!new)>(p: seq<T>, q: seq<T>, lower: (T, T) -> bool)
    requires Strict(lower) && FirstDifference(p, q, lower)
    ensures !FirstDifference(q, p, lower) && !(p <= q) && !(q <= p)
  {
    var i :| 0 <= i < |p| && i < |q| && p[..i] == q[..i] && lower(p[i], q[i]);
    assert p[i] != q[i];
    forall j | i < j <= |p| && j <= |q| ensures p[..j] != q[..j] { assert p[..j][i] != q[..j][i]; }
    assert p[..|p|] == p && q[..|q|] == q;
    forall j | 0 <= j < |q| && j < |p| && q[..j] == p[..j] ensures !lower(q[j], p[j]) {
      assert j <= i;
      if j < i { assert p[..i][j] == q[..i][j]; }
    }
  }

  lemma DifferenceTransitive<T(!new)>(p: seq<T>, q: seq<T>, r: seq<T>, lower: (T, T) -> bool)
    requires Strict(lower)
    requires p < q || FirstDifference(p, q, lower)
    requires q < r || FirstDifference(q, r, lower)
    ensures p < r || FirstDifference(p, r, lower)
    ensures FirstDifference(p, q, lower) && FirstDifference(q, r, lower) ==> FirstDifference(p, r, lower)
  {
    if FirstDifference(p, q, lower) {
      var i :| 0 <= i < |p| && i < |q| && p[..i] == q[..i] && lower(p[i], q[i]);
      if FirstDifference(q, r, lower) {
        var j :| 0 <= j < |q| && j < |r| && q[..j] == r[..j] && lower(q[j], r[j]);
        var k := if i < j then i else j;
        PrefixesAgree(p, q, i, k);
        PrefixesAgree(q, r, j, k);
        assert k < i ==> p[k] == p[..i][k] == q[..i][k] == q[k];
        assert k < j ==> q[k] == q[..j][k] == r[..j][k] == r[k];
        assert p[..k] == r[..k] && lower(p[k], r[k]);
      } else {
        assert r[..|q|] == q;
        PrefixesAgree(q, r, |q|, i);
        assert p[..i] == r[..i] && lower(p[i], r[i]);
      }
    } else if FirstDifference(q, r, lower) {
      var j :| 0 <= j < |q| && j < |r| && q[..j] == r[..j] && lower(q[j], r[j]);
      assert q[..|p|] == p;
      if j < |p| {
        PrefixesAgree(p, q, |p|, j);
        assert p[..j] == r[..j] && lower(p[j], r[j]);
      } else {
        PrefixesAgree(q, r, j, |p|);
        assert p == r[..|p|];
      }
    }
  }

  lemma PrefixesAgree<T>(p: seq<T>, q: seq<T>, i: nat, k: nat)
    requires k <= i <= |p| && i <= |q| && p[..i] == q[..i]
    ensures p[..k] == q[..k] && (k < i ==> p[k] == q[k])
  {
    assert p[..k] == p[..i][..k] && q[..k] == q[..i][..k];
    assert k < i ==> p[k] == p[..i][k] && q[k] == q[..i][k];
  }

  /** No two of "lower", "same" and "higher" hold at once. */
  lemma Trichotomy(a: SemanticVersion, b: SemanticVersion)
    requires ValidVersion(a) && ValidVersion(b)
    ensures Lower(a, b) ==> !Lower(b, a) && a != b
    ensures Lower(a, b) || Lower(b, a) || a == b
  {
    hide ValidNumericIdentifier, ValidIdentifier, Value, NumberLower, IdentifierLower;
    if Lower(a, b) { LowerAsymmetric(a, b); }
    CoreConnected(a, b, 0);
  }

  lemma LowerAsymmetric(a: SemanticVersion, b: SemanticVersion)
    requires ValidVersion(a) && ValidVersion(b) && Lower(a, b)
    ensures !Lower(b, a) && a != b
  {
    NumbersStrict();
    IdentifiersStrict();
    hide ValidNumericIdentifier, ValidIdentifier, Value, NumberLower, IdentifierLower, Strict, FirstDifference;
    if CoreLower(a, b) {
      DifferenceStrict(a.core, b.core, NumberLower);
    } else if FirstDifference(a.prerelease, b.prerelease, IdentifierLower) && a.prerelease != [] && b.prerelease != [] {
      DifferenceStrict(a.prerelease, b.prerelease, IdentifierLower);
      CoreNotLower(a, b);
    } else {
      CoreNotLower(a, b);
      if a.prerelease != [] && b.prerelease != [] {
        PrefixIsNoDifference(a.prerelease, b.prerelease);
      }
    }
  }

  lemma CoreNotLower(a: SemanticVersion, b: SemanticVersion)
    requires a.core == b.core
    ensures !CoreLower(b, a)
  {
    hide ValidNumericIdentifier, Value;
    NumbersStrict();
    forall i | 0 <= i < |a.core| ensures !NumberLower(b.core[i], a.core[i]) { }
  }

  lemma PrefixIsNoDifference(p: seq<Identifier>, q: seq<Identifier>)
    requires p < q
    ensures !FirstDifference(q, p, IdentifierLower)
  {
    IdentifiersStrict();
    hide IdentifierLower;
    forall i | 0 <= i < |p| ensures !IdentifierLower(q[i], p[i]) { assert q[i] == p[i]; }
  }

  lemma {:induction false} CoreConnected(a: SemanticVersion, b: SemanticVersion, i: nat)
    requires ValidVersion(a) && ValidVersion(b) && i <= 3 && a.core[..i] == b.core[..i]
    ensures Lower(a, b) || Lower(b, a) || a == b
    decreases 3 - i
  {
    hide ValidNumericIdentifier, ValidIdentifier, Value, Lower;
    if i < 3 {
      CoreStep(a, b, i);
      if CompareNumericIdentifiers(a.core[i], b.core[i]) == 0 { CoreConnected(a, b, i + 1); }
    } else {
      assert a.core[..3] == a.core && b.core[..3] == b.core;
      SameCore(a, b);
      if a.prerelease == [] || b.prerelease == [] {
        if a.prerelease == b.prerelease { assert a == b; }
      } else {
        PrereleaseConnected(a, b, 0);
      }
    }
  }

  lemma {:induction false} PrereleaseConnected(a: SemanticVersion, b: SemanticVersion, i: nat)
    requires ValidVersion(a) && ValidVersion(b) && a.core == b.core && a.prerelease != [] && b.prerelease != []
    requires i <= |a.prerelease| && i <= |b.prerelease| && a.prerelease[..i] == b.prerelease[..i]
    ensures Lower(a, b) || Lower(b, a) || a == b
    decreases |a.prerelease| - i
  {
    hide ValidNumericIdentifier, ValidIdentifier, Value, Lower, ComparePrereleaseIdentifier;
    if i == |a.prerelease| || i == |b.prerelease| {
      PrereleaseEnd(a, b, i);
    } else {
      PrereleaseStep(a, b, i);
      if ComparePrereleaseIdentifier(a.prerelease[i], b.prerelease[i]) == 0 { PrereleaseConnected(a, b, i + 1); }
    }
  }

  lemma LowerTransitive(a: SemanticVersion, b: SemanticVersion, c: SemanticVersion)
    requires ValidVersion(a) && ValidVersion(b) && ValidVersion(c)
    requires Lower(a, b) && Lower(b, c)
    ensures Lower(a, c)
  {
    NumbersStrict();
    IdentifiersStrict();
    hide ValidNumericIdentifier, ValidIdentifier, Value, NumberLower, IdentifierLower, Strict, FirstDifference;
    if CoreLower(a, b) && CoreLower(b, c) {
      DifferenceTransitive(a.core, b.core, c.core, NumberLower);
    } else if a.core == b.core && b.core == c.core && a.prerelease != [] && b.prerelease != [] && c.prerelease != [] {
      DifferenceTransitive(a.prerelease, b.prerelease, c.prerelease, IdentifierLower);
    }
  }

  // ---- constraints

  datatype Operator = AtLeast | Below

  datatype Constraint = Constraint(operator: Operator, version: SemanticVersion)

  ghost predicate Satisfies(v: SemanticVersion, c: Constraint) {
    match c.operator
    case AtLeast => !Lower(v, c.version)
    case Below => Lower(v, c.version)
  }

  /** One word of a constraint: an operator followed by a version. */
  ghost predicate States(part: string, c: Constraint) {
    match c.operator
    case AtLeast => HasPrefix(part, ">=") && Writes(part[2..], c.version)
    case Below => HasPrefix(part, "<") && !HasPrefix(part, "<=") && Writes(part[1..], c.version)
  }

  method ParseOne(part: string) returns (r: Option<Constraint>)
    ensures r.Some? ==> States(part, r.value)
    ensures r.None? ==> forall c :: !States(part, c)
  {
    hide Writes;
    if HasPrefix(part, ">=") {
      var parsed := ParseSemanticVersion(part[2..]);
      return if parsed.Some? then Some(Constraint(AtLeast, parsed.value)) else None;
    }
    if HasPrefix(part, "<") && !HasPrefix(part, "<=") {
      var parsed := ParseSemanticVersion(part[1..]);
      return if parsed.Some? then Some(Constraint(Below, parsed.value)) else None;
    }
    return None;
  }

  method ParseConstraint(value: string) returns (r: Option<seq<Constraint>>)
    ensures r.Some? ==> Fields(value) != [] && |r.value| == |Fields(value)|
    ensures r.Some? ==> forall i :: 0 <= i < |r.value| ==> States(Fields(value)[i], r.value[i])
    ensures r.None? ==> Fields(value) == [] || exists part :: part in Fields(value) && forall c :: !States(part, c)
  {
    hide States;
    var parts := Fields(value);
    if |parts| == 0 {
      return None;
    }
    var constraints := [];
    for i := 0 to |parts|
      invariant |constraints| == i && forall k :: 0 <= k < i ==> States(parts[k], constraints[k])
    {
      var one := ParseOne(parts[i]);
      if one.None? {
        assert parts[i] in Fields(value);
        return None;
      }
      constraints := constraints + [one.value];
    }
    return Some(constraints);
  }

  datatype Observation = Malformed | Matches(matches: bool)

  ghost predicate StatesAll(value: string, constraints: seq<Constraint>) {
    && Fields(value) != [] && |constraints| == |Fields(value)|
    && forall i :: 0 <= i < |constraints| ==> States(Fields(value)[i], constraints[i])
  }

  ghost predicate Observed(observed: string, constraint: string, matches: bool) {
    exists v, constraints ::
      && Writes(observed, v) && StatesAll(constraint, constraints)
      && (matches <==> forall c :: c in constraints ==> Satisfies(v, c))
  }

  /** `Observe`, once the pattern has extracted a version string. */
  method Observe(observed: string, constraint: string) returns (r: Observation)
    ensures r.Matches? ==> Observed(observed, constraint, r.matches)
    ensures r.Malformed? ==> forall matches :: !Observed(observed, constraint, matches)
  {
    hide Writes, States, Lower, ValidVersion;
    var version := ParseSemanticVersion(observed);
    if version.None? {
      return Malformed;
    }
    var constraints := ParseConstraint(constraint);
    if constraints.None? {
      NoConstraints(observed, constraint);
      return Malformed;
    }
    var v, cs := version.value, constraints.value;
    WritesValid(observed, v);
    assert StatesAll(constraint, cs);
    for i := 0 to |cs|
      invariant forall k :: 0 <= k < i ==> Satisfies(v, cs[k])
    {
      StatesValid(Fields(constraint)[i], cs[i]);
      var comparison := CompareSemanticVersions(v, cs[i].version);
      SignDecides(v, cs[i], comparison);
      if (cs[i].operator == AtLeast && comparison < 0) || (cs[i].operator == Below && comparison >= 0) {
        assert !Satisfies(v, cs[i]) && cs[i] in cs;
        return Matches(false);
      }
    }
    assert forall c :: c in cs ==> Satisfies(v, c);
    return Matches(true);
  }

  lemma SignDecides(v: SemanticVersion, c: Constraint, sign: int)
    requires sign == -1 || sign == 0 || sign == 1
    requires sign == -1 <==> Lower(v, c.version)
    ensures Satisfies(v, c) <==> !((c.operator == AtLeast && sign < 0) || (c.operator == Below && sign >= 0))
  {
  }

  lemma WritesValid(text: string, v: SemanticVersion)
    requires Writes(text, v)
    ensures ValidVersion(v)
  {
  }

  lemma StatesValid(part: string, c: Constraint)
    requires States(part, c)
    ensures ValidVersion(c.version)
  {
  }

  lemma NoConstraints(observed: string, constraint: string)
    requires Fields(constraint) == [] || exists part :: part in Fields(constraint) && forall c :: !States(part, c)
    ensures forall matches :: !Observed(observed, constraint, matches)
  {
    hide States, Writes, Satisfies;
    forall constraints ensures !StatesAll(constraint, constraints) {
      if Fields(constraint) != [] && |constraints| == |Fields(constraint)| {
        var part :| part in Fields(constraint) && forall c :: !States(part, c);
        var i :| 0 <= i < |Fields(constraint)| && Fields(constraint)[i] == part;
        assert !States(Fields(constraint)[i], constraints[i]);
      }
    }
  }

  /** The versions a constraint accepts have no gap: whatever lies between two of them is accepted. */
  lemma AcceptedAreConvex(constraints: seq<Constraint>, a: SemanticVersion, b: SemanticVersion, c: SemanticVersion)
    requires ValidVersion(a) && ValidVersion(b) && ValidVersion(c)
    requires forall k :: k in constraints ==> ValidVersion(k.version)
    requires !Lower(b, a) && !Lower(c, b)
    requires forall k :: k in constraints ==> Satisfies(a, k) && Satisfies(c, k)
    ensures forall k :: k in constraints ==> Satisfies(b, k)
  {
    hide Lower, ValidVersion;
    Trichotomy(a, b);
    Trichotomy(b, c);
    forall k | k in constraints ensures Satisfies(b, k) {
      assert Satisfies(a, k) && Satisfies(c, k);
      if a != b && Lower(b, k.version) { LowerTransitive(a, b, k.version); }
      if b != c && Lower(c, k.version) { LowerTransitive(b, c, k.version); }
    }
  }
}
