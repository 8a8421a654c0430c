/** Which of the paths that Git reports are believed: by the plan checker (internal/run/ledger.go:944-952), and before
    that by the attempt validator (internal/flywheel/validate.go:555-571). */
module ChangedPaths {
  import opened Text
  import opened Findings
  import opened Ledger
  import opened ChangedFiles

  // ---- the plan checker

  /** A path that Git may report is believed in a plan exactly when it is not blank, and neither rooted, nor on a drive,
      nor leading out once its backslashes are read as slashes. */
  lemma GitPathIsCanonical(path: string)
    requires GitRelative(path)
    ensures NormalizeFile(path) == path
    ensures CanonicalPath(path) <==> ValidPath(path)
  {
    KeptAlready(Split(path, '/'));
    JoinSplit(path, '/');
  }

  /** Such a path is refused only for being blank, for a drive in front, or for a backslash. */
  lemma {:induction false} NoBackslash(path: string)
    requires '\\' !in path
    ensures Portable(path) == path
  {
    if path != "" {
      assert path[0] in path;
      NoBackslash(path[1..]);
      assert path == [path[0]] + path[1..];
    }
  }

  lemma PlainPathIsCanonical(path: string)
    requires GitRelative(path) && !Blank(path) && !WindowsAbsolute(path) && '\\' !in path
    ensures CanonicalPath(path)
  {
    GitPathIsCanonical(path);
    NoBackslash(path);
    if HasPrefix(path, "/") { RootedSplits(path); }
  }

  lemma RootedSplits(path: string)
    requires HasPrefix(path, "/")
    ensures "" in Split(path, '/')
  {
    assert path == "" + ['/'] + path[1..];
    SplitFirst("", path[1..], '/');
  }

  // ---- the attempt validator

  /** The components that `path.Clean` keeps of a path that is not rooted, after those in `kept`. */
  function Cleaned(kept: seq<string>, parts: seq<string>): seq<string>
    decreases |parts|
  {
    if parts == [] then kept
    else if parts[0] == "" || parts[0] == "." then Cleaned(kept, parts[1..])
    else if parts[0] == ".." && kept != [] && kept[|kept| - 1] != ".." then Cleaned(kept[..|kept| - 1], parts[1..])
    else Cleaned(kept + [parts[0]], parts[1..])
  }

  /** `path.Clean` */
  function Clean(path: string): string
    requires !HasPrefix(path, "/")
  {
    var kept := Cleaned([], Split(path, '/'));
    if kept == [] then "." else Join(kept, '/')
  }

  /** `strings.TrimSpace(s) == s` for a string that is not empty */
  predicate Trimmed(s: string) {
    s != "" && !IsSpace(s[0]) && !IsSpace(s[|s| - 1])
  }

  /** `windowsChangedPath` */
  predicate OnDrive(path: string) {
    |path| >= 2 && ('a' <= path[0] <= 'z' || 'A' <= path[0] <= 'Z') && path[1] == ':'
  }

  /** `canonicalChangedPath` reports no error. */
  predicate ChangedPath(file: string) {
    && Trimmed(file) && NUL !in file && '\\' !in file
    && !HasPrefix(file, "/") && !OnDrive(file)
    && var clean := Clean(file);
       clean == file && clean != "." && clean != ".." && !HasPrefix(clean, "../") && !OnDrive(clean)
  }

  /** Leading `..` first, and no component that is empty, `.` or more than one. */
  predicate CleanShape(kept: seq<string>) {
    && (forall k :: k in kept ==> k != "" && k != "." && '/' !in k)
    && (forall i :: 0 < i < |kept| && kept[i] == ".." ==> kept[i - 1] == "..")
  }

  lemma {:induction false} CleanedShape(kept: seq<string>, parts: seq<string>)
    requires CleanShape(kept) && forall p :: p in parts ==> '/' !in p
    ensures CleanShape(Cleaned(kept, parts))
    decreases |parts|
  {
    if parts != [] {
      var part := parts[0];
      assert part in parts && forall p :: p in parts[1..] ==> p in parts;
      if part == "" || part == "." {
        CleanedShape(kept, parts[1..]);
      } else if part == ".." && kept != [] && kept[|kept| - 1] != ".." {
        var shorter := kept[..|kept| - 1];
        assert forall k :: k in shorter ==> k in kept;
        CleanedShape(shorter, parts[1..]);
      } else {
        CleanedShape(kept + [part], parts[1..]);
      }
    }
  }

  lemma {:induction false} TraversalLeads(kept: seq<string>, i: nat)
    requires CleanShape(kept) && i < |kept| && kept[i] == ".."
    ensures kept[0] == ".."
  {
    if i > 0 { TraversalLeads(kept, i - 1); }
  }

  lemma LeadsOut(kept: seq<string>)
    requires kept != [] && kept[0] == ".."
    ensures Join(kept, '/') == ".." || HasPrefix(Join(kept, '/'), "../")
  {
    if |kept| > 1 {
      var joined := Join(kept, '/');
      assert joined == ".." + ['/'] + Join(kept[1..], '/');
      assert joined[..3] == "../";
    }
  }

  /** A path that `path.Clean` leaves alone and that does not lead out has none but proper components. */
  lemma FixedIsRelative(file: string)
    requires !HasPrefix(file, "/") && Clean(file) == file && file != "." && file != ".." && !HasPrefix(file, "../")
    ensures GitRelative(file)
  {
    var kept := Cleaned([], Split(file, '/'));
    CleanedShape([], Split(file, '/'));
    hide Split, Cleaned;
    SplitJoin(kept, '/');
    if ".." in kept {
      var i :| 0 <= i < |kept| && kept[i] == "..";
      TraversalLeads(kept, i);
      LeadsOut(kept);
      assert false;
    }
  }

  lemma {:induction false} CleanedAlready(kept: seq<string>, parts: seq<string>)
    requires forall p :: p in parts ==> p != "" && p != "." && p != ".."
    ensures Cleaned(kept, parts) == kept + parts
    decreases |parts|
  {
    if parts == [] {
      assert kept + parts == kept;
    } else {
      assert parts[0] in parts && forall p :: p in parts[1..] ==> p in parts;
      CleanedAlready(kept + [parts[0]], parts[1..]);
      assert kept + [parts[0]] + parts[1..] == kept + parts;
    }
  }

  lemma TraversalSplits(file: string)
    requires HasPrefix(file, "../")
    ensures ".." in Split(file, '/')
  {
    assert file == ".." + ['/'] + file[3..];
    SplitFirst("..", file[3..], '/');
  }

  lemma RelativeIsFixed(file: string)
    requires GitRelative(file)
    ensures !HasPrefix(file, "/") && Clean(file) == file && file != "." && file != ".." && !HasPrefix(file, "../")
  {
    var parts := Split(file, '/');
    if HasPrefix(file, "/") { RootedSplits(file); }
    CleanedAlready([], parts);
    assert [] + parts == parts;
    JoinSplit(file, '/');
    SplitWord(".", '/');
    SplitWord("..", '/');
    assert "." in ["."] && ".." in [".."];
    if HasPrefix(file, "../") { TraversalSplits(file); }
    hide Split, Cleaned;
  }

  /** On paths without `..` there is only one way to clean them. */
  lemma CleanAgrees(path: string)
    requires !HasPrefix(path, "/") && ".." !in Split(path, '/')
    ensures Clean(path) == NormalizeFile(path)
  {
    CleanedComponents([], Split(path, '/'));
    assert [] + Components(Split(path, '/')) == Components(Split(path, '/'));
  }

  lemma {:induction false} CleanedComponents(kept: seq<string>, parts: seq<string>)
    requires ".." !in parts
    ensures Cleaned(kept, parts) == kept + Components(parts)
    decreases |parts|
  {
    if parts == [] {
      assert kept + Components(parts) == kept;
    } else if parts[0] == "" || parts[0] == "." {
      CleanedComponents(kept, parts[1..]);
      assert Components(parts) == [] + Components(parts[1..]);
    } else {
      assert parts[0] in parts;
      CleanedComponents(kept + [parts[0]], parts[1..]);
      assert kept + [parts[0]] + Components(parts[1..]) == kept + Components(parts);
    }
  }

  /** Of the paths that Git may report the validator takes exactly those that begin and end visibly, without a drive in
      front and without NUL or backslash; and it takes no others. */
  lemma ChangedPathExactly(file: string)
    ensures ChangedPath(file) <==> GitRelative(file) && Trimmed(file) && NUL !in file && '\\' !in file && !OnDrive(file)
  {
    hide Clean, GitRelative;
    if ChangedPath(file) { FixedIsRelative(file); }
    if GitRelative(file) { RelativeIsFixed(file); }
  }

  /** What the validator takes, the ledger believes. */
  lemma ChangedPathIsCanonical(file: string)
    requires ChangedPath(file)
    ensures CanonicalPath(file)
  {
    ChangedPathExactly(file);
    assert file[0] in file;
    hide Clean, GitRelative, CanonicalPath, IsSpace;
    PlainPathIsCanonical(file);
  }

  /** So the ledger believes the paths of every attempt that the validator has passed. */
  lemma PassedPathsAreCanonical(files: seq<string>)
    requires GitListed(files) && forall f :: f in files ==> ChangedPath(f)
    ensures CanonicalPaths(files)
  {
    hide ChangedPath, CanonicalPath;
    forall f | f in files ensures CanonicalPath(f) { ChangedPathIsCanonical(f); }
  }

  /** The loop over the changed paths in `changedGoPackages`. */
  method UsablePaths(files: seq<string>) returns (ok: bool)
    ensures ok <==> forall f :: f in files ==> ChangedPath(f)
  {
    hide ChangedPath;
    for i := 0 to |files|
      invariant forall k :: 0 <= k < i ==> ChangedPath(files[k])
    {
      if !ChangedPath(files[i]) {
        assert files[i] in files;
        return false;
      }
    }
    return true;
  }

  /** The difference is real: a file `x` in a directory `c:` is reported by Git, and the ledger would not believe it.
      The attempt validator never lets it get that far. */
  lemma DrivePathIsRefused()
    ensures GitRelative("c:/x") && !CanonicalPath("c:/x") && !ChangedPath("c:/x")
  {
    DriveIsRelative();
    DriveIsAbsolute();
    hide GitRelative, Portable, WindowsAbsolute, Split;
  }

  lemma DriveIsRelative()
    ensures GitRelative("c:/x")
  {
    SplitFirst("c:", "x", '/');
    SplitWord("x", '/');
    assert "c:" + ['/'] + "x" == "c:/x";
    hide Split;
  }

  lemma DriveIsAbsolute()
    ensures WindowsAbsolute(Portable("c:/x"))
  {
    NoBackslash("c:/x");
    hide Portable;
  }
}
