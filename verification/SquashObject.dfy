/** The shape that a squash commit object must have (internal/flywheel/landing.go:183-220). */
module SquashObject {
  import opened Options
  import opened Text
  import opened Refs

  const SQUASH_SUBJECT := "togi: apply verified fixes"

  datatype Identity = Identity(name: string, email: string)

  predicate OneWith(lines: seq<string>, want: string) {
    |lines| == 1 && HasPrefix(lines[0], want)
  }

  /** After the lines so far: as many good lines as lines of the kind. */
  predicate AllEqual(lines: seq<string>, want: string, n: nat) {
    |lines| == n && forall line :: line in lines ==> line == want
  }

  predicate AllWith(lines: seq<string>, want: string, n: nat) {
    |lines| == n && forall line :: line in lines ==> HasPrefix(line, want)
  }

  /** What is wanted of a header: trees and parents word for word, the rest up to the date. */
  ghost predicate HeaderFits(lines: seq<string>, tree: string, parent: string, author: string, committer: string) {
    && WithPrefix(lines, "tree ") == ["tree " + tree] && WithPrefix(lines, "parent ") == ["parent " + parent]
    && OneWith(WithPrefix(lines, "author "), author) && OneWith(WithPrefix(lines, "committer "), committer)
  }

  ghost predicate Scanned(lines: seq<string>, tree: string, parent: string, author: string, committer: string,
                          trees: nat, parents: nat, authors: nat, committers: nat) {
    && AllEqual(WithPrefix(lines, "tree "), "tree " + tree, trees)
    && AllEqual(WithPrefix(lines, "parent "), "parent " + parent, parents)
    && AllWith(WithPrefix(lines, "author "), author, authors)
    && AllWith(WithPrefix(lines, "committer "), committer, committers)
  }

  /** Which counter a line moves, or -1 if the line must not be there. */
  function Counter(line: string, tree: string, parent: string, author: string, committer: string): int {
    if line == "tree " + tree then 1 else if HasPrefix(line, "tree ") then -1
    else if line == "parent " + parent then 2 else if HasPrefix(line, "parent ") then -1
    else if HasPrefix(line, author) then 3 else if HasPrefix(line, "author ") then -1
    else if HasPrefix(line, committer) then 4 else if HasPrefix(line, "committer ") then -1
    else 0
  }

  lemma WithPrefixNext(lines: seq<string>, i: nat, prefix: string)
    requires i < |lines|
    ensures WithPrefix(lines[..i + 1], prefix) ==
            WithPrefix(lines[..i], prefix) + if HasPrefix(lines[i], prefix) then [lines[i]] else []
  {
    assert lines[..i + 1][..i] == lines[..i];
  }

  lemma Kinds(line: string)
    ensures HasPrefix(line, "tree ") ==> line[0] == 't'
    ensures HasPrefix(line, "parent ") ==> line[0] == 'p'
    ensures HasPrefix(line, "author ") ==> line[0] == 'a'
    ensures HasPrefix(line, "committer ") ==> line[0] == 'c'
  {
    assert "tree "[0] == 't' && "parent "[0] == 'p' && "author "[0] == 'a' && "committer "[0] == 'c';
  }

  lemma Stranger(lines: seq<string>, line: string, prefix: string, want: string)
    requires line in lines && HasPrefix(line, prefix)
    ensures line != want ==> WithPrefix(lines, prefix) != [want]
    ensures !HasPrefix(line, want) ==> !OneWith(WithPrefix(lines, prefix), want)
  {
    assert line in WithPrefix(lines, prefix);
  }

  lemma Misfit(lines: seq<string>, line: string, tree: string, parent: string, author: string, committer: string)
    requires line in lines && Counter(line, tree, parent, author, committer) == -1
    ensures !HeaderFits(lines, tree, parent, author, committer)
  {
    hide WithPrefix, OneWith;
    if HasPrefix(line, "tree ") { Stranger(lines, line, "tree ", "tree " + tree); }
    if HasPrefix(line, "parent ") { Stranger(lines, line, "parent ", "parent " + parent); }
    if HasPrefix(line, "author ") { Stranger(lines, line, "author ", author); }
    if HasPrefix(line, "committer ") { Stranger(lines, line, "committer ", committer); }
  }

  lemma KindOfCounter(line: string, tree: string, parent: string, author: string, committer: string)
    requires HasPrefix(author, "author ") && HasPrefix(committer, "committer ")
    requires Counter(line, tree, parent, author, committer) != -1
    ensures var k := Counter(line, tree, parent, author, committer);
            && (k == 1 <==> HasPrefix(line, "tree ")) && (k == 2 <==> HasPrefix(line, "parent "))
            && (k == 3 <==> HasPrefix(line, "author ")) && (k == 4 <==> HasPrefix(line, "committer "))
            && (k == 1 ==> line == "tree " + tree) && (k == 2 ==> line == "parent " + parent)
            && (k == 3 ==> HasPrefix(line, author)) && (k == 4 ==> HasPrefix(line, committer))
  {
    assert HasPrefix("tree " + tree, "tree ") && HasPrefix("parent " + parent, "parent ");
    Kinds(line);
  }

  lemma ScanNext(lines: seq<string>, i: nat, tree: string, parent: string, author: string, committer: string,
                 trees: nat, parents: nat, authors: nat, committers: nat)
    requires i < |lines| && HasPrefix(author, "author ") && HasPrefix(committer, "committer ")
    requires Scanned(lines[..i], tree, parent, author, committer, trees, parents, authors, committers)
    ensures var k := Counter(lines[i], tree, parent, author, committer);
            if k == -1 then !HeaderFits(lines, tree, parent, author, committer)
            else Scanned(lines[..i + 1], tree, parent, author, committer,
                         trees + (if k == 1 then 1 else 0), parents + (if k == 2 then 1 else 0),
                         authors + (if k == 3 then 1 else 0), committers + (if k == 4 then 1 else 0))
  {
    hide WithPrefix, AllEqual, AllWith, HasPrefix, Counter, HeaderFits;
    var line := lines[i];
    var k := Counter(line, tree, parent, author, committer);
    if k == -1 {
      Misfit(lines, line, tree, parent, author, committer);
    } else {
      KindOfCounter(line, tree, parent, author, committer);
      EqualNext(lines, i, "tree ", "tree " + tree, trees);
      EqualNext(lines, i, "parent ", "parent " + parent, parents);
      WithNext(lines, i, "author ", author, authors);
      WithNext(lines, i, "committer ", committer, committers);
    }
  }

  lemma EqualNext(lines: seq<string>, i: nat, prefix: string, want: string, n: nat)
    requires i < |lines| && AllEqual(WithPrefix(lines[..i], prefix), want, n)
    requires HasPrefix(lines[i], prefix) ==> lines[i] == want
    ensures AllEqual(WithPrefix(lines[..i + 1], prefix), want, n + if HasPrefix(lines[i], prefix) then 1 else 0)
  {
    WithPrefixNext(lines, i, prefix);
    hide WithPrefix, HasPrefix;
  }

  lemma WithNext(lines: seq<string>, i: nat, prefix: string, want: string, n: nat)
    requires i < |lines| && AllWith(WithPrefix(lines[..i], prefix), want, n)
    requires HasPrefix(lines[i], prefix) ==> HasPrefix(lines[i], want)
    ensures AllWith(WithPrefix(lines[..i + 1], prefix), want, n + if HasPrefix(lines[i], prefix) then 1 else 0)
  {
    WithPrefixNext(lines, i, prefix);
    hide WithPrefix, HasPrefix;
  }

  lemma ScanAll(lines: seq<string>, tree: string, parent: string, author: string, committer: string,
                trees: nat, parents: nat, authors: nat, committers: nat)
    requires Scanned(lines, tree, parent, author, committer, trees, parents, authors, committers)
    ensures HeaderFits(lines, tree, parent, author, committer) <==> trees == parents == authors == committers == 1
  {
    hide WithPrefix;
    if trees == parents == authors == committers == 1 {
      assert WithPrefix(lines, "tree ")[0] in WithPrefix(lines, "tree ");
      assert WithPrefix(lines, "parent ")[0] in WithPrefix(lines, "parent ");
      assert WithPrefix(lines, "author ")[0] in WithPrefix(lines, "author ");
      assert WithPrefix(lines, "committer ")[0] in WithPrefix(lines, "committer ");
    }
  }

  method CheckSquashHeader(lines: seq<string>, tree: string, parent: string, wantAuthor: string, wantCommitter: string)
    returns (ok: bool)
    requires HasPrefix(wantAuthor, "author ") && HasPrefix(wantCommitter, "committer ")
    ensures ok <==> HeaderFits(lines, tree, parent, wantAuthor, wantCommitter)
  {
    hide WithPrefix, HeaderFits, Scanned;
    var trees, parents, authors, committers := 0, 0, 0, 0;
    assert Scanned(lines[..0], tree, parent, wantAuthor, wantCommitter, 0, 0, 0, 0) by {
      NothingScanned(lines, tree, parent, wantAuthor, wantCommitter);
    }
    for i := 0 to |lines|
      invariant Scanned(lines[..i], tree, parent, wantAuthor, wantCommitter, trees, parents, authors, committers)
    {
      var line := lines[i];
      ScanNext(lines, i, tree, parent, wantAuthor, wantCommitter, trees, parents, authors, committers);
      if line == "tree " + tree {
        trees := trees + 1;
      } else if HasPrefix(line, "tree ") {
        return false;
      } else if line == "parent " + parent {
        parents := parents + 1;
      } else if HasPrefix(line, "parent ") {
        return false;
      } else if HasPrefix(line, wantAuthor) {
        authors := authors + 1;
      } else if HasPrefix(line, "author ") {
        return false;
      } else if HasPrefix(line, wantCommitter) {
        committers := committers + 1;
      } else if HasPrefix(line, "committer ") {
        return false;
      }
    }
    assert lines[..|lines|] == lines;
    ScanAll(lines, tree, parent, wantAuthor, wantCommitter, trees, parents, authors, committers);
    return trees == 1 && parents == 1 && authors == 1 && committers == 1;
  }

  lemma NothingScanned(lines: seq<string>, tree: string, parent: string, author: string, committer: string)
    ensures Scanned(lines[..0], tree, parent, author, committer, 0, 0, 0, 0)
  {
  }

  /** The commit object is the fixed message over one tree, one parent, one author and one committer. */
  ghost predicate SquashShape(raw: string, tree: string, parent: string, identity: Identity) {
    && HeaderEnd(raw, 0).Some? && Message(raw) == SQUASH_SUBJECT + "\n"
    && HeaderFits(HeaderLines(raw), tree, parent, AuthorPrefix(identity), CommitterPrefix(identity))
  }

  function AuthorPrefix(identity: Identity): (p: string)
    ensures HasPrefix(p, "author ")
  {
    "author " + identity.name + " <" + identity.email + "> "
  }

  function CommitterPrefix(identity: Identity): (p: string)
    ensures HasPrefix(p, "committer ")
  {
    "committer " + identity.name + " <" + identity.email + "> "
  }

  /** `verifySquashObject` on the bytes of the object. */
  method CheckSquashObject(raw: string, commit: string, tree: string, parent: string,
                           identity: Identity) returns (ok: bool)
    ensures ok <==> ValidObjectID(commit) && ValidObjectID(tree) && SquashShape(raw, tree, parent, identity)
  {
    if !ValidObjectID(commit) || !ValidObjectID(tree) {
      return false;
    }
    if HeaderEnd(raw, 0).None? || Message(raw) != SQUASH_SUBJECT + "\n" {
      return false;
    }
    ok := CheckSquashHeader(HeaderLines(raw), tree, parent, AuthorPrefix(identity), CommitterPrefix(identity));
  }

  lemma ShapeSnapshots(id: string, tree: string, parent: string, identity: Identity)
    requires SquashShape(RawCommit(id), tree, parent, identity)
    ensures Snapshots(id, tree, parent)
  {
  }
}
