/** Strings as the source uses them: Go's `<` on strings, and sorting a set of names. */
module Text {

  /** Go's `<` on strings.  Characters stand for Unicode scalar values, whose order UTF-8 preserves. */
  predicate Less(a: string, b: string) {
    if b == "" then false
    else if a == "" then true
    else if a[0] != b[0] then a[0] < b[0]
    else Less(a[1..], b[1..])
  }

  lemma {:induction false} LessIrreflexive(a: string)
    ensures !Less(a, a)
  {
    if a != "" { LessIrreflexive(a[1..]); }
  }

  lemma {:induction false} LessTransitive(a: string, b: string, c: string)
    requires Less(a, b) && Less(b, c)
    ensures Less(a, c)
  {
    if a != "" && a[0] == b[0] && b[0] == c[0] {
      LessTransitive(a[1..], b[1..], c[1..]);
    }
  }

  lemma {:induction false} LessTotal(a: string, b: string)
    ensures Less(a, b) || a == b || Less(b, a)
  {
    if a != "" && b != "" && a[0] == b[0] {
      LessTotal(a[1..], b[1..]);
      assert a == [a[0]] + a[1..] && b == [b[0]] + b[1..];
    }
  }

  lemma LessAsymmetric(a: string, b: string)
    requires Less(a, b)
    ensures !Less(b, a)
  {
    if Less(b, a) {
      LessTransitive(a, b, a);
      LessIrreflexive(a);
    }
  }

  // ---- splitting and joining

  /** `strings.Split` on a one-character separator. */
  function Split(s: string, sep: char): (parts: seq<string>)
    ensures |parts| >= 1
    ensures forall p :: p in parts ==> sep !in p
  {
    if s == "" then [""]
    else
      var rest := Split(s[1..], sep);
      if s[0] == sep then [""] + rest else [[s[0]] + rest[0]] + rest[1..]
  }

  /** `strings.Join` */
  function Join(parts: seq<string>, sep: char): string {
    if parts == [] then ""
    else if |parts| == 1 then parts[0]
    else parts[0] + [sep] + Join(parts[1..], sep)
  }

  lemma {:induction false} SplitWord(word: string, sep: char)
    requires sep !in word
    ensures Split(word, sep) == [word]
  {
    if word != "" {
      SplitWord(word[1..], sep);
      assert [word[0]] + word[1..] == word;
    }
  }

  lemma {:induction false} SplitFirst(word: string, rest: string, sep: char)
    requires sep !in word
    ensures Split(word + [sep] + rest, sep) == [word] + Split(rest, sep)
  {
    var s := word + [sep] + rest;
    if word == "" {
      assert s[1..] == rest;
    } else {
      assert s[1..] == word[1..] + [sep] + rest;
      SplitFirst(word[1..], rest, sep);
      assert s[0] == word[0] && [word[0]] + word[1..] == word;
    }
  }

  lemma {:induction false} SplitJoin(parts: seq<string>, sep: char)
    requires parts != [] && forall p :: p in parts ==> sep !in p
    ensures Split(Join(parts, sep), sep) == parts
  {
    assert parts[0] in parts;
    if |parts| == 1 {
      SplitWord(parts[0], sep);
    } else {
      SplitJoin(parts[1..], sep);
      SplitFirst(parts[0], Join(parts[1..], sep), sep);
    }
  }

  lemma {:induction false} JoinSplit(s: string, sep: char)
    ensures Join(Split(s, sep), sep) == s
  {
    if s != "" {
      var rest := Split(s[1..], sep);
      JoinSplit(s[1..], sep);
      var parts := Split(s, sep);
      if s[0] == sep {
        assert parts[1..] == rest;
      } else if |rest| > 1 {
        assert parts[1..] == rest[1..];
      }
    }
  }

  // ---- blanks

  /** `unicode.IsSpace` */
  predicate IsSpace(c: char) {
    || c in " \t\n\r" || c == 11 as char || c == 12 as char || c == 0x85 as char || c == 0xA0 as char
    || c == 0x1680 as char || (0x2000 as char <= c <= 0x200A as char) || c == 0x2028 as char || c == 0x2029 as char
    || c == 0x202F as char || c == 0x205F as char || c == 0x3000 as char
  }

  /** `strings.TrimSpace(s) == ""` */
  predicate Blank(s: string) {
    forall c :: c in s ==> IsSpace(c)
  }

  /** `strings.Fields`: the maximal runs of characters that are not blanks; `word` is the run being read. */
  function FieldsFrom(s: string, word: string): seq<string> {
    if s == "" then (if word == "" then [] else [word])
    else if IsSpace(s[0]) then (if word == "" then [] else [word]) + FieldsFrom(s[1..], "")
    else FieldsFrom(s[1..], word + [s[0]])
  }

  function Fields(s: string): seq<string> {
    FieldsFrom(s, "")
  }

  predicate HasPrefix(s: string, prefix: string) {
    prefix <= s
  }

  // ---- big-endian words

  const WORD := 0x1_0000_0000_0000_0000

  function Power256(k: nat): (p: nat)
    ensures p >= 1
  {
    if k == 0 then 1 else 256 * Power256(k - 1)
  }

  /** The k low bytes of n, most significant first. */
  function BigEndian(n: nat, k: nat): (bytes: string)
    ensures |bytes| == k
  {
    if k == 0 then "" else BigEndian(n / 256, k - 1) + [(n % 256) as char]
  }

  lemma {:induction false} BigEndianInjective(a: nat, b: nat, k: nat)
    requires a < Power256(k) && b < Power256(k)
    requires BigEndian(a, k) == BigEndian(b, k)
    ensures a == b
  {
    if k > 0 {
      var x, y := BigEndian(a, k), BigEndian(b, k);
      assert x[k - 1] == (a % 256) as char && y[k - 1] == (b % 256) as char;
      assert x[..k - 1] == BigEndian(a / 256, k - 1) && y[..k - 1] == BigEndian(b / 256, k - 1);
      BigEndianInjective(a / 256, b / 256, k - 1);
    }
  }

  /** `binary.BigEndian.PutUint64(uint64(n))`: eight bytes, higher bits lost. */
  function Word(n: nat): (bytes: string)
    ensures |bytes| == 8
  {
    BigEndian(n, 8)
  }

  lemma WordDecodes(a: nat, x: string, b: nat, y: string)
    requires a < WORD && b < WORD && Word(a) + x == Word(b) + y
    ensures a == b && x == y
  {
    var s, t := Word(a) + x, Word(b) + y;
    assert s[..8] == Word(a) && t[..8] == Word(b) && s[8..] == x && t[8..] == y;
    Power256Of8();
    BigEndianInjective(a, b, 8);
  }

  lemma Power256Of8()
    ensures Power256(8) == WORD
  {
    assert Power256(2) == 0x1_0000;
    assert Power256(4) == 0x1_0000_0000;
    assert Power256(6) == 0x1_0000_0000_0000;
  }

  /** A string written behind its length. */
  function Field(s: string): string {
    Word(|s|) + s
  }

  predicate Fits(s: string) {
    |s| < WORD
  }

  /** A length-prefixed string can be read off the front of what follows in only one way. */
  lemma FieldDecodes(a: string, x: string, b: string, y: string)
    requires Fits(a) && Fits(b) && Field(a) + x == Field(b) + y
    ensures a == b && x == y
  {
    assert Field(a) + x == Word(|a|) + (a + x) && Field(b) + y == Word(|b|) + (b + y);
    WordDecodes(|a|, a + x, |b|, b + y);
    assert (a + x)[..|a|] == a && (b + y)[..|b|] == b && (a + x)[|a|..] == x && (b + y)[|b|..] == y;
  }

  /** Several strings, each behind its length. */
  function FieldsOf(values: seq<string>): string {
    if values == [] then "" else Field(values[0]) + FieldsOf(values[1..])
  }

  lemma {:induction false} FieldsDecode(a: seq<string>, x: string, b: seq<string>, y: string)
    requires |a| == |b| && (forall s :: s in a ==> Fits(s)) && (forall s :: s in b ==> Fits(s))
    requires FieldsOf(a) + x == FieldsOf(b) + y
    ensures a == b && x == y
  {
    hide Field, Fits;
    if a == [] {
      assert FieldsOf(a) + x == x && FieldsOf(b) + y == y;
    } else {
      assert a[0] in a && b[0] in b;
      var u, v := FieldsOf(a[1..]) + x, FieldsOf(b[1..]) + y;
      assert FieldsOf(a) + x == Field(a[0]) + u && FieldsOf(b) + y == Field(b[0]) + v;
      FieldDecodes(a[0], u, b[0], v);
      FieldsDecode(a[1..], x, b[1..], y);
      assert a == [a[0]] + a[1..] && b == [b[0]] + b[1..];
    }
  }

  // ---- Git object IDs

  predicate HexDigit(c: char) {
    '0' <= c <= '9' || 'a' <= c <= 'f'
  }

  predicate ValidObjectID(id: string) {
    (|id| == 40 || |id| == 64) && forall c :: c in id ==> HexDigit(c)
  }
}
