/**
 * Go's `strings.Fields`, the whitespace split that turns one database line
 * into its fields and one normalised sentence into its tokens.
 */
module GoStrings {

  /** `unicode.IsSpace`: the Latin-1 spaces plus the other Unicode White_Space code points. */
  predicate IsSpace(c: char) {
    var k := c as int;
    k == 0x09 || k == 0x0A || k == 0x0B || k == 0x0C || k == 0x0D || k == 0x20
    || k == 0x85 || k == 0xA0 || k == 0x1680 || (0x2000 <= k <= 0x200A)
    || k == 0x2028 || k == 0x2029 || k == 0x202F || k == 0x205F || k == 0x3000
  }

  /** A string holding no space character. */
  predicate NoSpace(s: string) {
    forall i :: 0 <= i < |s| ==> !IsSpace(s[i])
  }

  /** Length of the longest prefix of `s` free of spaces. */
  function FieldLen(s: string): (k: nat)
    ensures k <= |s|
    ensures NoSpace(s[..k])
    ensures k < |s| ==> IsSpace(s[k])
  {
    if s == [] || IsSpace(s[0]) then 0
    else
      var k := 1 + FieldLen(s[1..]);
      assert s[..k] == [s[0]] + s[1..][..k - 1];
      k
  }

  /**
   * `strings.Fields`: the maximal runs of non-space characters, in order.
   * Every field is non-empty and holds no space.
   */
  function Fields(s: string): (r: seq<string>)
    ensures forall i :: 0 <= i < |r| ==> r[i] != [] && NoSpace(r[i])
    decreases |s|
  {
    if s == [] then []
    else if IsSpace(s[0]) then Fields(s[1..])
    else
      var k := FieldLen(s);
      [s[..k]] + Fields(s[k..])
  }

  /** The fields written out with one space before each. */
  function Spaced(fs: seq<string>): string {
    if fs == [] then [] else " " + fs[0] + Spaced(fs[1..])
  }

  /** The fields written out with a single space between neighbours. */
  function Join(fs: seq<string>): string {
    if fs == [] then [] else fs[0] + Spaced(fs[1..])
  }

  /** A string of `n` blanks. */
  function Blanks(n: nat): (r: string)
    ensures |r| == n && forall i :: 0 <= i < n ==> r[i] == ' '
  {
    if n == 0 then [] else " " + Blanks(n - 1)
  }

  /** A leading space never changes the split. */
  lemma FieldsSpaceCons(c: char, s: string)
    requires IsSpace(c)
    ensures Fields([c] + s) == Fields(s)
  {
    assert ([c] + s)[1..] == s;
  }

  /** A blank-only string has no fields. */
  lemma {:induction false} FieldsOfBlanks(n: nat)
    ensures Fields(Blanks(n)) == []
  {
    if n > 0 {
      FieldsOfBlanks(n - 1);
      FieldsSpaceCons(' ', Blanks(n - 1));
    }
  }

  lemma {:induction false} FieldLenOfWord(w: string, x: string)
    requires NoSpace(w)
    requires x == [] || IsSpace(x[0])
    ensures FieldLen(w + x) == |w|
  {
    if w != [] {
      assert (w + x)[1..] == w[1..] + x;
      FieldLenOfWord(w[1..], x);
    }
  }

  /** A non-empty space-free word followed by a space (or nothing) is one field. */
  lemma FieldsWordCons(w: string, x: string)
    requires w != [] && NoSpace(w)
    requires x == [] || IsSpace(x[0])
    ensures Fields(w + x) == [w] + Fields(x)
  {
    FieldLenOfWord(w, x);
    assert (w + x)[..|w|] == w;
    assert (w + x)[|w|..] == x;
  }

  /** Splitting a spaced-out list of well-formed fields gives the list back. */
  lemma {:induction false} FieldsOfSpaced(fs: seq<string>)
    requires forall i :: 0 <= i < |fs| ==> fs[i] != [] && NoSpace(fs[i])
    ensures Fields(Spaced(fs)) == fs
  {
    if fs != [] {
      var rest := Spaced(fs[1..]);
      FieldsOfSpaced(fs[1..]);
      assert Spaced(fs) == [' '] + (fs[0] + rest);
      FieldsSpaceCons(' ', fs[0] + rest);
      FieldsWordCons(fs[0], rest);
      assert [fs[0]] + fs[1..] == fs;
    }
  }

  /** `Fields` inverts `Join` on well-formed fields. */
  lemma FieldsOfJoin(fs: seq<string>)
    requires forall i :: 0 <= i < |fs| ==> fs[i] != [] && NoSpace(fs[i])
    ensures Fields(Join(fs)) == fs
  {
    if fs != [] {
      FieldsOfSpaced(fs[1..]);
      FieldsWordCons(fs[0], Spaced(fs[1..]));
      assert [fs[0]] + fs[1..] == fs;
    }
  }
}
