/**
 * `Tokenize`: the sentence passes through `\W+` -> " ", then through the
 * stopword pattern `\s+(I|a|an|...|who)\s` -> " " on the sentence padded
 * with a blank at each end, then `strings.Fields`, then lower-casing.
 *
 * The two regular expressions are modelled for these fixed patterns only,
 * with RE2's ASCII classes (`\w` is [0-9A-Za-z_], `\s` is [\t\n\f\r ]) and
 * its leftmost-first, non-overlapping replace-all. The main theorem,
 * `PipelineIsRunRule`, shows that the pipeline keeps the maximal runs of word
 * characters in order, dropping a run exactly when it is a stopword and the
 * run before it was not dropped.
 */
module Tokenizer {
  import opened GoStrings

  /** RE2 `\w`. */
  predicate IsWordChar(c: char) {
    '0' <= c <= '9' || 'A' <= c <= 'Z' || 'a' <= c <= 'z' || c == '_'
  }

  predicate IsWord(s: string) {
    forall i :: 0 <= i < |s| ==> IsWordChar(s[i])
  }

  /** RE2 `\s`. */
  predicate IsRegexSpace(c: char) {
    c == ' ' || c == '\t' || c == '\n' || c == '\r' || c as int == 0x0C
  }

  /** Length of the longest prefix of word characters. */
  function WordLen(s: string): (k: nat)
    ensures k <= |s|
    ensures forall i :: 0 <= i < k ==> IsWordChar(s[i])
    ensures k < |s| ==> !IsWordChar(s[k])
  {
    if s == [] || !IsWordChar(s[0]) then 0 else 1 + WordLen(s[1..])
  }

  /** Length of the longest prefix of non-word characters. */
  function NonWordLen(s: string): (k: nat)
    ensures k <= |s|
    ensures forall i :: 0 <= i < k ==> !IsWordChar(s[i])
    ensures k < |s| ==> IsWordChar(s[k])
    ensures s != [] && !IsWordChar(s[0]) ==> k >= 1
  {
    if s == [] || IsWordChar(s[0]) then 0 else 1 + NonWordLen(s[1..])
  }

  /** `nonAlphanumeric.ReplaceAllString(s, " ")`: every maximal run of non-word characters becomes one blank. */
  function ReplaceNonWord(s: string): string
    decreases |s|
  {
    if s == [] then []
    else if IsWordChar(s[0]) then [s[0]] + ReplaceNonWord(s[1..])
    else " " + ReplaceNonWord(s[NonWordLen(s)..])
  }

  /** The alternatives of the stopword pattern, in the pattern's order. */
  const Stopwords: seq<string> :=
    ["I", "a", "an", "as", "at", "by", "he", "she", "his", "hers", "it", "its", "me", "or", "thou", "us", "who"]

  /** The length of a match of the pattern at the start of a string, if there is one. */
  datatype Match = NoMatch | MatchLen(len: nat)

  /** Length of the longest prefix of `\s` characters. */
  function RegexSpaceLen(s: string): (k: nat)
    ensures k <= |s|
    ensures forall i :: 0 <= i < k ==> IsRegexSpace(s[i])
    ensures k < |s| ==> !IsRegexSpace(s[k])
  {
    if s == [] || !IsRegexSpace(s[0]) then 0 else 1 + RegexSpaceLen(s[1..])
  }

  /** `t` starts with the alternative `w` followed by a `\s` character. */
  predicate StartsWithAlt(t: string, w: string) {
    |w| < |t| && t[..|w|] == w && IsRegexSpace(t[|w|])
  }

  /**
   * The group `(I|a|...|who)` followed by `\s`, tried at the start of `t` in
   * the pattern's order; the first alternative that is followed by a blank
   * wins.
   */
  function AltMatch(t: string, alts: seq<string>): (m: Match)
    ensures m.MatchLen? ==> 1 <= m.len <= |t|
  {
    if alts == [] then NoMatch
    else
      var w := alts[0];
      if StartsWithAlt(t, w) then MatchLen(|w| + 1)
      else AltMatch(t, alts[1..])
  }

  /**
   * The group matches exactly when some alternative followed by `\s` starts
   * `t`, and then it takes the first such alternative in the pattern's order
   * and the `\s` after it.
   */
  lemma {:induction false} AltMatchMeaning(t: string, alts: seq<string>)
    ensures AltMatch(t, alts).NoMatch? <==> forall j :: 0 <= j < |alts| ==> !StartsWithAlt(t, alts[j])
    ensures AltMatch(t, alts).MatchLen? ==>
      exists j :: 0 <= j < |alts| && StartsWithAlt(t, alts[j]) && AltMatch(t, alts).len == |alts[j]| + 1
        && forall i :: 0 <= i < j ==> !StartsWithAlt(t, alts[i])
  {
    if alts != [] {
      AltMatchMeaning(t, alts[1..]);
      if !StartsWithAlt(t, alts[0]) {
        forall j | 0 <= j < |alts[1..]| ensures alts[1..][j] == alts[j + 1] { }
        if AltMatch(t, alts).MatchLen? {
          var j :| 0 <= j < |alts[1..]| && StartsWithAlt(t, alts[1..][j])
            && AltMatch(t, alts).len == |alts[1..][j]| + 1
            && forall i :: 0 <= i < j ==> !StartsWithAlt(t, alts[1..][i]);
          assert forall i :: 0 <= i < j + 1 ==> !StartsWithAlt(t, alts[i]) by {
            forall i | 0 <= i < j + 1 ensures !StartsWithAlt(t, alts[i]) {
              if i > 0 {
                assert alts[i] == alts[1..][i - 1];
              }
            }
          }
        }
      }
    }
  }

  /**
   * The whole pattern anchored at the start of `s`. The greedy `\s+` must
   * take every leading blank, since an alternative never starts with one.
   */
  function StopMatch(s: string): (m: Match)
    ensures m.MatchLen? ==> 1 <= m.len <= |s|
  {
    var k := RegexSpaceLen(s);
    if k == 0 then NoMatch
    else
      match AltMatch(s[k..], Stopwords)
      case NoMatch => NoMatch
      case MatchLen(n) => MatchLen(k + n)
  }

  /**
   * The pattern matches at the start of `s` exactly when `s` starts with at
   * least one `\s` character and, after all of them, some stopword followed
   * by `\s`; the match then ends after the first such stopword in the
   * pattern's order and its `\s`.
   */
  lemma StopMatchMeaning(s: string)
    ensures StopMatch(s).MatchLen? <==>
      RegexSpaceLen(s) >= 1
        && exists j :: 0 <= j < |Stopwords| && StartsWithAlt(s[RegexSpaceLen(s)..], Stopwords[j])
    ensures StopMatch(s).MatchLen? ==>
      exists j :: 0 <= j < |Stopwords| && StartsWithAlt(s[RegexSpaceLen(s)..], Stopwords[j])
        && StopMatch(s).len == RegexSpaceLen(s) + |Stopwords[j]| + 1
        && forall i :: 0 <= i < j ==> !StartsWithAlt(s[RegexSpaceLen(s)..], Stopwords[i])
  {
    AltMatchMeaning(s[RegexSpaceLen(s)..], Stopwords);
  }

  /**
   * `stopwords.ReplaceAllString(s, " ")`: scanning left to right, each match
   * becomes one blank and the search resumes after it.
   */
  function RemoveStopwords(s: string): string
    decreases |s|
  {
    if s == [] then []
    else
      match StopMatch(s)
      case MatchLen(e) => " " + RemoveStopwords(s[e..])
      case NoMatch => [s[0]] + RemoveStopwords(s[1..])
  }

  /** `strings.ToLower` on the ASCII letters (all that reaches it here). */
  function LowerChar(c: char): char {
    if 'A' <= c <= 'Z' then (c as int + 32) as char else c
  }

  function ToLower(w: string): (r: string)
    ensures |r| == |w| && forall i :: 0 <= i < |w| ==> r[i] == LowerChar(w[i])
  {
    seq(|w|, i requires 0 <= i < |w| => LowerChar(w[i]))
  }

  function LowerAll(ws: seq<string>): (r: seq<string>)
    ensures |r| == |ws| && forall i :: 0 <= i < |ws| ==> r[i] == ToLower(ws[i])
  {
    seq(|ws|, i requires 0 <= i < |ws| => ToLower(ws[i]))
  }

  /** The maximal runs of word characters, in order. */
  function Runs(s: string): (r: seq<string>)
    ensures forall i :: 0 <= i < |r| ==> r[i] != [] && IsWord(r[i])
    decreases |s|
  {
    if s == [] then []
    else if !IsWordChar(s[0]) then Runs(s[NonWordLen(s)..])
    else
      var k := WordLen(s);
      [s[..k]] + Runs(s[k..])
  }

  /**
   * The runs that survive stopword removal: a run goes when it is a stopword
   * and the run before it did not go (its match took the blank in front).
   */
  function Kept(runs: seq<string>, prevRemoved: bool): seq<string> {
    if runs == [] then []
    else if !prevRemoved && runs[0] in Stopwords then Kept(runs[1..], true)
    else [runs[0]] + Kept(runs[1..], false)
  }

  /** What `Tokenize` returns, stated over the runs of the sentence. */
  function TokenRule(s: string): seq<string> {
    LowerAll(Kept(Runs(s), false))
  }

  /** Each run preceded by one blank, then `t` blanks: the shape of the padded sentence. */
  function Lay(runs: seq<string>, t: nat): string {
    if runs == [] then Blanks(t) else " " + runs[0] + Lay(runs[1..], t)
  }

  lemma WordNoSpace(w: string)
    requires IsWord(w)
    ensures NoSpace(w)
  {
    forall i | 0 <= i < |w| ensures !IsSpace(w[i]) {
      assert IsWordChar(w[i]);
    }
  }

  lemma {:induction false} ReplaceNonWordOnRun(s: string)
    ensures ReplaceNonWord(s) == s[..WordLen(s)] + ReplaceNonWord(s[WordLen(s)..])
    decreases |s|
  {
    var k := WordLen(s);
    if k == 0 {
      assert s[..0] == [] && s[0..] == s;
    } else {
      var u := s[1..];
      assert ReplaceNonWord(s) == [s[0]] + ReplaceNonWord(u);
      assert WordLen(u) == k - 1;
      ReplaceNonWordOnRun(u);
      assert u[k - 1..] == s[k..];
      AppendAssoc([s[0]], u[..k - 1], ReplaceNonWord(s[k..]));
      assert [s[0]] + u[..k - 1] == s[..k];
    }
  }

  /** After a blank, a word-initial (or empty) sentence lays out as its runs followed by blanks. */
  lemma {:induction false} PaddedShape(s: string, t: nat) returns (t': nat)
    requires t >= 1
    requires s == [] || IsWordChar(s[0])
    ensures t' >= 1 && " " + ReplaceNonWord(s) + Blanks(t) == Lay(Runs(s), t')
    decreases |s|, 1
  {
    if s == [] {
      t' := t + 1;
      assert " " + ReplaceNonWord(s) + Blanks(t) == Blanks(t + 1);
    } else {
      t' := RunShape(s, t);
    }
  }

  lemma {:induction false} RunShape(s: string, t: nat) returns (t': nat)
    requires t >= 1
    requires s != [] && IsWordChar(s[0])
    ensures t' >= 1 && " " + ReplaceNonWord(s) + Blanks(t) == Lay(Runs(s), t')
    decreases |s|, 0
  {
    var k := WordLen(s);
    var w, u := s[..k], s[k..];
    ReplaceNonWordOnRun(s);
    t' := GapShape(u, t);
    assert ([w] + Runs(u))[1..] == Runs(u);
    AppendAssoc(" " + w, ReplaceNonWord(u), Blanks(t));
  }

  /** What follows a run (nothing, or a gap of non-word characters) lays out as the remaining runs and blanks. */
  lemma {:induction false} GapShape(u: string, t: nat) returns (t': nat)
    requires t >= 1
    requires u == [] || !IsWordChar(u[0])
    ensures t' >= 1 && ReplaceNonWord(u) + Blanks(t) == Lay(Runs(u), t')
    decreases |u|, 2
  {
    if u == [] {
      t' := t;
      assert ReplaceNonWord(u) + Blanks(t) == Blanks(t);
    } else {
      var v := u[NonWordLen(u)..];
      assert ReplaceNonWord(u) == " " + ReplaceNonWord(v);
      assert Runs(u) == Runs(v);
      t' := PaddedShape(v, t);
    }
  }

  lemma AppendAssoc(a: string, b: string, c: string)
    ensures a + (b + c) == (a + b) + c
  {
  }

  lemma LayStartsBlank(runs: seq<string>, t: nat)
    requires t >= 1
    ensures Lay(runs, t) != [] && Lay(runs, t)[0] == ' '
  {
  }

  lemma {:induction false} RemoveStopwordsBlanks(n: nat)
    ensures RemoveStopwords(Blanks(n)) == Blanks(n)
  {
    if n > 0 {
      var b := Blanks(n);
      assert RegexSpaceLen(b) == n by { RegexSpaceLenBlanks(n); }
      assert b[n..] == [];
      assert b[1..] == Blanks(n - 1);
      RemoveStopwordsBlanks(n - 1);
    }
  }

  lemma {:induction false} RegexSpaceLenBlanks(n: nat)
    ensures RegexSpaceLen(Blanks(n)) == n
  {
    if n > 0 {
      assert Blanks(n)[1..] == Blanks(n - 1);
      RegexSpaceLenBlanks(n - 1);
    }
  }

  /** The pattern starts with `\s`, so it never matches at a word character. */
  lemma RemoveStopwordsAtWordChar(s: string)
    requires s != [] && IsWordChar(s[0])
    ensures RemoveStopwords(s) == [s[0]] + RemoveStopwords(s[1..])
  {
    assert RegexSpaceLen(s) == 0;
  }

  /** No stopword match can start inside a run, so a run passes through unchanged. */
  lemma {:induction false} RemoveStopwordsOnWord(w: string, y: string)
    requires IsWord(w)
    ensures RemoveStopwords(w + y) == w + RemoveStopwords(y)
  {
    if w == [] {
      assert w + y == y;
    } else {
      assert (w + y)[1..] == w[1..] + y;
      RemoveStopwordsAtWordChar(w + y);
      RemoveStopwordsOnWord(w[1..], y);
      AppendAssoc([w[0]], w[1..], RemoveStopwords(y));
      assert [w[0]] + w[1..] == w;
    }
  }

  lemma RemoveStopwordsStartsBlank(y: string)
    requires y != [] && y[0] == ' '
    ensures RemoveStopwords(y) != [] && RemoveStopwords(y)[0] == ' '
  {
  }

  lemma StopwordsAreWords()
    ensures forall w :: w in Stopwords ==> IsWord(w)
  {
  }

  /** At the start of a run followed by a blank, the group matches exactly when the run is an alternative. */
  lemma {:induction false} AltMatchOnRun(r: string, y: string, alts: seq<string>)
    requires r != [] && IsWord(r)
    requires y != [] && y[0] == ' '
    requires forall w :: w in alts ==> IsWord(w)
    ensures AltMatch(r + y, alts) == if r in alts then MatchLen(|r| + 1) else NoMatch
  {
    if alts != [] {
      var w, t := alts[0], r + y;
      assert w in alts && IsWord(w);
      assert t[..|r|] == r && t[|r|] == ' ';
      if w != r {
        if |w| < |r| {
          assert t[|w|] == r[|w|];
        } else if |r| < |w| < |t| {
          assert t[..|w|][|r|] == ' ' && IsWordChar(w[|r|]);
        }
        assert !(|w| < |t| && t[..|w|] == w && IsRegexSpace(t[|w|]));
        AltMatchOnRun(r, y, alts[1..]);
      }
    }
  }

  /** An extra blank in front of a blank lengthens a match by one and does not create one. */
  lemma StopMatchShift(x: string)
    requires x != [] && x[0] == ' '
    ensures StopMatch(" " + x) == match StopMatch(x) case NoMatch => NoMatch case MatchLen(e) => MatchLen(e + 1)
  {
    assert (" " + x)[1..] == x;
    var k := RegexSpaceLen(x);
    assert RegexSpaceLen(" " + x) == 1 + k;
    assert (" " + x)[1 + k..] == x[k..];
  }

  /** An extra blank in front changes where a match starts, never what survives. */
  lemma LeadingBlank(x: string)
    requires x != [] && x[0] == ' '
    ensures Fields(RemoveStopwords(" " + x)) == Fields(RemoveStopwords(x))
  {
    var y := " " + x;
    StopMatchShift(x);
    match StopMatch(x)
    case MatchLen(e) =>
      assert y[e + 1..] == x[e..];
      assert RemoveStopwords(y) == " " + RemoveStopwords(x[e..]);
      assert RemoveStopwords(x) == " " + RemoveStopwords(x[e..]);
    case NoMatch =>
      assert y[1..] == x;
      assert RemoveStopwords(y) == [' '] + RemoveStopwords(x);
      FieldsSpaceCons(' ', RemoveStopwords(x));
  }

  /** A run that is not at a match start passes through and becomes one field. */
  lemma KeepStep(r: string, y: string)
    requires r != [] && IsWord(r)
    requires y != [] && y[0] == ' '
    ensures Fields(RemoveStopwords(r + y)) == [r] + Fields(RemoveStopwords(y))
  {
    WordNoSpace(r);
    RemoveStopwordsOnWord(r, y);
    RemoveStopwordsStartsBlank(y);
    FieldsWordCons(r, RemoveStopwords(y));
  }

  /** After one blank, the pattern matches a run and the blank after it exactly when the run is a stopword. */
  lemma StopMatchOnRun(r: string, y: string)
    requires r != [] && IsWord(r)
    requires y != [] && y[0] == ' '
    ensures StopMatch(" " + (r + y)) == if r in Stopwords then MatchLen(|r| + 2) else NoMatch
  {
    var l := " " + (r + y);
    assert l[1..] == r + y;
    assert RegexSpaceLen(l) == 1 by {
      assert (r + y)[0] == r[0] && IsWordChar(r[0]);
      assert RegexSpaceLen(r + y) == 0;
    }
    StopwordsAreWords();
    AltMatchOnRun(r, y, Stopwords);
  }

  /** A stopword with a blank in front goes, together with that blank and the blank after it. */
  lemma StopwordStep(r: string, y: string)
    requires y != [] && y[0] == ' '
    requires StopMatch(" " + (r + y)) == MatchLen(|r| + 2)
    ensures Fields(RemoveStopwords(" " + (r + y))) == Fields(RemoveStopwords(y[1..]))
  {
    var l := " " + (r + y);
    assert RemoveStopwords(l) == " " + RemoveStopwords(l[|r| + 2..]);
    assert l[|r| + 2..] == y[1..];
    FieldsSpaceCons(' ', RemoveStopwords(y[1..]));
  }

  /** Any other run with a blank in front stays. */
  lemma OtherRunStep(r: string, y: string)
    requires r != [] && IsWord(r) && r !in Stopwords
    requires y != [] && y[0] == ' '
    ensures Fields(RemoveStopwords(" " + (r + y))) == [r] + Fields(RemoveStopwords(y))
  {
    var l := " " + (r + y);
    StopMatchOnRun(r, y);
    assert l[1..] == r + y;
    assert RemoveStopwords(l) == [' '] + RemoveStopwords(r + y);
    FieldsSpaceCons(' ', RemoveStopwords(r + y));
    KeepStep(r, y);
  }

  /**
   * The heart of the proof: on a laid-out list of runs, stopword removal
   * followed by the field split keeps exactly `Kept(runs, prevRemoved)`.
   * When the previous run was removed its match has eaten the blank in front
   * of the first run, which is the `[1..]`.
   */
  lemma {:induction false} RemovalOnLay(runs: seq<string>, t: nat, prevRemoved: bool)
    requires t >= 1
    requires forall i :: 0 <= i < |runs| ==> runs[i] != [] && IsWord(runs[i])
    ensures Lay(runs, t) != []
    ensures Fields(RemoveStopwords(if prevRemoved then Lay(runs, t)[1..] else Lay(runs, t)))
         == Kept(runs, prevRemoved)
  {
    LayStartsBlank(runs, t);
    if runs == [] {
      var n := if prevRemoved then t - 1 else t;
      assert (if prevRemoved then Lay(runs, t)[1..] else Lay(runs, t)) == Blanks(n);
      RemoveStopwordsBlanks(n);
      FieldsOfBlanks(n);
    } else {
      var r, rest := runs[0], runs[1..];
      var y := Lay(rest, t);
      LayStartsBlank(rest, t);
      assert Lay(runs, t) == " " + (r + y);
      if prevRemoved {
        assert Lay(runs, t)[1..] == r + y;
        KeepStep(r, y);
        RemovalOnLay(rest, t, false);
      } else if r in Stopwords {
        StopMatchOnRun(r, y);
        StopwordStep(r, y);
        RemovalOnLay(rest, t, true);
      } else {
        OtherRunStep(r, y);
        RemovalOnLay(rest, t, false);
      }
    }
  }

  /**
   * The regex pipeline of `Tokenize` (before lower-casing) keeps the runs of
   * word characters that `Kept` keeps, in order.
   */
  lemma PipelineIsRunRule(s: string)
    ensures Fields(RemoveStopwords(" " + ReplaceNonWord(s) + " ")) == Kept(Runs(s), false)
  {
    assert Blanks(1) == " ";
    if s == [] || IsWordChar(s[0]) {
      var t := PaddedShape(s, 1);
      RemovalOnLay(Runs(s), t, false);
    } else {
      var t := GapShape(s, 1);
      var x := Lay(Runs(s), t);
      AppendAssoc(" ", ReplaceNonWord(s), " ");
      LayStartsBlank(Runs(s), t);
      LeadingBlank(x);
      RemovalOnLay(Runs(s), t, false);
    }
  }

  /** A character a token may hold: a digit, a lower-case ASCII letter or `_`. */
  predicate IsTokenChar(c: char) {
    '0' <= c <= '9' || 'a' <= c <= 'z' || c == '_'
  }

  /** Every surviving run is one of the sentence's runs. */
  lemma {:induction false} KeptFromRuns(runs: seq<string>, prevRemoved: bool)
    ensures forall x :: x in Kept(runs, prevRemoved) ==> x in runs
  {
    if runs != [] {
      KeptFromRuns(runs[1..], !prevRemoved && runs[0] in Stopwords);
      KeptFromRuns(runs[1..], false);
    }
  }

  /** Without stopwords, every run survives. */
  lemma {:induction false} KeptWithoutStopwords(runs: seq<string>, prevRemoved: bool)
    requires forall x :: x in runs ==> x !in Stopwords
    ensures Kept(runs, prevRemoved) == runs
  {
    if runs != [] {
      assert runs[0] in runs;
      KeptWithoutStopwords(runs[1..], false);
    }
  }

  /** Tokens are non-empty and hold only digits, lower-case ASCII letters and `_`. */
  lemma TokensWellFormed(s: string)
    ensures forall t :: t in TokenRule(s) ==> t != [] && forall i :: 0 <= i < |t| ==> IsTokenChar(t[i])
  {
    var kept := Kept(Runs(s), false);
    KeptFromRuns(Runs(s), false);
    forall t | t in TokenRule(s)
      ensures t != [] && forall i :: 0 <= i < |t| ==> IsTokenChar(t[i])
    {
      var j :| 0 <= j < |kept| && TokenRule(s)[j] == t;
      assert kept[j] in kept;
      var k :| 0 <= k < |Runs(s)| && Runs(s)[k] == kept[j];
      forall i | 0 <= i < |t| ensures IsTokenChar(t[i]) {
        assert IsWordChar(kept[j][i]);
      }
    }
  }

  lemma {:induction false} RunsOfNonWords(s: string)
    requires forall i :: 0 <= i < |s| ==> !IsWordChar(s[i])
    ensures Runs(s) == []
    decreases |s|
  {
    if s != [] {
      RunsOfNonWords(s[NonWordLen(s)..]);
    }
  }

  /** A sentence without letters, digits or `_` has no tokens. */
  lemma NoWordCharsNoTokens(s: string)
    requires forall i :: 0 <= i < |s| ==> !IsWordChar(s[i])
    ensures TokenRule(s) == []
  {
    RunsOfNonWords(s);
  }

  lemma {:induction false} WordLenOfRun(w: string, rest: string)
    requires IsWord(w)
    requires rest == [] || !IsWordChar(rest[0])
    ensures WordLen(w + rest) == |w|
  {
    if w == [] {
      assert w + rest == rest;
    } else {
      assert (w + rest)[1..] == w[1..] + rest;
      WordLenOfRun(w[1..], rest);
    }
  }

  /** A run followed by nothing or a non-word character is the first run. */
  lemma RunsOfWord(w: string, rest: string)
    requires w != [] && IsWord(w)
    requires rest == [] || !IsWordChar(rest[0])
    ensures Runs(w + rest) == [w] + Runs(rest)
  {
    WordLenOfRun(w, rest);
    assert (w + rest)[..|w|] == w && (w + rest)[|w|..] == rest;
  }

  /** A single blank before a run separates it and adds nothing. */
  lemma RunsOfBlank(rest: string)
    requires rest == [] || IsWordChar(rest[0])
    ensures Runs(" " + rest) == Runs(rest)
  {
    assert (" " + rest)[1..] == rest;
    assert NonWordLen(" " + rest) == 1;
  }

  lemma {:induction false} RunsOfSpaced(ws: seq<string>)
    requires forall i :: 0 <= i < |ws| ==> ws[i] != [] && IsWord(ws[i])
    ensures Runs(Spaced(ws)) == ws
  {
    if ws != [] {
      var w, rest := ws[0], Spaced(ws[1..]);
      RunsOfSpaced(ws[1..]);
      RunsOfWord(w, rest);
      RunsOfBlank(w + rest);
      AppendAssoc(" ", w, rest);
    }
  }

  /** Words written with single blanks between them are the sentence's runs. */
  lemma RunsOfJoin(ws: seq<string>)
    requires forall i :: 0 <= i < |ws| ==> ws[i] != [] && IsWord(ws[i])
    ensures Runs(Join(ws)) == ws
  {
    if ws != [] {
      var rest := Spaced(ws[1..]);
      assert forall i :: 0 <= i < |ws[1..]| ==> ws[1..][i] == ws[i + 1];
      RunsOfSpaced(ws[1..]);
      assert rest == [] || rest[0] == ' ';
      assert Join(ws) == ws[0] + rest;
      RunsOfWord(ws[0], rest);
    }
  }

  /**
   * A stopword repeated straight after itself survives its second time, since
   * the first match took the blank the second would need.
   */
  lemma RepeatedStopword(a: string, x: string)
    requires a in Stopwords
    requires x != [] && IsWord(x) && x !in Stopwords
    ensures TokenRule(Join([a, a, x])) == [ToLower(a), ToLower(x)]
  {
    StopwordsAreWords();
    RunsOfJoin([a, a, x]);
    assert [a, a, x][1..] == [a, x] && [a, x][1..] == [x];
    assert Kept([a, a, x], false) == Kept([a, x], true);
    assert Kept([a, x], true) == [a] + Kept([x], false);
    assert Kept([x], false) == [x];
  }

  /** Of two words, a stopword and another word, only the stopword goes. */
  lemma KeptAroundStopword(h: string, w: string, a: string, x: string)
    requires forall r :: r in [h, w, a, x] ==> r != [] && IsWord(r)
    requires h !in Stopwords && w !in Stopwords && a in Stopwords && x !in Stopwords
    ensures TokenRule(Join([h, w, a, x])) == [ToLower(h), ToLower(w), ToLower(x)]
  {
    var runs := [h, w, a, x];
    assert forall i :: 0 <= i < |runs| ==> runs[i] in runs;
    RunsOfJoin(runs);
    assert runs[1..] == [w, a, x] && runs[1..][1..] == [a, x] && runs[1..][1..][1..] == [x];
    assert Kept(runs, false) == [h] + Kept([w, a, x], false);
    assert Kept([w, a, x], false) == [w] + Kept([a, x], false);
    assert Kept([a, x], false) == Kept([x], true) == [x];
  }

  /**
   * Stopwords are matched case-sensitively: in "He is a <x>" the capitalised
   * "He" is kept (and lower-cased), "is" is not a stopword, and "a" goes.
   */
  lemma StopwordsCaseSensitive(x: string)
    requires x != [] && IsWord(x) && x !in Stopwords
    ensures TokenRule(Join(["He", "is", "a", x])) == ["he", "is", ToLower(x)]
  {
    assert "He" !in Stopwords && "is" !in Stopwords && "a" in Stopwords;
    assert ToLower("He") == "he" && ToLower("is") == "is";
    KeptAroundStopword("He", "is", "a", x);
  }

  /** `Tokenize`: the two replacements, the field split, then lower-casing each field in place. */
  method Tokenize(sentence: string) returns (fields: seq<string>)
    ensures fields == TokenRule(sentence)
    ensures forall t :: t in fields ==> t != [] && forall i :: 0 <= i < |t| ==> IsTokenChar(t[i])
  {
    var alphanumericOnly := ReplaceNonWord(sentence);
    var withoutStopwords := RemoveStopwords(" " + alphanumericOnly + " ");
    fields := Fields(withoutStopwords);
    PipelineIsRunRule(sentence);
    ghost var original := fields;
    for i := 0 to |fields|
      invariant |fields| == |original|
      invariant forall k :: 0 <= k < i ==> fields[k] == ToLower(original[k])
      invariant forall k :: i <= k < |fields| ==> fields[k] == original[k]
    {
      fields := fields[i := ToLower(fields[i])];
    }
    TokensWellFormed(sentence);
  }
}
