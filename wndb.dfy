/**
 * Writers for index and data lines in the layout of the wndb(5WN) manual
 * page. They are the inverse the parsers are checked against: a written
 * line reads back as the record it was written from.
 */
module Wndb {
  import opened Strconv
  import opened GoStrings
  import opened Records

  /** Everything an index line carries. */
  datatype IndexEntry = IndexEntry(
    headword: string, pos: string, ptrSymbols: seq<string>, tagsenseCnt: nat, offsets: seq<nat>)

  /** Everything a data line carries up to and including its pointer count and the rest of the line. */
  datatype DataEntry = DataEntry(
    offset: nat, lexFilenum: nat, ssType: string, words: seq<string>, lexIds: seq<nat>, rest: seq<string>)

  function Decimals(ns: seq<nat>): (r: seq<string>)
    ensures |r| == |ns|
  {
    seq(|ns|, i requires 0 <= i < |ns| => Numeral(ns[i], 10))
  }

  /** `lemma pos synset_cnt p_cnt [ptr_symbol...] sense_cnt tagsense_cnt synset_offset...` */
  function IndexFields(e: IndexEntry): seq<string> {
    var n := Numeral(|e.offsets|, 10);
    [e.headword, e.pos, n, Numeral(|e.ptrSymbols|, 10)] + e.ptrSymbols
      + [n, Numeral(e.tagsenseCnt, 10)] + Decimals(e.offsets)
  }

  /** `word lex_id word lex_id ...`, the lex ids in hexadecimal. */
  function Members(words: seq<string>, lexIds: seq<nat>): (r: seq<string>)
    requires |lexIds| == |words|
    ensures |r| == 2 * |words|
    ensures forall k :: 0 <= k < |words| ==> r[2 * k] == words[k]
  {
    if words == [] then []
    else
      var tail := Members(words[1..], lexIds[1..]);
      var r := [words[0], Numeral(lexIds[0], 16)] + tail;
      assert forall k :: 1 <= k < |words| ==> r[2 * k] == tail[2 * (k - 1)];
      r
  }

  /** `synset_offset lex_filenum ss_type w_cnt word lex_id [word lex_id...] rest...` */
  function DataFields(e: DataEntry): seq<string>
    requires |e.lexIds| == |e.words|
  {
    [Numeral(e.offset, 10), Numeral(e.lexFilenum, 10), e.ssType, Numeral(|e.words|, 16)]
      + Members(e.words, e.lexIds) + e.rest
  }

  /** Reading an index line's fields gives back its headword and its offsets. */
  lemma IndexFieldsRoundTrip(e: IndexEntry)
    requires |e.offsets| <= MaxUint32 && |e.ptrSymbols| <= MaxUint32
    requires forall i :: 0 <= i < |e.offsets| ==> e.offsets[i] <= MaxUint32
    ensures IndexRecordOf(IndexFields(e)) == Success(IndexRecord(e.headword, e.offsets))
  {
    var fields := IndexFields(e);
    var n, p := |e.offsets|, |e.ptrSymbols|;
    ParseNumeral(n, 10);
    ParseNumeral(p, 10);
    assert fields[2] == Numeral(n, 10) && fields[3] == Numeral(p, 10);
    var tail := fields[6 + p..];
    assert tail == Decimals(e.offsets);
    forall i | 0 <= i < n
      ensures ParseUint(tail[i], 10) == Parsed(e.offsets[i])
    {
      ParseNumeral(e.offsets[i], 10);
    }
    assert tail[..Min(|tail|, n + 1)] == tail;
    assert AllDecimal(tail);
    assert seq(n, i requires 0 <= i < n => if i < |tail| then ParseUint(tail[i], 10).value else 0)
        == e.offsets;
  }

  /** Reading a data line's fields gives back its offset and its words. */
  lemma DataFieldsRoundTrip(e: DataEntry)
    requires |e.lexIds| == |e.words|
    requires e.offset <= MaxUint32 && 1 <= |e.words| <= MaxUint32
    ensures DataRecordOf(DataFields(e)) == Success(DataRecord(e.offset, e.words))
  {
    var fields := DataFields(e);
    var w := |e.words|;
    ParseNumeral(e.offset, 10);
    ParseNumeral(w, 16);
    assert fields[0] == Numeral(e.offset, 10) && fields[3] == Numeral(w, 16);
    var ms := Members(e.words, e.lexIds);
    assert forall k :: 0 <= k < w ==> fields[4 + 2 * k] == ms[2 * k];
    assert seq(w, k requires 0 <= k < w => fields[4 + 2 * k]) == e.words;
  }

  /** Digit strings never hold a space. */
  lemma NumeralNoSpace(n: nat, base: nat)
    requires 2 <= base <= 36
    ensures NoSpace(Numeral(n, base))
  {
    var s := Numeral(n, base);
    forall i | 0 <= i < |s| ensures !IsSpace(s[i]) {
      assert DigitVal(s[i]) < base;
    }
  }

  /** A word fit to stand as one field of a line. */
  predicate IsToken(s: string) {
    s != [] && NoSpace(s)
  }

  /** The index line as text, its fields separated by single spaces. */
  function IndexLine(e: IndexEntry): string {
    Join(IndexFields(e))
  }

  /** The data line as text, its fields separated by single spaces. */
  function DataLine(e: DataEntry): string
    requires |e.lexIds| == |e.words|
  {
    Join(DataFields(e))
  }

  lemma IndexFieldsAreTokens(e: IndexEntry)
    requires IsToken(e.headword) && IsToken(e.pos)
    requires forall s :: s in e.ptrSymbols ==> IsToken(s)
    ensures forall i :: 0 <= i < |IndexFields(e)| ==> IsToken(IndexFields(e)[i])
  {
    var fields := IndexFields(e);
    NumeralNoSpace(|e.offsets|, 10);
    NumeralNoSpace(|e.ptrSymbols|, 10);
    NumeralNoSpace(e.tagsenseCnt, 10);
    forall i | 0 <= i < |e.offsets| ensures IsToken(Decimals(e.offsets)[i]) {
      NumeralNoSpace(e.offsets[i], 10);
    }
    forall i | 0 <= i < |fields| ensures IsToken(fields[i]) {
      if 4 <= i < 4 + |e.ptrSymbols| {
        assert fields[i] == e.ptrSymbols[i - 4];
      } else if 6 + |e.ptrSymbols| <= i {
        assert fields[i] == Decimals(e.offsets)[i - 6 - |e.ptrSymbols|];
      }
    }
  }

  lemma MembersAreTokens(words: seq<string>, lexIds: seq<nat>)
    requires |lexIds| == |words|
    requires forall s :: s in words ==> IsToken(s)
    ensures forall s :: s in Members(words, lexIds) ==> IsToken(s)
  {
    if words != [] {
      NumeralNoSpace(lexIds[0], 16);
      MembersAreTokens(words[1..], lexIds[1..]);
    }
  }

  /**
   * A written index line is not a header line and reads back, through the
   * field split and the index parser, as its headword and offsets.
   */
  lemma IndexLineRoundTrip(e: IndexEntry)
    requires IsToken(e.headword) && IsToken(e.pos)
    requires forall s :: s in e.ptrSymbols ==> IsToken(s)
    requires |e.offsets| <= MaxUint32 && |e.ptrSymbols| <= MaxUint32
    requires forall i :: 0 <= i < |e.offsets| ==> e.offsets[i] <= MaxUint32
    ensures !IsHeaderLine(IndexLine(e))
    ensures IndexRecordOf(Fields(IndexLine(e))) == Success(IndexRecord(e.headword, e.offsets))
  {
    IndexFieldsAreTokens(e);
    FieldsOfJoin(IndexFields(e));
    IndexFieldsRoundTrip(e);
  }

  lemma DataFieldsAreTokens(e: DataEntry)
    requires |e.lexIds| == |e.words|
    requires IsToken(e.ssType)
    requires forall s :: s in e.words ==> IsToken(s)
    requires forall s :: s in e.rest ==> IsToken(s)
    ensures forall i :: 0 <= i < |DataFields(e)| ==> IsToken(DataFields(e)[i])
  {
    var fields := DataFields(e);
    NumeralNoSpace(e.offset, 10);
    NumeralNoSpace(e.lexFilenum, 10);
    NumeralNoSpace(|e.words|, 16);
    MembersAreTokens(e.words, e.lexIds);
    var ms := Members(e.words, e.lexIds);
    forall i | 0 <= i < |fields| ensures IsToken(fields[i]) {
      if 4 <= i < 4 + |ms| {
        assert fields[i] == ms[i - 4];
      } else if 4 + |ms| <= i {
        assert fields[i] == e.rest[i - 4 - |ms|];
      }
    }
  }

  /**
   * A written data line is not a header line and reads back, through the
   * field split and the data parser, as its offset and words.
   */
  lemma DataLineRoundTrip(e: DataEntry)
    requires |e.lexIds| == |e.words|
    requires IsToken(e.ssType)
    requires forall s :: s in e.words ==> IsToken(s)
    requires forall s :: s in e.rest ==> IsToken(s)
    requires e.offset <= MaxUint32 && 1 <= |e.words| <= MaxUint32
    ensures !IsHeaderLine(DataLine(e))
    ensures DataRecordOf(Fields(DataLine(e))) == Success(DataRecord(e.offset, e.words))
  {
    DataFieldsAreTokens(e);
    FieldsOfJoin(DataFields(e));
    DataFieldsRoundTrip(e);
  }
}
