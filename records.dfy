/**
 * One line of a WordNet database file, already split into fields, turned
 * into a record: an index line (`lemma pos synset_cnt p_cnt [ptr_symbol...]
 * sense_cnt tagsense_cnt synset_offset...`) into a word and its synset
 * offsets, a data line (`synset_offset lex_filenum ss_type w_cnt word lex_id
 * ...`) into an offset and its words, as the wndb(5WN) manual page lays them
 * out. A failure stands for the loader's `log.Fatal` and for Go's
 * index-out-of-range panics.
 */
module Records {
  import opened Strconv
  import opened GoStrings

  /** What the loader keeps of an index line. */
  datatype IndexRecord = IndexRecord(word: string, offsets: seq<nat>)

  /** What the loader keeps of a data line. */
  datatype DataRecord = DataRecord(offset: nat, words: seq<string>)

  /**
   * Why a load stops: a database file that cannot be opened, a numeric
   * field `strconv` rejects (`log.Fatal`), or an index or slice bound Go
   * refuses at run time (a panic).
   */
  datatype LoadError = MissingFile(name: string) | BadNumber | OutOfRange

  datatype Result<+T> = Success(value: T) | Failure(error: LoadError)

  /** `strings.HasPrefix(line, "  ")`: the database's license header lines, which the loader skips. */
  predicate IsHeaderLine(line: string) {
    |line| >= 2 && line[..2] == "  "
  }

  /** Every field is a decimal number that fits in 32 bits. */
  predicate AllDecimal(fs: seq<string>) {
    forall i :: 0 <= i < |fs| ==> ParseUint(fs[i], 10).Parsed?
  }

  function Min(a: nat, b: nat): nat { if a <= b then a else b }

  /**
   * The index-line branch of the load loop. `synset_cnt` (field 2) sizes the
   * offset list, and its parse error is lost, so a bad count reads as Go's
   * error value. `p_cnt` (field 3) must parse. The offsets are the fields from
   * `6 + p_cnt` on; each is parsed before it is stored, so a bad one at a slot
   * up to and including `synset_cnt` is a `BadNumber`, and a well-formed one
   * past the end of the list is an `OutOfRange`. Slots with no field stay 0.
   */
  function IndexRecordOf(fields: seq<string>): Result<IndexRecord> {
    if |fields| < 4 then Failure(OutOfRange)
    else
      var n := ParseUint(fields[2], 10).Value();
      match ParseUint(fields[3], 10)
      case Parsed(p) =>
        if 6 + p > |fields| then Failure(OutOfRange)
        else (
          match IndexOffsets(fields[6 + p..], n)
          case Success(offsets) => Success(IndexRecord(fields[0], offsets))
          case Failure(e) => Failure(e))
      case _ => Failure(BadNumber)
  }

  /**
   * The offset list of an index line, from the fields after the pointer
   * symbols and the two sense counts, into `n` slots.
   */
  function IndexOffsets(tail: seq<string>, n: nat): Result<seq<nat>> {
    if !AllDecimal(tail[..Min(|tail|, n + 1)]) then Failure(BadNumber)
    else if |tail| > n then Failure(OutOfRange)
    else Success(seq(n, i requires 0 <= i < n => if i < |tail| then ParseUint(tail[i], 10).value else 0))
  }

  /** A malformed offset within the first `n + 1` stops the line with a bad number. */
  lemma BadOffsetAt(tail: seq<string>, n: nat, i: nat)
    requires i < |tail| && i <= n
    requires !ParseUint(tail[i], 10).Parsed?
    ensures IndexOffsets(tail, n) == Failure(BadNumber)
  {
    assert tail[..Min(|tail|, n + 1)][i] == tail[i];
  }

  /** Offsets that all parse and fit the `n` slots fill them, the rest staying 0. */
  lemma OffsetsFit(tail: seq<string>, n: nat)
    requires |tail| <= n && AllDecimal(tail)
    ensures IndexOffsets(tail, n)
         == Success(seq(n, i requires 0 <= i < n => if i < |tail| then ParseUint(tail[i], 10).value else 0))
  {
    assert tail[..Min(|tail|, n + 1)] == tail;
  }

  /** A well-formed offset past the `n` slots stops the line out of range. */
  lemma OffsetPastEnd(tail: seq<string>, n: nat)
    requires n < |tail|
    requires AllDecimal(tail[..n]) && ParseUint(tail[n], 10).Parsed?
    ensures IndexOffsets(tail, n) == Failure(OutOfRange)
  {
    assert tail[..Min(|tail|, n + 1)] == tail[..n] + [tail[n]];
  }

  /**
   * The data-line branch of the load loop. The offset (field 0) is decimal,
   * the word count `w_cnt` (field 3) hexadecimal, and the words are fields
   * 4, 6, ..., taken through the slice `fields[4 : 3 + 2*w_cnt]`: that slice
   * needs `1 <= w_cnt` and `3 + 2*w_cnt <= |fields|`.
   */
  function DataRecordOf(fields: seq<string>): Result<DataRecord> {
    if |fields| == 0 then Failure(OutOfRange)
    else
      match ParseUint(fields[0], 10)
      case Parsed(offset) =>
        if |fields| < 4 then Failure(OutOfRange)
        else (
          match ParseUint(fields[3], 16)
          case Parsed(w) =>
            if 3 + 2 * w < 4 || 3 + 2 * w > |fields| then Failure(OutOfRange)
            else Success(DataRecord(offset, seq(w, k requires 0 <= k < w => fields[4 + 2 * k])))
          case _ => Failure(BadNumber))
      case _ => Failure(BadNumber)
  }

  /**
   * Parses an index line, filling the offset array slot by slot as the
   * source does.
   */
  method ParseIndexLine(fields: seq<string>) returns (r: Result<IndexRecord>)
    ensures r == IndexRecordOf(fields)
  {
    if |fields| < 4 {
      return Failure(OutOfRange);
    }
    var word := fields[0];
    var synsetCnt := ParseUint(fields[2], 10).Value();
    var ptrCnt := ParseUint(fields[3], 10);
    if !ptrCnt.Parsed? {
      return Failure(BadNumber);
    }
    if 6 + ptrCnt.value > |fields| {
      return Failure(OutOfRange);
    }
    var synsetIndices := new nat[synsetCnt](_ => 0);
    var tail := fields[6 + ptrCnt.value..];
    var i := 0;
    while i < |tail|
      invariant i <= |tail| && i <= synsetCnt
      invariant AllDecimal(tail[..i])
      invariant forall k :: 0 <= k < i ==> synsetIndices[k] == ParseUint(tail[k], 10).value
      invariant forall k :: i <= k < synsetCnt ==> synsetIndices[k] == 0
    {
      var wideIndex := ParseUint(tail[i], 10);
      if !wideIndex.Parsed? {
        BadOffsetAt(tail, synsetCnt, i);
        return Failure(BadNumber);
      }
      if i >= synsetCnt {
        OffsetPastEnd(tail, synsetCnt);
        return Failure(OutOfRange);
      }
      synsetIndices[i] := wideIndex.value;
      assert tail[..i + 1] == tail[..i] + [tail[i]];
      i := i + 1;
    }
    assert tail[..i] == tail;
    OffsetsFit(tail, synsetCnt);
    assert synsetIndices[..] == seq(synsetCnt, k requires 0 <= k < synsetCnt =>
      if k < |tail| then ParseUint(tail[k], 10).value else 0);
    return Success(IndexRecord(word, synsetIndices[..]));
  }

  /**
   * Parses a data line, walking the slice `fields[4 : 3 + 2*w_cnt]` and
   * keeping every other field, as the source does.
   */
  method ParseDataLine(fields: seq<string>) returns (r: Result<DataRecord>)
    ensures r == DataRecordOf(fields)
  {
    if |fields| == 0 {
      return Failure(OutOfRange);
    }
    var synsetOffset := ParseUint(fields[0], 10);
    if !synsetOffset.Parsed? {
      return Failure(BadNumber);
    }
    if |fields| < 4 {
      return Failure(OutOfRange);
    }
    var wordCnt := ParseUint(fields[3], 16);
    if !wordCnt.Parsed? {
      return Failure(BadNumber);
    }
    var w := wordCnt.value;
    if 3 + 2 * w < 4 || 3 + 2 * w > |fields| {
      return Failure(OutOfRange);
    }
    var words := new string[w](_ => "");
    var span := fields[4..3 + 2 * w];
    for i := 0 to |span|
      invariant forall k :: 0 <= k < (i + 1) / 2 ==> words[k] == fields[4 + 2 * k]
    {
      if i % 2 == 0 {
        words[i / 2] := span[i];
      }
    }
    assert words[..] == seq(w, k requires 0 <= k < w => fields[4 + 2 * k]);
    return Success(DataRecord(synsetOffset.value, words[..]));
  }

  /**
   * A successful index line has a well-formed pointer count `p_cnt` and at
   * most `synset_cnt` offset fields after the pointer symbols and the two
   * sense counts. It yields `synset_cnt` offsets: offset i is the decimal
   * value of field `6 + p_cnt + i`, and 0 where the line has no such field.
   */
  lemma IndexRecordShape(fields: seq<string>)
    requires IndexRecordOf(fields).Success?
    ensures |fields| >= 4 && ParseUint(fields[3], 10).Parsed?
    ensures var p := ParseUint(fields[3], 10).value;
      var rec := IndexRecordOf(fields).value;
      && rec.word == fields[0]
      && |rec.offsets| == ParseUint(fields[2], 10).Value()
      && 6 + p <= |fields| <= 6 + p + |rec.offsets|
      && forall i :: 0 <= i < |rec.offsets| ==>
           && rec.offsets[i] <= MaxUint32
           && (6 + p + i < |fields| ==>
                 AllDigits(fields[6 + p + i], 10) && rec.offsets[i] == NumeralValue(fields[6 + p + i], 10))
           && (6 + p + i >= |fields| ==> rec.offsets[i] == 0)
  {
    var p := ParseUint(fields[3], 10).value;
    var tail := fields[6 + p..];
    forall i | 0 <= i < |tail|
      ensures fields[6 + p + i] == tail[i]
      ensures AllDigits(tail[i], 10) && ParseUint(tail[i], 10).value == NumeralValue(tail[i], 10) <= MaxUint32
    {
      assert tail[..|tail|][i] == tail[i];
      ParseUintMeaning(tail[i], 10);
    }
  }

  /**
   * A successful data line yields the decimal value of field 0 as its offset
   * and as many words as the hexadecimal value of field 3 says, at least
   * one; word k is field `4 + 2k`, all inside the line.
   */
  lemma DataRecordShape(fields: seq<string>)
    requires DataRecordOf(fields).Success?
    ensures |fields| >= 4
    ensures var rec := DataRecordOf(fields).value;
      && AllDigits(fields[0], 10) && rec.offset == NumeralValue(fields[0], 10) <= MaxUint32
      && AllDigits(fields[3], 16) && |rec.words| == NumeralValue(fields[3], 16)
      && 1 <= |rec.words| && 3 + 2 * |rec.words| <= |fields|
      && forall k :: 0 <= k < |rec.words| ==> rec.words[k] == fields[4 + 2 * k]
  {
    ParseUintMeaning(fields[0], 10);
    ParseUintMeaning(fields[3], 16);
  }

  /**
   * The parse error of `synset_cnt` is overwritten before it is checked: a
   * count that is not a number acts as the count 0.
   */
  lemma SynsetCountUnchecked(fields: seq<string>)
    requires |fields| >= 3 && ParseUint(fields[2], 10) == SyntaxError
    ensures IndexRecordOf(fields) == IndexRecordOf(fields[2 := "0"])
  {
    var zeroed := fields[2 := "0"];
    assert ParseUint("0", 10) == Parsed(0);
    if |fields| >= 4 && ParseUint(fields[3], 10).Parsed? {
      var p := ParseUint(fields[3], 10).value;
      if 6 + p <= |fields| {
        assert zeroed[6 + p..] == fields[6 + p..];
      }
    }
  }

  /**
   * With a count that is not a number, an index line loads exactly when no
   * offset field follows, and then with no offsets: the first offset field
   * already overflows the empty list (or does not parse).
   */
  lemma SynsetCountAsZero(fields: seq<string>)
    requires |fields| >= 4 && ParseUint(fields[2], 10) == SyntaxError
    requires ParseUint(fields[3], 10).Parsed? && 6 + ParseUint(fields[3], 10).value <= |fields|
    ensures IndexRecordOf(fields).Success? <==> 6 + ParseUint(fields[3], 10).value == |fields|
    ensures IndexRecordOf(fields).Success? ==> IndexRecordOf(fields).value == IndexRecord(fields[0], [])
  {
    var tail := fields[6 + ParseUint(fields[3], 10).value..];
    if tail != [] {
      if ParseUint(tail[0], 10).Parsed? {
        OffsetPastEnd(tail, 0);
      } else {
        BadOffsetAt(tail, 0, 0);
      }
    } else {
      OffsetsFit(tail, 0);
    }
  }

  /** A data line with no words is refused: the word slice would end before it starts. */
  lemma EmptySynsetRefused(fields: seq<string>)
    requires |fields| >= 4
    requires ParseUint(fields[0], 10).Parsed?
    requires ParseUint(fields[3], 16) == Parsed(0)
    ensures DataRecordOf(fields) == Failure(OutOfRange)
  {
  }
}
