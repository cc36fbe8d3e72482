/**
 * The in-memory WordNet: the two maps `Initialize` builds from the eight
 * database files, and the synonym lookup that joins them.
 */
module Synsets {
  import opened GoStrings
  import opened Records
  import opened Deduplication

  /** The eight database files, in the order the loader reads them. */
  const DictFiles: seq<string> :=
    ["index.adj", "index.adv", "index.noun", "index.verb", "data.adj", "data.adv", "data.noun", "data.verb"]

  /** `strings.HasPrefix(filename, "index")`: an index file rather than a data file. */
  predicate IsIndexFile(name: string) {
    |name| >= 5 && name[..5] == "index"
  }

  /** The value of the two maps: word to synset offsets, synset offset to words. */
  datatype Tables = Tables(index: map<string, seq<nat>>, data: map<nat, seq<string>>)

  const Empty := Tables(map[], map[])

  /** One line of one database file, with the kind of file it came from. */
  datatype SourceLine = SourceLine(inIndexFile: bool, text: string)

  /** The lines of one file, each marked with the file's kind. */
  function Tag(inIndexFile: bool, lines: seq<string>): (r: seq<SourceLine>)
    ensures |r| == |lines|
  {
    seq(|lines|, i requires 0 <= i < |lines| => SourceLine(inIndexFile, lines[i]))
  }

  /**
   * One pass of the inner loop: a header line changes nothing; an index line
   * sets its word's offsets and a data line its offset's words, replacing
   * whatever was there.
   */
  function LoadLine(t: Tables, line: SourceLine): Result<Tables> {
    if IsHeaderLine(line.text) then Success(t)
    else if line.inIndexFile then
      match IndexRecordOf(Fields(line.text))
      case Success(rec) => Success(t.(index := t.index[rec.word := rec.offsets]))
      case Failure(e) => Failure(e)
    else
      match DataRecordOf(Fields(line.text))
      case Success(rec) => Success(t.(data := t.data[rec.offset := rec.words]))
      case Failure(e) => Failure(e)
  }

  /** The lines applied in order; the first failure ends the load. */
  function LoadLines(t: Tables, lines: seq<SourceLine>): Result<Tables> {
    if lines == [] then Success(t)
    else
      match LoadLines(t, lines[..|lines| - 1])
      case Success(t') => LoadLine(t', lines[|lines| - 1])
      case Failure(e) => Failure(e)
  }

  /** Continue a load with more lines, unless it has already failed. */
  function Then(r: Result<Tables>, lines: seq<SourceLine>): Result<Tables> {
    match r
    case Success(t) => LoadLines(t, lines)
    case Failure(e) => Failure(e)
  }

  /** One file: opening a missing file is fatal; otherwise its lines are applied. */
  function LoadFile(t: Tables, dict: map<string, seq<string>>, name: string): Result<Tables> {
    if name !in dict then Failure(MissingFile(name))
    else LoadLines(t, Tag(IsIndexFile(name), dict[name]))
  }

  /** The files applied in order; the first failure ends the load. */
  function LoadFiles(t: Tables, dict: map<string, seq<string>>, names: seq<string>): Result<Tables> {
    if names == [] then Success(t)
    else
      match LoadFiles(t, dict, names[..|names| - 1])
      case Success(t') => LoadFile(t', dict, names[|names| - 1])
      case Failure(e) => Failure(e)
  }

  /** What `Initialize` builds from the database directory, given as a map from file name to lines. */
  function Load(dict: map<string, seq<string>>): Result<Tables> {
    LoadFiles(Empty, dict, DictFiles)
  }

  /** Every line of the named files, file after file. */
  function Stream(dict: map<string, seq<string>>, names: seq<string>): seq<SourceLine>
    requires forall n :: n in names ==> n in dict
  {
    if names == [] then []
    else
      var name := names[|names| - 1];
      Stream(dict, names[..|names| - 1]) + Tag(IsIndexFile(name), dict[name])
  }

  /** Loading in two pieces is loading the whole. */
  lemma {:induction false} LoadLinesAppend(t: Tables, a: seq<SourceLine>, b: seq<SourceLine>)
    ensures LoadLines(t, a + b) == Then(LoadLines(t, a), b)
  {
    if b == [] {
      assert a + b == a;
    } else {
      var b' := b[..|b| - 1];
      assert (a + b)[..|a + b| - 1] == a + b';
      assert (a + b)[|a + b| - 1] == b[|b| - 1];
      LoadLinesAppend(t, a, b');
    }
  }

  /** A load that has failed stays failed with the same error: there is no partial result. */
  lemma LoadFailurePersists(t: Tables, a: seq<SourceLine>, b: seq<SourceLine>)
    requires LoadLines(t, a).Failure?
    ensures LoadLines(t, a + b) == LoadLines(t, a)
  {
    LoadLinesAppend(t, a, b);
  }

  /** Loading one more line of a file continues the load of the lines before it. */
  lemma LoadLinesStep(t: Tables, inIndexFile: bool, lines: seq<string>, l: nat)
    requires l < |lines|
    ensures LoadLines(t, Tag(inIndexFile, lines[..l + 1]))
         == match LoadLines(t, Tag(inIndexFile, lines[..l]))
            case Success(t') => LoadLine(t', SourceLine(inIndexFile, lines[l]))
            case Failure(e) => Failure(e)
  {
    var upTo := Tag(inIndexFile, lines[..l + 1]);
    assert upTo[..l] == Tag(inIndexFile, lines[..l]);
  }

  /** A load of a file that has failed by line `l` fails the same way on the whole file. */
  lemma LoadLinesFailedEarly(t: Tables, inIndexFile: bool, lines: seq<string>, l: nat)
    requires l <= |lines|
    requires LoadLines(t, Tag(inIndexFile, lines[..l])).Failure?
    ensures LoadLines(t, Tag(inIndexFile, lines)) == LoadLines(t, Tag(inIndexFile, lines[..l]))
  {
    assert Tag(inIndexFile, lines[..l]) + Tag(inIndexFile, lines[l..]) == Tag(inIndexFile, lines);
    LoadFailurePersists(t, Tag(inIndexFile, lines[..l]), Tag(inIndexFile, lines[l..]));
  }

  /** Any non-header line that does not parse makes the whole load fail, whatever surrounds it. */
  lemma BadLineFailsLoad(t: Tables, pre: seq<SourceLine>, line: SourceLine, post: seq<SourceLine>)
    requires !IsHeaderLine(line.text)
    requires if line.inIndexFile then IndexRecordOf(Fields(line.text)).Failure?
             else DataRecordOf(Fields(line.text)).Failure?
    ensures LoadLines(t, pre + [line] + post).Failure?
  {
    LoadLinesAppend(t, pre + [line], post);
    assert (pre + [line])[..|pre|] == pre;
  }

  /** Loading one more file continues the load of the files before it. */
  lemma LoadFilesStep(t: Tables, dict: map<string, seq<string>>, names: seq<string>, f: nat)
    requires f < |names|
    ensures LoadFiles(t, dict, names[..f + 1])
         == match LoadFiles(t, dict, names[..f])
            case Success(t') => LoadFile(t', dict, names[f])
            case Failure(e) => Failure(e)
  {
    assert names[..f + 1][..f] == names[..f];
  }

  lemma {:induction false} LoadFilesFailurePersists(
    t: Tables, dict: map<string, seq<string>>, names: seq<string>, n: nat)
    requires n <= |names|
    requires LoadFiles(t, dict, names[..n]).Failure?
    ensures LoadFiles(t, dict, names) == LoadFiles(t, dict, names[..n])
    decreases |names| - n
  {
    if n < |names| {
      assert names[..n + 1][..n] == names[..n];
      LoadFilesFailurePersists(t, dict, names, n + 1);
    } else {
      assert names[..n] == names;
    }
  }

  /** With every file present, loading the files is loading all their lines in file order. */
  lemma {:induction false} LoadFilesIsStream(t: Tables, dict: map<string, seq<string>>, names: seq<string>)
    requires forall n :: n in names ==> n in dict
    ensures LoadFiles(t, dict, names) == LoadLines(t, Stream(dict, names))
  {
    if names != [] {
      var init, name := names[..|names| - 1], names[|names| - 1];
      LoadFilesIsStream(t, dict, init);
      LoadLinesAppend(t, Stream(dict, init), Tag(IsIndexFile(name), dict[name]));
    }
  }

  /** A file that cannot be opened makes the whole load fail. */
  lemma {:induction false} MissingFileFailsLoad(
    t: Tables, dict: map<string, seq<string>>, names: seq<string>, name: string)
    requires name in names && name !in dict
    ensures LoadFiles(t, dict, names).Failure?
  {
    var init := names[..|names| - 1];
    if names[|names| - 1] != name {
      assert name in init;
      MissingFileFailsLoad(t, dict, init, name);
    }
  }

  /** The words an index line of `lines` writes. */
  function IndexWrites(lines: seq<SourceLine>): set<string> {
    if lines == [] then {}
    else
      var l := lines[|lines| - 1];
      var rec := IndexRecordOf(Fields(l.text));
      IndexWrites(lines[..|lines| - 1])
        + (if l.inIndexFile && !IsHeaderLine(l.text) && rec.Success? then {rec.value.word} else {})
  }

  /** The offsets a data line of `lines` writes. */
  function DataWrites(lines: seq<SourceLine>): set<nat> {
    if lines == [] then {}
    else
      var l := lines[|lines| - 1];
      var rec := DataRecordOf(Fields(l.text));
      DataWrites(lines[..|lines| - 1])
        + (if !l.inIndexFile && !IsHeaderLine(l.text) && rec.Success? then {rec.value.offset} else {})
  }

  /** A word no line writes keeps its entry (or its absence). */
  lemma {:induction false} UnwrittenWordKept(t: Tables, lines: seq<SourceLine>, w: string)
    requires LoadLines(t, lines).Success?
    requires w !in IndexWrites(lines)
    ensures var t' := LoadLines(t, lines).value;
      (w in t'.index <==> w in t.index) && (w in t.index ==> t'.index[w] == t.index[w])
  {
    if lines != [] {
      UnwrittenWordKept(t, lines[..|lines| - 1], w);
    }
  }

  /** An offset no line writes keeps its entry (or its absence); index files leave the data map alone. */
  lemma {:induction false} UnwrittenOffsetKept(t: Tables, lines: seq<SourceLine>, o: nat)
    requires LoadLines(t, lines).Success?
    requires o !in DataWrites(lines)
    ensures var t' := LoadLines(t, lines).value;
      (o in t'.data <==> o in t.data) && (o in t.data ==> t'.data[o] == t.data[o])
  {
    if lines != [] {
      UnwrittenOffsetKept(t, lines[..|lines| - 1], o);
    }
  }

  /** The last index line for a word decides its offsets. */
  lemma IndexLastWriterWins(t: Tables, pre: seq<SourceLine>, line: SourceLine, post: seq<SourceLine>)
    requires line.inIndexFile && !IsHeaderLine(line.text)
    requires IndexRecordOf(Fields(line.text)).Success?
    requires IndexRecordOf(Fields(line.text)).value.word !in IndexWrites(post)
    requires LoadLines(t, pre + [line] + post).Success?
    ensures var rec := IndexRecordOf(Fields(line.text)).value;
      var t' := LoadLines(t, pre + [line] + post).value;
      rec.word in t'.index && t'.index[rec.word] == rec.offsets
  {
    LoadLinesAppend(t, pre + [line], post);
    assert (pre + [line])[..|pre|] == pre;
    var mid := LoadLines(t, pre + [line]).value;
    UnwrittenWordKept(mid, post, IndexRecordOf(Fields(line.text)).value.word);
  }

  /** The last data line for an offset decides its words. */
  lemma DataLastWriterWins(t: Tables, pre: seq<SourceLine>, line: SourceLine, post: seq<SourceLine>)
    requires !line.inIndexFile && !IsHeaderLine(line.text)
    requires DataRecordOf(Fields(line.text)).Success?
    requires DataRecordOf(Fields(line.text)).value.offset !in DataWrites(post)
    requires LoadLines(t, pre + [line] + post).Success?
    ensures var rec := DataRecordOf(Fields(line.text)).value;
      var t' := LoadLines(t, pre + [line] + post).value;
      rec.offset in t'.data && t'.data[rec.offset] == rec.words
  {
    LoadLinesAppend(t, pre + [line], post);
    assert (pre + [line])[..|pre|] == pre;
    var mid := LoadLines(t, pre + [line]).value;
    UnwrittenOffsetKept(mid, post, DataRecordOf(Fields(line.text)).value.offset);
  }

  /** The words of one synset, nothing for an offset the data map lacks. */
  function Lookup(data: map<nat, seq<string>>, o: nat): seq<string> {
    if o in data then data[o] else []
  }

  /** The words of the given synsets, synset after synset. */
  function Gathered(data: map<nat, seq<string>>, offsets: seq<nat>): seq<string> {
    if offsets == [] then []
    else Gathered(data, offsets[..|offsets| - 1]) + Lookup(data, offsets[|offsets| - 1])
  }

  /** The offsets of a word, none for a word the index lacks. */
  function OffsetsOf(t: Tables, word: string): seq<nat> {
    if word in t.index then t.index[word] else []
  }

  /** What `SynonymsForWord` returns. */
  function SynonymsOf(t: Tables, word: string): seq<string> {
    FirstOccurrences(Gathered(t.data, OffsetsOf(t, word)))
  }

  lemma {:induction false} GatheredAppend(data: map<nat, seq<string>>, a: seq<nat>, b: seq<nat>)
    ensures Gathered(data, a + b) == Gathered(data, a) + Gathered(data, b)
  {
    if b == [] {
      assert a + b == a;
    } else {
      var b' := b[..|b| - 1];
      assert (a + b)[..|a + b| - 1] == a + b';
      assert (a + b)[|a + b| - 1] == b[|b| - 1];
      GatheredAppend(data, a, b');
    }
  }

  /** An offset missing from the data map contributes nothing. */
  lemma DanglingOffsetIgnored(data: map<nat, seq<string>>, a: seq<nat>, o: nat, b: seq<nat>)
    requires o !in data
    ensures Gathered(data, a + [o] + b) == Gathered(data, a + b)
  {
    GatheredAppend(data, a + [o], b);
    GatheredAppend(data, a, b);
    assert (a + [o])[..|a|] == a;
  }

  /** A word is gathered exactly when some listed synset present in the data map holds it. */
  lemma {:induction false} GatheredMembership(data: map<nat, seq<string>>, offsets: seq<nat>, x: string)
    ensures x in Gathered(data, offsets) <==> exists o :: o in offsets && o in data && x in data[o]
  {
    if offsets != [] {
      var init, last := offsets[..|offsets| - 1], offsets[|offsets| - 1];
      GatheredMembership(data, init, x);
      if x in Gathered(data, offsets) {
        if x !in Gathered(data, init) {
          assert last in offsets && last in data && x in data[last];
        } else {
          var o :| o in init && o in data && x in data[o];
          assert o in offsets;
        }
      } else {
        forall o | o in offsets && o in data ensures x !in data[o] {
          if o != last {
            var i :| 0 <= i < |offsets| && offsets[i] == o;
            assert init[i] == o;
          }
        }
      }
    }
  }

  /**
   * The synonyms of a word are every word of every synset the index lists for
   * it and the data map holds, each once, in the order of first appearance
   * (offsets in index order, words in data order).
   */
  lemma SynonymsOfMeaning(t: Tables, word: string)
    ensures var r := SynonymsOf(t, word);
      && NoDup(r)
      && (forall x :: x in r <==> x in Gathered(t.data, OffsetsOf(t, word)))
      && (forall x :: x in r <==>
            word in t.index && exists o :: o in t.index[word] && o in t.data && x in t.data[o])
      && (forall i, j :: 0 <= i < j < |r| ==>
            FirstIndex(Gathered(t.data, OffsetsOf(t, word)), r[i])
              < FirstIndex(Gathered(t.data, OffsetsOf(t, word)), r[j]))
  {
    var g := Gathered(t.data, OffsetsOf(t, word));
    FirstOccurrencesElements(g);
    FirstOccurrencesOrder(g);
    forall x ensures x in g <==> exists o :: o in OffsetsOf(t, word) && o in t.data && x in t.data[o] {
      GatheredMembership(t.data, OffsetsOf(t, word), x);
    }
  }

  /** The in-memory database, filled once by `Initialize` and then only read. */
  class Synsets {
    var index: map<string, seq<nat>>
    var data: map<nat, seq<string>>

    constructor ()
      ensures index == map[] && data == map[]
    {
      index := map[];
      data := map[];
    }

    function Contents(): Tables
      reads this
    {
      Tables(index, data)
    }

    /**
     * The synonyms of `word`: the words of its synsets, concatenated in index
     * order and deduplicated. An unknown word gives an empty result.
     */
    method SynonymsForWord(word: string) returns (synonyms: seq<string>)
      ensures synonyms == SynonymsOf(Contents(), word)
      ensures word !in index ==> synonyms == []
      ensures NoDup(synonyms)
      ensures forall x :: x in synonyms <==>
                word in index && exists o :: o in index[word] && o in data && x in data[o]
    {
      var sliceOfOffsets := if word in index then index[word] else [];
      var allOffsets: seq<string> := [];
      for i := 0 to |sliceOfOffsets|
        invariant allOffsets == Gathered(data, sliceOfOffsets[..i])
      {
        assert sliceOfOffsets[..i + 1][..i] == sliceOfOffsets[..i];
        allOffsets := allOffsets + Lookup(data, sliceOfOffsets[i]);
      }
      assert sliceOfOffsets[..|sliceOfOffsets|] == sliceOfOffsets;
      synonyms := DeDup(allOffsets);
      SynonymsOfMeaning(Contents(), word);
    }
  }

  /**
   * The inner loop of `Initialize` over the lines of one file: header lines
   * are skipped, every other line is parsed and stored into `synsets`,
   * replacing what was there. The outcome is that of loading the lines.
   */
  method ScanFile(synsets: Synsets, isIndexFile: bool, lines: seq<string>) returns (outcome: Result<Tables>)
    modifies synsets
    ensures outcome == LoadLines(old(synsets.Contents()), Tag(isIndexFile, lines))
    ensures outcome.Success? ==> outcome.value == synsets.Contents()
  {
    ghost var before := synsets.Contents();
    for l := 0 to |lines|
      invariant LoadLines(before, Tag(isIndexFile, lines[..l])) == Success(synsets.Contents())
    {
      var line := lines[l];
      LoadLinesStep(before, isIndexFile, lines, l);
      if IsHeaderLine(line) {
        continue;
      }
      var fields := Fields(line);
      if isIndexFile {
        var rec := ParseIndexLine(fields);
        if rec.Failure? {
          LoadLinesFailedEarly(before, isIndexFile, lines, l + 1);
          return Failure(rec.error);
        }
        synsets.index := synsets.index[rec.value.word := rec.value.offsets];
      } else {
        var rec := ParseDataLine(fields);
        if rec.Failure? {
          LoadLinesFailedEarly(before, isIndexFile, lines, l + 1);
          return Failure(rec.error);
        }
        synsets.data := synsets.data[rec.value.offset := rec.value.words];
      }
    }
    assert lines[..|lines|] == lines;
    return Success(synsets.Contents());
  }

  /**
   * `Initialize` with the database directory given as a map from file name
   * to lines: reads the eight files in order, feeding every non-header line
   * to the index or data parser, and either returns the filled maps or the
   * first failure, with no partial result.
   */
  method Initialize(dict: map<string, seq<string>>) returns (r: Result<Synsets>)
    ensures r.Success? ==> fresh(r.value) && Load(dict) == Success(r.value.Contents())
    ensures r.Failure? ==> Load(dict) == Failure(r.error)
  {
    var synsets := new Synsets();
    for f := 0 to |DictFiles|
      invariant LoadFiles(Empty, dict, DictFiles[..f]) == Success(synsets.Contents())
    {
      var filename := DictFiles[f];
      LoadFilesStep(Empty, dict, DictFiles, f);
      if filename !in dict {
        LoadFilesFailurePersists(Empty, dict, DictFiles, f + 1);
        return Failure(MissingFile(filename));
      }
      var outcome := ScanFile(synsets, IsIndexFile(filename), dict[filename]);
      if outcome.Failure? {
        LoadFilesFailurePersists(Empty, dict, DictFiles, f + 1);
        return Failure(outcome.error);
      }
    }
    assert DictFiles[..|DictFiles|] == DictFiles;
    return Success(synsets);
  }
}
