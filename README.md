# WordNet synonyms: a Dafny model

This project models the WordNet package of the `synonyms` service. That
package loads the WordNet database into two maps:

- `Index`: a word to the byte offsets of its synsets.
- `Data`: a synset offset to the words of that synset.

It then answers `SynonymsForWord` from those maps and splits sentences into
lower-cased tokens with `Tokenize`.

The model has these modules:

- `GoStrings` (`go_strings.dfy`): Go's `strings.Fields`, and a `Join` writer as its inverse.
- `Strconv` (`strconv.dfy`): `strconv.ParseUint` with a 32-bit size, Go's error values and a numeral writer as its inverse.
- `Records` (`records.dfy`): the index-line and data-line branches of the load loop.
  - Each branch is a specification function (`IndexRecordOf`, `DataRecordOf`).
  - Each also has a method that fills a Go slice as an `array`, slot by slot, as the source does (`ParseIndexLine`, `ParseDataLine`).
- `Wndb` (`wndb.dfy`): writers for index and data lines in the wndb(5WN) layout. They are the inverses the parsers round-trip against.
- `Deduplication` (`dedup.dfy`): `deDup` and the first-occurrence function that specifies it.
- `Synsets` (`synsets.dfy`): the `Synsets` class with its two maps, `Initialize` and `SynonymsForWord`.
  - `Load` is the load expressed as a fold over files and lines.
  - Lemmas cover failure propagation, last-writer-wins and the meaning of a lookup.
- `Tokenizer` (`tokenize.dfy`): the two regular expressions of `Tokenize`, modelled for their fixed patterns with RE2's semantics.
  - The main theorem is `PipelineIsRunRule`. It shows that the pipeline keeps the maximal runs of word characters, in order.
  - A run is dropped exactly when it is a stopword and the run before it was not dropped.

A load error stands for both of the loader's ways of stopping:

- `BadNumber` and `MissingFile` are `log.Fatal`.
- `OutOfRange` is a Go index or slice panic.

Some behaviours of the code are easy to miss:

- A data line with `w_cnt` = 0 does not store an empty synset. The slice `fields[4:3]` panics (`Records.EmptySynsetRefused`).
- The parse error of an index line's `synset_cnt` is overwritten by the `p_cnt` parse before anything checks it. A count that is not a number therefore acts as 0 (`Records.SynsetCountUnchecked`). Such a line loads, with no offsets, only when no offset field follows. A first offset field fails the line: as a bad number, or out of range on the store into the empty list (`Records.SynsetCountAsZero`). A count out of 32-bit range reads as 2^32-1.
- Stopwords are matched case-sensitively. For any other word x, "He is a x" gives the tokens "he", "is" and x lower-cased: the alternative `he` does not match "He", so "He" is kept and then lower-cased (`Tokenizer.StopwordsCaseSensitive`).
- A stopword match consumes the blank after the word. So of two consecutive stopwords only the first is removed (`Tokenizer.RepeatedStopword`).

## Model

| member | source | states |
|---|---|---|
| Strconv.ParseUintMeaning | wordnet/wordnet.go:64-65 | `ParseUint` succeeds exactly on a non-empty numeral in the base whose value fits 32 bits, and then yields that value |
| Strconv.ParseUintBounded | wordnet/wordnet.go:71 | whatever `ParseUint` returns, including its error values, is at most 2^32-1 |
| Strconv.ParseNumeral | wordnet/wordnet.go:80-84 | a number written in base 10 or 16 parses back to itself |
| Strconv.Numeral | wordnet/wordnet.go:84 | the written numeral is a non-empty digit string whose value is the number |
| GoStrings.Fields | wordnet/wordnet.go:60 | every field is non-empty and holds no white space |
| GoStrings.FieldsOfJoin | wordnet/wordnet.go:60 | splitting words joined by single blanks gives the words back |
| GoStrings.FieldsOfBlanks | wordnet/wordnet.go:107 | a string of blanks has no fields |
| Records.ParseIndexLine | wordnet/wordnet.go:62-77 | the slot-by-slot index parser returns exactly the record or error of `IndexRecordOf` |
| Records.ParseDataLine | wordnet/wordnet.go:79-95 | the data parser, filling every other field into the words array, returns exactly the record or error of `DataRecordOf` |
| Records.IndexRecordShape | wordnet/wordnet.go:63-77 | a loaded index line has a well-formed `p_cnt` and at most `synset_cnt` offset fields; it keeps field 0 as the word and `synset_cnt` offsets, offset i being the decimal value of field 6+`p_cnt`+i, or 0 where the line has no such field |
| Records.DataRecordShape | wordnet/wordnet.go:80-95 | a loaded data line has the decimal value of field 0 as its offset and as many words as the hexadecimal value of field 3, at least one; word k is field 4+2k, inside the line |
| Records.BadOffsetAt | wordnet/wordnet.go:70-74 | a malformed offset at a slot up to `synset_cnt` stops the line as a bad number |
| Records.OffsetPastEnd | wordnet/wordnet.go:70-75 | a well-formed offset beyond `synset_cnt` slots stops the line out of range |
| Records.SynsetCountUnchecked | wordnet/wordnet.go:64-68 | a `synset_cnt` that is not a number is never reported: the line parses exactly as with the count 0 |
| Records.SynsetCountAsZero | wordnet/wordnet.go:64-75 | with a `synset_cnt` that is not a number, a line loads exactly when no offset field follows, and then with no offsets |
| Records.EmptySynsetRefused | wordnet/wordnet.go:84-90 | a data line with a word count of 0 is refused out of range |
| Wndb.Members | wordnet/wordnet.go:90-94 | the written member list has two fields per word, with the word at every even position |
| Wndb.IndexFieldsRoundTrip | wordnet/wordnet.go:63-77 | the fields of a written index entry parse back to its headword and offsets |
| Wndb.DataFieldsRoundTrip | wordnet/wordnet.go:80-95 | the fields of a written data entry parse back to its offset and words |
| Wndb.IndexLineRoundTrip | wordnet/wordnet.go:56-77 | a written index line is not a header line; it splits and parses back to its headword and offsets |
| Wndb.DataLineRoundTrip | wordnet/wordnet.go:56-95 | a written data line is not a header line; it splits and parses back to its offset and words |
| Deduplication.DeDup | wordnet/wordnet.go:124-134 | the result holds no repeats and exactly the input's elements, and equals their first occurrences |
| Deduplication.FirstOccurrencesElements | wordnet/wordnet.go:127-131 | the first occurrences hold every input element exactly once |
| Deduplication.FirstOccurrencesOrder | wordnet/wordnet.go:127-131 | the first occurrences appear in the order of their first positions in the input |
| Deduplication.FirstOccurrencesOfDistinct | wordnet/wordnet.go:124-134 | an input without repeats comes back unchanged |
| Deduplication.FirstOccurrencesIdempotent | wordnet/wordnet.go:124-134 | deduplicating twice is deduplicating once |
| Deduplication.FirstIndex | wordnet/wordnet.go:128 | the position returned holds the element, and no earlier position does |
| Synsets.Synsets.constructor | wordnet/wordnet.go:42 | a new database starts with both maps empty |
| Synsets.Synsets.SynonymsForWord | wordnet/wordnet.go:115-122 | the synonyms are repeat-free and are exactly the words of the listed synsets present in the data map; an unknown word gives none |
| Synsets.SynonymsOfMeaning | wordnet/wordnet.go:115-122 | the synonyms have no repeats, contain exactly the words of the word's synsets, and keep first-appearance order |
| Synsets.GatheredMembership | wordnet/wordnet.go:118-120 | a word is gathered exactly when one of the listed synsets in the data map holds it |
| Synsets.GatheredAppend | wordnet/wordnet.go:118-120 | gathering two offset lists in turn is gathering their concatenation |
| Synsets.DanglingOffsetIgnored | wordnet/wordnet.go:119 | an offset that the data map lacks contributes no words |
| Synsets.ScanFile | wordnet/wordnet.go:54-97 | scanning a file's lines updates the maps in place, to the result of loading those lines, or fails as that load does |
| Synsets.Initialize | wordnet/wordnet.go:31-100 | the method returns the filled maps exactly when the load of the eight files succeeds, and the load's first failure otherwise |
| Synsets.LoadLinesAppend | wordnet/wordnet.go:54-97 | loading lines in two pieces is loading them at once |
| Synsets.LoadFailurePersists | wordnet/wordnet.go:66-67 | once a load fails, later lines cannot change its outcome or error |
| Synsets.LoadLinesFailedEarly | wordnet/wordnet.go:72-73 | a file whose load fails at some line fails the same way as a whole |
| Synsets.LoadFilesFailurePersists | wordnet/wordnet.go:48-49 | once a file's load fails, later files cannot change the outcome |
| Synsets.LoadFilesIsStream | wordnet/wordnet.go:44-98 | with every file present, loading the files in order is loading all their lines in order |
| Synsets.MissingFileFailsLoad | wordnet/wordnet.go:47-50 | a database file that cannot be opened makes the whole load fail |
| Synsets.BadLineFailsLoad | wordnet/wordnet.go:64-87 | any non-header line that does not parse makes the whole load fail, whatever surrounds it |
| Synsets.UnwrittenWordKept | wordnet/wordnet.go:77 | a word that no loaded index line names keeps its entry, or its absence |
| Synsets.UnwrittenOffsetKept | wordnet/wordnet.go:95 | an offset that no loaded data line names keeps its entry, or its absence |
| Synsets.IndexLastWriterWins | wordnet/wordnet.go:77 | the last index line for a word decides its offsets |
| Synsets.DataLastWriterWins | wordnet/wordnet.go:95 | the last data line for an offset decides its words |
| Tokenizer.Tokenize | wordnet/wordnet.go:104-112 | the tokens are the sentence's word runs kept by the stopword rule, lower-cased; each is non-empty and made of digits, lower-case letters and `_` |
| Tokenizer.PipelineIsRunRule | wordnet/wordnet.go:105-107 | `\W+`→" ", then the padded stopword replacement, then the field split, yields exactly the runs the stopword rule keeps, in order |
| Tokenizer.WordLen | wordnet/wordnet.go:105 | the longest prefix of `\w` characters: all of it is word characters, and the character after it is not |
| Tokenizer.NonWordLen | wordnet/wordnet.go:105 | the longest prefix of `\W` characters: all of it is non-word characters, and the character after it is a word character |
| Tokenizer.RegexSpaceLen | wordnet/wordnet.go:33 | the longest prefix of `\s` characters: all of it is `\s`, and the character after it is not |
| Tokenizer.AltMatchMeaning | wordnet/wordnet.go:33 | the group matches exactly when some alternative followed by `\s` starts the text, and then takes the first such alternative in pattern order and its `\s` |
| Tokenizer.StopMatchMeaning | wordnet/wordnet.go:33 | the pattern matches exactly when the text starts with `\s` characters and, after all of them, a stopword followed by `\s`; the match ends after the first such stopword in pattern order and its `\s` |
| Tokenizer.AltMatchOnRun | wordnet/wordnet.go:33 | at the start of a run followed by a blank, the group matches exactly when the run is an alternative, and takes the run and the blank |
| Tokenizer.StopMatchOnRun | wordnet/wordnet.go:33 | after one blank, the pattern matches a run and the blank after it exactly when the run is a stopword |
| Tokenizer.KeepStep | wordnet/wordnet.go:106-107 | a run where no match starts passes the replacement unchanged and becomes one field |
| Tokenizer.StopwordStep | wordnet/wordnet.go:106-107 | a stopword with a blank before and after is replaced together with both blanks, so it leaves no field and the next run loses its leading blank |
| Tokenizer.OtherRunStep | wordnet/wordnet.go:106-107 | a run that is not a stopword, with a blank in front, stays as one field |
| Tokenizer.RemovalOnLay | wordnet/wordnet.go:106-107 | on runs laid out with single blanks, the replacement and the field split keep exactly the runs the stopword rule keeps |
| Tokenizer.Runs | wordnet/wordnet.go:105-107 | each run is a non-empty string of word characters |
| Tokenizer.ToLower | wordnet/wordnet.go:109 | lower-casing keeps the length and lower-cases every character |
| Tokenizer.LowerAll | wordnet/wordnet.go:108-110 | field i of the result is field i of the input lower-cased, and the count stays the same |
| Tokenizer.TokensWellFormed | wordnet/wordnet.go:104-112 | every token is non-empty and holds only digits, lower-case ASCII letters and `_` |
| Tokenizer.NoWordCharsNoTokens | wordnet/wordnet.go:105-107 | a sentence without word characters has no tokens |
| Tokenizer.KeptWithoutStopwords | wordnet/wordnet.go:106 | without stopwords, every run survives |
| Tokenizer.KeptFromRuns | wordnet/wordnet.go:106-107 | every surviving token is one of the sentence's runs |
| Tokenizer.RunsOfJoin | wordnet/wordnet.go:105 | words separated by single blanks are exactly the sentence's runs |
| Tokenizer.RepeatedStopword | wordnet/wordnet.go:106 | a stopword written twice in a row survives the second time |
| Tokenizer.KeptAroundStopword | wordnet/wordnet.go:104-112 | for words h, w, x that are not stopwords and a stopword a, the tokens of "h w a x" are h, w and x, lower-cased |
| Tokenizer.StopwordsCaseSensitive | wordnet/wordnet.go:104-112 | for any other word x, the tokens of "He is a x" are "he", "is" and x lower-cased: "He" does not match `he` |

## Left out

- The command-line program, the HTTP service and the database download and untar step (`downloadDatabase`) are not part of this model.
- The database is read from disk in the source. Here it is a parameter: a map from file name to lines. An absent file stands for a failed `os.Open`. `os.Getwd` and `os.ExpandEnv` have no counterpart.
- The source keeps the database and the two compiled regular expressions in package variables. Here `SynonymsForWord` is a method of the `Synsets` object `Initialize` returns, and the two patterns are fixed functions.
- `bufio.Scanner` is reduced to a list of lines. Its 64 KiB line limit, which ends a scan silently, and the deferred `f.Close` are not modelled.
- `log.Fatal` and run-time panics both become a `Failure`. The process exit and the difference between the two are not modelled.
- Tokenizer.ReplaceNonWord and Tokenizer.RemoveStopwords are not a general regular-expression engine. They model only the two fixed patterns, over RE2's ASCII `\w` and `\s`.
- Tokenizer.ToLower lower-cases ASCII letters only. Only `\w` characters reach it, and those are ASCII.
- Records.IndexRecordOf does not model running out of memory. A `synset_cnt` parsed as 2^32-1 asks Go for a slice of four billion slots; the model builds that list.
- The `seen` map of `deDup` is a set.
- Wndb writes numerals without the zero padding of the real database files. Only the parsers' side of the round trip is about the source.
