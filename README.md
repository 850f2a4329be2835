# Kythe protobuf and textproto core, modelled in Dafny

This project models three pieces of Kythe's protobuf language support and
proves properties about them:

- **Path substitutions** (`kythe/cxx/indexer/proto/relative_paths.cc`). The
  protoc include-path flags of a compilation unit (`-I dir`,
  `--proto_path dir`, `-Idir`, `--proto_path=dir`) are turned into an
  ordered list of `(logical prefix, physical root)` pairs. Each flag value is
  a `:`-separated list of `dir` or `prefix=dir`. When no flag supplies a
  value and the working directory is non-empty, the pair maps `""` to the
  cleaned working directory.
- **The proto extractor** (`kythe/cxx/extractor/proto/proto_extractor.cc`).
  A `RecordingDiskSourceTree` records, once each, the canonical disk path of
  every file opened through it. `ExtractProtos` assembles a compilation
  unit from that record. The unit holds the working directory, the echoed
  arguments, the top-level files relative to the root directory, and one
  required input per recorded file (path, digest and VName with the corpus
  fallback), in the set's sorted order. Any failure aborts the whole
  extraction.
- **The textproto analyzer** (`kythe/cxx/indexer/textproto/analyzer.cc`).
  `DoIt` checks the compilation unit, splits the file data into the textproto
  and its `.proto` files, and loads and imports the `.proto` files. It then
  finds the message type, parses the textproto, and walks the set fields.
  For every field occurrence with a location it writes an anchor node and
  its start and end offsets to the graph recorder. The anchor spans the
  field's name, and its signature is `@begin:end`.

Files:

| file | module | contents |
|---|---|---|
| `wrappers.dfy` | `Wrappers` | `Option` |
| `seq_lemmas.dfy` | `SeqLemmas` | associativity of `+` and slices of a concatenation |
| `kythe_proto.dfy` | `KytheProto` | `VName`, `FileInfo`, `FileInput`, `CompilationUnit`, `FileData` as values |
| `strings.dfy` | `Strings` | prefixes, splitting at a separator, decimal formatting of integers (`absl::StrAppend`) |
| `sorted_strings.dfy` | `SortedStrings` | a `std::set<std::string>` as a strictly sorted sequence under `std::string`'s `operator<` |
| `relative_paths.dfy` | `RelativePaths` | `AddPathSubstitutions`, `ParsePathSubstitutions` and the argument scanner |
| `proto_extractor.dfy` | `ProtoExtractor` | `RecordingDiskSourceTree` and `ExtractProtos` |
| `textproto_analyzer.dfy` | `TextProtoAnalyzer` | the graph recorder, anchors, the field walk, and `TextProtoAnalyzer.DoIt` |

The model follows the code's own structure:

- The code's loops are methods with loop invariants. Each method is proved
  equal to a specification function (`Expansion`, `ParsedSubstitutions`,
  `Extraction`, `Prepare`, `FieldsWalk`, `Analysis`), and the lemmas state
  what those functions promise.
- Objects whose fields change are classes: the recording source tree
  (`mappings`, `openedFiles`), the graph recorder (`facts`), and the
  analyzer, which writes to its recorder.
- Library code the core calls but does not define is passed in as
  functions. This covers `CleanPath`, `RelativizePath`,
  `DiskSourceTree::VirtualFileToDiskFile` and `Open`, the protobuf
  `Importer`, `IndexWriter::WriteFile`, `FileVNameGenerator::LookupVName`,
  `PathSubstitutionsToArgs`, `PreloadedProtoFileTree::AddFile`,
  `DescriptorPool::FindMessageTypeByName`, the text-format parser with its
  parse-info tree, `Reflection::ListFields` and `FieldSize`, and
  `UTF8LineIndex::ComputeByteOffset`. The proofs hold for every choice of
  these functions, except that the extractor's import and extraction
  members assume that canonicalisation is idempotent (see "## Left out").
- A `CHECK` failure or `LOG(FATAL)` is modelled as a result, not a process
  abort. In the extractor it yields `None`. In the analyzer it yields
  `Aborted(reason)`, and the model keeps the facts handed to the recorder
  before the abort.

The model follows the code as written:

- The analyzer walks only the fields `Reflection::ListFields` reports as
  set (analyzer.cc:229-233). The TODO at analyzer.cc:231-232 notes that
  this misses proto3 fields.
- It does not recurse into message-typed fields and treats extensions like
  any other field, as the TODOs at analyzer.cc:240-241 leave them. It
  writes only the anchor node and its two offsets (analyzer.cc:141-144),
  and no edges.
- The anchor's end is its begin plus the field name's length, with no
  adjustment (the "TODO: subtract one?" at analyzer.cc:136). The parser's
  line and column go to the line index unchanged (analyzer.cc:135).
- Every occurrence is anchored in the default-constructed `VName
  file_vname` of analyzer.cc:238, whose fields are all empty.
- `ExtractProtos` appends `--` and the substitution flags whenever
  `path_substitutions.size()` is non-zero (proto_extractor.cc:112-117).

## Model

| member | source | states |
|---|---|---|
| RelativePaths.Split | kythe/cxx/indexer/proto/relative_paths.cc:14-15 | `absl::StrSplit` on a separator: at least one piece, and no piece holds the separator |
| RelativePaths.JoinSplit | kythe/cxx/indexer/proto/relative_paths.cc:14-15 | splitting loses nothing: the pieces joined with the separator give back the input |
| RelativePaths.SplitAtSeparator | kythe/cxx/indexer/proto/relative_paths.cc:14-15 | splitting `a + sep + b` gives the pieces of `a`, then those of `b` |
| RelativePaths.SplitWithoutSeparator | kythe/cxx/indexer/proto/relative_paths.cc:14-15 | a string without the separator is a single piece |
| RelativePaths.SkipEmpty | kythe/cxx/indexer/proto/relative_paths.cc:15 | `absl::SkipEmpty` keeps exactly the non-empty pieces of the input, never more pieces than there were |
| RelativePaths.SkipEmptyAppend | kythe/cxx/indexer/proto/relative_paths.cc:15 | dropping empty pieces works piece by piece, so the kept pieces stay in the input's order |
| RelativePaths.PathParts | kythe/cxx/indexer/proto/relative_paths.cc:14-15 | the parts of a flag value are exactly its non-empty ':'-separated pieces; each is non-empty and free of ':' |
| RelativePaths.PathPartsConcat | kythe/cxx/indexer/proto/relative_paths.cc:14-15 | the parts of `a:b` are the parts of `a` followed by the parts of `b` |
| RelativePaths.PathPartsSingle | kythe/cxx/indexer/proto/relative_paths.cc:14-15 | a non-empty value without ':' is a single part |
| RelativePaths.NoPartsIffOnlyColons | kythe/cxx/indexer/proto/relative_paths.cc:14-16 | a flag value yields no part iff it is made only of ':' (the empty value included) |
| RelativePaths.FindFirst | kythe/cxx/indexer/proto/relative_paths.cc:17-18 | `find_first_of`: none iff the character is absent; otherwise an in-range index holding it with no earlier occurrence |
| RelativePaths.SubstitutionFor | kythe/cxx/indexer/proto/relative_paths.cc:17-25 | a part without '=' maps the empty prefix to the cleaned part; otherwise it is split at the first '=', and both sides are cleaned |
| RelativePaths.SubstitutionSplitsAtFirstEquals | kythe/cxx/indexer/proto/relative_paths.cc:17-24 | `prefix=root` with no '=' in the prefix gives `(CleanPath(prefix), CleanPath(root))` even when the root holds more '=' |
| RelativePaths.AddPathSubstitutions | kythe/cxx/indexer/proto/relative_paths.cc:11-27 | the caller's list is kept as a prefix, followed by one substitution per non-empty part, in the parts' order |
| RelativePaths.StepKeepsValues | kythe/cxx/indexer/proto/relative_paths.cc:37-52 | a token only appends to the values consumed before it |
| RelativePaths.ScanArgument | kythe/cxx/indexer/proto/relative_paths.cc:37-52 | one token of the scan: an awaited value is taken whatever it looks like; an exact `-I`/`--proto_path` awaits the next token; a `-I` or `--proto_path=` prefix carries the value; anything else is skipped |
| RelativePaths.ParsePathSubstitutions | kythe/cxx/indexer/proto/relative_paths.cc:31-58 | appends the expansions of all path values in order, then the cleaned working directory only when no value was consumed and the directory is non-empty |
| RelativePaths.ExpandAllSnoc | kythe/cxx/indexer/proto/relative_paths.cc:39-50 | one more path value appends exactly its own expansion |
| RelativePaths.ScanAppend | kythe/cxx/indexer/proto/relative_paths.cc:36-53 | scanning a concatenation scans the second part from the state the first part leaves |
| RelativePaths.ScanKeepsValues | kythe/cxx/indexer/proto/relative_paths.cc:36-53 | values already consumed stay an unchanged prefix; later tokens only append |
| RelativePaths.FlagTakesNextToken | kythe/cxx/indexer/proto/relative_paths.cc:37-42 | after an exact flag, the next token is the value even when it looks like a flag, and scanning resumes normally after it |
| RelativePaths.TrailingFlagAddsNothing | kythe/cxx/indexer/proto/relative_paths.cc:41-42 | a flag at the end of the arguments consumes nothing and leaves the scanner waiting |
| RelativePaths.OtherTokenAddsNothing | kythe/cxx/indexer/proto/relative_paths.cc:43-52 | a token that is no path flag (such as `--proto_pathX` or `foo.proto`) is skipped |
| RelativePaths.ScanWithoutFlags | kythe/cxx/indexer/proto/relative_paths.cc:36-53 | arguments without any path flag leave the scanner in its start state |
| RelativePaths.FallbackWithoutFlags | kythe/cxx/indexer/proto/relative_paths.cc:54-57 | with no path flag, exactly the cleaned working directory is added, or nothing when the working directory is empty |
| RelativePaths.ExpandAllEmpty | kythe/cxx/indexer/proto/relative_paths.cc:14-16 | values without parts add no substitution |
| RelativePaths.EmptyValuesSuppressFallback | kythe/cxx/indexer/proto/relative_paths.cc:37-57 | a path flag whose values are empty or only ':' still sets `have_paths`: nothing is added, not even the working directory |
| SortedStrings.LessIrreflexive | kythe/cxx/extractor/proto/proto_extractor.cc:73 | `std::string`'s `operator<` is irreflexive |
| SortedStrings.LessTransitive | kythe/cxx/extractor/proto/proto_extractor.cc:73 | `operator<` is transitive |
| SortedStrings.LessTotal | kythe/cxx/extractor/proto/proto_extractor.cc:73 | any two distinct strings are ordered one way or the other |
| SortedStrings.InsertElements | kythe/cxx/extractor/proto/proto_extractor.cc:62-64 | set insertion adds exactly the new element |
| SortedStrings.InsertSorted | kythe/cxx/extractor/proto/proto_extractor.cc:62-64 | insertion keeps the set's iteration order strictly sorted |
| SortedStrings.InsertPresent | kythe/cxx/extractor/proto/proto_extractor.cc:62 | inserting a present element changes nothing |
| SortedStrings.SortedUnique | kythe/cxx/extractor/proto/proto_extractor.cc:73 | two strictly sorted sequences with the same elements are equal, so the set's iteration order is determined by its contents |
| SortedStrings.NoDuplicates | kythe/cxx/extractor/proto/proto_extractor.cc:69-70 | a strictly sorted sequence has no duplicates: each path is listed once |
| ProtoExtractor.RecordingDiskSourceTree.constructor | kythe/cxx/extractor/proto/proto_extractor.cc:72-73 | a new tree has no mappings and an empty record |
| ProtoExtractor.RecordingDiskSourceTree.MapPath | kythe/cxx/extractor/proto/proto_extractor.cc:106-108 | appends one mapping and leaves the record alone |
| ProtoExtractor.RecordingDiskSourceTree.Open | kythe/cxx/extractor/proto/proto_extractor.cc:54-67 | an unresolvable name gives a null stream and records nothing; a resolvable one has its canonical path recorded once, keeps the record sorted, and returns the tree's stream |
| ProtoExtractor.RecordAllElements | kythe/cxx/extractor/proto/proto_extractor.cc:56-64 | after any series of opens the record is sorted and holds exactly the canonical paths of the names that resolved, however often and through whichever alias |
| ProtoExtractor.RecordAllOrderIndependent | kythe/cxx/extractor/proto/proto_extractor.cc:56-57 | the record depends only on which names were opened, not on order or repetition |
| ProtoExtractor.ImportThrough | kythe/cxx/extractor/proto/proto_extractor.cc:127-128 | an import's opens update the record as the series of `Open` calls does, and the record holds only canonical paths |
| ProtoExtractor.ImportAllRecordsOpenedFiles | kythe/cxx/extractor/proto/proto_extractor.cc:119-133 | importing succeeds iff every top-level import does, and then the record holds, sorted and once each, exactly the canonical paths opened |
| ProtoExtractor.WithCorpusFallback | kythe/cxx/extractor/proto/proto_extractor.cc:164-167 | the looked-up VName keeps its corpus when non-empty and takes the configured corpus otherwise; no other field changes |
| ProtoExtractor.RequiredInputsPerFile | kythe/cxx/extractor/proto/proto_extractor.cc:136-171 | one required input per recorded file, in the record's order; any failing file fails them all |
| ProtoExtractor.RequiredInputsStopAtFailure | kythe/cxx/extractor/proto/proto_extractor.cc:136-171 | a failure on an earlier file fails the whole list |
| ProtoExtractor.EchoArguments | kythe/cxx/extractor/proto/proto_extractor.cc:100-117 | the arguments are the top-level files, then `--` and the substitution flags only when there are substitutions |
| ProtoExtractor.ArgumentsEchoCommandLine | kythe/cxx/extractor/proto/proto_extractor.cc:100-117 | the arguments start with the top-level files, and `--` follows iff there are path substitutions, followed by the substitution flags |
| ProtoExtractor.ImportProtos | kythe/cxx/extractor/proto/proto_extractor.cc:121-133 | each top-level file is imported with its own importer over the shared tree; stops at the first failed import; otherwise yields the files relative to the root directory |
| ProtoExtractor.ReadRequiredInput | kythe/cxx/extractor/proto/proto_extractor.cc:137-170 | reopening a recorded file leaves the record unchanged; its content is the stream's chunks in order, and its input carries the relativized path, the writer's digest and the VName with corpus fallback |
| ProtoExtractor.ExtractProtos | kythe/cxx/extractor/proto/proto_extractor.cc:93-174 | the unit built is exactly `Extraction`: the mappings are `("", "")` then the substitutions, and every failure aborts the whole unit |
| ProtoExtractor.OpenedAreCanonical | kythe/cxx/extractor/proto/proto_extractor.cc:56-63 | when canonicalisation is idempotent, every recorded path is its own canonical form |
| ProtoExtractor.ExtractionFailsIff | kythe/cxx/extractor/proto/proto_extractor.cc:93-174 | extraction fails iff the working directory is unknown, some import fails, or some recorded file cannot be reopened, canonicalised or digested |
| ProtoExtractor.ExtractionContents | kythe/cxx/extractor/proto/proto_extractor.cc:93-174 | a unit holds the working directory, the top-level files relativized, and one required input per distinct canonical path opened by the imports, in sorted order, with its relativized path, the digest of its content and its VName with the corpus fallback |
| Strings.SeparatedUnique | kythe/cxx/indexer/textproto/analyzer.cc:31 | joining two strings with a separator the first lacks can be undone |
| Strings.DigitChar | kythe/cxx/indexer/textproto/analyzer.cc:139 | a decimal digit character and its value |
| Strings.NatToString | kythe/cxx/indexer/textproto/analyzer.cc:139 | a natural number prints as non-empty digits with no leading zero |
| Strings.IntToString | kythe/cxx/indexer/textproto/analyzer.cc:139 | an integer prints as a non-empty string that starts with '-' iff it is negative; every other character is a digit |
| Strings.ParseIntToString | kythe/cxx/indexer/textproto/analyzer.cc:139 | the digits of an integer's spelling read back as its magnitude |
| Strings.ParseNatToString | kythe/cxx/indexer/textproto/analyzer.cc:139 | decimal printing of a natural number can be read back |
| Strings.NatToStringInjective | kythe/cxx/indexer/textproto/analyzer.cc:139 | different natural numbers print differently |
| Strings.IntToStringInjective | kythe/cxx/indexer/textproto/analyzer.cc:139 | different integers print differently |
| TextProtoAnalyzer.StringifyNode | kythe/cxx/indexer/textproto/analyzer.cc:30-32 | the printed node is the path, ':', then the signature |
| TextProtoAnalyzer.StringifyNodeInjective | kythe/cxx/indexer/textproto/analyzer.cc:30-32 | for paths without ':', the printed form determines path and signature |
| TextProtoAnalyzer.GraphRecorder.constructor | kythe/cxx/indexer/textproto/analyzer.h:103 | a new recorder holds no facts |
| TextProtoAnalyzer.GraphRecorder.AddNodeKind | kythe/cxx/indexer/textproto/analyzer.cc:126 | appends one node-kind fact |
| TextProtoAnalyzer.GraphRecorder.AddOffset | kythe/cxx/indexer/textproto/analyzer.cc:142-144 | appends one offset fact |
| TextProtoAnalyzer.AnchorSignatureInjective | kythe/cxx/indexer/textproto/analyzer.cc:138-139 | the signature `@begin:end` determines begin and end |
| TextProtoAnalyzer.AnchorEnd | kythe/cxx/indexer/textproto/analyzer.cc:135-136 | the anchor spans exactly the field name's length |
| TextProtoAnalyzer.AnchorVNameShape | kythe/cxx/indexer/textproto/analyzer.cc:132-139 | the anchor is the file VName with the textproto language and `@begin:end` appended to its signature, and nothing else changed |
| TextProtoAnalyzer.AnchorsDistinguishSpans | kythe/cxx/indexer/textproto/analyzer.cc:129-147 | two occurrences with the same anchor start at the same offset and have names of the same length |
| TextProtoAnalyzer.ConcatMapAppend | kythe/cxx/indexer/textproto/analyzer.cc:235-267 | the facts of more occurrences are appended after the facts already written |
| TextProtoAnalyzer.OccurrenceFactsShape | kythe/cxx/indexer/textproto/analyzer.cc:141-144 | three facts per occurrence, in order: the anchor's kind, its start offset, and its end, which is the start plus the name's length |
| TextProtoAnalyzer.RepeatedWalkVisitsIndices | kythe/cxx/indexer/textproto/analyzer.cc:255-265 | a repeated walk completes iff every index has a location and then visits indices 0 .. count-1 in order; otherwise it stops at the first index without one, after visiting the indices before it |
| TextProtoAnalyzer.CompletedWalkCount | kythe/cxx/indexer/textproto/analyzer.cc:235-267 | a walk that completes visits one occurrence per located singular field and `count` per repeated field |
| TextProtoAnalyzer.FieldsWalkStays | kythe/cxx/indexer/textproto/analyzer.cc:262 | once the walk has aborted, later fields add nothing |
| TextProtoAnalyzer.RepeatedWalkStopsAt | kythe/cxx/indexer/textproto/analyzer.cc:258-262 | the first index without a location ends the repeated walk there |
| TextProtoAnalyzer.RepeatedWalkStays | kythe/cxx/indexer/textproto/analyzer.cc:262 | a stopped repeated walk stays stopped |
| TextProtoAnalyzer.FieldsWalkStopsAtMissingIndex | kythe/cxx/indexer/textproto/analyzer.cc:244-266 | a walk only stops at a repeated set field, at an index below its size whose location is missing; a singular field without a location is skipped |
| TextProtoAnalyzer.FieldsWalkCompletesIff | kythe/cxx/indexer/textproto/analyzer.cc:235-267 | the walk completes iff every index of every repeated set field has a location |
| TextProtoAnalyzer.WithoutPathMembers | kythe/cxx/indexer/textproto/analyzer.cc:175-187 | the loaded `.proto` files are exactly the file data not at the textproto's path |
| TextProtoAnalyzer.LastAtPathIsLast | kythe/cxx/indexer/textproto/analyzer.cc:178-180 | the textproto data is the last file data at its path, and absent iff no file data is at that path |
| TextProtoAnalyzer.LoadStepFails | kythe/cxx/indexer/textproto/analyzer.cc:175-187 | one turn of the partition loop fails exactly when the loop had not failed before and its own file, not at the textproto's path, does not load |
| TextProtoAnalyzer.LoadSucceedsInTurn | kythe/cxx/indexer/textproto/analyzer.cc:175-187 | the partition loop succeeds exactly when every file is the textproto or loads after the files before it |
| TextProtoAnalyzer.LoadFailsIff | kythe/cxx/indexer/textproto/analyzer.cc:175-187 | loading fails iff some file not at the textproto's path fails `AddFile` after the ones before it |
| TextProtoAnalyzer.LoadPartitions | kythe/cxx/indexer/textproto/analyzer.cc:175-187 | unless a load fails, the loaded files are the other file data in order, and the textproto is the last file data at its path |
| TextProtoAnalyzer.LoadStays | kythe/cxx/indexer/textproto/analyzer.cc:184 | a failed `AddFile` stops the partition loop |
| TextProtoAnalyzer.Paths | kythe/cxx/indexer/textproto/analyzer.cc:186 | the proto filenames are the loaded files' paths, one per file, in order |
| TextProtoAnalyzer.ImportFailureIsFirst | kythe/cxx/indexer/textproto/analyzer.cc:190-195 | the imports succeed iff each succeeds after the ones before it; otherwise the failure reported is the first |
| TextProtoAnalyzer.ImportFailureStays | kythe/cxx/indexer/textproto/analyzer.cc:192 | a failed import stops the import loop |
| TextProtoAnalyzer.PrepareReadyIff | kythe/cxx/indexer/textproto/analyzer.cc:152-224 | the analysis gets past its checks iff: one source file; at least two file data; every other file loads after those before it; every loaded file imports after those before it; file data exists at the textproto's path; the type is found; the textproto parses |
| TextProtoAnalyzer.PreparedMessage | kythe/cxx/indexer/textproto/analyzer.cc:178-224 | the message walked is the one parsed from the last file data at the textproto's path, with the type found in the loaded files |
| TextProtoAnalyzer.AnalysisFacts | kythe/cxx/indexer/textproto/analyzer.cc:149-268 | nothing is written unless the walk starts; a completed run writes three facts per expected anchor; a run stopped by a missing location names a repeated set field and an index below its size without a location |
| TextProtoAnalyzer.TextProtoAnalyzer.constructor | kythe/cxx/indexer/textproto/analyzer.h:23-31 | the analyzer keeps the unit, the file data, the message type name and the recorder it is given |
| TextProtoAnalyzer.TextProtoAnalyzer.AddNode | kythe/cxx/indexer/textproto/analyzer.cc:123-127 | appends the node's kind fact to the recorder |
| TextProtoAnalyzer.TextProtoAnalyzer.CreateAndAddAnchorNode | kythe/cxx/indexer/textproto/analyzer.cc:129-147 | returns the anchor VName over `[begin, begin + name length)` and appends its kind, start and end facts, in that order |
| TextProtoAnalyzer.TextProtoAnalyzer.PrepareMessage | kythe/cxx/indexer/textproto/analyzer.cc:152-224 | the checks and steps before the walk, in the code's order: one source file, at least two files, partition and `AddFile`, imports, textproto found, message type found, parse |
| TextProtoAnalyzer.TextProtoAnalyzer.AnchorField | kythe/cxx/indexer/textproto/analyzer.cc:244-266 | a singular field is anchored when located and skipped otherwise; a repeated field is anchored index by index |
| TextProtoAnalyzer.TextProtoAnalyzer.AnchorRepeatedField | kythe/cxx/indexer/textproto/analyzer.cc:253-266 | indices 0 .. count-1 are anchored in order, up to the first without a location, which is reported |
| TextProtoAnalyzer.TextProtoAnalyzer.AnchorRepeatedOccurrence | kythe/cxx/indexer/textproto/analyzer.cc:258-265 | an index with a location gets its anchor; one without stops the walk there |
| TextProtoAnalyzer.TextProtoAnalyzer.WalkFields | kythe/cxx/indexer/textproto/analyzer.cc:235-267 | the set fields are walked in order in the empty file VName, and the walk aborts at the first repeated index without a location |
| TextProtoAnalyzer.TextProtoAnalyzer.AnchorNextField | kythe/cxx/indexer/textproto/analyzer.cc:235-267 | one more set field appends exactly its own occurrences' facts |
| TextProtoAnalyzer.TextProtoAnalyzer.DoIt | kythe/cxx/indexer/textproto/analyzer.cc:149-268 | the outcome and the facts written are exactly those of `Analysis`, whose properties `AnalysisFacts`, `FieldsWalkCompletesIff` and `LoadPartitions` state |

## Left out

- Logging (`LOG`, `VLOG`), `LoggingMultiFileErrorCollector` and the message texts of `CHECK` failures: they produce no model-visible state. A `CHECK` failure is modelled as a failure result.
- `StringifyKind` (analyzer.cc:35-42) only spells a kind for logging, so it is left out. `StringifyNode` is modelled, though its only use is logging.
- `VNameFromFullPath`, `VNameFromRelPath` and `VNameForDescriptor` (analyzer.cc:62-121, analyzer.h:56-94) are never called by `DoIt`. The first two are stubs returning an empty VName.
- `LoadFileOrDie` and `ProtoExtractor::ConfigureFromEnv` (proto_extractor.cc:77-89, 176-194) read the environment and the file system, so they are left out. The corpus, root directory and path substitutions are the `Extractor` value's fields.
- `main.cc` (the command-line frontend) is not part of this model. That includes its check that every argument ends in `.proto`.
- Library functions are parameters, and nothing is assumed about them beyond what the code relies on. These include `CleanPath`, `RelativizePath`, path resolution, stream reading, importing, digesting, VName lookup, the text-format parser and the line index. The model does not state what `CleanPath` normalises or how the line index converts columns into UTF-8 byte offsets.
- The chunks a protobuf `ZeroCopyInputStream` yields are modelled as a list of strings produced up front; the stream's internal buffering is not modelled.
- The importer's own traversal of imports is a function from a top-level file to the names it opens, so duplicate-import avoidance inside one `Importer` is not modelled.
- ProtoExtractor.ExtractProtos: requires that canonicalisation is idempotent (a canonical path resolves to itself). The required-input loop reopens each recorded file, and this keeps the record unchanged while it is iterated. The code iterates a live `std::set` and relies on the same property implicitly.
- ProtoExtractor.ImportThrough: requires the same idempotent canonicalisation, so that every path the opens record stays canonical.
- ProtoExtractor.ImportProtos: requires the same idempotent canonicalisation, for the same reason.
- ProtoExtractor.OpenedAreCanonical: requires the same idempotent canonicalisation; without it a recorded path need not be its own canonical form.
- ProtoExtractor.ExtractionContents: requires the same idempotent canonicalisation as ExtractProtos.
- A `CHECK` failure, such as the one at analyzer.cc:262, aborts the process. The model keeps the facts handed to the recorder before the abort; whether they reach the output after the process aborts is not modelled.
- SortedStrings.Less: compares characters as code points. `std::string` compares `char`s as unsigned bytes, which agrees for byte strings.
- TextProtoAnalyzer.AnchorEnd: `begin` and `end` are C++ `int`s; a 32-bit overflow of `begin + name length` is not modelled.
- TextProtoAnalyzer.TextProtoAnalyzer.constructor: takes the line index as a parameter. The code declares `line_index_` (analyzer.h:104) but never constructs it.
- The recorder's `AddProperty` encodes offsets as decimal strings on the wire. The model keeps the integers and only the three facts per anchor; output encoding and the graph stream are not modelled.
- The caller-owned substitution vector of `AddPathSubstitutions` and `ParsePathSubstitutions` is passed in and returned as a value. Aliasing through the pointer is not modelled.
- `file_substitution_cache` and the `path_substitutions` passed to `PreloadedProtoFileTree` (analyzer.cc:160-167) stay empty in the code, so they are not modelled.
- `AllowPartialMessage` and `AllowUnknownExtension` (analyzer.cc:206-207) are part of the parse function's behaviour.
