/** Analysis of one textproto file against its schema
    (kythe/cxx/indexer/textproto/analyzer.cc): the checks that precede the
    walk, the partition of the file data into the textproto and its .proto
    files, and the anchors emitted for every field occurrence. */
module TextProtoAnalyzer {

  import opened Wrappers
  import opened KytheProto
  import opened Strings
  import opened SeqLemmas

  /** The canonical name of the textproto language in Kythe. */
  const LanguageName := "protobuf_textformat"

  /** Pretty-prints a VName as its path and signature around a ':'. */
  function StringifyNode(vName: VName): (s: string)
    ensures |s| == |vName.path| + 1 + |vName.signature|
    ensures s[..|vName.path|] == vName.path && s[|vName.path|] == ':' && s[|vName.path| + 1..] == vName.signature
  {
    vName.path + ":" + vName.signature
  }

  /** Paths without ':' make the printed form unambiguous. */
  lemma StringifyNodeInjective(a: VName, b: VName)
    requires ':' !in a.path && ':' !in b.path
    requires StringifyNode(a) == StringifyNode(b)
    ensures a.path == b.path && a.signature == b.signature
  {
    SeparatedUnique(a.path, a.signature, b.path, b.signature, ':');
  }

  // ---------------------------------------------------------------------
  // Graph facts

  datatype NodeKind = Anchor

  datatype PropertyId = LocationStartOffset | LocationEndOffset

  /** One fact written to the graph recorder. */
  datatype Fact =
    | NodeKindFact(node: VName, kind: NodeKind)
    | OffsetFact(node: VName, property: PropertyId, offset: int)

  /** The KytheGraphRecorder: the facts written so far, in order. */
  class GraphRecorder {
    var facts: seq<Fact>

    constructor ()
      ensures facts == []
    {
      facts := [];
    }

    method AddNodeKind(node: VName, kind: NodeKind)
      modifies this
      ensures facts == old(facts) + [NodeKindFact(node, kind)]
    {
      facts := facts + [NodeKindFact(node, kind)];
    }

    method AddOffset(node: VName, property: PropertyId, offset: int)
      modifies this
      ensures facts == old(facts) + [OffsetFact(node, property, offset)]
    {
      facts := facts + [OffsetFact(node, property, offset)];
    }
  }

  // ---------------------------------------------------------------------
  // Anchors

  /** A field descriptor as far as the walk uses it. */
  datatype FieldDescriptor = FieldDescriptor(fullName: string, name: string, isRepeated: bool)

  /** A location reported by the text-format parser; line -1 means not found. */
  datatype ParseLocation = ParseLocation(line: int, column: int)

  /** UTF8LineIndex::ComputeByteOffset. */
  type LineIndex = (int, int) -> int

  /** The signature of an anchor over [begin, end). */
  function AnchorSignature(begin: int, end: int): string {
    "@" + IntToString(begin) + ":" + IntToString(end)
  }

  /** Different spans get different signatures. */
  lemma AnchorSignatureInjective(begin: int, end: int, begin': int, end': int)
    requires AnchorSignature(begin, end) == AnchorSignature(begin', end')
    ensures begin == begin' && end == end'
  {
    var x, x' := "@" + IntToString(begin), "@" + IntToString(begin');
    assert ':' !in x && ':' !in x' by {
      assert forall i :: 1 <= i < |x| ==> x[i] == IntToString(begin)[i - 1];
      assert forall i :: 1 <= i < |x'| ==> x'[i] == IntToString(begin')[i - 1];
    }
    assert x + [':'] + IntToString(end) == x' + [':'] + IntToString(end');
    SeparatedUnique(x, IntToString(end), x', IntToString(end'), ':');
    assert IntToString(begin) == x[1..] == x'[1..] == IntToString(begin');
    IntToStringInjective(begin, begin');
    IntToStringInjective(end, end');
  }

  /** The start offset of an occurrence of a field at `loc`. */
  function AnchorBegin(lineIndex: LineIndex, loc: ParseLocation): int {
    lineIndex(loc.line, loc.column)
  }

  /** The end offset: the anchor spans the field's name. */
  function AnchorEnd(lineIndex: LineIndex, field: FieldDescriptor, loc: ParseLocation): (end: int)
    ensures end - AnchorBegin(lineIndex, loc) == |field.name|
  {
    AnchorBegin(lineIndex, loc) + |field.name|
  }

  /** The anchor's VName: the file's, tagged with the textproto language and
      with the span appended to its signature. */
  function AnchorVName(file: VName, begin: int, end: int): VName {
    file.(language := LanguageName, signature := file.signature + AnchorSignature(begin, end))
  }

  /** The anchor differs from the file only in its language, now the
      textproto language, and its signature, now extended by "@begin:end". */
  lemma AnchorVNameShape(file: VName, begin: int, end: int)
    ensures var anchor := AnchorVName(file, begin, end);
            anchor.(language := file.language, signature := file.signature) == file &&
            anchor.language == LanguageName &&
            |anchor.signature| > |file.signature| &&
            anchor.signature[..|file.signature|] == file.signature &&
            anchor.signature[|file.signature|..] == AnchorSignature(begin, end)
  {
  }

  /** The three facts written for one anchor, in order. */
  function AnchorFacts(lineIndex: LineIndex, file: VName, field: FieldDescriptor, loc: ParseLocation): seq<Fact> {
    var begin := AnchorBegin(lineIndex, loc);
    var end := AnchorEnd(lineIndex, field, loc);
    var anchor := AnchorVName(file, begin, end);
    [NodeKindFact(anchor, Anchor), OffsetFact(anchor, LocationStartOffset, begin), OffsetFact(anchor, LocationEndOffset, end)]
  }

  /** Occurrences of fields at different spans get different anchors. */
  lemma AnchorsDistinguishSpans(lineIndex: LineIndex, file: VName, field: FieldDescriptor, loc: ParseLocation,
                                field': FieldDescriptor, loc': ParseLocation)
    requires AnchorFacts(lineIndex, file, field, loc)[0] == AnchorFacts(lineIndex, file, field', loc')[0]
    ensures AnchorBegin(lineIndex, loc) == AnchorBegin(lineIndex, loc')
    ensures |field.name| == |field'.name|
  {
    var b, b' := AnchorBegin(lineIndex, loc), AnchorBegin(lineIndex, loc');
    var e, e' := AnchorEnd(lineIndex, field, loc), AnchorEnd(lineIndex, field', loc');
    var s, s' := AnchorVName(file, b, e).signature, AnchorVName(file, b', e').signature;
    assert s == s';
    AnchorVNameShape(file, b, e);
    AnchorVNameShape(file, b', e');
    assert AnchorSignature(b, e) == s[|file.signature|..] == AnchorSignature(b', e');
    AnchorSignatureInjective(b, e, b', e');
  }

  // ---------------------------------------------------------------------
  // The field walk

  /** One occurrence of a set field in the parsed textproto. */
  datatype Occurrence = Occurrence(field: FieldDescriptor, location: ParseLocation)

  /** What the walk found: the occurrences visited, and the repeated field
      and index whose location was missing, if the walk stopped there. */
  datatype Walk = Walk(occurrences: seq<Occurrence>, stoppedAt: Option<(FieldDescriptor, int)>)

  /** A message parsed from the textproto: its set fields (ListFields), the
      size of each repeated field (FieldSize), and the parse info tree's
      locations (GetLocation, index -1 for a singular field). */
  datatype ParsedMessage = ParsedMessage(
    setFields: seq<FieldDescriptor>,
    fieldSize: FieldDescriptor -> int,
    location: (FieldDescriptor, int) -> ParseLocation)

  /** Indices 0 .. n-1 of a repeated field, in order, stopping at the first
      index without a location. */
  function RepeatedWalk(message: ParsedMessage, field: FieldDescriptor, n: nat): Walk {
    if n == 0 then Walk([], None)
    else
      var prior := RepeatedWalk(message, field, n - 1);
      if prior.stoppedAt.Some? then prior
      else
        var loc := message.location(field, n - 1);
        if loc.line == -1 then Walk(prior.occurrences, Some((field, n - 1)))
        else Walk(prior.occurrences + [Occurrence(field, loc)], None)
  }

  /** A repeated field of size `count` (none when count <= 0). */
  function RepeatedCount(message: ParsedMessage, field: FieldDescriptor): nat {
    if message.fieldSize(field) > 0 then message.fieldSize(field) else 0
  }

  /** One set field: a singular field yields its occurrence when located;
      a repeated field yields every index. */
  function FieldWalk(message: ParsedMessage, field: FieldDescriptor): Walk {
    if !field.isRepeated then
      var loc := message.location(field, -1);
      if loc.line == -1 then Walk([], None) else Walk([Occurrence(field, loc)], None)
    else RepeatedWalk(message, field, RepeatedCount(message, field))
  }

  /** The set fields in order, stopping at the first missing location. */
  function FieldsWalk(message: ParsedMessage, fields: seq<FieldDescriptor>): Walk {
    if fields == [] then Walk([], None)
    else
      var prior := FieldsWalk(message, fields[..|fields| - 1]);
      if prior.stoppedAt.Some? then prior
      else
        var last := FieldWalk(message, fields[|fields| - 1]);
        Walk(prior.occurrences + last.occurrences, last.stoppedAt)
  }

  /** The concatenation of `f`'s blocks for each element, in order. */
  function ConcatMap<A, B>(f: A -> seq<B>, xs: seq<A>): seq<B> {
    if xs == [] then [] else ConcatMap(f, xs[..|xs| - 1]) + f(xs[|xs| - 1])
  }

  /** Appending to the list appends the new blocks after a common prefix. */
  lemma {:induction false} ConcatMapAppend<A, B>(f: A -> seq<B>, prior: seq<B>, xs: seq<A>, ys: seq<A>)
    ensures prior + ConcatMap(f, xs + ys) == (prior + ConcatMap(f, xs)) + ConcatMap(f, ys)
    decreases |ys|
  {
    if ys == [] {
      assert xs + ys == xs;
    } else {
      var ys0, y := ys[..|ys| - 1], ys[|ys| - 1];
      if ys0 == [] {
        ConcatMapOne(f, y);
      }
      assert (xs + ys)[..|xs + ys| - 1] == xs + ys0 && (xs + ys)[|xs + ys| - 1] == y;
      ConcatMapAppend(f, prior, xs, ys0);
      ConcatAssoc(prior, ConcatMap(f, xs + ys0), f(y));
      ConcatAssoc(prior + ConcatMap(f, xs), ConcatMap(f, ys0), f(y));
    }
  }

  lemma ConcatMapOne<A, B>(f: A -> seq<B>, x: A)
    ensures ConcatMap(f, [x]) == f(x)
  {
    assert [x][..0] == [];
  }

  /** With blocks of three, block k sits at [3k, 3k+3). */
  lemma {:induction false} ConcatMapBlocks<A, B>(f: A -> seq<B>, xs: seq<A>)
    requires forall x :: |f(x)| == 3
    ensures |ConcatMap(f, xs)| == 3 * |xs|
    ensures forall k :: 0 <= k < |xs| ==> ConcatMap(f, xs)[3 * k..3 * k + 3] == f(xs[k])
  {
    if xs != [] {
      var prior := xs[..|xs| - 1];
      ConcatMapBlocks(f, prior);
      var p, last := ConcatMap(f, prior), f(xs[|xs| - 1]);
      forall k | 0 <= k < |xs| ensures (p + last)[3 * k..3 * k + 3] == f(xs[k]) {
        if k < |prior| {
          SliceOfConcat(p, last, 3 * k, 3 * k + 3);
          assert xs[k] == prior[k];
        } else {
          SliceOfConcat(p, last, |p|, |p| + 3);
        }
      }
    }
  }

  /** The facts written for one occurrence of a field in `file`. */
  function FactsFor(lineIndex: LineIndex, file: VName): Occurrence -> seq<Fact> {
    (o: Occurrence) => AnchorFacts(lineIndex, file, o.field, o.location)
  }

  /** The facts written for a sequence of occurrences. */
  function OccurrenceFacts(lineIndex: LineIndex, file: VName, occurrences: seq<Occurrence>): seq<Fact> {
    ConcatMap(FactsFor(lineIndex, file), occurrences)
  }

  /** Three facts per occurrence, in order: the anchor's kind, its start and
      its end, the end being the start plus the field name's length. */
  lemma OccurrenceFactsShape(lineIndex: LineIndex, file: VName, occurrences: seq<Occurrence>)
    ensures |OccurrenceFacts(lineIndex, file, occurrences)| == 3 * |occurrences|
    ensures forall k :: 0 <= k < |occurrences| ==>
              var o := occurrences[k];
              var begin := AnchorBegin(lineIndex, o.location);
              var anchor := AnchorVName(file, begin, begin + |o.field.name|);
              OccurrenceFacts(lineIndex, file, occurrences)[3 * k..3 * k + 3] ==
                [NodeKindFact(anchor, Anchor),
                 OffsetFact(anchor, LocationStartOffset, begin),
                 OffsetFact(anchor, LocationEndOffset, begin + |o.field.name|)]
  {
    ConcatMapBlocks(FactsFor(lineIndex, file), occurrences);
  }

  /** A repeated walk completes exactly when every index is located, and
      then visits indices 0 .. n-1 in order; otherwise it stops at the first
      index without a location, having visited the ones before it. */
  lemma {:induction false} RepeatedWalkVisitsIndices(message: ParsedMessage, field: FieldDescriptor, n: nat)
    ensures RepeatedWalk(message, field, n).stoppedAt.None? <==>
              forall i :: 0 <= i < n ==> message.location(field, i).line != -1
    ensures RepeatedWalk(message, field, n).stoppedAt.None? ==>
              |RepeatedWalk(message, field, n).occurrences| == n &&
              forall i :: 0 <= i < n ==>
                RepeatedWalk(message, field, n).occurrences[i] == Occurrence(field, message.location(field, i))
    ensures RepeatedWalk(message, field, n).stoppedAt.Some? ==>
              var i := RepeatedWalk(message, field, n).stoppedAt.value.1;
              RepeatedWalk(message, field, n).stoppedAt.value.0 == field &&
              0 <= i < n && message.location(field, i).line == -1 &&
              |RepeatedWalk(message, field, n).occurrences| == i &&
              forall j :: 0 <= j < i ==>
                RepeatedWalk(message, field, n).occurrences[j] == Occurrence(field, message.location(field, j))
  {
    if n > 0 {
      RepeatedWalkVisitsIndices(message, field, n - 1);
    }
  }

  /** The walk's length without a missing location: one anchor per located
      singular field and `count` per repeated field. */
  function ExpectedAnchors(message: ParsedMessage, fields: seq<FieldDescriptor>): nat {
    if fields == [] then 0
    else
      var field := fields[|fields| - 1];
      ExpectedAnchors(message, fields[..|fields| - 1]) +
        (if field.isRepeated then RepeatedCount(message, field)
         else if message.location(field, -1).line == -1 then 0 else 1)
  }

  /** A walk that completes visits exactly the expected number of occurrences. */
  lemma {:induction false} CompletedWalkCount(message: ParsedMessage, fields: seq<FieldDescriptor>)
    requires FieldsWalk(message, fields).stoppedAt.None?
    ensures |FieldsWalk(message, fields).occurrences| == ExpectedAnchors(message, fields)
  {
    if fields != [] {
      CompletedWalkCount(message, fields[..|fields| - 1]);
      RepeatedWalkVisitsIndices(message, fields[|fields| - 1], RepeatedCount(message, fields[|fields| - 1]));
    }
  }

  /** Once the walk has stopped it stays stopped. */
  lemma {:induction false} FieldsWalkStays(message: ParsedMessage, fields: seq<FieldDescriptor>, n: nat)
    requires n <= |fields| && FieldsWalk(message, fields[..n]).stoppedAt.Some?
    ensures FieldsWalk(message, fields) == FieldsWalk(message, fields[..n])
    decreases |fields| - n
  {
    if n < |fields| {
      assert fields[..n + 1][..n] == fields[..n];
      FieldsWalkStays(message, fields, n + 1);
    } else {
      assert fields[..n] == fields;
    }
  }

  /** The first index without a location ends the repeated walk there. */
  lemma RepeatedWalkStopsAt(message: ParsedMessage, field: FieldDescriptor, i: nat)
    requires i < RepeatedCount(message, field)
    requires RepeatedWalk(message, field, i).stoppedAt.None? && message.location(field, i).line == -1
    ensures RepeatedWalk(message, field, RepeatedCount(message, field)) ==
            Walk(RepeatedWalk(message, field, i).occurrences, Some((field, i)))
  {
    RepeatedWalkStays(message, field, i + 1, RepeatedCount(message, field));
  }

  lemma {:induction false} RepeatedWalkStays(message: ParsedMessage, field: FieldDescriptor, n: nat, m: nat)
    requires n <= m && RepeatedWalk(message, field, n).stoppedAt.Some?
    ensures RepeatedWalk(message, field, m) == RepeatedWalk(message, field, n)
    decreases m - n
  {
    if n < m {
      RepeatedWalkStays(message, field, n, m - 1);
    }
  }

  /** A walk that stops, stops at a repeated set field, at an index below
      its size whose location is missing. */
  lemma {:induction false} FieldsWalkStopsAtMissingIndex(message: ParsedMessage, fields: seq<FieldDescriptor>)
    requires FieldsWalk(message, fields).stoppedAt.Some?
    ensures var (field, i) := FieldsWalk(message, fields).stoppedAt.value;
            field in fields && field.isRepeated && 0 <= i < RepeatedCount(message, field) &&
            message.location(field, i).line == -1
  {
    var prior := fields[..|fields| - 1];
    if FieldsWalk(message, prior).stoppedAt.Some? {
      FieldsWalkStopsAtMissingIndex(message, prior);
    } else {
      var last := fields[|fields| - 1];
      RepeatedWalkVisitsIndices(message, last, RepeatedCount(message, last));
    }
  }

  /** A walk completes exactly when every index of every repeated set field
      has a location. */
  lemma {:induction false} FieldsWalkCompletesIff(message: ParsedMessage, fields: seq<FieldDescriptor>)
    ensures FieldsWalk(message, fields).stoppedAt.None? <==>
              forall k, i :: 0 <= k < |fields| && fields[k].isRepeated && 0 <= i < RepeatedCount(message, fields[k]) ==>
                message.location(fields[k], i).line != -1
  {
    if fields != [] {
      var prior := fields[..|fields| - 1];
      var last := fields[|fields| - 1];
      FieldsWalkCompletesIff(message, prior);
      RepeatedWalkVisitsIndices(message, last, RepeatedCount(message, last));
      assert forall k :: 0 <= k < |prior| ==> prior[k] == fields[k];
    }
  }

  // ---------------------------------------------------------------------
  // Preparing the message

  /** The message type found in the descriptor pool. */
  datatype MessageType = MessageType(fullName: string)

  /** The protobuf machinery the analysis drives. */
  datatype Schema = Schema(
    // PreloadedProtoFileTree::AddFile, given the files added before
    addFile: (seq<FileData>, FileData) -> bool,
    // Importer::Import, given the loaded files and the names imported before
    importFile: (seq<FileData>, seq<string>, string) -> bool,
    // DescriptorPool::FindMessageTypeByName over the imported pool
    findMessageType: (seq<FileData>, seq<string>, string) -> Option<MessageType>,
    // TextFormat::Parser::ParseFromString with the relaxed settings
    parse: (MessageType, string) -> Option<ParsedMessage>)

  /** Why an analysis stopped. */
  datatype Abort =
    | NotOneSourceFile
    | TooFewFiles
    | AddFileFailed(path: string)
    | ImportFailed(protoFilename: string)
    | TextprotoNotFound
    | MessageTypeNotFound
    | ParseFailed
    | LocationNotFound(field: FieldDescriptor, index: int)

  datatype Outcome = Completed | Aborted(reason: Abort)

  /** The outcome of an analysis and the facts it wrote. */
  datatype Run = Run(outcome: Outcome, facts: seq<Fact>)

  /** The file data other than those at `path`, in order. */
  function WithoutPath(files: seq<FileData>, path: string): seq<FileData> {
    if files == [] then []
    else
      var f := files[|files| - 1];
      WithoutPath(files[..|files| - 1], path) + (if f.info.path == path then [] else [f])
  }

  /** The last file data at `path`. */
  function LastAtPath(files: seq<FileData>, path: string): Option<FileData> {
    if files == [] then None
    else if files[|files| - 1].info.path == path then Some(files[|files| - 1])
    else LastAtPath(files[..|files| - 1], path)
  }

  lemma {:induction false} WithoutPathMembers(files: seq<FileData>, path: string)
    ensures forall f :: f in WithoutPath(files, path) <==> f in files && f.info.path != path
  {
    if files != [] {
      var prior := files[..|files| - 1];
      WithoutPathMembers(prior, path);
      assert files == prior + [files[|files| - 1]];
    }
  }

  /** The last file data at `path`, if any: every later one is elsewhere. */
  lemma {:induction false} LastAtPathIsLast(files: seq<FileData>, path: string)
    ensures LastAtPath(files, path).None? <==> forall k :: 0 <= k < |files| ==> files[k].info.path != path
    ensures LastAtPath(files, path).Some? ==>
              exists k :: 0 <= k < |files| && files[k] == LastAtPath(files, path).value &&
                          files[k].info.path == path &&
                          forall j :: k < j < |files| ==> files[j].info.path != path
  {
    if files != [] {
      var n := |files| - 1;
      var prior := files[..n];
      if files[n].info.path == path {
        assert files[n] == LastAtPath(files, path).value;
      } else {
        LastAtPathIsLast(prior, path);
        assert forall k :: 0 <= k < n ==> prior[k] == files[k];
        if LastAtPath(prior, path).Some? {
          var k :| 0 <= k < n && prior[k] == LastAtPath(prior, path).value && prior[k].info.path == path &&
                   forall j :: k < j < n ==> prior[j].info.path != path;
          assert files[k] == LastAtPath(files, path).value;
        }
      }
    }
  }

  /** The state of the partition loop: the .proto files loaded so far, the
      textproto found so far, and the path whose loading failed. */
  datatype Loading = Loading(protoFiles: seq<FileData>, textproto: Option<FileData>, failed: Option<string>)

  /** The partition loop over `files`: the textproto's data is remembered,
      every other file is loaded, and a failed load stops the loop. */
  function Load(schema: Schema, files: seq<FileData>, pbtxtName: string): Loading {
    if files == [] then Loading([], None, None)
    else
      var prior := Load(schema, files[..|files| - 1], pbtxtName);
      var f := files[|files| - 1];
      if prior.failed.Some? then prior
      else if f.info.path == pbtxtName then prior.(textproto := Some(f))
      else if !schema.addFile(prior.protoFiles, f) then prior.(failed := Some(f.info.path))
      else prior.(protoFiles := prior.protoFiles + [f])
  }

  /** File `k` is the textproto or loads after the files before it. */
  predicate LoadsInTurn(schema: Schema, files: seq<FileData>, pbtxtName: string, k: nat)
    requires k < |files|
  {
    files[k].info.path != pbtxtName ==> schema.addFile(WithoutPath(files[..k], pbtxtName), files[k])
  }

  /** One step of the partition loop fails only when its own file does not load. */
  lemma LoadStepFails(schema: Schema, files: seq<FileData>, pbtxtName: string)
    requires files != []
    ensures Load(schema, files, pbtxtName).failed.None? <==>
              Load(schema, files[..|files| - 1], pbtxtName).failed.None? &&
              LoadsInTurn(schema, files, pbtxtName, |files| - 1)
  {
    LoadPartitions(schema, files[..|files| - 1], pbtxtName);
  }

  /** Loading succeeds exactly when every file loads in its turn. */
  lemma {:induction false} LoadSucceedsInTurn(schema: Schema, files: seq<FileData>, pbtxtName: string)
    ensures Load(schema, files, pbtxtName).failed.None? <==>
              forall k :: 0 <= k < |files| ==> LoadsInTurn(schema, files, pbtxtName, k)
  {
    if files != [] {
      var n := |files| - 1;
      var prior := files[..n];
      LoadSucceedsInTurn(schema, prior, pbtxtName);
      LoadStepFails(schema, files, pbtxtName);
      forall k | 0 <= k < n
        ensures LoadsInTurn(schema, files, pbtxtName, k) == LoadsInTurn(schema, prior, pbtxtName, k)
      {
        assert prior[..k] == files[..k];
      }
    }
  }

  /** Loading fails exactly when some file not at the textproto's path does
      not load after the ones before it. */
  lemma LoadFailsIff(schema: Schema, files: seq<FileData>, pbtxtName: string)
    ensures Load(schema, files, pbtxtName).failed.None? <==>
              forall k :: 0 <= k < |files| && files[k].info.path != pbtxtName ==>
                schema.addFile(WithoutPath(files[..k], pbtxtName), files[k])
  {
    LoadSucceedsInTurn(schema, files, pbtxtName);
    forall k | 0 <= k < |files|
      ensures LoadsInTurn(schema, files, pbtxtName, k) <==>
              (files[k].info.path != pbtxtName ==> schema.addFile(WithoutPath(files[..k], pbtxtName), files[k]))
    {
    }
  }

  /** The partition: unless a load fails, the .proto files are the files not
      at the textproto's path, in order, and the textproto is the last file
      at that path. */
  lemma {:induction false} LoadPartitions(schema: Schema, files: seq<FileData>, pbtxtName: string)
    ensures Load(schema, files, pbtxtName).failed.None? ==>
              Load(schema, files, pbtxtName).protoFiles == WithoutPath(files, pbtxtName) &&
              Load(schema, files, pbtxtName).textproto == LastAtPath(files, pbtxtName)
  {
    if files != [] {
      LoadPartitions(schema, files[..|files| - 1], pbtxtName);
    }
  }

  lemma {:induction false} LoadStays(schema: Schema, files: seq<FileData>, pbtxtName: string, n: nat)
    requires n <= |files| && Load(schema, files[..n], pbtxtName).failed.Some?
    ensures Load(schema, files, pbtxtName) == Load(schema, files[..n], pbtxtName)
    decreases |files| - n
  {
    if n < |files| {
      assert files[..n + 1][..n] == files[..n];
      LoadStays(schema, files, pbtxtName, n + 1);
    } else {
      assert files[..n] == files;
    }
  }

  /** The paths of the file data, in order (the proto filenames). */
  function Paths(files: seq<FileData>): (paths: seq<string>)
    ensures |paths| == |files|
    ensures forall i :: 0 <= i < |files| ==> paths[i] == files[i].info.path
  {
    seq(|files|, i requires 0 <= i < |files| => files[i].info.path)
  }

  /** Imports `names` in order; the first name that fails to import. */
  function FirstImportFailure(schema: Schema, loaded: seq<FileData>, names: seq<string>): Option<string> {
    if names == [] then None
    else match FirstImportFailure(schema, loaded, names[..|names| - 1])
    case Some(name) => Some(name)
    case None =>
      if schema.importFile(loaded, names[..|names| - 1], names[|names| - 1]) then None
      else Some(names[|names| - 1])
  }

  /** The imports succeed exactly when each does after the ones before it;
      otherwise the failure reported is the first. */
  lemma {:induction false} ImportFailureIsFirst(schema: Schema, loaded: seq<FileData>, names: seq<string>)
    ensures FirstImportFailure(schema, loaded, names).None? <==>
              forall i :: 0 <= i < |names| ==> schema.importFile(loaded, names[..i], names[i])
    ensures FirstImportFailure(schema, loaded, names).Some? ==>
              exists i :: 0 <= i < |names| && names[i] == FirstImportFailure(schema, loaded, names).value &&
                          !schema.importFile(loaded, names[..i], names[i]) &&
                          forall j :: 0 <= j < i ==> schema.importFile(loaded, names[..j], names[j])
  {
    if names != [] {
      var prior := names[..|names| - 1];
      ImportFailureIsFirst(schema, loaded, prior);
      assert forall i :: 0 <= i < |prior| ==> prior[i] == names[i] && prior[..i] == names[..i];
    }
  }

  lemma {:induction false} ImportFailureStays(schema: Schema, loaded: seq<FileData>, names: seq<string>, n: nat)
    requires n <= |names| && FirstImportFailure(schema, loaded, names[..n]).Some?
    ensures FirstImportFailure(schema, loaded, names) == FirstImportFailure(schema, loaded, names[..n])
    decreases |names| - n
  {
    if n < |names| {
      assert names[..n + 1][..n] == names[..n];
      ImportFailureStays(schema, loaded, names, n + 1);
    } else {
      assert names[..n] == names;
    }
  }

  /** The message ready for the walk, or why the analysis stopped first. */
  datatype Preparation = Ready(message: ParsedMessage) | Failed(reason: Abort)

  /** The checks and steps before the walk, in the order the analysis makes them. */
  function Prepare(unit: CompilationUnit, files: seq<FileData>, msgTypeName: string, schema: Schema): Preparation {
    if |unit.sourceFiles| != 1 then Failed(NotOneSourceFile)
    else if |files| < 2 then Failed(TooFewFiles)
    else
      var loading := Load(schema, files, unit.sourceFiles[0]);
      if loading.failed.Some? then Failed(AddFileFailed(loading.failed.value))
      else
        var names := Paths(loading.protoFiles);
        match FirstImportFailure(schema, loading.protoFiles, names)
        case Some(name) => Failed(ImportFailed(name))
        case None =>
          if loading.textproto.None? then Failed(TextprotoNotFound)
          else match schema.findMessageType(loading.protoFiles, names, msgTypeName)
          case None => Failed(MessageTypeNotFound)
          case Some(msgType) =>
            match schema.parse(msgType, loading.textproto.value.content)
            case None => Failed(ParseFailed)
            case Some(message) => Ready(message)
  }

  /** The analysis gets past its checks exactly when there is one source
      file and at least two file data, every file not at the textproto's
      path loads after the ones before it, every loaded file imports after
      the ones before it, some file data is at the textproto's path (by
      LastAtPathIsLast), the message type is found and the last such file
      data parses. */
  lemma PrepareReadyIff(unit: CompilationUnit, files: seq<FileData>, msgTypeName: string, schema: Schema)
    ensures Prepare(unit, files, msgTypeName, schema).Ready? <==>
              |unit.sourceFiles| == 1 && |files| >= 2 &&
              var pbtxtName := unit.sourceFiles[0];
              var protoFiles := WithoutPath(files, pbtxtName);
              var names := Paths(protoFiles);
              (forall k :: 0 <= k < |files| && files[k].info.path != pbtxtName ==>
                 schema.addFile(WithoutPath(files[..k], pbtxtName), files[k])) &&
              (forall i :: 0 <= i < |names| ==> schema.importFile(protoFiles, names[..i], names[i])) &&
              LastAtPath(files, pbtxtName).Some? &&
              schema.findMessageType(protoFiles, names, msgTypeName).Some? &&
              schema.parse(schema.findMessageType(protoFiles, names, msgTypeName).value,
                           LastAtPath(files, pbtxtName).value.content).Some?
  {
    if |unit.sourceFiles| == 1 && |files| >= 2 {
      var pbtxtName := unit.sourceFiles[0];
      LoadFailsIff(schema, files, pbtxtName);
      if Load(schema, files, pbtxtName).failed.None? {
        LoadPartitions(schema, files, pbtxtName);
        var protoFiles := WithoutPath(files, pbtxtName);
        ImportFailureIsFirst(schema, protoFiles, Paths(protoFiles));
      }
    }
  }

  /** The message walked is the one parsed from the last file data at the
      textproto's path, with the message type found in the loaded files. */
  lemma PreparedMessage(unit: CompilationUnit, files: seq<FileData>, msgTypeName: string, schema: Schema)
    requires Prepare(unit, files, msgTypeName, schema).Ready?
    ensures var pbtxtName := unit.sourceFiles[0];
            var protoFiles := WithoutPath(files, pbtxtName);
            schema.findMessageType(protoFiles, Paths(protoFiles), msgTypeName).Some? &&
            LastAtPath(files, pbtxtName).Some? &&
            schema.parse(schema.findMessageType(protoFiles, Paths(protoFiles), msgTypeName).value,
                         LastAtPath(files, pbtxtName).value.content) ==
              Some(Prepare(unit, files, msgTypeName, schema).message)
  {
    LoadPartitions(schema, files, unit.sourceFiles[0]);
  }

  /** The whole analysis: the facts of the walk's occurrences, anchored in
      the default (empty) file VName. */
  function Analysis(unit: CompilationUnit, files: seq<FileData>, msgTypeName: string,
                    lineIndex: LineIndex, schema: Schema): Run {
    match Prepare(unit, files, msgTypeName, schema)
    case Failed(reason) => Run(Aborted(reason), [])
    case Ready(message) =>
      var walk := FieldsWalk(message, message.setFields);
      Run(if walk.stoppedAt.None? then Completed
          else Aborted(LocationNotFound(walk.stoppedAt.value.0, walk.stoppedAt.value.1)),
          OccurrenceFacts(lineIndex, EmptyVName, walk.occurrences))
  }

  /** Nothing is written before the walk; a walk that completes writes three
      facts per expected anchor; one that stops does so at a repeated set
      field's index without a location. */
  lemma AnalysisFacts(unit: CompilationUnit, files: seq<FileData>, msgTypeName: string,
                      lineIndex: LineIndex, schema: Schema)
    ensures var run := Analysis(unit, files, msgTypeName, lineIndex, schema);
            run.outcome.Aborted? && !run.outcome.reason.LocationNotFound? ==> run.facts == []
    ensures var run := Analysis(unit, files, msgTypeName, lineIndex, schema);
            var prep := Prepare(unit, files, msgTypeName, schema);
            run.outcome == Completed ==>
              prep.Ready? && |run.facts| == 3 * ExpectedAnchors(prep.message, prep.message.setFields)
    ensures var run := Analysis(unit, files, msgTypeName, lineIndex, schema);
            var prep := Prepare(unit, files, msgTypeName, schema);
            run.outcome.Aborted? && run.outcome.reason.LocationNotFound? ==>
              var field, i := run.outcome.reason.field, run.outcome.reason.index;
              prep.Ready? && field in prep.message.setFields && field.isRepeated &&
              0 <= i < prep.message.fieldSize(field) && prep.message.location(field, i).line == -1
  {
    var prep := Prepare(unit, files, msgTypeName, schema);
    if prep.Ready? {
      var message := prep.message;
      var walk := FieldsWalk(message, message.setFields);
      OccurrenceFactsShape(lineIndex, EmptyVName, walk.occurrences);
      if walk.stoppedAt.None? {
        CompletedWalkCount(message, message.setFields);
      } else {
        FieldsWalkStopsAtMissingIndex(message, message.setFields);
      }
    }
  }

  // ---------------------------------------------------------------------
  // The analyzer

  /** Analyzes a single textproto against the .proto files given with it. */
  class TextProtoAnalyzer {
    const compilationUnit: CompilationUnit
    const files: seq<FileData>
    const msgTypeName: string
    const recorder: GraphRecorder
    /** line_index_ over the textproto's content */
    const lineIndex: LineIndex

    constructor (compilationUnit: CompilationUnit, files: seq<FileData>, msgTypeName: string,
                 recorder: GraphRecorder, lineIndex: LineIndex)
      ensures this.compilationUnit == compilationUnit && this.files == files && this.msgTypeName == msgTypeName
      ensures this.recorder == recorder && this.lineIndex == lineIndex
    {
      this.compilationUnit := compilationUnit;
      this.files := files;
      this.msgTypeName := msgTypeName;
      this.recorder := recorder;
      this.lineIndex := lineIndex;
    }

    method AddNode(node: VName, kind: NodeKind)
      modifies recorder
      ensures recorder.facts == old(recorder.facts) + [NodeKindFact(node, kind)]
    {
      recorder.AddNodeKind(node, kind);
    }

    /** Writes an anchor over the field's name at `loc`, in `file`. */
    method CreateAndAddAnchorNode(file: VName, field: FieldDescriptor, loc: ParseLocation) returns (anchor: VName)
      modifies recorder
      ensures anchor == AnchorVName(file, AnchorBegin(lineIndex, loc), AnchorEnd(lineIndex, field, loc))
      ensures recorder.facts == old(recorder.facts) + AnchorFacts(lineIndex, file, field, loc)
    {
      anchor := file.(language := LanguageName);
      var begin := lineIndex(loc.line, loc.column);
      var end := begin + |field.name|;
      anchor := anchor.(signature := anchor.signature + AnchorSignature(begin, end));
      AddNode(anchor, Anchor);
      recorder.AddOffset(anchor, LocationStartOffset, begin);
      recorder.AddOffset(anchor, LocationEndOffset, end);
    }

    /** The checks, the partition, the imports, the lookup and the parse
      that precede the walk. */
    method PrepareMessage(schema: Schema) returns (prep: Preparation)
      ensures prep == Prepare(compilationUnit, files, msgTypeName, schema)
    {
      if |compilationUnit.sourceFiles| != 1 {
        return Failed(NotOneSourceFile);
      }
      if |files| < 2 {
        return Failed(TooFewFiles);
      }
      var pbtxtName := compilationUnit.sourceFiles[0];

      var loaded: seq<FileData> := [];
      var protoFilenames: seq<string> := [];
      var pbtxtFileData: Option<FileData> := None;
      for i := 0 to |files|
        invariant Load(schema, files[..i], pbtxtName) == Loading(loaded, pbtxtFileData, None)
        invariant protoFilenames == Paths(loaded)
      {
        assert files[..i + 1][..i] == files[..i];
        var fileData := files[i];
        if pbtxtName == fileData.info.path {
          pbtxtFileData := Some(fileData);
          continue;
        }
        if !schema.addFile(loaded, fileData) {
          LoadStays(schema, files, pbtxtName, i + 1);
          return Failed(AddFileFailed(fileData.info.path));
        }
        loaded := loaded + [fileData];
        protoFilenames := protoFilenames + [fileData.info.path];
      }
      assert files[..|files|] == files;

      for i := 0 to |protoFilenames|
        invariant FirstImportFailure(schema, loaded, protoFilenames[..i]).None?
      {
        assert protoFilenames[..i + 1][..i] == protoFilenames[..i];
        if !schema.importFile(loaded, protoFilenames[..i], protoFilenames[i]) {
          ImportFailureStays(schema, loaded, protoFilenames, i + 1);
          return Failed(ImportFailed(protoFilenames[i]));
        }
      }
      assert protoFilenames[..|protoFilenames|] == protoFilenames;

      if pbtxtFileData.None? {
        return Failed(TextprotoNotFound);
      }
      var msgType := schema.findMessageType(loaded, protoFilenames, msgTypeName);
      if msgType.None? {
        return Failed(MessageTypeNotFound);
      }
      var parsed := schema.parse(msgType.value, pbtxtFileData.value.content);
      if parsed.None? {
        return Failed(ParseFailed);
      }
      prep := Ready(parsed.value);
    }

    /** Anchors one set field's occurrences; the index of a repeated
      occurrence without a location, if one stops the walk. */
    method AnchorField(message: ParsedMessage, file: VName, field: FieldDescriptor) returns (missing: Option<int>)
      modifies recorder
      ensures missing == (if FieldWalk(message, field).stoppedAt.Some? then Some(FieldWalk(message, field).stoppedAt.value.1) else None)
      ensures FieldWalk(message, field).stoppedAt.Some? ==> FieldWalk(message, field).stoppedAt.value.0 == field
      ensures recorder.facts == old(recorder.facts) + OccurrenceFacts(lineIndex, file, FieldWalk(message, field).occurrences)
    {
      if !field.isRepeated {
        var loc := message.location(field, -1);
        if loc.line != -1 {
          var _ := CreateAndAddAnchorNode(file, field, loc);
          assert FactsFor(lineIndex, file)(Occurrence(field, loc)) == AnchorFacts(lineIndex, file, field, loc);
          ConcatMapAppend(FactsFor(lineIndex, file), old(recorder.facts), [], [Occurrence(field, loc)]);
        } else {
          assert old(recorder.facts) + ConcatMap(FactsFor(lineIndex, file), []) == old(recorder.facts);
        }
        return None;
      }
      missing := AnchorRepeatedField(message, file, field);
    }

    /** Anchors indices 0 .. count-1 of a repeated field, in order. */
    method AnchorRepeatedField(message: ParsedMessage, file: VName, field: FieldDescriptor) returns (missing: Option<int>)
      modifies recorder
      ensures RepeatedWalk(message, field, RepeatedCount(message, field)).stoppedAt ==
                (if missing.Some? then Some((field, missing.value)) else None)
      ensures recorder.facts == old(recorder.facts) +
                ConcatMap(FactsFor(lineIndex, file), RepeatedWalk(message, field, RepeatedCount(message, field)).occurrences)
    {
      var count := message.fieldSize(field);
      var i := 0;
      while i < count
        invariant 0 <= i <= RepeatedCount(message, field)
        invariant RepeatedWalk(message, field, i).stoppedAt.None?
        invariant recorder.facts == old(recorder.facts) + ConcatMap(FactsFor(lineIndex, file), RepeatedWalk(message, field, i).occurrences)
      {
        var stopped := AnchorRepeatedOccurrence(message, file, field, i, old(recorder.facts));
        if stopped {
          RepeatedWalkStays(message, field, i + 1, RepeatedCount(message, field));
          return Some(i);
        }
        i := i + 1;
      }
      assert i == RepeatedCount(message, field);
      missing := None;
    }

    /** Anchors index i of a repeated field when it has a location; the
      walk stops at i when it has none. */
    method AnchorRepeatedOccurrence(message: ParsedMessage, file: VName, field: FieldDescriptor, i: nat, ghost base: seq<Fact>)
        returns (stopped: bool)
      requires RepeatedWalk(message, field, i).stoppedAt.None?
      requires recorder.facts == base + ConcatMap(FactsFor(lineIndex, file), RepeatedWalk(message, field, i).occurrences)
      modifies recorder
      ensures stopped == (message.location(field, i).line == -1)
      ensures RepeatedWalk(message, field, i + 1).stoppedAt == (if stopped then Some((field, i)) else None)
      ensures recorder.facts == base + ConcatMap(FactsFor(lineIndex, file), RepeatedWalk(message, field, i + 1).occurrences)
    {
      var loc := message.location(field, i);
      ghost var prior := RepeatedWalk(message, field, i).occurrences;
      if loc.line == -1 {
        assert RepeatedWalk(message, field, i + 1) == Walk(prior, Some((field, i)));
        return true;
      }
      assert RepeatedWalk(message, field, i + 1) == Walk(prior + [Occurrence(field, loc)], None);
      var _ := CreateAndAddAnchorNode(file, field, loc);
      assert FactsFor(lineIndex, file)(Occurrence(field, loc)) == AnchorFacts(lineIndex, file, field, loc);
      ConcatMapAppend(FactsFor(lineIndex, file), base, prior, [Occurrence(field, loc)]);
      ConcatMapOne(FactsFor(lineIndex, file), Occurrence(field, loc));
      stopped := false;
    }

    /** Runs the analysis, writing the anchors of every located field
      occurrence to the recorder. */
    method DoIt(schema: Schema) returns (outcome: Outcome)
      modifies recorder
      ensures outcome == Analysis(compilationUnit, files, msgTypeName, lineIndex, schema).outcome
      ensures recorder.facts == old(recorder.facts) + Analysis(compilationUnit, files, msgTypeName, lineIndex, schema).facts
    {
      var prep := PrepareMessage(schema);
      if prep.Failed? {
        return Aborted(prep.reason);
      }
      outcome := WalkFields(prep.message);
    }

    /** The walk over the set fields, in order, stopping at the first
      repeated occurrence without a location. */
    method WalkFields(message: ParsedMessage) returns (outcome: Outcome)
      modifies recorder
      ensures var walk := FieldsWalk(message, message.setFields);
              outcome == (if walk.stoppedAt.None? then Completed
                          else Aborted(LocationNotFound(walk.stoppedAt.value.0, walk.stoppedAt.value.1)))
      ensures recorder.facts == old(recorder.facts) +
                OccurrenceFacts(lineIndex, EmptyVName, FieldsWalk(message, message.setFields).occurrences)
    {
      var fieldsThatAreSet := message.setFields;
      for i := 0 to |fieldsThatAreSet|
        invariant FieldsWalk(message, fieldsThatAreSet[..i]).stoppedAt.None?
        invariant recorder.facts == old(recorder.facts) +
                    OccurrenceFacts(lineIndex, EmptyVName, FieldsWalk(message, fieldsThatAreSet[..i]).occurrences)
      {
        var missing := AnchorNextField(message, fieldsThatAreSet, i, old(recorder.facts));
        if missing.Some? {
          FieldsWalkStays(message, fieldsThatAreSet, i + 1);
          return Aborted(LocationNotFound(fieldsThatAreSet[i], missing.value));
        }
      }
      assert fieldsThatAreSet[..|fieldsThatAreSet|] == fieldsThatAreSet;
      outcome := Completed;
    }

    /** Anchors the i-th set field, in the default file VName. */
    method AnchorNextField(message: ParsedMessage, fields: seq<FieldDescriptor>, i: nat, ghost base: seq<Fact>)
      returns (missing: Option<int>)
      requires i < |fields| && FieldsWalk(message, fields[..i]).stoppedAt.None?
      requires recorder.facts == base + OccurrenceFacts(lineIndex, EmptyVName, FieldsWalk(message, fields[..i]).occurrences)
      modifies recorder
      ensures recorder.facts == base + OccurrenceFacts(lineIndex, EmptyVName, FieldsWalk(message, fields[..i + 1]).occurrences)
      ensures missing.None? <==> FieldsWalk(message, fields[..i + 1]).stoppedAt.None?
      ensures missing.Some? ==> FieldsWalk(message, fields[..i + 1]).stoppedAt == Some((fields[i], missing.value))
    {
      var field := fields[i];
      assert fields[..i + 1][..i] == fields[..i];
      ghost var prior := FieldsWalk(message, fields[..i]).occurrences;
      var fileVName := EmptyVName;
      missing := AnchorField(message, fileVName, field);
      ConcatMapAppend(FactsFor(lineIndex, EmptyVName), base, prior, FieldWalk(message, field).occurrences);
    }
  }
}
