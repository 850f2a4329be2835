/** Extraction of a compilation unit for a set of top-level .proto files
    (kythe/cxx/extractor/proto/proto_extractor.cc): a virtual file system that
    records every canonical path it opens, and the assembly of the unit from
    that record. */
module ProtoExtractor {

  import opened Wrappers
  import opened KytheProto
  import opened SortedStrings
  import opened RelativePaths

  /** A (virtual prefix, disk directory) pair registered with MapPath. */
  type Mapping = (string, string)

  /** DiskSourceTree::VirtualFileToDiskFile under the registered mappings:
      the canonical disk path of a virtual file name, if it resolves. */
  type Resolver = (seq<Mapping>, string) -> Option<string>

  /** DiskSourceTree::Open under the registered mappings: the chunks that
      the stream's Next() yields, or None for a null stream. */
  type StreamOpener = (seq<Mapping>, string) -> Option<seq<string>>

  /** The collaborators ExtractProtos drives. */
  datatype Library = Library(
    currentDirectory: Option<string>,                       // GetCurrentDirectory
    resolve: Resolver,
    openStream: StreamOpener,
    importOpens: string -> seq<string>,                     // the names an Importer opens for a file
    importSucceeds: string -> bool,                         // whether Importer::Import succeeds
    substitutionsToArgs: seq<Substitution> -> seq<string>,  // PathSubstitutionsToArgs
    relativize: (string, string) -> string,                 // RelativizePath(path, root)
    writeFile: string -> Option<string>,                    // IndexWriter::WriteFile: the digest, if ok
    lookupVName: string -> VName)                           // FileVNameGenerator::LookupVName

  /** The extractor's configuration (its members other than the VName generator). */
  datatype Extractor = Extractor(
    pathSubstitutions: seq<Substitution>,
    rootDirectory: string,
    corpus: string)

  // ---------------------------------------------------------------------
  // The recording source tree

  /** The recorded-file record after one Open(filename): the canonical path is
      added when the name resolves. */
  function Record(resolve: Resolver, mappings: seq<Mapping>, filename: string, recorded: seq<string>): seq<string> {
    match resolve(mappings, filename)
    case None => recorded
    case Some(canonical) => Insert(recorded, canonical)
  }

  /** A DiskSourceTree that remembers, once each, the canonical paths of the
      files it has recorded. */
  class RecordingDiskSourceTree {
    const resolve: Resolver
    const openStream: StreamOpener
    var mappings: seq<Mapping>
    /** opened_files_, in the std::set's iteration order */
    var openedFiles: seq<string>

    ghost predicate Valid()
      reads this
    {
      StrictlySorted(openedFiles)
    }

    constructor (resolve: Resolver, openStream: StreamOpener)
      ensures Valid() && this.resolve == resolve && this.openStream == openStream
      ensures mappings == [] && openedFiles == []
    {
      this.resolve := resolve;
      this.openStream := openStream;
      mappings := [];
      openedFiles := [];
    }

    method MapPath(virtualPath: string, diskPath: string)
      modifies this
      ensures mappings == old(mappings) + [(virtualPath, diskPath)]
      ensures openedFiles == old(openedFiles)
    {
      mappings := mappings + [(virtualPath, diskPath)];
    }

    function VirtualFileToDiskFile(filename: string): Option<string>
      reads this
    {
      resolve(mappings, filename)
    }

    /** A name that does not resolve gives a null stream and is not recorded;
        one that does has its canonical path recorded, once. */
    method Open(filename: string) returns (stream: Option<seq<string>>)
      requires Valid()
      modifies this
      ensures Valid() && mappings == old(mappings)
      ensures openedFiles == Record(resolve, mappings, filename, old(openedFiles))
      ensures resolve(mappings, filename).None? ==> stream.None? && openedFiles == old(openedFiles)
      ensures resolve(mappings, filename).Some? ==>
                stream == openStream(mappings, filename) &&
                Elements(openedFiles) == Elements(old(openedFiles)) + {resolve(mappings, filename).value}
    {
      var canonicalPath := VirtualFileToDiskFile(filename);
      if canonicalPath.None? {
        return None;
      }
      if canonicalPath.value !in openedFiles {
        InsertSorted(openedFiles, canonicalPath.value);
        openedFiles := Insert(openedFiles, canonicalPath.value);
      } else {
        InsertPresent(openedFiles, canonicalPath.value);
      }
      InsertElements(old(openedFiles), canonicalPath.value);
      stream := openStream(mappings, filename);
    }
  }

  /** The recorded-file record after opening each of `names` in turn. */
  function RecordAll(resolve: Resolver, mappings: seq<Mapping>, names: seq<string>, recorded: seq<string>): seq<string> {
    if names == [] then recorded
    else RecordAll(resolve, mappings, names[1..], Record(resolve, mappings, names[0], recorded))
  }

  /** The canonical paths that some of `names` resolve to. */
  function ResolvedNames(resolve: Resolver, mappings: seq<Mapping>, names: seq<string>): set<string> {
    set k | 0 <= k < |names| && resolve(mappings, names[k]).Some? :: resolve(mappings, names[k]).value
  }

  lemma ResolvedNamesCons(resolve: Resolver, mappings: seq<Mapping>, names: seq<string>)
    requires names != []
    ensures ResolvedNames(resolve, mappings, names) ==
              ResolvedNames(resolve, mappings, names[..1]) + ResolvedNames(resolve, mappings, names[1..])
  {
    var all := ResolvedNames(resolve, mappings, names);
    var rest := ResolvedNames(resolve, mappings, names[1..]);
    forall c | c in rest ensures c in all {
      var k :| 0 <= k < |names[1..]| && resolve(mappings, names[1..][k]).Some? && resolve(mappings, names[1..][k]).value == c;
      assert names[k + 1] == names[1..][k];
    }
  }

  /** Set semantics of the record: it stays sorted without duplicates and
      gains exactly the canonical paths of the names that resolve, however
      often and through whichever alias each is recorded. */
  lemma {:induction false} RecordAllElements(resolve: Resolver, mappings: seq<Mapping>, names: seq<string>, recorded: seq<string>)
    requires StrictlySorted(recorded)
    ensures StrictlySorted(RecordAll(resolve, mappings, names, recorded))
    ensures Elements(RecordAll(resolve, mappings, names, recorded)) ==
              Elements(recorded) + ResolvedNames(resolve, mappings, names)
  {
    if names != [] {
      var next := Record(resolve, mappings, names[0], recorded);
      if resolve(mappings, names[0]).Some? {
        InsertSorted(recorded, resolve(mappings, names[0]).value);
        InsertElements(recorded, resolve(mappings, names[0]).value);
      }
      RecordAllElements(resolve, mappings, names[1..], next);
      ResolvedNamesCons(resolve, mappings, names);
    }
  }

  /** The record does not depend on the order or multiplicity of the opens,
      only on which names were recorded. */
  lemma RecordAllOrderIndependent(resolve: Resolver, mappings: seq<Mapping>, names: seq<string>, names': seq<string>)
    requires forall n :: n in names <==> n in names'
    ensures RecordAll(resolve, mappings, names, []) == RecordAll(resolve, mappings, names', [])
  {
    RecordAllElements(resolve, mappings, names, []);
    RecordAllElements(resolve, mappings, names', []);
    var r := ResolvedNames(resolve, mappings, names);
    var r' := ResolvedNames(resolve, mappings, names');
    forall c | c in r ensures c in r' {
      var k :| 0 <= k < |names| && resolve(mappings, names[k]).Some? && resolve(mappings, names[k]).value == c;
      assert names[k] in names';
      var k' :| 0 <= k' < |names'| && names'[k'] == names[k];
    }
    forall c | c in r' ensures c in r {
      var k :| 0 <= k < |names'| && resolve(mappings, names'[k]).Some? && resolve(mappings, names'[k]).value == c;
      assert names'[k] in names;
      var k' :| 0 <= k' < |names| && names[k'] == names'[k];
    }
    SortedUnique(RecordAll(resolve, mappings, names, []), RecordAll(resolve, mappings, names', []));
  }

  /** `path` is its own canonical form. */
  predicate IsCanonical(resolve: Resolver, mappings: seq<Mapping>, path: string) {
    resolve(mappings, path) == Some(path)
  }

  /** Canonicalisation is idempotent: a canonical path resolves to itself. */
  ghost predicate CanonicalIsStable(resolve: Resolver, mappings: seq<Mapping>) {
    forall name :: resolve(mappings, name).Some? ==> IsCanonical(resolve, mappings, resolve(mappings, name).value)
  }

  predicate AllCanonical(resolve: Resolver, mappings: seq<Mapping>, paths: seq<string>) {
    forall k :: 0 <= k < |paths| ==> IsCanonical(resolve, mappings, paths[k])
  }

  /** The opens an Importer makes while importing one file, through the tree. */
  method ImportThrough(srcTree: RecordingDiskSourceTree, names: seq<string>)
    requires srcTree.Valid() && CanonicalIsStable(srcTree.resolve, srcTree.mappings)
    requires AllCanonical(srcTree.resolve, srcTree.mappings, srcTree.openedFiles)
    modifies srcTree
    ensures srcTree.Valid() && srcTree.mappings == old(srcTree.mappings)
    ensures AllCanonical(srcTree.resolve, srcTree.mappings, srcTree.openedFiles)
    ensures srcTree.openedFiles == RecordAll(srcTree.resolve, srcTree.mappings, names, old(srcTree.openedFiles))
  {
    for i := 0 to |names|
      invariant srcTree.Valid() && srcTree.mappings == old(srcTree.mappings)
      invariant AllCanonical(srcTree.resolve, srcTree.mappings, srcTree.openedFiles)
      invariant RecordAll(srcTree.resolve, srcTree.mappings, names, old(srcTree.openedFiles)) ==
                RecordAll(srcTree.resolve, srcTree.mappings, names[i..], srcTree.openedFiles)
    {
      ghost var before := srcTree.openedFiles;
      assert names[i..][1..] == names[i + 1..];
      var _ := srcTree.Open(names[i]);
      forall k | 0 <= k < |srcTree.openedFiles|
        ensures IsCanonical(srcTree.resolve, srcTree.mappings, srcTree.openedFiles[k])
      {
        assert srcTree.openedFiles[k] in Elements(srcTree.openedFiles);
        if srcTree.openedFiles[k] in Elements(before) {
          var j :| 0 <= j < |before| && before[j] == srcTree.openedFiles[k];
        }
      }
    }
    assert names[|names|..] == [];
  }

  // ---------------------------------------------------------------------
  // The compilation unit

  /** The mappings of the source tree: the current directory first, then
      every substitution in order. */
  function SourceTreeMappings(pathSubstitutions: seq<Substitution>): seq<Mapping> {
    [("", "")] + pathSubstitutions
  }

  /** The arguments echo: the proto files, then, only when there are path
      substitutions, "--" and the substitutions as flags. */
  function UnitArguments(lib: Library, protoFilenames: seq<string>, pathSubstitutions: seq<Substitution>): seq<string> {
    protoFilenames + (if |pathSubstitutions| > 0 then ["--"] + lib.substitutionsToArgs(pathSubstitutions) else [])
  }

  function SourceFiles(lib: Library, extractor: Extractor, protoFilenames: seq<string>): seq<string> {
    seq(|protoFilenames|, i requires 0 <= i < |protoFilenames| => lib.relativize(protoFilenames[i], extractor.rootDirectory))
  }

  /** The record after importing every top-level file, each with its own
      importer; None when an import fails. */
  function ImportAll(lib: Library, mappings: seq<Mapping>, protoFilenames: seq<string>, recorded: seq<string>): Option<seq<string>> {
    if protoFilenames == [] then Some(recorded)
    else if !lib.importSucceeds(protoFilenames[0]) then None
    else ImportAll(lib, mappings, protoFilenames[1..],
                   RecordAll(lib.resolve, mappings, lib.importOpens(protoFilenames[0]), recorded))
  }

  /** The canonical paths opened while importing the given files. */
  ghost function OpenedByImports(lib: Library, mappings: seq<Mapping>, protoFilenames: seq<string>): set<string> {
    if protoFilenames == [] then {}
    else ResolvedNames(lib.resolve, mappings, lib.importOpens(protoFilenames[0]))
         + OpenedByImports(lib, mappings, protoFilenames[1..])
  }

  /** Importing succeeds iff every import does, and then the record holds,
      sorted and once each, exactly the canonical paths opened on the way. */
  lemma {:induction false} ImportAllRecordsOpenedFiles(lib: Library, mappings: seq<Mapping>,
                                                       protoFilenames: seq<string>, recorded: seq<string>)
    requires StrictlySorted(recorded)
    ensures ImportAll(lib, mappings, protoFilenames, recorded).Some? <==>
              forall i :: 0 <= i < |protoFilenames| ==> lib.importSucceeds(protoFilenames[i])
    ensures ImportAll(lib, mappings, protoFilenames, recorded).Some? ==>
              StrictlySorted(ImportAll(lib, mappings, protoFilenames, recorded).value) &&
              Elements(ImportAll(lib, mappings, protoFilenames, recorded).value) ==
                Elements(recorded) + OpenedByImports(lib, mappings, protoFilenames)
  {
    if protoFilenames != [] {
      var next := RecordAll(lib.resolve, mappings, lib.importOpens(protoFilenames[0]), recorded);
      RecordAllElements(lib.resolve, mappings, lib.importOpens(protoFilenames[0]), recorded);
      ImportAllRecordsOpenedFiles(lib, mappings, protoFilenames[1..], next);
      assert forall i :: 1 <= i < |protoFilenames| ==> protoFilenames[i] == protoFilenames[1..][i - 1];
    }
  }

  /** A file's content: the concatenation of its stream's chunks. */
  function Concat(chunks: seq<string>): string {
    if chunks == [] then "" else Concat(chunks[..|chunks| - 1]) + chunks[|chunks| - 1]
  }

  /** The looked-up VName, with the configured corpus when it has none. */
  function WithCorpusFallback(vName: VName, corpus: string): (r: VName)
    ensures r.corpus == if vName.corpus != "" then vName.corpus else corpus
    ensures r.(corpus := vName.corpus) == vName
  {
    if vName.corpus == "" then vName.(corpus := corpus) else vName
  }

  /** The required input for one recorded file; None when it cannot be
      reopened, canonicalised or digested. */
  function InputFor(lib: Library, extractor: Extractor, mappings: seq<Mapping>, filename: string): Option<FileInput> {
    if lib.resolve(mappings, filename).None? then None
    else match lib.openStream(mappings, filename)
    case None => None
    case Some(chunks) =>
      var path := lib.relativize(lib.resolve(mappings, filename).value, extractor.rootDirectory);
      match lib.writeFile(Concat(chunks))
      case None => None
      case Some(digest) =>
        Some(FileInput(WithCorpusFallback(lib.lookupVName(path), extractor.corpus), FileInfo(path, digest)))
  }

  /** The required inputs for the recorded files, in order; None on any failure. */
  function RequiredInputs(lib: Library, extractor: Extractor, mappings: seq<Mapping>, files: seq<string>): Option<seq<FileInput>> {
    if files == [] then Some([])
    else match RequiredInputs(lib, extractor, mappings, files[..|files| - 1])
    case None => None
    case Some(prior) =>
      match InputFor(lib, extractor, mappings, files[|files| - 1])
      case None => None
      case Some(input) => Some(prior + [input])
  }

  /** One required input per recorded file, in the record's order; any
      failing file fails them all. */
  lemma {:induction false} RequiredInputsPerFile(lib: Library, extractor: Extractor, mappings: seq<Mapping>, files: seq<string>)
    ensures RequiredInputs(lib, extractor, mappings, files).Some? <==>
              forall k :: 0 <= k < |files| ==> InputFor(lib, extractor, mappings, files[k]).Some?
    ensures RequiredInputs(lib, extractor, mappings, files).Some? ==>
              |RequiredInputs(lib, extractor, mappings, files).value| == |files| &&
              forall k :: 0 <= k < |files| ==>
                Some(RequiredInputs(lib, extractor, mappings, files).value[k]) == InputFor(lib, extractor, mappings, files[k])
  {
    if files != [] {
      var prior := files[..|files| - 1];
      RequiredInputsPerFile(lib, extractor, mappings, prior);
      assert forall k :: 0 <= k < |prior| ==> files[k] == prior[k];
    }
  }

  /** The whole extraction: None when the working directory is unknown, an
      import fails, or a recorded file cannot be reopened or digested. */
  function Extraction(lib: Library, extractor: Extractor, protoFilenames: seq<string>): Option<CompilationUnit> {
    if lib.currentDirectory.None? then None
    else
      var mappings := SourceTreeMappings(extractor.pathSubstitutions);
      match ImportAll(lib, mappings, protoFilenames, [])
      case None => None
      case Some(files) =>
        match RequiredInputs(lib, extractor, mappings, files)
        case None => None
        case Some(inputs) =>
          Some(CompilationUnit(
                 lib.currentDirectory.value,
                 UnitArguments(lib, protoFilenames, extractor.pathSubstitutions),
                 SourceFiles(lib, extractor, protoFilenames),
                 inputs))
  }

  /** The unit's arguments: the proto files, then "--" and the
      substitutions as flags when there are any. */
  method EchoArguments(lib: Library, protoFilenames: seq<string>, pathSubstitutions: seq<Substitution>)
    returns (arguments: seq<string>)
    ensures arguments == UnitArguments(lib, protoFilenames, pathSubstitutions)
  {
    arguments := [];
    for i := 0 to |protoFilenames|
      invariant arguments == protoFilenames[..i]
    {
      arguments := arguments + [protoFilenames[i]];
    }
    assert protoFilenames[..|protoFilenames|] == protoFilenames;
    if |pathSubstitutions| > 0 {
      arguments := arguments + ["--"];
      var flags := lib.substitutionsToArgs(pathSubstitutions);
      for i := 0 to |flags|
        invariant arguments == protoFilenames + ["--"] + flags[..i]
      {
        arguments := arguments + [flags[i]];
      }
      assert flags[..|flags|] == flags;
    }
  }

  /** Imports each top-level file with its own importer over the shared
      tree, stopping at the first import that fails; on success, the files'
      paths relative to the root directory. */
  method ImportProtos(srcTree: RecordingDiskSourceTree, lib: Library, extractor: Extractor, protoFilenames: seq<string>)
    returns (sourceFiles: Option<seq<string>>)
    requires srcTree.Valid() && srcTree.resolve == lib.resolve
    requires CanonicalIsStable(lib.resolve, srcTree.mappings)
    requires AllCanonical(lib.resolve, srcTree.mappings, srcTree.openedFiles)
    modifies srcTree
    ensures srcTree.Valid() && srcTree.mappings == old(srcTree.mappings)
    ensures AllCanonical(lib.resolve, srcTree.mappings, srcTree.openedFiles)
    ensures sourceFiles.None? <==> ImportAll(lib, srcTree.mappings, protoFilenames, old(srcTree.openedFiles)).None?
    ensures sourceFiles.Some? ==>
              sourceFiles.value == SourceFiles(lib, extractor, protoFilenames) &&
              ImportAll(lib, srcTree.mappings, protoFilenames, old(srcTree.openedFiles)) == Some(srcTree.openedFiles)
  {
    var relativePaths: seq<string> := [];
    for i := 0 to |protoFilenames|
      invariant srcTree.Valid() && srcTree.mappings == old(srcTree.mappings)
      invariant AllCanonical(lib.resolve, srcTree.mappings, srcTree.openedFiles)
      invariant ImportAll(lib, srcTree.mappings, protoFilenames, old(srcTree.openedFiles)) ==
                ImportAll(lib, srcTree.mappings, protoFilenames[i..], srcTree.openedFiles)
      invariant relativePaths == SourceFiles(lib, extractor, protoFilenames[..i])
    {
      var fname := protoFilenames[i];
      assert protoFilenames[i..][1..] == protoFilenames[i + 1..];
      ImportThrough(srcTree, lib.importOpens(fname));
      if !lib.importSucceeds(fname) {
        return None;
      }
      relativePaths := relativePaths + [lib.relativize(fname, extractor.rootDirectory)];
    }
    assert protoFilenames[|protoFilenames|..] == [] && protoFilenames[..|protoFilenames|] == protoFilenames;
    sourceFiles := Some(relativePaths);
  }

  /** Reopens one recorded file and builds its required input: content from
      the stream's chunks, path relative to the root, digest from the index
      writer, VName with the corpus fallback. */
  method ReadRequiredInput(srcTree: RecordingDiskSourceTree, lib: Library, extractor: Extractor, filename: string)
    returns (input: Option<FileInput>)
    requires srcTree.Valid() && srcTree.resolve == lib.resolve && srcTree.openStream == lib.openStream
    requires filename in srcTree.openedFiles && IsCanonical(lib.resolve, srcTree.mappings, filename)
    modifies srcTree
    ensures srcTree.Valid() && srcTree.mappings == old(srcTree.mappings)
    ensures srcTree.openedFiles == old(srcTree.openedFiles)
    ensures input == InputFor(lib, extractor, srcTree.mappings, filename)
  {
    InsertPresent(srcTree.openedFiles, filename);
    var inStream := srcTree.Open(filename);
    if inStream.None? {
      return None;
    }
    var chunks := inStream.value;
    var fileContents := "";
    for j := 0 to |chunks|
      invariant fileContents == Concat(chunks[..j])
    {
      assert chunks[..j + 1][..j] == chunks[..j];
      fileContents := fileContents + chunks[j];
    }
    assert chunks[..|chunks|] == chunks;

    var fullPath := srcTree.VirtualFileToDiskFile(filename);
    if fullPath.None? {
      return None;
    }
    var path := lib.relativize(fullPath.value, extractor.rootDirectory);

    var digest := lib.writeFile(fileContents);
    if digest.None? {
      return None;
    }

    var vName := lib.lookupVName(path);
    if vName.corpus == "" {
      vName := vName.(corpus := extractor.corpus);
    }
    input := Some(FileInput(vName, FileInfo(path, digest.value)));
  }

  /** Builds the compilation unit for `protoFilenames`. */
  method ExtractProtos(lib: Library, extractor: Extractor, protoFilenames: seq<string>)
    returns (unit: Option<CompilationUnit>)
    requires CanonicalIsStable(lib.resolve, SourceTreeMappings(extractor.pathSubstitutions))
    ensures unit == Extraction(lib, extractor, protoFilenames)
  {
    if lib.currentDirectory.None? {
      return None;
    }
    var workingDirectory := lib.currentDirectory.value;
    var arguments := EchoArguments(lib, protoFilenames, extractor.pathSubstitutions);

    var pathSubstitutions := extractor.pathSubstitutions;
    ghost var mappings := SourceTreeMappings(pathSubstitutions);
    var srcTree := new RecordingDiskSourceTree(lib.resolve, lib.openStream);
    srcTree.MapPath("", "");
    for i := 0 to |pathSubstitutions|
      invariant srcTree.mappings == [("", "")] + pathSubstitutions[..i]
      invariant srcTree.openedFiles == [] && srcTree.Valid()
      invariant srcTree.resolve == lib.resolve && srcTree.openStream == lib.openStream
    {
      srcTree.MapPath(pathSubstitutions[i].0, pathSubstitutions[i].1);
    }
    assert pathSubstitutions[..|pathSubstitutions|] == pathSubstitutions;

    var sourceFiles := ImportProtos(srcTree, lib, extractor, protoFilenames);
    if sourceFiles.None? {
      return None;
    }

    var files := srcTree.openedFiles;
    var requiredInputs: seq<FileInput> := [];
    for i := 0 to |files|
      invariant srcTree.Valid() && srcTree.mappings == mappings && srcTree.openedFiles == files
      invariant RequiredInputs(lib, extractor, mappings, files[..i]) == Some(requiredInputs)
    {
      assert files[..i + 1][..i] == files[..i];
      var input := ReadRequiredInput(srcTree, lib, extractor, files[i]);
      if input.None? {
        RequiredInputsStopAtFailure(lib, extractor, mappings, files, i + 1);
        return None;
      }
      requiredInputs := requiredInputs + [input.value];
    }
    assert files[..|files|] == files;
    unit := Some(CompilationUnit(workingDirectory, arguments, sourceFiles.value, requiredInputs));
  }

  lemma {:induction false} RequiredInputsStopAtFailure(lib: Library, extractor: Extractor, mappings: seq<Mapping>,
                                                       files: seq<string>, n: nat)
    requires n <= |files| && RequiredInputs(lib, extractor, mappings, files[..n]).None?
    ensures RequiredInputs(lib, extractor, mappings, files).None?
    decreases |files| - n
  {
    if n < |files| {
      assert files[..n + 1][..n] == files[..n];
      RequiredInputsStopAtFailure(lib, extractor, mappings, files, n + 1);
    } else {
      assert files[..n] == files;
    }
  }

  // ---------------------------------------------------------------------
  // What an extraction produces

  /** Under stable canonicalisation, every path opened by an import is canonical. */
  lemma {:induction false} OpenedAreCanonical(lib: Library, mappings: seq<Mapping>, protoFilenames: seq<string>)
    requires CanonicalIsStable(lib.resolve, mappings)
    ensures forall c :: c in OpenedByImports(lib, mappings, protoFilenames) ==> IsCanonical(lib.resolve, mappings, c)
  {
    if protoFilenames != [] {
      OpenedAreCanonical(lib, mappings, protoFilenames[1..]);
      var names := lib.importOpens(protoFilenames[0]);
      forall c | c in ResolvedNames(lib.resolve, mappings, names) ensures IsCanonical(lib.resolve, mappings, c) {
        var k :| 0 <= k < |names| && lib.resolve(mappings, names[k]).Some? && lib.resolve(mappings, names[k]).value == c;
      }
    }
  }

  /** An extraction fails exactly when the working directory is unknown,
      some import fails, or some recorded file yields no required input. */
  lemma ExtractionFailsIff(lib: Library, extractor: Extractor, protoFilenames: seq<string>)
    ensures var mappings := SourceTreeMappings(extractor.pathSubstitutions);
            var imported := ImportAll(lib, mappings, protoFilenames, []);
            Extraction(lib, extractor, protoFilenames).None? <==>
              lib.currentDirectory.None? ||
              (exists i :: 0 <= i < |protoFilenames| && !lib.importSucceeds(protoFilenames[i])) ||
              (imported.Some? &&
               exists k :: 0 <= k < |imported.value| && InputFor(lib, extractor, mappings, imported.value[k]).None?)
  {
    var mappings := SourceTreeMappings(extractor.pathSubstitutions);
    ImportAllRecordsOpenedFiles(lib, mappings, protoFilenames, []);
    var imported := ImportAll(lib, mappings, protoFilenames, []);
    if imported.Some? {
      RequiredInputsPerFile(lib, extractor, mappings, imported.value);
    }
  }

  /** A successful extraction: the working directory, the top-level files
      relative to the root directory, and one required input per distinct
      canonical path the imports opened, in sorted order, each named by that
      path relative to the root and carrying the writer's digest of the
      file's content and its VName with the corpus fallback. */
  lemma ExtractionContents(lib: Library, extractor: Extractor, protoFilenames: seq<string>)
    requires CanonicalIsStable(lib.resolve, SourceTreeMappings(extractor.pathSubstitutions))
    requires Extraction(lib, extractor, protoFilenames).Some?
    ensures var mappings := SourceTreeMappings(extractor.pathSubstitutions);
            var unit := Extraction(lib, extractor, protoFilenames).value;
            var files := ImportAll(lib, mappings, protoFilenames, []).value;
            unit.workingDirectory == lib.currentDirectory.value &&
            |unit.sourceFiles| == |protoFilenames| &&
            (forall i :: 0 <= i < |protoFilenames| ==>
               unit.sourceFiles[i] == lib.relativize(protoFilenames[i], extractor.rootDirectory)) &&
            StrictlySorted(files) &&
            Elements(files) == OpenedByImports(lib, mappings, protoFilenames) &&
            |unit.requiredInputs| == |files| == |OpenedByImports(lib, mappings, protoFilenames)| &&
            forall k :: 0 <= k < |files| ==>
              unit.requiredInputs[k].info.path == lib.relativize(files[k], extractor.rootDirectory) &&
              lib.openStream(mappings, files[k]).Some? &&
              lib.writeFile(Concat(lib.openStream(mappings, files[k]).value)) == Some(unit.requiredInputs[k].info.digest) &&
              unit.requiredInputs[k].vName ==
                WithCorpusFallback(lib.lookupVName(unit.requiredInputs[k].info.path), extractor.corpus)
  {
    var mappings := SourceTreeMappings(extractor.pathSubstitutions);
    ImportAllRecordsOpenedFiles(lib, mappings, protoFilenames, []);
    var files := ImportAll(lib, mappings, protoFilenames, []).value;
    NoDuplicates(files);
    OpenedAreCanonical(lib, mappings, protoFilenames);
    RequiredInputsPerFile(lib, extractor, mappings, files);
    forall k | 0 <= k < |files| ensures IsCanonical(lib.resolve, mappings, files[k]) {
      assert files[k] in Elements(files);
    }
  }

  /** The arguments start with the top-level files; "--" follows only when
      there are path substitutions. */
  lemma ArgumentsEchoCommandLine(lib: Library, protoFilenames: seq<string>, pathSubstitutions: seq<Substitution>)
    ensures var arguments := UnitArguments(lib, protoFilenames, pathSubstitutions);
            arguments[..|protoFilenames|] == protoFilenames &&
            (|pathSubstitutions| == 0 <==> |arguments| == |protoFilenames|) &&
            (|pathSubstitutions| > 0 ==>
               arguments[|protoFilenames|] == "--" &&
               arguments[|protoFilenames| + 1..] == lib.substitutionsToArgs(pathSubstitutions))
  {
  }
}
