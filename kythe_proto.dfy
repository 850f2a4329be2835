/** The records of Kythe's analysis protocol buffers that the core reads and
    writes, as immutable values. */
module KytheProto {

  /** A graph node's name: two VNames are the same node iff all fields match. */
  datatype VName = VName(
    signature: string,
    corpus: string,
    root: string,
    path: string,
    language: string)

  /** A default-constructed VName: every field empty. */
  const EmptyVName := VName("", "", "", "", "")

  datatype FileInfo = FileInfo(path: string, digest: string)

  /** One `required_input` entry of a compilation unit. */
  datatype FileInput = FileInput(vName: VName, info: FileInfo)

  datatype CompilationUnit = CompilationUnit(
    workingDirectory: string,
    arguments: seq<string>,
    sourceFiles: seq<string>,
    requiredInputs: seq<FileInput>)

  /** A file delivered with its content. */
  datatype FileData = FileData(info: FileInfo, content: string)
}
