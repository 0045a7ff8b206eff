/** Operations, changes and errors shared by the parser, the writer and the executor. */
module Types {

  datatype OpKind = OpWrite | OpCreate | OpModify | OpDelete

  datatype FileOp = FileOp(kind: OpKind, rawPath: string, path: string, content: string)

  datatype Change = Change(path: string, operation: OpKind, bytes: nat, skipped: bool)

  datatype ParseReason = NoOperations | UnclosedFence | MissingPath | DuplicatePath

  /** `line` is 1-based; 0 when no line applies. */
  datatype ParseError = ParseError(reason: ParseReason, line: nat)

  datatype WriteReason =
    | PathTraversal | IgnoredByGit | BinaryExtension
    | NotRegularFile | DuplicateTarget | IoError

  datatype WriteError = WriteError(reason: WriteReason, path: string)
}
