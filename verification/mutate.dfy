/**
 The records discovery produces. Only the fields discovery fills in are
 modelled; how an op is turned into replacement text lives elsewhere in the
 program and is not part of this model.
 */
module Mutate {
  import opened Syntax

  /** A file of the source tree, identified by its tree-relative path. */
  datatype SourceFile = SourceFile(treeRelativePath: string)

  /** The whole-body replacements discovery can choose: `()`, `Default::default()`,
      `true`, `false`, an empty string, `"xyzzy"`, and `Ok(Default::default())`. */
  datatype MutationOp = Unit | Default | True | False | EmptyString | Xyzzy | OkDefault

  /** One candidate mutation: replace the body at `span` of the function
      `functionName` (namespace segments joined by `::`) using `op`. */
  datatype Mutation = Mutation(
    sourceFile: SourceFile,
    op: MutationOp,
    functionName: string,
    returnType: string,
    span: Span)
}
