/**
 * The part of Python's syntax tree the symbol extractor looks at. Every
 * node kind without a dedicated visit rule is an `Other` node that only
 * holds its children, in the order the generic visitor walks them.
 */
module PythonAst {
  import opened Wrappers

  /** `import name as asname` / `from m import name as asname` */
  datatype Alias = Alias(name: string, asname: Option<string>)

  datatype Node =
    | Import(line: int, names: seq<Alias>)
    | ImportFrom(line: int, fromModule: Option<string>, names: seq<Alias>)
      /** `returnAnnotation` is the unparsed return annotation; the annotation's own subtree, like the arguments, body and decorators, is among `children`. */
    | FunctionDef(line: int, name: string, returnAnnotation: Option<string>, children: seq<Node>)
    | AsyncFunctionDef(line: int, name: string, returnAnnotation: Option<string>, children: seq<Node>)
    | ClassDef(line: int, name: string, children: seq<Node>)
    | Assign(line: int, targets: seq<Node>, value: Node)
    | AnnAssign(line: int, target: Node, annotation: Node, rhs: Option<Node>)
      /** `isLoad` is true for the `Load` context, false for `Store` and `Del`. */
    | Name(line: int, id: string, isLoad: bool)
    | Attribute(line: int, value: Node, attr: string)
      /** `args` holds the positional and then the keyword arguments. */
    | Call(line: int, func: Node, args: seq<Node>)
    | Other(children: seq<Node>)

  /**
   * `ast.parse`: the statements of the module's body, or `None` when the
   * text is not valid Python. Visiting the `Module` node visits exactly
   * these statements in order.
   */
  type Parser = string -> Option<seq<Node>>
}
