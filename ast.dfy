/** The parts of the document tree the transformer reads and writes. */
module Ast {
  import opened Values

  /** One `const` declarator of the synthesised export: `id = init`. The
      initializer carries the value that the literal-to-expression converter
      would turn into an expression. */
  datatype Declarator = Declarator(id: string, init: Value)

  /** A top-level child of the document. A `Leaf` is any node with a `type`
      and a text `value` (front-matter blocks among them); an `Esm` is the
      export node the transformer synthesises. */
  datatype Node =
    | Leaf(kind: string, text: string)
    | Esm(declarations: seq<Declarator>)
  {
    /** The node's `type` field. */
    function NodeType(): string {
      match this
      case Leaf(kind, _) => kind
      case Esm(_) => "mdxjsEsm"
    }

    /** The node's `value` field; an export node's is empty. */
    function Literal(): string {
      match this
      case Leaf(_, text) => text
      case Esm(_) => ""
    }
  }
}
