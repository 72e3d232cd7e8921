/** The part of Babel's AST the plugin reads and builds: the statements of a
    module body, import declarations with their specifiers, and the two
    initialiser shapes the plugin emits. Every statement the plugin does not
    look into is opaque. */
module Ast {

  datatype Specifier =
    | ImportDefaultSpecifier(local: string)
    | ImportSpecifier(local: string, imported: string)
    | ImportNamespaceSpecifier(local: string)

  /** `import <specifiers> from '<source>'` */
  datatype ImportDeclaration = ImportDeclaration(specifiers: seq<Specifier>, source: string)

  datatype TemplateElement = TemplateElement(raw: string, cooked: string)

  datatype Expression =
    | StringLiteral(value: string)
    | TaggedTemplateExpression(tag: string, quasi: TemplateLiteral)

  datatype TemplateLiteral = TemplateLiteral(quasis: seq<TemplateElement>, expressions: seq<Expression>)

  datatype Statement =
    | Import(decl: ImportDeclaration)
    | ConstDeclaration(id: string, init: Expression)
    | OtherStatement(code: string)

  /** A module body that Babel edits in place through a node path. */
  class Program {
    var body: seq<Statement>

    constructor (body: seq<Statement>)
      ensures this.body == body
    {
      this.body := body;
    }

    /** `path.insertBefore(node)` for the path at index `i`. */
    method InsertBefore(i: nat, node: Statement)
      requires i < |body|
      modifies this
      ensures body == old(body[..i]) + [node] + old(body[i..])
    {
      body := body[..i] + [node] + body[i..];
    }

    /** `path.replaceWith(node)` for the path at index `i`. */
    method ReplaceWith(i: nat, node: Statement)
      requires i < |body|
      modifies this
      ensures body == old(body[..i]) + [node] + old(body[i + 1..])
    {
      body := body[..i] + [node] + body[i + 1..];
    }
  }
}
