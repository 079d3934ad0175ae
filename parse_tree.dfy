/** The rule-tagged parse tree that the grammar hands to the AST builder. A
    node carries its rule, the source text it spans and its inner nodes in
    order. Only the rules the builder distinguishes have their own tag;
    every other rule is `Other`.

    Inside an `Expression` node the flat sequence of operands and operators
    is represented as the Pratt parser groups it: the node has exactly one
    child, the root of that grouping. `PrefixOp` (one child, the operand)
    and `InfixOp` (two children, left then right) stand for an applied
    operator whose surface text is the node's text; any other child is a
    primary. */
module ParseTree {

  datatype Rule =
    | ConstDeclaration
    | TypeDeclaration
    | Definition
    | Comment
    | Eoi
    | Expression
    | Guards
    | Otherwise
    | IntType
    | FloatType
    | CharType
    | BoolType
    | ListType
    | FuncType
    | CustomType
    | Generic
    | IdentLower
    | IdentUpper
    | Literal
    | Constructor
    | Wildcard
    | PrefixConstructor
    | BinConstructor
    | Integer
    | Decimal
    | BoolLiteral
    | TrueLiteral
    | FalseLiteral
    | List
    | FuncPrefix
    | PrefixOp
    | InfixOp
    | Other(name: string)

  datatype Node = Node(rule: Rule, text: string, children: seq<Node>)
}
