/** The abstract syntax of the Haskell-like language: the union of the shapes
    that the AST builder constructs and the analyser matches on. Every node is
    an immutable value owning its children, so expressions and types are
    finite trees without sharing. */
module Ast {
  import IntegerText

  /** A program is its statements, in source order. */
  datatype Program = Program(statements: seq<Statement>)

  /** A name bound to a type: a type signature, or one constructor of an
      algebraic data type. */
  datatype Declaration = Declaration(name: string, ty: TypeExpr)

  datatype Statement =
    | Declaration(decl: Declaration)
    | TypeDeclaration(name: string, constructors: seq<Declaration>)
    | Definition(name: string, args: seq<Pattern>, body: Body)
    | Comment(text: string)

  datatype Pattern =
    | Ident(name: string)
    | Literal(lit: Literal)
    | Wildcard
    | Constructor(name: string, args: seq<Pattern>)

  /** A right-hand side: one expression, or guards tried in order. */
  datatype Body =
    | Expression(expr: Expression)
    | Guards(guards: seq<Guard>)

  datatype Guard = Guard(condition: Expression, result: Expression)

  /** Prefix and infix operators and prefix function calls all share the
      `FuncCall` shape: the operator or function name and its arguments. */
  datatype Expression =
    | Literal(lit: Literal)
    | Ident(name: string)
    | FuncCall(callee: string, args: seq<Expression>)

  /** `Integer` holds a 64-bit value; `Decimal` keeps the literal's text
      instead of a double-precision value. */
  datatype Literal =
    | Integer(value: int)
    | Decimal(text: string)
    | Bool(b: bool)
    | List(elements: seq<Expression>)

  /** `List` has exactly one element type; `Func` lists its parameter types
      followed by its result type. */
  datatype TypeExpr =
    | Int
    | Float
    | Char
    | Bool
    | List(element: TypeExpr)
    | Func(types: seq<TypeExpr>)
    | CustomType(name: string)
    | Generic(name: string)

  /** No `Func` anywhere in `t` has exactly one slot: a one-slot function
      type is always written as its only type. */
  predicate NoUnaryFunc(t: TypeExpr) {
    match t
    case List(e) => NoUnaryFunc(e)
    case Func(ts) => |ts| != 1 && forall i :: 0 <= i < |ts| ==> NoUnaryFunc(ts[i])
    case _ => true
  }

  /** The type of a constructor of the data type `data`: a function type from
      one or more canonical field types to `data`, or `data` itself. */
  predicate ConstructorTyped(t: TypeExpr, data: TypeExpr) {
    t == data
    || (t.Func? && |t.types| >= 2 && t.types[|t.types| - 1] == data
        && forall i :: 0 <= i < |t.types| - 1 ==> NoUnaryFunc(t.types[i]))
  }

  // The AST values the builder can produce: every integer literal fits in
  // 64 signed bits, no function type has a single slot, and each
  // constructor's type ends in the type it belongs to.

  predicate ExprIntsFit(e: Expression) {
    match e
    case Literal(l) => LiteralIntsFit(l)
    case Ident(_) => true
    case FuncCall(_, args) => forall i :: 0 <= i < |args| ==> ExprIntsFit(args[i])
  }

  predicate LiteralIntsFit(l: Literal) {
    match l
    case Integer(v) => IntegerText.InI64(v)
    case List(es) => forall i :: 0 <= i < |es| ==> ExprIntsFit(es[i])
    case _ => true
  }

  predicate PatternIntsFit(p: Pattern) {
    match p
    case Literal(l) => LiteralIntsFit(l)
    case Constructor(_, args) => forall i :: 0 <= i < |args| ==> PatternIntsFit(args[i])
    case _ => true
  }

  predicate BodyIntsFit(b: Body) {
    match b
    case Expression(e) => ExprIntsFit(e)
    case Guards(gs) => forall i :: 0 <= i < |gs| ==> ExprIntsFit(gs[i].condition) && ExprIntsFit(gs[i].result)
  }

  predicate CanonicalStatement(s: Statement) {
    match s
    case Declaration(d) => NoUnaryFunc(d.ty)
    case TypeDeclaration(name, cs) =>
      forall i :: 0 <= i < |cs| ==> ConstructorTyped(cs[i].ty, CustomType(name))
    case Definition(_, args, body) =>
      (forall i :: 0 <= i < |args| ==> PatternIntsFit(args[i])) && BodyIntsFit(body)
    case Comment(_) => true
  }

  predicate CanonicalProgram(p: Program) {
    forall i :: 0 <= i < |p.statements| ==> CanonicalStatement(p.statements[i])
  }
}
