/** A canonical parse tree for every AST value the builder can produce, and
    the proof that building that tree gives the value back. Together with
    the builders' own postconditions this says that the builder produces
    exactly the canonical programs of `Ast`. Text that the builder ignores
    is left empty; rules it never inspects are `Other`. */
module AstTrees {
  import opened Results
  import opened IntegerText
  import opened ParseTree
  import opened Ast
  import opened AstBuild

  function Leaf(rule: Rule, text: string): Node {
    Node(rule, text, [])
  }

  // ---------------------------------------------------------------------
  // Types.

  function TypeTree(t: TypeExpr): Node {
    match t
    case Int => Leaf(IntType, "Int")
    case Float => Leaf(FloatType, "Float")
    case Char => Leaf(CharType, "Char")
    case Bool => Leaf(BoolType, "Bool")
    case List(e) => Node(ListType, "", [TypeTree(e)])
    case Func(ts) => Node(FuncType, "", seq(|ts|, i requires 0 <= i < |ts| => TypeTree(ts[i])))
    case CustomType(name) => Leaf(Rule.CustomType, name)
    case Generic(name) => Leaf(Rule.Generic, name)
  }

  lemma {:induction false} TypeRoundTrip(t: TypeExpr)
    requires NoUnaryFunc(t)
    ensures WellFormedType(TypeTree(t)) && BuildType(TypeTree(t)) == Ok(t)
  {
    match t
    case List(e) => TypeRoundTrip(e);
    case Func(ts) =>
      var n := TypeTree(t);
      forall i | 0 <= i < |ts| ensures WellFormedType(n.children[i]) && BuildType(n.children[i]) == Ok(ts[i]) {
        TypeRoundTrip(ts[i]);
      }
      assert BuildTypes(n.children).value == ts;
    case _ =>
  }

  // ---------------------------------------------------------------------
  // Expressions and literals. A call with one argument is written as a
  // prefix operator, one with two as an infix operator, and any other as a
  // prefix function call whose arguments are parenthesised expressions.

  function ExprTree(e: Expression): Node
    decreases e, 1
  {
    Node(Rule.Expression, "", [OperandTree(e)])
  }

  function OperandTree(e: Expression): Node
    decreases e, 0
  {
    match e
    case Literal(l) => Node(Rule.Literal, "", [LiteralTree(l)])
    case Ident(name) => Leaf(IdentLower, name)
    case FuncCall(f, args) =>
      if |args| == 1 then Node(PrefixOp, f, [OperandTree(args[0])])
      else if |args| == 2 then Node(InfixOp, f, [OperandTree(args[0]), OperandTree(args[1])])
      else Node(FuncPrefix, "", [Leaf(IdentLower, f)] + ExprTrees(args))
  }

  function ExprTrees(es: seq<Expression>): (ns: seq<Node>)
    decreases es, 2
    ensures |ns| == |es| && forall i :: 0 <= i < |es| ==> ns[i] == ExprTree(es[i])
  {
    seq(|es|, i requires 0 <= i < |es| => ExprTree(es[i]))
  }

  function LiteralTree(l: Literal): Node
    decreases l
  {
    match l
    case Integer(v) => Leaf(Rule.Integer, IntText(v))
    case Decimal(text) => Leaf(Rule.Decimal, text)
    case Bool(b) =>
      if b then Node(BoolLiteral, "True", [Leaf(TrueLiteral, "True")])
      else Node(BoolLiteral, "False", [Leaf(FalseLiteral, "False")])
    case List(es) => Node(Rule.List, "", ExprTrees(es))
  }

  lemma {:induction false} ExprRoundTrip(e: Expression)
    requires ExprIntsFit(e)
    decreases e, 2
    ensures WellFormedExpression(ExprTree(e)) && BuildExpression(ExprTree(e)) == Ok(e)
  {
    OperandRoundTrip(e);
  }

  lemma {:induction false} ExprsRoundTrip(es: seq<Expression>)
    requires forall i :: 0 <= i < |es| ==> ExprIntsFit(es[i])
    decreases es, 3
    ensures forall i :: 0 <= i < |es| ==>
      WellFormedExpression(ExprTrees(es)[i]) && BuildExpression(ExprTrees(es)[i]) == Ok(es[i])
  {
    forall i | 0 <= i < |es|
      ensures WellFormedExpression(ExprTrees(es)[i]) && BuildExpression(ExprTrees(es)[i]) == Ok(es[i])
    {
      ExprRoundTrip(es[i]);
    }
  }

  lemma {:induction false} OperandRoundTrip(e: Expression)
    requires ExprIntsFit(e)
    decreases e, 1
    ensures WellFormedOperand(OperandTree(e)) && BuildPratt(OperandTree(e)) == Ok(e)
  {
    match e
    case Literal(l) => LiteralRoundTrip(l);
    case Ident(_) =>
    case FuncCall(_, args) =>
      if |args| == 1 {
        PrefixRoundTrip(e);
      } else if |args| == 2 {
        InfixRoundTrip(e);
      } else {
        CallRoundTrip(e);
      }
  }

  lemma {:induction false} PrefixRoundTrip(e: Expression)
    requires e.FuncCall? && |e.args| == 1 && ExprIntsFit(e)
    decreases e, 0
    ensures WellFormedOperand(OperandTree(e)) && BuildPratt(OperandTree(e)) == Ok(e)
  {
    var n := OperandTree(e);
    OperandRoundTrip(e.args[0]);
    assert n.children[0] == OperandTree(e.args[0]);
    assert e.args == [e.args[0]];
  }

  lemma {:induction false} InfixRoundTrip(e: Expression)
    requires e.FuncCall? && |e.args| == 2 && ExprIntsFit(e)
    decreases e, 0
    ensures WellFormedOperand(OperandTree(e)) && BuildPratt(OperandTree(e)) == Ok(e)
  {
    var n := OperandTree(e);
    OperandRoundTrip(e.args[0]);
    OperandRoundTrip(e.args[1]);
    assert n.children[0] == OperandTree(e.args[0]);
    assert n.children[1] == OperandTree(e.args[1]);
    assert e.args == [e.args[0], e.args[1]];
  }

  lemma {:induction false} CallRoundTrip(e: Expression)
    requires e.FuncCall? && |e.args| != 1 && |e.args| != 2 && ExprIntsFit(e)
    decreases e, 0
    ensures WellFormedOperand(OperandTree(e)) && BuildPratt(OperandTree(e)) == Ok(e)
  {
    var n := OperandTree(e);
    var args := e.args;
    assert n.rule.FuncPrefix? && n.children[0].text == e.callee;
    ExprsRoundTrip(args);
    forall i | 1 <= i < |n.children|
      ensures WellFormedAtom(n.children[i]) && BuildAtom(n.children[i]) == Ok(args[i - 1])
    {
      assert n.children[i] == ExprTree(args[i - 1]);
    }
    var r := MapPrimary(n);
    assert r.Ok?;
    assert r.value.args == args;
  }

  lemma {:induction false} LiteralRoundTrip(l: Literal)
    requires LiteralIntsFit(l)
    decreases l
    ensures WellFormedLiteral(LiteralTree(l)) && BuildLiteral(LiteralTree(l)) == Ok(l)
  {
    match l
    case Integer(v) => ParseIntText(v);
    case Decimal(_) =>
    case Bool(_) =>
    case List(es) =>
      ExprsRoundTrip(es);
      assert BuildExpressions(ExprTrees(es)).value == es;
  }

  // ---------------------------------------------------------------------
  // Patterns: a constructor pattern is written in prefix form.

  function PatternTree(p: Pattern): Node {
    match p
    case Ident(name) => Leaf(IdentLower, name)
    case Literal(l) => Node(Rule.Literal, "", [LiteralTree(l)])
    case Wildcard => Leaf(Rule.Wildcard, "_")
    case Constructor(name, args) =>
      Node(Rule.Constructor, "", [Node(PrefixConstructor, "", [Leaf(IdentUpper, name)] + PatternTrees(args))])
  }

  function PatternTrees(ps: seq<Pattern>): (ns: seq<Node>)
    ensures |ns| == |ps| && forall i :: 0 <= i < |ps| ==> ns[i] == PatternTree(ps[i])
  {
    seq(|ps|, i requires 0 <= i < |ps| => PatternTree(ps[i]))
  }

  lemma {:induction false} PatternRoundTrip(p: Pattern)
    requires PatternIntsFit(p)
    ensures WellFormedPattern(PatternTree(p)) && BuildPattern(PatternTree(p)) == Ok(p)
  {
    match p
    case Literal(l) => LiteralRoundTrip(l);
    case Constructor(name, args) =>
      PatternsRoundTrip(args);
      var c := PatternTree(p).children[0];
      assert c.children[1..] == PatternTrees(args);
      assert BuildPatterns(c.children[1..]).value == args;
    case _ =>
  }

  lemma {:induction false} PatternsRoundTrip(ps: seq<Pattern>)
    requires forall i :: 0 <= i < |ps| ==> PatternIntsFit(ps[i])
    ensures forall i :: 0 <= i < |ps| ==>
      WellFormedPattern(PatternTrees(ps)[i]) && BuildPattern(PatternTrees(ps)[i]) == Ok(ps[i])
  {
    forall i | 0 <= i < |ps|
      ensures WellFormedPattern(PatternTrees(ps)[i]) && BuildPattern(PatternTrees(ps)[i]) == Ok(ps[i])
    {
      PatternRoundTrip(ps[i]);
    }
  }

  // ---------------------------------------------------------------------
  // Statements and programs.

  /** The field types of a constructor: every slot but the last. */
  function FieldTypes(t: TypeExpr): seq<TypeExpr> {
    if t.Func? && |t.types| >= 1 then t.types[..|t.types| - 1] else []
  }

  function ConstructorTree(d: Declaration): Node {
    var fields := FieldTypes(d.ty);
    Node(Other("constructor"), "", [Leaf(IdentUpper, d.name)]
                                   + seq(|fields|, i requires 0 <= i < |fields| => TypeTree(fields[i])))
  }

  function GuardTree(g: Guard): Node {
    Node(Other("guard"), "", [ExprTree(g.condition), ExprTree(g.result)])
  }

  function BodyTree(b: Body): Node {
    match b
    case Expression(e) => ExprTree(e)
    case Guards(gs) => Node(Rule.Guards, "", seq(|gs|, i requires 0 <= i < |gs| => GuardTree(gs[i])))
  }

  function StatementTree(s: Statement): Node {
    match s
    case Declaration(d) => Node(ConstDeclaration, "", [Leaf(IdentLower, d.name), TypeTree(d.ty)])
    case TypeDeclaration(name, cs) =>
      Node(Rule.TypeDeclaration, "", [Leaf(IdentUpper, name)]
                                     + seq(|cs|, i requires 0 <= i < |cs| => ConstructorTree(cs[i])))
    case Definition(name, args, body) =>
      Node(Rule.Definition, "", [Leaf(IdentLower, name), Node(Other("args"), "", PatternTrees(args)), BodyTree(body)])
    case Comment(text) => Leaf(Rule.Comment, text)
  }

  function ProgramTrees(p: Program): (ns: seq<Node>)
    ensures |ns| == |p.statements| && forall i :: 0 <= i < |ns| ==> ns[i] == StatementTree(p.statements[i])
  {
    seq(|p.statements|, i requires 0 <= i < |p.statements| => StatementTree(p.statements[i]))
  }

  lemma ConstructorRoundTrip(d: Declaration, typeName: string)
    requires ConstructorTyped(d.ty, TypeExpr.CustomType(typeName))
    ensures WellFormedConstructorDecl(ConstructorTree(d))
    ensures BuildConstructorDecl(ConstructorTree(d), TypeExpr.CustomType(typeName)) == Ok(d)
  {
    var data := TypeExpr.CustomType(typeName);
    var fields := FieldTypes(d.ty);
    var n := ConstructorTree(d);
    forall i | 0 <= i < |fields|
      ensures WellFormedType(n.children[1..][i]) && BuildType(n.children[1..][i]) == Ok(fields[i])
    {
      assert n.children[1..][i] == TypeTree(fields[i]);
      assert fields[i] == d.ty.types[i];
      TypeRoundTrip(fields[i]);
    }
    var built := BuildTypes(n.children[1..]);
    assert built.value == fields;
    if d.ty.Func? {
      assert fields + [data] == d.ty.types;
    }
  }

  lemma GuardRoundTrip(g: Guard)
    requires ExprIntsFit(g.condition) && ExprIntsFit(g.result)
    ensures WellFormedGuard(GuardTree(g)) && BuildGuard(GuardTree(g)) == Ok(g)
  {
    ExprRoundTrip(g.condition);
    ExprRoundTrip(g.result);
  }

  lemma BodyRoundTrip(b: Body)
    requires BodyIntsFit(b)
    ensures WellFormedBody(BodyTree(b)) && BuildBody(BodyTree(b)) == Ok(b)
  {
    match b
    case Expression(e) => ExprRoundTrip(e);
    case Guards(gs) =>
      var n := BodyTree(b);
      forall i | 0 <= i < |gs| ensures WellFormedGuard(n.children[i]) && BuildGuard(n.children[i]) == Ok(gs[i]) {
        GuardRoundTrip(gs[i]);
      }
      assert BuildBody(n).value.guards == gs;
  }

  lemma StatementRoundTrip(s: Statement)
    requires CanonicalStatement(s)
    ensures WellFormedStatement(StatementTree(s)) && BuildStatement(StatementTree(s)) == Ok(s)
  {
    var n := StatementTree(s);
    match s
    case Declaration(d) => TypeRoundTrip(d.ty);
    case TypeDeclaration(_, _) => TypeDeclarationRoundTrip(s);
    case Definition(_, _, _) => DefinitionRoundTrip(s);
    case Comment(_) =>
  }

  lemma TypeDeclarationRoundTrip(s: Statement)
    requires s.TypeDeclaration? && CanonicalStatement(s)
    ensures WellFormedStatement(StatementTree(s)) && BuildTypeDeclaration(StatementTree(s)) == Ok(s)
  {
    var n := StatementTree(s);
    var data := TypeExpr.CustomType(s.name);
    assert n.children[0].text == s.name;
    forall i | 1 <= i < |n.children|
      ensures WellFormedConstructorDecl(n.children[i])
      ensures BuildConstructorDecl(n.children[i], data) == Ok(s.constructors[i - 1])
    {
      assert n.children[i] == ConstructorTree(s.constructors[i - 1]);
      ConstructorRoundTrip(s.constructors[i - 1], s.name);
    }
    var r := BuildTypeDeclaration(n);
    assert r.Ok?;
    assert r.value.constructors == s.constructors;
  }

  lemma DefinitionRoundTrip(s: Statement)
    requires s.Definition? && CanonicalStatement(s)
    ensures WellFormedStatement(StatementTree(s)) && BuildStatement(StatementTree(s)) == Ok(s)
  {
    var n := StatementTree(s);
    PatternsRoundTrip(s.args);
    BodyRoundTrip(s.body);
    assert BuildPatterns(n.children[1].children).value == s.args;
  }

  /** Building the canonical trees of a canonical program gives the program
      back: every canonical program is built from some parse tree. */
  lemma BuildAstRoundTrip(p: Program)
    requires CanonicalProgram(p)
    ensures forall i :: 0 <= i < |ProgramTrees(p)| ==> WellFormedStatement(ProgramTrees(p)[i])
    ensures BuildAst(ProgramTrees(p)) == Ok(p)
  {
    var ns := ProgramTrees(p);
    forall i | 0 <= i < |ns| ensures WellFormedStatement(ns[i]) && BuildStatement(ns[i]) == Ok(p.statements[i]) {
      StatementRoundTrip(p.statements[i]);
    }
    assert BuildAst(ns).value.statements == p.statements;
  }

  /** The programs the builder produces are exactly the canonical ones. */
  lemma BuildAstImage(p: Program)
    ensures CanonicalProgram(p) <==>
      exists nodes :: (forall i :: 0 <= i < |nodes| ==> WellFormedStatement(nodes[i])) && BuildAst(nodes) == Ok(p)
  {
    if CanonicalProgram(p) {
      BuildAstRoundTrip(p);
    }
  }
}
