/** The AST builder: one total function per `build_*` function of the
    source, mapping each rule of the parse tree to one AST node.

    Each builder requires its node to be well-formed for the place it is
    built in: enough inner nodes for every `next().unwrap()`, and only the
    rules a `match` arm ending in `unreachable!()` allows. A rule that the
    source rejects with `panic!` is reported instead as an
    `UnexpectedRule` error carrying the rule and its text. Sequences of
    inner nodes are built in order and the first error wins, as with
    `map(...).collect()`. */
module AstBuild {
  import opened Results
  import opened IntegerText
  import opened ParseTree
  import opened Ast

  /** Which builder rejected a rule. */
  datatype Site = StatementSite | TypeSite | PatternSite | LiteralSite

  datatype BuildError = UnexpectedRule(site: Site, rule: Rule, text: string)

  type Built<T> = Result<T, BuildError>

  // ---------------------------------------------------------------------
  // The rules each builder accepts without failing.

  predicate IsStatementRule(r: Rule) {
    r.ConstDeclaration? || r.TypeDeclaration? || r.Definition? || r.Comment? || r.Eoi?
  }

  predicate IsTypeRule(r: Rule) {
    r.IntType? || r.FloatType? || r.CharType? || r.BoolType? || r.ListType? || r.FuncType?
    || r.CustomType? || r.Generic?
  }

  predicate IsPatternRule(r: Rule) {
    r.IdentLower? || r.IdentUpper? || r.Literal? || r.Constructor? || r.Wildcard?
  }

  predicate IsLiteralRule(r: Rule) {
    r.Integer? || r.Decimal? || r.BoolLiteral? || r.List?
  }

  // ---------------------------------------------------------------------
  // Well-formedness: what the grammar guarantees and the builder relies on.

  predicate WellFormedStatement(n: Node) {
    match n.rule
    case ConstDeclaration => |n.children| >= 2 && WellFormedType(n.children[1])
    case TypeDeclaration =>
      |n.children| >= 1 && forall i :: 1 <= i < |n.children| ==> WellFormedConstructorDecl(n.children[i])
    case Definition =>
      && |n.children| >= 3
      && (forall i :: 0 <= i < |n.children[1].children| ==> WellFormedPattern(n.children[1].children[i]))
      && WellFormedBody(n.children[2])
    case _ => true
  }

  predicate WellFormedBody(n: Node) {
    match n.rule
    case Expression => WellFormedExpression(n)
    case Guards => forall i :: 0 <= i < |n.children| ==> WellFormedGuard(n.children[i])
    case _ => false
  }

  predicate WellFormedGuard(n: Node) {
    && |n.children| >= 2
    && (n.children[0].rule.Otherwise? || (n.children[0].rule.Expression? && WellFormedExpression(n.children[0])))
    && WellFormedExpression(n.children[1])
  }

  predicate WellFormedType(n: Node) {
    match n.rule
    case ListType => |n.children| >= 1 && WellFormedType(n.children[0])
    case FuncType => forall i :: 0 <= i < |n.children| ==> WellFormedType(n.children[i])
    case _ => true
  }

  predicate WellFormedConstructorDecl(n: Node) {
    |n.children| >= 1 && forall i :: 1 <= i < |n.children| ==> WellFormedType(n.children[i])
  }

  predicate WellFormedPattern(n: Node)
    decreases n, 0
  {
    match n.rule
    case Literal => |n.children| >= 1 && WellFormedLiteral(n.children[0])
    case Constructor => |n.children| >= 1 && WellFormedConstructor(n.children[0])
    case _ => true
  }

  predicate WellFormedConstructor(n: Node)
    decreases n, 0
  {
    match n.rule
    case PrefixConstructor =>
      |n.children| >= 1 && forall i :: 1 <= i < |n.children| ==> WellFormedPattern(n.children[i])
    case BinConstructor =>
      |n.children| >= 3 && WellFormedPattern(n.children[0]) && WellFormedPattern(n.children[2])
    case _ => false
  }

  predicate WellFormedLiteral(n: Node)
    decreases n, 0
  {
    match n.rule
    case Integer => ParseI64(n.text).Some?
    case BoolLiteral =>
      |n.children| >= 1 && (n.children[0].rule.TrueLiteral? || n.children[0].rule.FalseLiteral?)
    case List => forall i :: 0 <= i < |n.children| ==> WellFormedExpression(n.children[i])
    case _ => true
  }

  /** An expression node holds the Pratt grouping of its operands. */
  predicate WellFormedExpression(n: Node)
    decreases n, 0
  {
    |n.children| == 1 && WellFormedOperand(n.children[0])
  }

  predicate WellFormedOperand(n: Node)
    decreases n, 2
  {
    match n.rule
    case PrefixOp => |n.children| == 1 && WellFormedOperand(n.children[0])
    case InfixOp =>
      |n.children| == 2 && WellFormedOperand(n.children[0]) && WellFormedOperand(n.children[1])
    case FuncPrefix =>
      |n.children| >= 1 && forall i :: 1 <= i < |n.children| ==> WellFormedAtom(n.children[i])
    case _ => WellFormedAtom(n)
  }

  predicate WellFormedAtom(n: Node)
    decreases n, 1
  {
    match n.rule
    case Expression => WellFormedExpression(n)
    case Literal => |n.children| >= 1 && WellFormedLiteral(n.children[0])
    case IdentLower => true
    case IdentUpper => true
    case _ => false
  }

  // ---------------------------------------------------------------------
  // Statements and programs.

  /** `build_ast`: one statement per top-level node, in order. */
  function BuildAst(nodes: seq<Node>): (r: Built<Program>)
    requires forall i :: 0 <= i < |nodes| ==> WellFormedStatement(nodes[i])
    ensures r.Ok? <==> forall i :: 0 <= i < |nodes| ==> BuildStatement(nodes[i]).Ok?
    ensures r.Ok? ==>
      && |r.value.statements| == |nodes|
      && forall i :: 0 <= i < |nodes| ==> r.value.statements[i] == BuildStatement(nodes[i]).value
    ensures r.Err? ==>
      exists k :: 0 <= k < |nodes| && BuildStatement(nodes[k]) == Err(r.error)
                  && forall j :: 0 <= j < k ==> BuildStatement(nodes[j]).Ok?
    ensures r.Ok? ==> CanonicalProgram(r.value)
  {
    var rs := seq(|nodes|, i requires 0 <= i < |nodes| => BuildStatement(nodes[i]));
    assert forall i :: 0 <= i < |nodes| ==> rs[i] == BuildStatement(nodes[i]);
    var statements :- Collect(rs);
    Ok(Program(statements))
  }

  /** `build_statement`. */
  function BuildStatement(n: Node): (r: Built<Statement>)
    requires WellFormedStatement(n)
    ensures r.Ok? ==> CanonicalStatement(r.value)
    ensures r.Ok? ==>
      && (r.value.Declaration? <==> n.rule.ConstDeclaration?)
      && (r.value.TypeDeclaration? <==> n.rule.TypeDeclaration?)
      && (r.value.Definition? <==> n.rule.Definition?)
      && (r.value.Comment? <==> n.rule.Comment? || n.rule.Eoi?)
    ensures (r.Err? && r.error.site == StatementSite) <==> !IsStatementRule(n.rule)
    ensures !IsStatementRule(n.rule) ==> r == Err(UnexpectedRule(StatementSite, n.rule, n.text))
    ensures n.rule.ConstDeclaration? ==>
      r == (match BuildType(n.children[1])
            case Ok(ty) => Ok(Statement.Declaration(Declaration.Declaration(n.children[0].text, ty)))
            case Err(e) => Err(e))
    ensures n.rule.Definition? && r.Ok? ==>
      && r.value.name == n.children[0].text
      && |r.value.args| == |n.children[1].children|
      && (forall i :: 0 <= i < |r.value.args| ==> Ok(r.value.args[i]) == BuildPattern(n.children[1].children[i]))
      && Ok(r.value.body) == BuildBody(n.children[2])
    ensures n.rule.Definition? ==>
      && (r.Ok? <==> BuildPatterns(n.children[1].children).Ok? && BuildBody(n.children[2]).Ok?)
      && (BuildPatterns(n.children[1].children).Err? ==> r == Err(BuildPatterns(n.children[1].children).error))
      && (BuildPatterns(n.children[1].children).Ok? && BuildBody(n.children[2]).Err? ==>
            r == Err(BuildBody(n.children[2]).error))
    ensures n.rule.TypeDeclaration? ==> r == BuildTypeDeclaration(n)
    ensures n.rule.Comment? ==> r == Ok(Statement.Comment(n.text))
    ensures n.rule.Eoi? ==> r == Ok(Statement.Comment("End of Input"))
  {
    match n.rule
    case ConstDeclaration =>
      var ty :- BuildType(n.children[1]);
      Ok(Statement.Declaration(Declaration.Declaration(n.children[0].text, ty)))
    case TypeDeclaration => BuildTypeDeclaration(n)
    case Definition =>
      var args :- BuildPatterns(n.children[1].children);
      var body :- BuildBody(n.children[2]);
      Ok(Statement.Definition(n.children[0].text, args, body))
    case Comment => Ok(Statement.Comment(n.text))
    case Eoi => Ok(Statement.Comment("End of Input"))
    case _ => Err(UnexpectedRule(StatementSite, n.rule, n.text))
  }

  /** `build_body`. */
  function BuildBody(n: Node): (r: Built<Body>)
    requires WellFormedBody(n)
    ensures r.Ok? ==> BodyIntsFit(r.value)
    ensures r.Err? ==> r.error.site == LiteralSite && !IsLiteralRule(r.error.rule)
    ensures n.rule.Expression? ==>
      r.Ok? == BuildExpression(n).Ok? && (r.Ok? ==> r.value == Body.Expression(BuildExpression(n).value))
    ensures n.rule.Guards? ==>
      && (r.Ok? <==> forall i :: 0 <= i < |n.children| ==> BuildGuard(n.children[i]).Ok?)
      && (r.Ok? ==> r.value.Guards? && |r.value.guards| == |n.children|
                    && forall i :: 0 <= i < |n.children| ==> Ok(r.value.guards[i]) == BuildGuard(n.children[i]))
  {
    match n.rule
    case Expression =>
      var e :- BuildExpression(n);
      Ok(Body.Expression(e))
    case Guards =>
      var rs := seq(|n.children|, i requires 0 <= i < |n.children| => BuildGuard(n.children[i]));
      assert forall i :: 0 <= i < |n.children| ==> rs[i] == BuildGuard(n.children[i]);
      var gs :- Collect(rs);
      Ok(Body.Guards(gs))
  }

  /** `build_guard`: `otherwise` becomes the literal `true`. */
  function BuildGuard(n: Node): (r: Built<Guard>)
    requires WellFormedGuard(n)
    ensures r.Ok? ==> ExprIntsFit(r.value.condition) && ExprIntsFit(r.value.result)
    ensures r.Err? ==> r.error.site == LiteralSite && !IsLiteralRule(r.error.rule)
    ensures n.children[0].rule.Otherwise? ==>
      r.Ok? == BuildExpression(n.children[1]).Ok?
      && (r.Ok? ==> r.value.condition == Expression.Literal(Literal.Bool(true)))
    ensures n.children[0].rule.Expression? ==>
      r.Ok? == (BuildExpression(n.children[0]).Ok? && BuildExpression(n.children[1]).Ok?)
      && (r.Ok? ==> Ok(r.value.condition) == BuildExpression(n.children[0]))
    ensures r.Ok? ==> Ok(r.value.result) == BuildExpression(n.children[1])
  {
    var condition :-
      if n.children[0].rule.Otherwise? then Ok(Expression.Literal(Literal.Bool(true)))
      else BuildExpression(n.children[0]);
    var result :- BuildExpression(n.children[1]);
    Ok(Guard(condition, result))
  }

  // ---------------------------------------------------------------------
  // Types and algebraic data types.

  /** `build_type`. */
  function BuildType(n: Node): (r: Built<TypeExpr>)
    requires WellFormedType(n)
    decreases n, 1
    ensures r.Ok? ==> NoUnaryFunc(r.value)
    ensures r.Err? ==> r.error.site == TypeSite && !IsTypeRule(r.error.rule)
    ensures !IsTypeRule(n.rule) <==> r == Err(UnexpectedRule(TypeSite, n.rule, n.text))
    ensures n.rule.IntType? ==> r == Ok(Int)
    ensures n.rule.FloatType? ==> r == Ok(Float)
    ensures n.rule.CharType? ==> r == Ok(Char)
    ensures n.rule.BoolType? ==> r == Ok(TypeExpr.Bool)
    ensures n.rule.CustomType? ==> r == Ok(TypeExpr.CustomType(n.text))
    ensures n.rule.Generic? ==> r == Ok(TypeExpr.Generic(n.text))
    ensures n.rule.ListType? ==>
      r.Ok? == BuildType(n.children[0]).Ok? && (r.Ok? ==> r.value == TypeExpr.List(BuildType(n.children[0]).value))
    ensures n.rule.FuncType? && |n.children| == 1 ==> r == BuildType(n.children[0])
    ensures n.rule.FuncType? && |n.children| != 1 ==>
      && (r.Ok? <==> forall i :: 0 <= i < |n.children| ==> BuildType(n.children[i]).Ok?)
      && (r.Ok? ==> r.value.Func? && |r.value.types| == |n.children|
                    && forall i :: 0 <= i < |n.children| ==> Ok(r.value.types[i]) == BuildType(n.children[i]))
  {
    match n.rule
    case IntType => Ok(Int)
    case FloatType => Ok(Float)
    case CharType => Ok(Char)
    case BoolType => Ok(TypeExpr.Bool)
    case ListType =>
      var element :- BuildType(n.children[0]);
      Ok(TypeExpr.List(element))
    case FuncType =>
      var types :- BuildTypes(n.children);
      if |types| == 1 then Ok(types[0]) else Ok(Func(types))
    case CustomType => Ok(TypeExpr.CustomType(n.text))
    case Generic => Ok(TypeExpr.Generic(n.text))
    case _ => Err(UnexpectedRule(TypeSite, n.rule, n.text))
  }

  /** The built types of `ns`, in order. */
  function BuildTypes(ns: seq<Node>): (r: Built<seq<TypeExpr>>)
    requires forall i :: 0 <= i < |ns| ==> WellFormedType(ns[i])
    decreases ns, 0
    ensures r.Ok? <==> forall i :: 0 <= i < |ns| ==> BuildType(ns[i]).Ok?
    ensures r.Ok? ==> |r.value| == |ns| && forall i :: 0 <= i < |ns| ==> Ok(r.value[i]) == BuildType(ns[i])
    ensures r.Err? ==>
      exists k :: 0 <= k < |ns| && BuildType(ns[k]) == Err(r.error)
                  && forall j :: 0 <= j < k ==> BuildType(ns[j]).Ok?
  {
    var rs := seq(|ns|, i requires 0 <= i < |ns| => BuildType(ns[i]));
    assert forall i :: 0 <= i < |ns| ==> rs[i] == BuildType(ns[i]);
    Collect(rs)
  }

  /** `build_type_declaration`: every constructor's type ends in the
      declared type. */
  function BuildTypeDeclaration(n: Node): (r: Built<Statement>)
    requires n.rule.TypeDeclaration? && WellFormedStatement(n)
    ensures r.Ok? <==> forall i :: 1 <= i < |n.children| ==>
      BuildConstructorDecl(n.children[i], TypeExpr.CustomType(n.children[0].text)).Ok?
    ensures r.Ok? ==> r.value.TypeDeclaration? && r.value.name == n.children[0].text
    ensures r.Ok? ==> |r.value.constructors| == |n.children| - 1
    ensures r.Ok? ==> forall i :: 0 <= i < |r.value.constructors| ==>
      Ok(r.value.constructors[i]) == BuildConstructorDecl(n.children[i + 1], TypeExpr.CustomType(n.children[0].text))
    ensures r.Ok? ==> CanonicalStatement(r.value)
    ensures r.Err? ==> r.error.site == TypeSite
  {
    var name := n.children[0].text;
    var constructors :- BuildConstructorDecls(n.children[1..], TypeExpr.CustomType(name));
    Ok(Statement.TypeDeclaration(name, constructors))
  }

  /** The built constructors of `ns`, in order, all of the data type `dataType`. */
  function BuildConstructorDecls(ns: seq<Node>, dataType: TypeExpr): (r: Built<seq<Declaration>>)
    requires forall i :: 0 <= i < |ns| ==> WellFormedConstructorDecl(ns[i])
    ensures r.Ok? <==> forall i :: 0 <= i < |ns| ==> BuildConstructorDecl(ns[i], dataType).Ok?
    ensures r.Ok? ==> |r.value| == |ns| && forall i :: 0 <= i < |ns| ==> Ok(r.value[i]) == BuildConstructorDecl(ns[i], dataType)
    ensures r.Err? ==>
      exists k :: 0 <= k < |ns| && BuildConstructorDecl(ns[k], dataType) == Err(r.error)
                  && forall j :: 0 <= j < k ==> BuildConstructorDecl(ns[j], dataType).Ok?
  {
    var rs := seq(|ns|, i requires 0 <= i < |ns| => BuildConstructorDecl(ns[i], dataType));
    assert forall i :: 0 <= i < |ns| ==> rs[i] == BuildConstructorDecl(ns[i], dataType);
    Collect(rs)
  }

  /** `build_constructor_decl`: the field types followed by `dataType`,
      collapsed to `dataType` itself when there are no fields. */
  function BuildConstructorDecl(n: Node, dataType: TypeExpr): (r: Built<Declaration>)
    requires WellFormedConstructorDecl(n)
    ensures r.Ok? <==> forall i :: 1 <= i < |n.children| ==> BuildType(n.children[i]).Ok?
    ensures r.Ok? ==> r.value.name == n.children[0].text
    ensures r.Ok? && |n.children| == 1 ==> r.value.ty == dataType
    ensures r.Ok? && |n.children| > 1 ==>
      && r.value.ty.Func? && |r.value.ty.types| == |n.children|
      && r.value.ty.types[|n.children| - 1] == dataType
      && forall i :: 0 <= i < |n.children| - 1 ==> Ok(r.value.ty.types[i]) == BuildType(n.children[i + 1])
    ensures r.Ok? ==> ConstructorTyped(r.value.ty, dataType)
    ensures r.Err? ==> r.error.site == TypeSite
  {
    var fields :- BuildTypes(n.children[1..]);
    var types := fields + [dataType];
    Ok(Declaration.Declaration(n.children[0].text, if |types| == 1 then types[0] else Func(types)))
  }

  // ---------------------------------------------------------------------
  // Patterns and literals.

  /** `build_pattern`. */
  function BuildPattern(n: Node): (r: Built<Pattern>)
    requires WellFormedPattern(n)
    decreases n, 1
    ensures r.Ok? ==> PatternIntsFit(r.value)
    ensures r.Err? ==>
      || (r.error.site == PatternSite && !IsPatternRule(r.error.rule))
      || (r.error.site == LiteralSite && !IsLiteralRule(r.error.rule))
    ensures !IsPatternRule(n.rule) <==> r == Err(UnexpectedRule(PatternSite, n.rule, n.text))
    ensures n.rule.IdentLower? || n.rule.IdentUpper? ==> r == Ok(Pattern.Ident(n.text))
    ensures n.rule.Wildcard? ==> r == Ok(Pattern.Wildcard)
    ensures n.rule.Literal? ==>
      r.Ok? == BuildLiteral(n.children[0]).Ok? && (r.Ok? ==> r.value == Pattern.Literal(BuildLiteral(n.children[0]).value))
    ensures n.rule.Constructor? ==> r == BuildConstructor(n.children[0])
  {
    match n.rule
    case IdentLower => Ok(Pattern.Ident(n.text))
    case IdentUpper => Ok(Pattern.Ident(n.text))
    case Literal =>
      var l :- BuildLiteral(n.children[0]);
      Ok(Pattern.Literal(l))
    case Constructor => BuildConstructor(n.children[0])
    case Wildcard => Ok(Pattern.Wildcard)
    case _ => Err(UnexpectedRule(PatternSite, n.rule, n.text))
  }

  /** The built patterns of `ns`, in order. */
  function BuildPatterns(ns: seq<Node>): (r: Built<seq<Pattern>>)
    requires forall i :: 0 <= i < |ns| ==> WellFormedPattern(ns[i])
    decreases ns, 0
    ensures r.Ok? <==> forall i :: 0 <= i < |ns| ==> BuildPattern(ns[i]).Ok?
    ensures r.Ok? ==> |r.value| == |ns| && forall i :: 0 <= i < |ns| ==> Ok(r.value[i]) == BuildPattern(ns[i])
    ensures r.Err? ==>
      exists k :: 0 <= k < |ns| && BuildPattern(ns[k]) == Err(r.error)
                  && forall j :: 0 <= j < k ==> BuildPattern(ns[j]).Ok?
  {
    var rs := seq(|ns|, i requires 0 <= i < |ns| => BuildPattern(ns[i]));
    assert forall i :: 0 <= i < |ns| ==> rs[i] == BuildPattern(ns[i]);
    Collect(rs)
  }

  /** `build_constructor`: a prefix constructor `N p1 .. pk` or a binary one
      `p1 :N: p2`. */
  function BuildConstructor(n: Node): (r: Built<Pattern>)
    requires WellFormedConstructor(n)
    decreases n, 0
    ensures r.Ok? ==> r.value.Constructor? && PatternIntsFit(r.value)
    ensures r.Err? ==>
      || (r.error.site == PatternSite && !IsPatternRule(r.error.rule))
      || (r.error.site == LiteralSite && !IsLiteralRule(r.error.rule))
    ensures n.rule.BinConstructor? ==>
      && (r.Ok? <==> BuildPattern(n.children[0]).Ok? && BuildPattern(n.children[2]).Ok?)
      && (r.Ok? ==> r.value == Pattern.Constructor(n.children[1].text,
                                [BuildPattern(n.children[0]).value, BuildPattern(n.children[2]).value]))
    ensures n.rule.PrefixConstructor? ==>
      && (r.Ok? <==> forall i :: 1 <= i < |n.children| ==> BuildPattern(n.children[i]).Ok?)
      && (r.Ok? ==> r.value.name == n.children[0].text && |r.value.args| == |n.children| - 1
                    && forall i :: 0 <= i < |r.value.args| ==> Ok(r.value.args[i]) == BuildPattern(n.children[i + 1]))
  {
    match n.rule
    case PrefixConstructor =>
      var args :- BuildPatterns(n.children[1..]);
      Ok(Pattern.Constructor(n.children[0].text, args))
    case BinConstructor =>
      var first :- BuildPattern(n.children[0]);
      var last :- BuildPattern(n.children[2]);
      Ok(Pattern.Constructor(n.children[1].text, [first, last]))
  }

  /** `build_literal`. */
  function BuildLiteral(n: Node): (r: Built<Literal>)
    requires WellFormedLiteral(n)
    decreases n, 1
    ensures r.Ok? ==> LiteralIntsFit(r.value)
    ensures r.Err? ==> r.error.site == LiteralSite && !IsLiteralRule(r.error.rule)
    ensures !IsLiteralRule(n.rule) <==> r == Err(UnexpectedRule(LiteralSite, n.rule, n.text))
    ensures n.rule.Integer? ==> r == Ok(Literal.Integer(ParseI64(n.text).value))
    ensures n.rule.Decimal? ==> r == Ok(Literal.Decimal(n.text))
    ensures n.rule.BoolLiteral? ==> r == Ok(Literal.Bool(n.children[0].rule.TrueLiteral?))
    ensures n.rule.List? ==>
      && (r.Ok? <==> forall i :: 0 <= i < |n.children| ==> BuildExpression(n.children[i]).Ok?)
      && (r.Ok? ==> r.value.List? && |r.value.elements| == |n.children|
                    && forall i :: 0 <= i < |n.children| ==> Ok(r.value.elements[i]) == BuildExpression(n.children[i]))
  {
    match n.rule
    case Integer => Ok(Literal.Integer(ParseI64(n.text).value))
    case Decimal => Ok(Literal.Decimal(n.text))
    case BoolLiteral => Ok(Literal.Bool(n.children[0].rule.TrueLiteral?))
    case List =>
      var es :- BuildExpressions(n.children);
      Ok(Literal.List(es))
    case _ => Err(UnexpectedRule(LiteralSite, n.rule, n.text))
  }

  // ---------------------------------------------------------------------
  // Expressions: the closures handed to the Pratt parser.

  /** `build_expression`: the AST of the node's Pratt grouping. */
  function BuildExpression(n: Node): (r: Built<Expression>)
    requires WellFormedExpression(n)
    decreases n, 0
    ensures r == BuildPratt(n.children[0])
    ensures r.Ok? ==> ExprIntsFit(r.value)
    ensures r.Err? ==> r.error.site == LiteralSite && !IsLiteralRule(r.error.rule)
  {
    BuildPratt(n.children[0])
  }

  /** The built expressions of `ns`, in order. */
  function BuildExpressions(ns: seq<Node>): (r: Built<seq<Expression>>)
    requires forall i :: 0 <= i < |ns| ==> WellFormedExpression(ns[i])
    decreases ns, 0
    ensures r.Ok? <==> forall i :: 0 <= i < |ns| ==> BuildExpression(ns[i]).Ok?
    ensures r.Ok? ==> |r.value| == |ns| && forall i :: 0 <= i < |ns| ==> Ok(r.value[i]) == BuildExpression(ns[i])
    ensures r.Err? ==>
      exists k :: 0 <= k < |ns| && BuildExpression(ns[k]) == Err(r.error)
                  && forall j :: 0 <= j < k ==> BuildExpression(ns[j]).Ok?
  {
    var rs := seq(|ns|, i requires 0 <= i < |ns| => BuildExpression(ns[i]));
    assert forall i :: 0 <= i < |ns| ==> rs[i] == BuildExpression(ns[i]);
    Collect(rs)
  }

  /** The `map_prefix` and `map_infix` closures: an operator applied to its
      operands becomes a call of the operator's text with one argument for
      the operand of a prefix operator and two, left then right, for an
      infix one. Every other node is a primary. */
  function BuildPratt(n: Node): (r: Built<Expression>)
    requires WellFormedOperand(n)
    decreases n, 3
    ensures r.Ok? ==> ExprIntsFit(r.value)
    ensures r.Err? ==> r.error.site == LiteralSite && !IsLiteralRule(r.error.rule)
    ensures n.rule.PrefixOp? ==>
      && r.Ok? == BuildPratt(n.children[0]).Ok?
      && (r.Ok? ==> r.value == FuncCall(n.text, [BuildPratt(n.children[0]).value]))
    ensures n.rule.InfixOp? ==>
      && r.Ok? == (BuildPratt(n.children[0]).Ok? && BuildPratt(n.children[1]).Ok?)
      && (r.Ok? ==> r.value == FuncCall(n.text, [BuildPratt(n.children[0]).value, BuildPratt(n.children[1]).value]))
    ensures !n.rule.PrefixOp? && !n.rule.InfixOp? ==> r == MapPrimary(n)
  {
    match n.rule
    case PrefixOp =>
      var rhs :- BuildPratt(n.children[0]);
      Ok(FuncCall(n.text, [rhs]))
    case InfixOp =>
      var lhs :- BuildPratt(n.children[0]);
      var rhs :- BuildPratt(n.children[1]);
      Ok(FuncCall(n.text, [lhs, rhs]))
    case _ => MapPrimary(n)
  }

  /** The `map_primary` closure: a prefix function call `f a1 .. ak`
      becomes a call of `f` with the atoms in order; any other primary is
      an atom. */
  function MapPrimary(n: Node): (r: Built<Expression>)
    requires WellFormedOperand(n) && !n.rule.PrefixOp? && !n.rule.InfixOp?
    decreases n, 2
    ensures r.Ok? ==> ExprIntsFit(r.value)
    ensures r.Err? ==> r.error.site == LiteralSite && !IsLiteralRule(r.error.rule)
    ensures n.rule.FuncPrefix? ==>
      && (r.Ok? <==> forall i :: 1 <= i < |n.children| ==> BuildAtom(n.children[i]).Ok?)
      && (r.Ok? ==> r.value.FuncCall? && r.value.callee == n.children[0].text
                    && |r.value.args| == |n.children| - 1
                    && forall i :: 0 <= i < |r.value.args| ==> Ok(r.value.args[i]) == BuildAtom(n.children[i + 1]))
    ensures !n.rule.FuncPrefix? ==> r == BuildAtom(n)
  {
    if n.rule.FuncPrefix? then
      var args :- BuildAtoms(n.children[1..]);
      Ok(FuncCall(n.children[0].text, args))
    else
      BuildAtom(n)
  }

  /** The built atoms of `ns`, in order. */
  function BuildAtoms(ns: seq<Node>): (r: Built<seq<Expression>>)
    requires forall i :: 0 <= i < |ns| ==> WellFormedAtom(ns[i])
    decreases ns, 0
    ensures r.Ok? <==> forall i :: 0 <= i < |ns| ==> BuildAtom(ns[i]).Ok?
    ensures r.Ok? ==> |r.value| == |ns| && forall i :: 0 <= i < |ns| ==> Ok(r.value[i]) == BuildAtom(ns[i])
    ensures r.Err? ==>
      exists k :: 0 <= k < |ns| && BuildAtom(ns[k]) == Err(r.error)
                  && forall j :: 0 <= j < k ==> BuildAtom(ns[j]).Ok?
  {
    var rs := seq(|ns|, i requires 0 <= i < |ns| => BuildAtom(ns[i]));
    assert forall i :: 0 <= i < |ns| ==> rs[i] == BuildAtom(ns[i]);
    Collect(rs)
  }

  /** `build_atom`: a parenthesised expression, a literal or an identifier. */
  function BuildAtom(n: Node): (r: Built<Expression>)
    requires WellFormedAtom(n)
    decreases n, 1
    ensures r.Ok? ==> ExprIntsFit(r.value)
    ensures r.Err? ==> r.error.site == LiteralSite && !IsLiteralRule(r.error.rule)
    ensures n.rule.Expression? ==> r == BuildExpression(n)
    ensures n.rule.Literal? ==>
      r.Ok? == BuildLiteral(n.children[0]).Ok?
      && (r.Ok? ==> r.value == Expression.Literal(BuildLiteral(n.children[0]).value))
    ensures n.rule.IdentLower? || n.rule.IdentUpper? ==> r == Ok(Expression.Ident(n.text))
  {
    match n.rule
    case Expression => BuildExpression(n)
    case Literal =>
      var l :- BuildLiteral(n.children[0]);
      Ok(Expression.Literal(l))
    case IdentLower => Ok(Expression.Ident(n.text))
    case IdentUpper => Ok(Expression.Ident(n.text))
  }
}
