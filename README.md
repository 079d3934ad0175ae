# Haskell-Parser core in Dafny

This is a model of the front end of a small parser for a Haskell-like language. Its two stages are:

- **The AST builder.** It walks the rule-tagged parse tree produced by the grammar and builds an abstract syntax tree. Each node of that tree is one of:
  - a type signature;
  - an algebraic data type declaration;
  - a function definition, whose body is a single expression or a list of guards;
  - a comment.
- **The semantic analyser.** It makes one left-to-right pass over the statements. Each type signature goes into a symbol table, and the pass stops at the first name declared twice.

Modules:

- `Results`: the generic `Option` and `Result` wrappers. `Collect` turns a sequence of results into the result of a sequence, and the first error wins.
- `IntegerText`: reading a signed 64-bit integer from its decimal text (`ParseI64`), and the decimal text of an integer that `ParseI64` reads back (`IntText`).
- `Ast`: the syntax tree as immutable datatypes. It also defines the *canonical* programs: no function type with a single slot, every integer literal within 64 bits, and every constructor's type ending in its data type.
- `ParseTree`: the parse tree handed to the builder. A node is its rule, the text it spans and its children.
- `AstBuild`: the builder functions, one per builder function of the source. The `WellFormed*` predicates state, as preconditions, the shapes the source unwraps without checking. The `panic!` arms of `build_statement`, `build_type`, `build_pattern` and `build_literal` return `Err(UnexpectedRule(site, rule, text))` instead; an `unwrap` on a missing child and every rule that an `unreachable!()` arm would meet are excluded by the `WellFormed*` preconditions.
- `AstTrees`: a canonical parse tree for every canonical AST value, and the round-trip lemmas. Building it gives the value back, so the builder's output is exactly the canonical programs.
- `AstAnalyse`: the analyser.
  - The three tables are a `Tables` value. They are passed in and returned updated, since the source passes them by mutable reference.
  - `AnalyzeProgram` is a loop proved against the fold `AnalyzeFrom`.
  - The lemmas characterise that fold: when it succeeds, what it fails with, and how it composes over concatenated statement lists.

Where the source's data types and its functions disagree, the model follows the functions. The declared `ast.rs` enums lack:

- the `Declaration` record;
- `Statement::TypeDeclaration`;
- `Pattern::Constructor`;
- `TypeExpr::CustomType` and `TypeExpr::Generic`.

The builder and the analyser construct and match on all of these, so `Ast` is the union of both. The `function` field of a call is named `callee` here, because `function` is a Dafny keyword.

The analyser checks only duplicate type signatures. It does not check for undeclared names, arity or class instances, and definitions, data type declarations and comments leave the tables untouched. The model does the same.

## Model

| member | source | states |
|---|---|---|
| AstBuild.BuildAst | src/ast_build.rs:6-10 | Succeeds exactly when every statement builds. The program's statements are then the built statements in order, and the program is canonical. Otherwise the error is the first statement's error. |
| AstBuild.BuildStatement | src/ast_build.rs:12-39 | The statement kind follows the rule: a const declaration gives a signature whose type is the built type; a type declaration is exactly the built type declaration; a definition gives its name, its argument patterns in order and its built body, succeeds exactly when its patterns and its body build, and fails with the patterns' error before the body's; a comment keeps its text; end of input becomes the comment "End of Input". Any other rule is exactly the statement error for that rule and text. A built statement is canonical. |
| AstBuild.BuildBody | src/ast_build.rs:41-50 | An expression node gives an expression body. A guards node gives the built guards in order, and succeeds exactly when each guard builds. |
| AstBuild.BuildGuard | src/ast_build.rs:52-63 | `otherwise` becomes the condition `true`. Any other condition is the built expression. The result is the built second expression. |
| AstBuild.BuildType | src/ast_build.rs:65-90 | Gives the primitive types, list types and custom or generic names by their text. A function type with one child collapses to that child's type; with any other number of children it is a `Func` of the built children in order. The result never holds a one-slot function type. A non-type rule is exactly the type error. |
| AstBuild.BuildTypes | src/ast_build.rs:74 | The built types of the children in order, or the first failing child's error. |
| AstBuild.BuildTypeDeclaration | src/ast_build.rs:92-101 | The declared name, and one constructor per remaining child, built against the custom type of that name. Succeeds exactly when every constructor builds. |
| AstBuild.BuildConstructorDecls | src/ast_build.rs:97-99 | The built constructors of the children in order, or the error of the first failing child. |
| AstBuild.BuildConstructorDecl | src/ast_build.rs:103-117 | The type is the field types followed by the data type, collapsed to the data type itself when there are no fields, so it always ends in the data type. |
| AstBuild.BuildPattern | src/ast_build.rs:119-132 | Identifiers, literals, wildcards and constructor patterns. Any other rule is exactly the pattern error. |
| AstBuild.BuildPatterns | src/ast_build.rs:26 | The built patterns of the children in order, or the error of the first failing child. |
| AstBuild.BuildConstructor | src/ast_build.rs:134-153 | A prefix constructor gives its name and its argument patterns in order. A binary constructor gives the operator's name and its two operand patterns, left then right. |
| AstBuild.BuildLiteral | src/ast_build.rs:155-172 | An integer is the 64-bit value of its text. A boolean is true exactly when its child is the `True` literal. A list holds its built elements in order. Any other rule is exactly the literal error. |
| AstBuild.BuildExpression | src/ast_build.rs:174-195 | The expression built from the node's operator grouping. Its integer literals fit in 64 bits. |
| AstBuild.BuildExpressions | src/ast_build.rs:164 | The built expressions of the children in order, or the error of the first failing child. |
| AstBuild.BuildPratt | src/ast_build.rs:186-193 | A prefix operator becomes a one-argument call of the operator's text on its operand. An infix operator becomes a two-argument call on its left and right operands. Anything else is a primary. |
| AstBuild.MapPrimary | src/ast_build.rs:176-185 | A prefix function call becomes a call of the function's name with its atoms in order. Any other primary is an atom. |
| AstBuild.BuildAtoms | src/ast_build.rs:181 | The built atoms in order, or the error of the first failing child. |
| AstBuild.BuildAtom | src/ast_build.rs:197-205 | A parenthesised expression, a literal or an identifier. |
| IntegerText.ParseI64 | src/ast_build.rs:157 | Yields a value only for a digit string with an optional sign, and that value lies in the 64-bit signed range. |
| IntegerText.ParseIntText | src/ast_build.rs:157 | For every 64-bit integer, reading back its decimal text gives the integer. |
| IntegerText.NatTextValue | src/ast_build.rs:157 | The decimal text of a natural number is a digit string denoting that number. |
| Results.Collect | src/ast_build.rs:8 | Collecting a sequence of results succeeds exactly when all of them are `Ok`. The values are then those of the results, in order. Otherwise the error is that of the first failing result. |
| AstTrees.TypeRoundTrip | src/ast_build.rs:65-90 | Every canonical type is built from its canonical tree. |
| AstTrees.LiteralRoundTrip | src/ast_build.rs:155-172 | Every literal whose integers fit in 64 bits is built from its tree. |
| AstTrees.ExprRoundTrip | src/ast_build.rs:174-195 | Every such expression is built from its tree. |
| AstTrees.OperandRoundTrip | src/ast_build.rs:176-193 | Every expression whose integers fit builds back from its operand tree. That tree writes a one-argument call as a prefix operator, a two-argument call as an infix operator and any other call as a prefix function call. |
| AstTrees.PatternRoundTrip | src/ast_build.rs:119-153 | Every pattern whose integers fit is built from its tree. |
| AstTrees.ConstructorRoundTrip | src/ast_build.rs:103-117 | Every declaration whose type is a constructor type of that data type is built from its tree. |
| AstTrees.BodyRoundTrip | src/ast_build.rs:41-63 | Every body whose integers fit is built from its tree. |
| AstTrees.StatementRoundTrip | src/ast_build.rs:12-39 | Every canonical statement is built from its tree. |
| AstTrees.BuildAstRoundTrip | src/ast_build.rs:6-10 | The canonical trees of a canonical program are well formed and build to that program. |
| AstTrees.BuildAstImage | src/ast_build.rs:6-10 | A program is canonical exactly when some well-formed parse tree sequence builds to it. |
| AstAnalyse.AnalyzeDecl | src/ast_analyse.rs:50-71 | A name already in the symbol table yields the "declared more than once" message and no table changes. A new name is added with its type, and nothing else changes. |
| AstAnalyse.AnalyzeStmt | src/ast_analyse.rs:36-48 | Signatures go to `AnalyzeDecl`. Every other statement succeeds and leaves the tables as they were. |
| AstAnalyse.AnalyzeProgram | src/ast_analyse.rs:24-34 | Equals the fold over the statements from empty tables. It succeeds exactly when no name is declared twice. The symbol table then maps exactly the declared names to their types, and the class and type tables are empty. A failure carries the message for the first name declared a second time. |
| AstAnalyse.AnalyzeFromCharacterised | src/ast_analyse.rs:29-31 | From any tables, the pass succeeds exactly when the declared names are distinct and new. It then adds each with its type, keeps all existing entries, and leaves the class and type tables alone. |
| AstAnalyse.AnalyzeFromAppend | src/ast_analyse.rs:29-31 | The pass over `a + b` is the pass over `a`, followed by the pass over `b` only if that succeeded. |
| AstAnalyse.AnalyzeFromFailure | src/ast_analyse.rs:56-61 | A failing pass fails at a signature whose name is already in the table built from the statements before it, with that name's message. |
| AstAnalyse.Analysis | src/ast_analyse.rs:24-34 | The whole-program statement of the above, from empty tables. |

## Left out

- The grammar and the parser that produce the parse tree are not part of this model. The builder's input is a parse tree value, and the `WellFormed*` predicates state the shapes it relies on.
- The Pratt parser's precedence and associativity tables are not part of this model. An expression node carries the operator grouping the Pratt parser computed as its single child, and only the three closures applied to that grouping are modelled.
- `main.rs` is not modelled: reading the source file, printing the tree and the tables, and error reporting are all I/O.
- Decimal literals keep their source text instead of a double-precision value, because floating point is out of scope. `BuildLiteral` therefore never fails on a decimal, where the source would unwrap an `f64` parse.
- An integer literal whose value does not fit in 64 bits, where the source's `unwrap` of `i64::from_str` panics, is excluded by `WellFormedLiteral` rather than modelled as an error.
- AstBuild.BuildStatement: the `panic!` arms of `build_statement`, `build_type`, `build_pattern` and `build_literal` abort the process in the source; the model returns `Err(UnexpectedRule(site, rule, text))` instead of the formatted panic message. An `unwrap` on a missing child, and every rule that an `unreachable!()` arm of `build_body`, `build_guard`, `build_constructor`, `build_literal` or `build_atom` would meet, are excluded by the `WellFormed*` preconditions rather than modelled as errors.
- The analyser's tables are Dafny maps, so hash-map iteration order is not represented.
- The `Debug` printing of the AST and the tables is not modelled, because it is output formatting.
- The class and type tables are created and returned but never filled by the source. The model keeps them and proves that they stay empty.
