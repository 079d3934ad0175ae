/** The semantic analyser: one left-to-right pass over the statements that
    fills the symbol table from the type signatures and stops at the first
    name declared twice. The class and type tables are created and returned
    but never written. */
module AstAnalyse {
  import opened Results
  import opened Ast

  datatype Symbol = Symbol(ty: TypeExpr)

  datatype Class = Class(functions: seq<(string, TypeExpr)>)

  datatype Type = Type(instances: seq<string>)

  type SymTab = map<string, Symbol>
  type ClassTab = map<string, Class>
  type TypeTab = map<string, Type>

  /** The three tables the pass owns and returns. */
  datatype Tables = Tables(symbols: SymTab, classes: ClassTab, types: TypeTab)

  const EmptyTables := Tables(map[], map[], map[])

  function DuplicateDeclarationMessage(name: string): string {
    "Symbol: '" + name + "' was declared more than once"
  }

  // ---------------------------------------------------------------------
  // The pass as a fold: the specification of the methods below.

  /** What one statement does to the tables. */
  function StatementEffect(t: Tables, s: Statement): Result<Tables, string> {
    if s.Declaration? then
      if s.decl.name in t.symbols then Err(DuplicateDeclarationMessage(s.decl.name))
      else Ok(t.(symbols := t.symbols[s.decl.name := Symbol(s.decl.ty)]))
    else
      Ok(t)
  }

  /** The statements applied in order to `t`, stopping at the first error. */
  function AnalyzeFrom(t: Tables, stmts: seq<Statement>): Result<Tables, string>
    decreases |stmts|
  {
    if stmts == [] then Ok(t)
    else
      match StatementEffect(t, stmts[0])
      case Err(e) => Err(e)
      case Ok(t') => AnalyzeFrom(t', stmts[1..])
  }

  /** The names that the `Declaration` statements of `stmts` declare. */
  function DeclaredNames(stmts: seq<Statement>): set<string> {
    set k | 0 <= k < |stmts| && stmts[k].Declaration? :: stmts[k].decl.name
  }

  /** No two `Declaration` statements of `stmts` declare the same name. */
  predicate UniqueDeclarations(stmts: seq<Statement>) {
    forall j, k :: 0 <= j < k < |stmts| && stmts[j].Declaration? && stmts[k].Declaration? ==>
      stmts[j].decl.name != stmts[k].decl.name
  }

  /** Statement `k` is the first declaration of a name declared before it. */
  predicate FirstDuplicateAt(stmts: seq<Statement>, k: int) {
    && 0 <= k < |stmts|
    && stmts[k].Declaration?
    && stmts[k].decl.name in DeclaredNames(stmts[..k])
    && UniqueDeclarations(stmts[..k])
  }

  // ---------------------------------------------------------------------
  // Lemmas about the fold.

  lemma DeclaredNamesCons(stmts: seq<Statement>)
    requires stmts != []
    ensures DeclaredNames(stmts) ==
      (if stmts[0].Declaration? then {stmts[0].decl.name} else {}) + DeclaredNames(stmts[1..])
  {
  }

  lemma UniqueDeclarationsCons(stmts: seq<Statement>)
    requires stmts != []
    ensures UniqueDeclarations(stmts) <==>
      && UniqueDeclarations(stmts[1..])
      && (stmts[0].Declaration? ==> stmts[0].decl.name !in DeclaredNames(stmts[1..]))
  {
  }

  /** Starting from any tables, the pass succeeds exactly when the declared
      names are pairwise distinct and new to the symbol table; it then adds
      each declared name with its declared type, keeps every existing
      entry, and leaves the class and type tables alone. */
  lemma {:induction false} AnalyzeFromCharacterised(t: Tables, stmts: seq<Statement>)
    decreases stmts
    ensures AnalyzeFrom(t, stmts).Ok? <==>
      UniqueDeclarations(stmts) && DeclaredNames(stmts) !! t.symbols.Keys
    ensures AnalyzeFrom(t, stmts).Ok? ==>
      var r := AnalyzeFrom(t, stmts).value;
      && r.symbols.Keys == t.symbols.Keys + DeclaredNames(stmts)
      && (forall n :: n in t.symbols ==> r.symbols[n] == t.symbols[n])
      && (forall k :: 0 <= k < |stmts| && stmts[k].Declaration? ==>
            r.symbols[stmts[k].decl.name] == Symbol(stmts[k].decl.ty))
      && r.classes == t.classes
      && r.types == t.types
  {
    if stmts == [] {
      return;
    }
    var s, rest := stmts[0], stmts[1..];
    DeclaredNamesCons(stmts);
    UniqueDeclarationsCons(stmts);
    if !s.Declaration? {
      AnalyzeFromCharacterised(t, rest);
      if AnalyzeFrom(t, stmts).Ok? {
        var r := AnalyzeFrom(t, stmts).value;
        forall k | 0 <= k < |stmts| && stmts[k].Declaration?
          ensures r.symbols[stmts[k].decl.name] == Symbol(stmts[k].decl.ty)
        {
          assert stmts[k] == rest[k - 1];
        }
      }
    } else if s.decl.name in t.symbols {
      assert s.decl.name in DeclaredNames(stmts);
    } else {
      var t' := t.(symbols := t.symbols[s.decl.name := Symbol(s.decl.ty)]);
      AnalyzeFromCharacterised(t', rest);
      if AnalyzeFrom(t, stmts).Ok? {
        var r := AnalyzeFrom(t, stmts).value;
        forall k | 0 <= k < |stmts| && stmts[k].Declaration?
          ensures r.symbols[stmts[k].decl.name] == Symbol(stmts[k].decl.ty)
        {
          if k > 0 {
            assert stmts[k] == rest[k - 1];
          }
        }
      }
    }
  }

  /** Running the pass over `a + b` is running it over `a`, then, only if
      that succeeded, over `b` from the resulting tables: an error stops
      the pass and no tables come out of it. */
  lemma {:induction false} AnalyzeFromAppend(t: Tables, a: seq<Statement>, b: seq<Statement>)
    decreases a
    ensures AnalyzeFrom(t, a + b) ==
      match AnalyzeFrom(t, a)
      case Err(e) => Err(e)
      case Ok(t') => AnalyzeFrom(t', b)
  {
    if a == [] {
      assert a + b == b;
    } else {
      assert (a + b)[0] == a[0];
      assert (a + b)[1..] == a[1..] + b;
      match StatementEffect(t, a[0])
      case Err(_) =>
      case Ok(t') => AnalyzeFromAppend(t', a[1..], b);
    }
  }

  /** A failing pass fails at a declaration whose name is already in the
      symbol table built from the statements before it, with the
      "declared more than once" message for that name. */
  lemma {:induction false} AnalyzeFromFailure(t: Tables, stmts: seq<Statement>)
    requires AnalyzeFrom(t, stmts).Err?
    decreases stmts
    ensures exists k :: && 0 <= k < |stmts| && stmts[k].Declaration?
                        && AnalyzeFrom(t, stmts[..k]).Ok?
                        && stmts[k].decl.name in AnalyzeFrom(t, stmts[..k]).value.symbols
                        && AnalyzeFrom(t, stmts) == Err(DuplicateDeclarationMessage(stmts[k].decl.name))
  {
    var s, rest := stmts[0], stmts[1..];
    assert stmts[..0] == [];
    match StatementEffect(t, s)
    case Err(e) =>
      assert s.Declaration? && s.decl.name in t.symbols;
    case Ok(t') =>
      AnalyzeFromFailure(t', rest);
      var k :| && 0 <= k < |rest| && rest[k].Declaration?
               && AnalyzeFrom(t', rest[..k]).Ok?
               && rest[k].decl.name in AnalyzeFrom(t', rest[..k]).value.symbols
               && AnalyzeFrom(t', rest) == Err(DuplicateDeclarationMessage(rest[k].decl.name));
      assert stmts[..k + 1] == [s] + rest[..k];
      AnalyzeFromAppend(t, [s], rest[..k]);
      assert AnalyzeFrom(t, [s]) == Ok(t') by {
        assert [s][1..] == [];
      }
      assert stmts[k + 1] == rest[k];
  }

  /** The whole pass from empty tables: it succeeds exactly when no name is
      declared twice, the symbol table then maps exactly the declared names
      to their declared types and the other two tables are empty; it fails
      with the message for the first name declared a second time. */
  lemma Analysis(stmts: seq<Statement>)
    ensures AnalyzeFrom(EmptyTables, stmts).Ok? <==> UniqueDeclarations(stmts)
    ensures AnalyzeFrom(EmptyTables, stmts).Ok? ==>
      var r := AnalyzeFrom(EmptyTables, stmts).value;
      && r.symbols.Keys == DeclaredNames(stmts)
      && (forall k :: 0 <= k < |stmts| && stmts[k].Declaration? ==>
            r.symbols[stmts[k].decl.name] == Symbol(stmts[k].decl.ty))
      && r.classes == map[]
      && r.types == map[]
    ensures AnalyzeFrom(EmptyTables, stmts).Err? ==>
      exists k :: FirstDuplicateAt(stmts, k)
                  && AnalyzeFrom(EmptyTables, stmts) == Err(DuplicateDeclarationMessage(stmts[k].decl.name))
  {
    AnalyzeFromCharacterised(EmptyTables, stmts);
    if AnalyzeFrom(EmptyTables, stmts).Err? {
      AnalyzeFromFailure(EmptyTables, stmts);
      var k :| && 0 <= k < |stmts| && stmts[k].Declaration?
               && AnalyzeFrom(EmptyTables, stmts[..k]).Ok?
               && stmts[k].decl.name in AnalyzeFrom(EmptyTables, stmts[..k]).value.symbols
               && AnalyzeFrom(EmptyTables, stmts) == Err(DuplicateDeclarationMessage(stmts[k].decl.name));
      AnalyzeFromCharacterised(EmptyTables, stmts[..k]);
      assert FirstDuplicateAt(stmts, k);
    }
  }

  // ---------------------------------------------------------------------
  // The pass itself. The tables are passed by value and returned updated,
  // as the source passes them by mutable reference.

  /** `analyze_decl`: a name already in the symbol table is an error and
      leaves every table as it was; a new name is added with its type and
      nothing else changes. */
  method AnalyzeDecl(decl: Declaration, tables: Tables) returns (outcome: Result<(), string>, tables': Tables)
    ensures decl.name in tables.symbols ==>
      outcome == Err(DuplicateDeclarationMessage(decl.name)) && tables' == tables
    ensures decl.name !in tables.symbols ==>
      && outcome == Ok(())
      && tables'.symbols == tables.symbols[decl.name := Symbol(decl.ty)]
      && tables'.classes == tables.classes
      && tables'.types == tables.types
  {
    if decl.name in tables.symbols {
      return Err(DuplicateDeclarationMessage(decl.name)), tables;
    }
    var symbols := tables.symbols[decl.name := Symbol(decl.ty)];
    outcome, tables' := Ok(()), tables.(symbols := symbols);
  }

  /** `analyze_stmt`: only declarations touch the tables. */
  method AnalyzeStmt(stmt: Statement, tables: Tables) returns (outcome: Result<(), string>, tables': Tables)
    ensures stmt.Declaration? && stmt.decl.name in tables.symbols ==>
      outcome == Err(DuplicateDeclarationMessage(stmt.decl.name)) && tables' == tables
    ensures stmt.Declaration? && stmt.decl.name !in tables.symbols ==>
      outcome == Ok(()) && tables' == tables.(symbols := tables.symbols[stmt.decl.name := Symbol(stmt.decl.ty)])
    ensures !stmt.Declaration? ==> outcome == Ok(()) && tables' == tables
  {
    match stmt
    case Declaration(decl) =>
      outcome, tables' := AnalyzeDecl(decl, tables);
    case TypeDeclaration(_, _) =>
      outcome, tables' := Ok(()), tables;
    case Definition(_, _, _) =>
      outcome, tables' := Ok(()), tables;
    case Comment(_) =>
      outcome, tables' := Ok(()), tables;
  }

  /** `analyze_program`. */
  method AnalyzeProgram(program: Program) returns (r: Result<Tables, string>)
    ensures r == AnalyzeFrom(EmptyTables, program.statements)
    ensures r.Ok? <==> UniqueDeclarations(program.statements)
    ensures r.Ok? ==>
      && r.value.symbols.Keys == DeclaredNames(program.statements)
      && (forall k :: 0 <= k < |program.statements| && program.statements[k].Declaration? ==>
            r.value.symbols[program.statements[k].decl.name] == Symbol(program.statements[k].decl.ty))
      && r.value.classes == map[]
      && r.value.types == map[]
    ensures r.Err? ==>
      exists k :: FirstDuplicateAt(program.statements, k)
                  && r.error == DuplicateDeclarationMessage(program.statements[k].decl.name)
  {
    var stmts := program.statements;
    Analysis(stmts);
    var tables := EmptyTables;
    var i := 0;
    while i < |stmts|
      invariant 0 <= i <= |stmts|
      invariant AnalyzeFrom(tables, stmts[i..]) == AnalyzeFrom(EmptyTables, stmts)
    {
      var outcome, tables' := AnalyzeStmt(stmts[i], tables);
      assert stmts[i..][0] == stmts[i] && stmts[i..][1..] == stmts[i + 1..];
      if outcome.Err? {
        return Err(outcome.error);
      }
      tables := tables';
      i := i + 1;
    }
    assert stmts[i..] == [];
    r := Ok(tables);
  }
}
