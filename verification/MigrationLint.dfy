/**
 What the migration lint promises, in terms of the statements alone (scripts/check_migrations.py, `check`): the
 catalog is what the statements declare, and a lint ends clean exactly if every reference looks back at a table and
 a candidate key that statements up to its own place declare.
 */
module MigrationLint {
  import opened Wrappers
  import opened MigrationTokens
  import opened MigrationCatalog
  import opened MigrationReadings

  // ---- What a list of statements declares -------------------------------------------------------------

  predicate Created(ts: seq<seq<Token>>, table: Token) { exists i | 0 <= i < |ts| :: CreatesTable(ts[i], table) }

  ghost predicate KeyIn(ts: seq<seq<Token>>, table: Token, columns: seq<Token>) {
    exists i | 0 <= i < |ts| :: DeclaresKey(ts[i], table, columns)
  }

  ghost predicate ReferenceIn(ts: seq<seq<Token>>, fk: ForeignKey) {
    exists i | 0 <= i < |ts| :: DeclaresReference(ts[i], fk)
  }

  ghost predicate ColumnIn(ts: seq<seq<Token>>, table: Token, column: Token) {
    exists i | 0 <= i < |ts| :: GivesColumn(ts[i], table, column)
  }

  /** The catalog holds the tables, candidate keys and references of these statements, and no others. */
  ghost predicate Mirrors(c: Catalog, ts: seq<seq<Token>>) {
    && (forall x :: x in c.tables <==> Created(ts, x))
    && (forall x, columns :: Declared(c, x, columns) <==> KeyIn(ts, x, columns))
    && (forall fk :: fk in c.fks <==> ReferenceIn(ts, fk))
  }

  ghost predicate MirrorsColumns(c: Catalog, ts: seq<seq<Token>>) {
    forall x, column :: HasColumn(c, x, column) <==> ColumnIn(ts, x, column)
  }

  // ---- One statement --------------------------------------------------------------------------------------

  lemma Dispatch(c: Catalog, t: seq<Token>)
    ensures Statement(c, t)
            == if Heads(t, "CREATE", "TABLE") then CreateTable(c, t)
               else if Heads(t, "ALTER", "TABLE") then AlterTable(c, t)
               else if CreatesIndex(t) then CreateIndex(c, t)
               else if t == [] then None
               else Some(c)
    ensures Heads(t, "ALTER", "TABLE") || CreatesIndex(t) ==> !Heads(t, "CREATE", "TABLE")
    ensures CreatesIndex(t) ==> !Heads(t, "ALTER", "TABLE")
  {
    hide CreateTable, AlterTable, CreateIndex, StartsWith;
    HeadsIff(t, "CREATE", "TABLE");
    HeadsIff(t, "ALTER", "TABLE");
    HeadsIff(t, "CREATE", "INDEX");
    HeadsIff(t, "CREATE", "UNIQUE");
  }

  /** Reading a statement adds exactly the tables, candidate keys and references that it declares. */
  lemma StatementReads(c: Catalog, t: seq<Token>)
    requires Statement(c, t).Some?
    ensures var b := Statement(c, t).value;
            && c.errors <= b.errors
            && (forall x :: x in b.tables <==> x in c.tables || CreatesTable(t, x))
            && (forall x, columns :: Declared(b, x, columns) <==> Declared(c, x, columns) || DeclaresKey(t, x, columns))
            && (forall fk :: fk in b.fks <==> fk in c.fks || DeclaresReference(t, fk))
  {
    hide CreateTable, AlterTable, CreateIndex, Statement, Declared, Has;
    Dispatch(c, t);
    var b := Statement(c, t).value;
    if Heads(t, "CREATE", "TABLE") {
      CreateReads(c, t);
      hide DeclaresKey, DeclaresReference;
      assert forall x :: CreatesTable(t, x) <==> x == t[4];
    } else if Heads(t, "ALTER", "TABLE") {
      AlterReads(c, t);
      hide DeclaresKey, DeclaresReference;
      assert forall x :: x in b.tables <==> x in b.tables.Keys;
    } else if CreatesIndex(t) {
      IndexReads(c, t);
      hide DeclaresKey;
    }
  }

  lemma StatementsLast(c: Catalog, ts: seq<seq<Token>>)
    requires ts != []
    ensures var n := |ts| - 1;
            Statements(c, ts) == match Statements(c, ts[..n]) case None => None case Some(b) => Statement(b, ts[n])
  {
    hide Statement;
    var n := |ts| - 1;
    assert ts == ts[..n] + [ts[n]] && [ts[n]][1..] == [];
    StatementsInTwo(c, ts[..n], [ts[n]]);
  }

  /** The catalog after any statements is what they declare. */
  lemma {:induction false} CatalogMirrorsStatements(ts: seq<seq<Token>>)
    requires Statements(EMPTY, ts).Some?
    ensures Mirrors(Statements(EMPTY, ts).value, ts)
    decreases |ts|
  {
    hide Statement, CreatesTable, DeclaresKey, DeclaresReference;
    if ts != [] {
      var n := |ts| - 1;
      var init, last := ts[..n], ts[n];
      StatementsLast(EMPTY, ts);
      CatalogMirrorsStatements(init);
      StatementReads(Statements(EMPTY, init).value, last);
      hide Declared;
      assert forall i | 0 <= i < n :: init[i] == ts[i];
      forall x ensures Created(ts, x) <==> Created(init, x) || CreatesTable(last, x) {}
      forall x, columns ensures KeyIn(ts, x, columns) <==> KeyIn(init, x, columns) || DeclaresKey(last, x, columns) {}
      forall fk ensures ReferenceIn(ts, fk) <==> ReferenceIn(init, fk) || DeclaresReference(last, fk) {}
      hide Created, KeyIn, ReferenceIn;
    }
  }

  // ---- Which statements pass -----------------------------------------------------------------------------

  /**
   The reference holds when it is read: to a table and a key of earlier statements, or of this statement's own table
   with a key read before it (`own`), or to auth.users (id).
   */
  ghost predicate LooksBack(earlier: seq<seq<Token>>, fk: ForeignKey, created: bool, own: bool) {
    || (fk.schema == "auth" && fk.target == "users" && fk.columns == ["id"])
    || (fk.schema == "public" && (Created(earlier, fk.target) || (created && fk.target == fk.table))
        && (KeyIn(earlier, fk.target, fk.columns) || (own && fk.target == fk.table)))
  }

  /** In CREATE TABLE, keys of parts without a reference are read first, then the parts with one, in order. */
  ghost predicate CreateLooksBack(earlier: seq<seq<Token>>, table: Token, parts: seq<seq<Token>>) {
    forall i: nat, fk | i < |parts| && PartReference(table, parts[i], fk) ::
      LooksBack(earlier, fk, true, SomePartKey(parts, false, fk.columns) || SomePartKey(parts[..i], true, fk.columns))
  }

  ghost predicate AlterLooksBack(earlier: seq<seq<Token>>, table: Token, parts: seq<seq<Token>>) {
    forall i: nat, fk | i < |parts| && IsAddition(parts[i]) && PartReference(table, parts[i][1..], fk) ::
      LooksBack(earlier, fk, false, SomeAddedKey(parts[..i], fk.columns))
  }

  /** The statement fits after the earlier ones: a new table, or a known one altered, and its references look back. */
  ghost predicate Fits(earlier: seq<seq<Token>>, t: seq<Token>) {
    && (forall x | CreatesTable(t, x) ::
          !Created(earlier, x) && forall parts | Body(t, parts) :: CreateLooksBack(earlier, x, parts))
    && (forall x | AltersTable(t, x) ::
          Created(earlier, x) && (Has(t, "ADD") ==> AlterLooksBack(earlier, x, Pieces(t[5..], ","))))
  }

  lemma {:induction false} PassPrefix(c: Catalog, table: Token, parts: seq<seq<Token>>, references: bool, i: nat)
    requires i <= |parts| && AddParts(c, table, parts, references).Some?
    ensures AddParts(c, table, parts[..i], references).Some?
    decreases |parts|
  {
    hide AddConstraint, InPass;
    if i == |parts| {
      assert parts[..i] == parts;
    } else {
      var n := |parts| - 1;
      PassLast(c, table, parts, references);
      PassPrefix(c, table, parts[..n], references, i);
      assert parts[..n][..i] == parts[..i];
    }
  }

  lemma {:induction false} AdditionsPrefix(c: Catalog, table: Token, parts: seq<seq<Token>>, i: nat)
    requires i <= |parts| && AlterParts(c, table, parts).Some?
    ensures AlterParts(c, table, parts[..i]).Some?
    decreases |parts|
  {
    hide AlterPart;
    if i == |parts| {
      assert parts[..i] == parts;
    } else {
      var n := |parts| - 1;
      AlterLast(c, table, parts);
      AdditionsPrefix(c, table, parts[..n], i);
      assert parts[..n][..i] == parts[..i];
    }
  }

  lemma FirstPassIsClean(c: Catalog, table: Token, parts: seq<seq<Token>>)
    requires AddParts(c, table, parts, false).Some?
    ensures AddParts(c, table, parts, false).value.errors == c.errors
  {
    hide AddParts, Has, FirstAt, Listed;
    PassIsCleanIff(c, table, parts, false);
    forall i: nat | i < |parts| && InPass(parts[i], false) ensures CleanPart(c, table, parts, false, i) {
      PassPrefix(c, table, parts, false, i);
      forall fk ensures !PartReference(table, parts[i], fk) { NotRead(table, parts[i], fk); }
    }
  }

  lemma NotRead(table: Token, part: seq<Token>, fk: ForeignKey)
    ensures PartReference(table, part, fk) ==> fk.table == table && InPass(part, true)
  {
  }

  /** `b` is the catalog after the first pass over the parts. */
  lemma PartLooksBackIff(c: Catalog, earlier: seq<seq<Token>>, b: Catalog, table: Token, parts: seq<seq<Token>>, i: nat)
    requires Mirrors(c, earlier) && i < |parts| && AddParts(b, table, parts, true).Some?
    requires b.tables.Keys == c.tables.Keys + {table}
    requires forall x, columns :: Declared(b, x, columns) <==>
               Declared(c, x, columns) || (x == table && SomePartKey(parts, false, columns))
    ensures CleanPart(b, table, parts, true, i) <==>
              forall fk | PartReference(table, parts[i], fk) ::
                LooksBack(earlier, fk, true,
                  SomePartKey(parts, false, fk.columns) || SomePartKey(parts[..i], true, fk.columns))
  {
    hide AddParts, SomePartKey, SomePartReference, Created, KeyIn, ReferenceIn, Declared;
    PassPrefix(b, table, parts, true, i);
    PassReads(b, table, parts[..i], true);
    var before := AddParts(b, table, parts[..i], true).value;
    forall fk | PartReference(table, parts[i], fk)
      ensures Referable(before, fk) <==>
        LooksBack(earlier, fk, true, SomePartKey(parts, false, fk.columns) || SomePartKey(parts[..i], true, fk.columns))
    {
      NotRead(table, parts[i], fk);
      assert fk.target in before.tables <==> fk.target in before.tables.Keys;
      hide PartReference;
    }
    hide PartReference, LooksBack, Referable, Mirrors;
  }

  /** A CREATE TABLE adds no error exactly if it fits. */
  lemma CreateFitsIff(c: Catalog, earlier: seq<seq<Token>>, t: seq<Token>)
    requires Mirrors(c, earlier) && Heads(t, "CREATE", "TABLE") && CreateTable(c, t).Some?
    ensures CreateTable(c, t).value.errors == c.errors <==> Fits(earlier, t)
  {
    hide AddParts, Pieces, InParens, Upper, SomePartKey, Body, Declared, Has, Created, KeyIn, ReferenceIn;
    var table, parts := t[4], Pieces(InParens(t, 5).value.0, ",");
    forall q ensures Body(t, q) <==> q == parts { BodyIff(t, q); }
    var made := c.(tables := c.tables[table := Columns(parts)],
                   errors := c.errors + When(table in c.tables, DuplicateTable(table)));
    SameKeys(c, made);
    FirstPassIsClean(made, table, parts);
    PassReads(made, table, parts, false);
    var b := AddParts(made, table, parts, false).value;
    PassIsCleanIff(b, table, parts, true);
    PassReads(b, table, parts, true);
    forall i: nat | i < |parts|
      ensures CleanPart(b, table, parts, true, i) <==>
              forall fk | PartReference(table, parts[i], fk) ::
                LooksBack(earlier, fk, true,
                  SomePartKey(parts, false, fk.columns) || SomePartKey(parts[..i], true, fk.columns))
    {
      PartLooksBackIff(c, earlier, b, table, parts, i);
    }
    hide CleanPart, LooksBack;
    forall i: nat, fk | i < |parts| && PartReference(table, parts[i], fk) ensures InPass(parts[i], true) {
      NotRead(table, parts[i], fk);
    }
    assert AddParts(b, table, parts, true).value.errors == b.errors <==> CreateLooksBack(earlier, table, parts) by {
      hide PartReference, InPass, Mirrors;
    }
    hide PartReference, InPass, CreateLooksBack;
    Prefixes(c.errors, made.errors, CreateTable(c, t).value.errors);
    assert table in c.tables <==> Created(earlier, table);
  }

  lemma AdditionLooksBackIff(c: Catalog, earlier: seq<seq<Token>>, b: Catalog, table: Token, parts: seq<seq<Token>>,
      i: nat)
    requires Mirrors(c, earlier) && i < |parts| && IsAddition(parts[i]) && AlterParts(b, table, parts).Some?
    requires b.tables == c.tables && b.keys == c.keys
    ensures CleanAddition(b, table, parts, i) <==>
              forall fk | PartReference(table, parts[i][1..], fk) ::
                LooksBack(earlier, fk, false, SomeAddedKey(parts[..i], fk.columns))
  {
    assert |parts[i]| >= 2;
    hide AlterParts, SomeAddedKey, SomeAddedReference, SomeAddedColumn, Created, KeyIn, ReferenceIn, Declared,
      IsAddition;
    SameKeys(c, b);
    AdditionsPrefix(b, table, parts, i);
    AdditionsRead(b, table, parts[..i]);
    var before := AlterParts(b, table, parts[..i]).value;
    forall fk | PartReference(table, parts[i][1..], fk)
      ensures Referable(before, fk) <==> LooksBack(earlier, fk, false, SomeAddedKey(parts[..i], fk.columns))
    {
      NotRead(table, parts[i][1..], fk);
      assert fk.target in before.tables <==> fk.target in before.tables.Keys;
      hide PartReference;
    }
    hide PartReference, LooksBack, Referable, Mirrors;
  }

  /** An ALTER TABLE adds no error exactly if it fits. */
  lemma AlterFitsIff(c: Catalog, earlier: seq<seq<Token>>, t: seq<Token>)
    requires Mirrors(c, earlier) && Heads(t, "ALTER", "TABLE") && AlterTable(c, t).Some?
    ensures AlterTable(c, t).value.errors == c.errors <==> Fits(earlier, t)
  {
    hide AlterParts, Pieces, Upper, SomeAddedKey, Has, Balanced, Created, KeyIn, ReferenceIn, Declared;
    HasIff(t, "ADD");
    var table := t[4];
    var known := c.(errors := c.errors + When(table !in c.tables, AlterUnknownTable(table)));
    assert table in c.tables <==> Created(earlier, table);
    if Has(t, "ADD") {
      var parts := Pieces(t[5..], ",");
      AdditionsRead(known, table, parts);
      AdditionsAreCleanIff(known, table, parts);
      forall i: nat | i < |parts| && IsAddition(parts[i])
        ensures CleanAddition(known, table, parts, i) <==>
                forall fk | PartReference(table, parts[i][1..], fk) ::
                  LooksBack(earlier, fk, false, SomeAddedKey(parts[..i], fk.columns))
      {
        AdditionLooksBackIff(c, earlier, known, table, parts, i);
      }
      hide CleanAddition, LooksBack, PartReference, Mirrors;
      assert AlterParts(known, table, parts).value.errors == known.errors <==> AlterLooksBack(earlier, table, parts);
      hide AlterLooksBack;
      Prefixes(c.errors, known.errors, AlterTable(c, t).value.errors);
    }
  }

  lemma StatementFitsIff(c: Catalog, earlier: seq<seq<Token>>, t: seq<Token>)
    requires Mirrors(c, earlier) && Statement(c, t).Some?
    ensures Statement(c, t).value.errors == c.errors <==> Fits(earlier, t)
  {
    hide CreateTable, AlterTable, CreateIndex, Statement, Mirrors, Has, Body, Created;
    Dispatch(c, t);
    if Heads(t, "CREATE", "TABLE") {
      CreateFitsIff(c, earlier, t);
    } else if Heads(t, "ALTER", "TABLE") {
      AlterFitsIff(c, earlier, t);
    } else if CreatesIndex(t) {
      IndexReads(c, t);
    }
  }

  /** The statements pass in order exactly if each fits after those before it. */
  ghost predicate AllFit(ts: seq<seq<Token>>) { forall i: nat | i < |ts| :: Fits(ts[..i], ts[i]) }

  lemma {:induction false} StatementsFitIff(ts: seq<seq<Token>>)
    requires Statements(EMPTY, ts).Some?
    ensures Statements(EMPTY, ts).value.errors == [] <==> AllFit(ts)
    decreases |ts|
  {
    hide Statement, Fits, Mirrors;
    if ts != [] {
      var n := |ts| - 1;
      var init, last := ts[..n], ts[n];
      StatementsLast(EMPTY, ts);
      StatementsFitIff(init);
      CatalogMirrorsStatements(init);
      var c := Statements(EMPTY, init).value;
      StatementFitsIff(c, init, last);
      StatementReads(c, last);
      forall i: nat | i < n ensures Fits(ts[..i], ts[i]) <==> Fits(init[..i], init[i]) { assert init[..i] == ts[..i]; }
      Prefixes([], c.errors, Statements(EMPTY, ts).value.errors);
    }
  }

  lemma StatementGivesColumns(c: Catalog, earlier: seq<seq<Token>>, t: seq<Token>)
    requires Mirrors(c, earlier) && Statement(c, t).Some? && Fits(earlier, t)
    ensures var b := Statement(c, t).value;
            forall x, column :: HasColumn(b, x, column) <==> HasColumn(c, x, column) || GivesColumn(t, x, column)
  {
    hide CreateTable, AlterTable, CreateIndex, Statement, Has, CreateLooksBack, AlterLooksBack, SomeAddedColumn,
      BodyColumn;
    hide Created, KeyIn, ReferenceIn, Declared;
    Dispatch(c, t);
    if Heads(t, "CREATE", "TABLE") {
      CreateReads(c, t);
    } else if Heads(t, "ALTER", "TABLE") {
      AlterReads(c, t);
    } else if CreatesIndex(t) {
      IndexReads(c, t);
    }
  }

  /** Where all statements fit, the columns are those that CREATE TABLE and ADD COLUMN name. */
  lemma {:induction false} ColumnsMirrorStatements(ts: seq<seq<Token>>)
    requires Statements(EMPTY, ts).Some? && AllFit(ts)
    ensures MirrorsColumns(Statements(EMPTY, ts).value, ts)
    decreases |ts|
  {
    hide Statement, Fits, Mirrors, GivesColumn;
    if ts != [] {
      var n := |ts| - 1;
      var init, last := ts[..n], ts[n];
      StatementsLast(EMPTY, ts);
      forall i: nat | i < n ensures Fits(init[..i], init[i]) { assert init[..i] == ts[..i]; }
      ColumnsMirrorStatements(init);
      CatalogMirrorsStatements(init);
      assert Fits(ts[..n], ts[n]);
      StatementGivesColumns(Statements(EMPTY, init).value, init, last);
      assert forall i | 0 <= i < n :: init[i] == ts[i];
      forall x, column ensures ColumnIn(ts, x, column) <==> ColumnIn(init, x, column) || GivesColumn(last, x, column) {}
      hide ColumnIn, HasColumn;
    }
  }

  // ---- Which statements raise ------------------------------------------------------------------------------

  /** Reading the statement after the earlier ones raises. */
  ghost predicate Raises(earlier: seq<seq<Token>>, t: seq<Token>) {
    if Heads(t, "CREATE", "TABLE") then CreateRaises(t)
    else if Heads(t, "ALTER", "TABLE") then AlterRaises(t, |t| > 4 && Created(earlier, t[4]))
    else if CreatesIndex(t) then IndexRaises(t)
    else t == []
  }

  lemma StatementRaisesIff(c: Catalog, earlier: seq<seq<Token>>, t: seq<Token>)
    requires Mirrors(c, earlier)
    ensures Statement(c, t).None? <==> Raises(earlier, t)
  {
    hide CreateTable, AlterTable, CreateIndex, Statement, Created, KeyIn, ReferenceIn;
    hide CreateRaises, AlterRaises, IndexRaises;
    Dispatch(c, t);
    CreateRaisesIff(c, t);
    AlterRaisesIff(c, t);
    if |t| >= 2 { IndexRaisesIff(c, t); }
  }

  /** The lint raises exactly if some statement does, after those before it. */
  lemma {:induction false} StatementsRaiseIff(ts: seq<seq<Token>>)
    ensures Statements(EMPTY, ts).None? <==> exists i: nat | i < |ts| :: Raises(ts[..i], ts[i])
    decreases |ts|
  {
    hide Statement, Raises, Mirrors;
    if ts != [] {
      var n := |ts| - 1;
      var init, last := ts[..n], ts[n];
      StatementsLast(EMPTY, ts);
      StatementsRaiseIff(init);
      if Statements(EMPTY, init).Some? {
        CatalogMirrorsStatements(init);
        StatementRaisesIff(Statements(EMPTY, init).value, init, last);
      }
      forall i: nat | i < n ensures Raises(ts[..i], ts[i]) <==> Raises(init[..i], init[i]) {
        assert init[..i] == ts[..i];
      }
    }
  }

  // ---- Main results -----------------------------------------------------------------------------------------

  /** Both sides have as many columns, and each is a column that some statement gives its table. */
  ghost predicate ColumnsDeclared(ts: seq<seq<Token>>, fk: ForeignKey) {
    && |fk.local| == |fk.columns|
    && (forall x | x in fk.local :: ColumnIn(ts, fk.table, x))
    && (Created(ts, fk.target) ==> forall x | x in fk.columns :: ColumnIn(ts, fk.target, x))
  }

  lemma ColumnsOkIff(c: Catalog, ts: seq<seq<Token>>, fk: ForeignKey)
    requires Mirrors(c, ts) && MirrorsColumns(c, ts)
    ensures ColumnsOk(c, fk) <==> ColumnsDeclared(ts, fk)
  {
    hide Created, KeyIn, ReferenceIn, ColumnIn, Declared;
    forall x ensures HasColumn(c, fk.table, x) <==> ColumnIn(ts, fk.table, x) {}
    if fk.local != [] && ColumnsDeclared(ts, fk) {
      assert HasColumn(c, fk.table, fk.local[0]);
    }
  }

  /**
   Exactly which statements the lint lets pass: none raises, each fits after those before it, and the columns of
   every reference are declared somewhere.
   */
  lemma LintPassesIff(ts: seq<seq<Token>>)
    ensures Check(ts).Some? && Check(ts).value.errors == [] <==>
              && (forall i: nat | i < |ts| :: !Raises(ts[..i], ts[i]))
              && AllFit(ts)
              && forall fk | ReferenceIn(ts, fk) :: ColumnsDeclared(ts, fk)
  {
    hide Statements, FinalChecks, AllFit, ReferenceIn, ColumnsOk, ColumnsDeclared, Raises;
    StatementsRaiseIff(ts);
    if Statements(EMPTY, ts).Some? {
      StatementsFitIff(ts);
      CatalogMirrorsStatements(ts);
      var c := Statements(EMPTY, ts).value;
      ErrorsStay(c, c.fks);
      if c.errors == [] {
        FinalChecksPassIff(c, c.fks);
        ColumnsMirrorStatements(ts);
        forall fk ensures ColumnsOk(c, fk) <==> ColumnsDeclared(ts, fk) { ColumnsOkIff(c, ts, fk); }
        hide MirrorsColumns;
      }
    }
  }

  lemma CleanCatalog(ts: seq<seq<Token>>)
    requires Check(ts).Some? && Check(ts).value.errors == []
    ensures Statements(EMPTY, ts) == Check(ts)
    ensures Mirrors(Check(ts).value, ts) && MirrorsColumns(Check(ts).value, ts)
  {
    hide Statements, FinalChecks, AllFit, Mirrors, MirrorsColumns, ColumnsOk;
    CatalogMirrorsStatements(ts);
    StatementsFitIff(ts);
    var c := Statements(EMPTY, ts).value;
    ErrorsStay(c, c.fks);
    FinalChecksPassIff(c, c.fks);
    ColumnsMirrorStatements(ts);
  }

  /**
   Lint soundness, for any list of statements: if the lint ends without errors, every reference has columns that
   statements give both tables, equally many, and refers to a table that one statement creates and a candidate key
   that one declares, or to auth.users (id).
   */
  lemma LintIsSound(ts: seq<seq<Token>>)
    requires Check(ts).Some? && Check(ts).value.errors == []
    ensures forall fk | ReferenceIn(ts, fk) ::
              && |fk.local| == |fk.columns| && (forall x | x in fk.local :: ColumnIn(ts, fk.table, x))
              && Created(ts, fk.table)
              && if fk.schema == "public"
                 then Created(ts, fk.target) && KeyIn(ts, fk.target, fk.columns)
                      && forall x | x in fk.columns :: ColumnIn(ts, fk.target, x)
                 else fk.schema == "auth" && fk.target == "users" && fk.columns == ["id"]
  {
    hide Statements, FinalChecks, ReferenceIn, ColumnIn, Created, KeyIn, ColumnsOk, AllFit, Raises;
    CleanCatalog(ts);
    LintPassesIff(ts);
    StatementsGrow(EMPTY, ts);
    var c := Check(ts).value;
    forall fk | ReferenceIn(ts, fk) ensures Resolved(c, fk) && ColumnsDeclared(ts, fk) {}
  }

  /**
   No reference runs ahead: in a lint that ends clean, a reference of the first statements is to a table and a
   candidate key that those statements themselves declare.
   */
  lemma ReferencesLookBack(first: seq<seq<Token>>, rest: seq<seq<Token>>)
    requires Check(first + rest).Some? && Check(first + rest).value.errors == []
    ensures forall fk | ReferenceIn(first, fk) ::
              && ReferenceIn(first + rest, fk) && Created(first, fk.table)
              && if fk.schema == "public" then Created(first, fk.target) && KeyIn(first, fk.target, fk.columns)
                 else fk.schema == "auth" && fk.target == "users" && fk.columns == ["id"]
  {
    hide Statements, FinalChecks, ReferenceIn, Created, KeyIn, ColumnsOk;
    StatementsInTwo(EMPTY, first, rest);
    CleanCatalog(first + rest);
    CatalogMirrorsStatements(first);
    StatementsGrow(EMPTY, first);
    var m := Statements(EMPTY, first).value;
    StatementsGrow(m, rest);
    forall fk | ReferenceIn(first, fk) ensures Resolved(m, fk) && ReferenceIn(first + rest, fk) {}
  }

  /** A plain CREATE INDEX declares nothing: a reference to its columns passes only with a key from elsewhere. */
  lemma PlainIndexDeclaresNothing(t: seq<Token>)
    requires Heads(t, "CREATE", "INDEX")
    ensures forall table, columns :: !DeclaresKey(t, table, columns)
    ensures forall c: Catalog | Statement(c, t).Some? :: Statement(c, t).value == c
  {
    hide CreateIndex, Statement, Has;
    forall c: Catalog | Statement(c, t).Some? ensures Statement(c, t).value == c {
      Dispatch(c, t);
      IndexReads(c, t);
    }
  }
}
