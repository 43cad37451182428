/**
 What migration statements declare (scripts/check_migrations.py), read off their tokens: candidate keys, references,
 tables and columns, and which statements the lint lets pass. The catalog holds exactly that.
 */
module MigrationReadings {
  import opened Wrappers
  import opened MigrationTokens
  import opened MigrationCatalog

  // ---- Tokens ------------------------------------------------------------------------------------

  /** Letters are the same but for ASCII case. */
  predicate SameLetter(a: char, b: char) {
    a == b || ('a' <= a <= 'z' && b as int == a as int - 32) || ('a' <= b <= 'z' && a as int == b as int - 32)
  }

  /** Keywords are recognized in any ASCII case, and nothing else is taken for them. */
  lemma SameKeywordIff(a: Token, b: Token)
    ensures Upper(a) == Upper(b) <==> |a| == |b| && forall i | 0 <= i < |a| :: SameLetter(a[i], b[i])
  {
    if Upper(a) == Upper(b) {
      assert |a| == |Upper(a)| && |b| == |Upper(b)|;
      forall i | 0 <= i < |a| ensures SameLetter(a[i], b[i]) { assert Upper(a)[i] == Upper(b)[i]; }
    }
  }

  /** The names of a list, in order: the tokens between the commas. */
  lemma NamesOfList(t: seq<Token>, w: Token)
    ensures WithoutCommas([]) == []
    ensures WithoutCommas(t + [w]) == WithoutCommas(t) + if w == "," then [] else [w]
  {
    if t == [] {
      assert t + [w] == [w] && [w][1..] == [];
    } else {
      var first := if t[0] == "," then [] else [t[0]];
      var last := if w == "," then [] else [w];
      assert (t + [w])[0] == t[0] && (t + [w])[1..] == t[1..] + [w];
      NamesOfList(t[1..], w);
      assert WithoutCommas(t + [w]) == first + WithoutCommas(t[1..] + [w]);
      assert WithoutCommas(t) == first + WithoutCommas(t[1..]);
      hide WithoutCommas;
    }
  }

  /** The first token that is this keyword. */
  ghost predicate FirstAt(t: seq<Token>, w: Token, pos: nat) {
    pos < |t| && Upper(t[pos]) == w && forall i | 0 <= i < pos :: Upper(t[i]) != w
  }

  predicate Has(t: seq<Token>, w: Token) { exists i | 0 <= i < |t| :: Upper(t[i]) == w }

  /** The names in the parentheses that open at `start`. */
  ghost predicate Listed(t: seq<Token>, start: nat, names: seq<Token>) {
    exists end: nat :: Matches(t, start, end) && names == WithoutCommas(t[start + 1..end - 1])
  }

  // ---- What one constraint says ----------------------------------------------------------------------

  /** UNIQUE, or else PRIMARY KEY: the columns in the parentheses after it, or the column the text begins with. */
  ghost predicate PartKey(part: seq<Token>, columns: seq<Token>) {
    exists pos: nat ::
      && (FirstAt(part, "UNIQUE", pos) || (!Has(part, "UNIQUE") && Has(part, "PRIMARY") && FirstAt(part, "KEY", pos)))
      && if pos + 1 < |part| && part[pos + 1] == "(" then Listed(part, pos + 1, columns) else columns == [part[0]]
  }

  /** REFERENCES schema . target ( columns ), from the columns after FOREIGN KEY or the one the text begins with. */
  ghost predicate PartReference(table: Token, part: seq<Token>, fk: ForeignKey) {
    && fk.table == table
    && (exists pos: nat ::
          && FirstAt(part, "REFERENCES", pos) && pos + 3 < |part|
          && fk.schema == part[pos + 1] && fk.target == part[pos + 3] && Listed(part, pos + 4, fk.columns))
    && if Has(part, "FOREIGN") then exists k: nat :: FirstAt(part, "KEY", k) && Listed(part, k + 1, fk.local)
       else fk.local == part[..1]
  }

  lemma HasIff(t: seq<Token>, w: Token)
    ensures w in Uppers(t) <==> Has(t, w)
  {
    hide Upper;
    if Has(t, w) {
      var i :| 0 <= i < |t| && Upper(t[i]) == w;
      assert Uppers(t)[i] == w;
    }
  }

  lemma {:induction false} IndexIsFirst(u: seq<Token>, w: Token)
    ensures var r := IndexOf(u, w); r.Some? ==> forall i | 0 <= i < r.value :: u[i] != w
  {
    if u != [] && u[0] != w { IndexIsFirst(u[1..], w); }
  }

  lemma FirstAtIff(t: seq<Token>, w: Token, pos: nat)
    ensures FirstAt(t, w, pos) <==> IndexOf(Uppers(t), w) == Some(pos)
  {
    hide Upper;
    var u := Uppers(t);
    IndexIsFirst(u, w);
    forall i | 0 <= i < |t| ensures u[i] == Upper(t[i]) {}
    if FirstAt(t, w, pos) { assert u[pos] in u; }
  }

  lemma ListedIff(t: seq<Token>, start: nat, names: seq<Token>)
    ensures Listed(t, start, names) <==>
              InParens(t, start).Some? && names == WithoutCommas(InParens(t, start).value.0)
  {
    hide WithoutCommas;
    if Listed(t, start, names) {
      var end: nat :| Matches(t, start, end) && names == WithoutCommas(t[start + 1..end - 1]);
      ParensFindsTheMatch(t, start, end);
    }
    if InParens(t, start).Some? {
      var end := ParensEnd(t, start).value;
      ParensFindsTheMatch(t, start, end);
    }
  }

  lemma ReadKeyIff(part: seq<Token>, columns: seq<Token>)
    ensures PartKey(part, columns) <==> HasKey(part) && ReadKey(part) == Some(columns)
  {
    hide Uppers, Upper, InParens, WithoutCommas, FirstAt, Listed, IndexOf, Has;
    HasIff(part, "UNIQUE");
    HasIff(part, "PRIMARY");
    forall pos: nat ensures FirstAt(part, "UNIQUE", pos) <==> IndexOf(Uppers(part), "UNIQUE") == Some(pos) {
      FirstAtIff(part, "UNIQUE", pos);
    }
    forall pos: nat ensures FirstAt(part, "KEY", pos) <==> IndexOf(Uppers(part), "KEY") == Some(pos) {
      FirstAtIff(part, "KEY", pos);
    }
    forall start: nat ensures Listed(part, start, columns) <==>
      InParens(part, start).Some? && columns == WithoutCommas(InParens(part, start).value.0)
    {
      ListedIff(part, start, columns);
    }
  }

  lemma ReadReferenceIff(table: Token, part: seq<Token>, fk: ForeignKey)
    ensures PartReference(table, part, fk) <==> HasReference(part) && ReadReference(table, part) == Some(fk)
  {
    hide Uppers, Upper, InParens, WithoutCommas, FirstAt, Listed, IndexOf, Has;
    HasIff(part, "REFERENCES");
    HasIff(part, "FOREIGN");
    forall pos: nat ensures FirstAt(part, "REFERENCES", pos) <==> IndexOf(Uppers(part), "REFERENCES") == Some(pos) {
      FirstAtIff(part, "REFERENCES", pos);
    }
    forall pos: nat ensures FirstAt(part, "KEY", pos) <==> IndexOf(Uppers(part), "KEY") == Some(pos) {
      FirstAtIff(part, "KEY", pos);
    }
    forall pos: nat ensures Listed(part, pos, fk.columns) <==>
      InParens(part, pos).Some? && fk.columns == WithoutCommas(InParens(part, pos).value.0)
    {
      ListedIff(part, pos, fk.columns);
    }
    forall pos: nat ensures Listed(part, pos, fk.local) <==>
      InParens(part, pos).Some? && fk.local == WithoutCommas(InParens(part, pos).value.0)
    {
      ListedIff(part, pos, fk.local);
    }
    if part != [] { assert part[..1] == [part[0]]; }
  }

  // ---- What one constraint does ----------------------------------------------------------------------

  /** The catalog holds the candidate key. */
  predicate Declared(c: Catalog, table: Token, columns: seq<Token>) { columns in KeysOf(c, table) }

  /** The reference is to a candidate key already declared on a table already there, or to auth.users (id). */
  ghost predicate Referable(c: Catalog, fk: ForeignKey) {
    || (fk.schema == "public" && fk.target in c.tables && Declared(c, fk.target, fk.columns))
    || (fk.schema == "auth" && fk.target == "users" && fk.columns == ["id"])
  }

  /**
   Reading a constraint: exactly its key and its reference are new, and it is clean exactly if the reference
   holds.
   */
  ghost predicate Reads(c: Catalog, b: Catalog, table: Token, part: seq<Token>) {
    && b.tables == c.tables
    && (forall x, columns :: Declared(b, x, columns) <==>
          Declared(c, x, columns) || (x == table && PartKey(part, columns)))
    && (forall fk :: fk in b.fks <==> fk in c.fks || PartReference(table, part, fk))
    && c.errors <= b.errors
    && (b.errors == c.errors <==> forall fk | PartReference(table, part, fk) :: Referable(c, fk))
  }

  lemma ConstraintReads(c: Catalog, table: Token, part: seq<Token>)
    requires AddConstraint(c, table, part).Some?
    ensures Reads(c, AddConstraint(c, table, part).value, table, part)
  {
    hide HasReference, HasKey, ReadReference, ReadKey, PartKey, PartReference;
    var b := AddConstraint(c, table, part).value;
    forall columns ensures PartKey(part, columns) <==> HasKey(part) && ReadKey(part) == Some(columns) {
      ReadKeyIff(part, columns);
    }
    forall fk ensures PartReference(table, part, fk) <==> HasReference(part) && ReadReference(table, part) == Some(fk) {
      ReadReferenceIff(table, part, fk);
    }
    if HasReference(part) {
      var fk := ReadReference(table, part).value;
      assert ReferenceErrors(c, fk) == [] <==> Referable(c, fk);
    }
  }

  /** Which errors a reference is reported with when it is read. */
  lemma ReferenceErrorsSay(c: Catalog, fk: ForeignKey, e: Error)
    ensures e in ReferenceErrors(c, fk) <==>
              || (fk.schema == "public" && fk.target !in c.tables && e == UnavailableTable(fk.table, fk.target))
              || (fk.schema == "public" && !Declared(c, fk.target, fk.columns)
                  && e == MissingCandidateKey(fk.table, fk.target))
              || (fk.schema != "public" && !Referable(c, fk) && e == UnknownExternal(fk.target))
  {
  }

  lemma {:induction false} LocalErrorsSay(known: set<Token>, fk: ForeignKey, local: seq<Token>, e: Error)
    ensures e in LocalErrors(known, fk, local) <==>
              exists x | x in local :: x !in known && e == UnknownLocalColumn(fk.table, x)
  {
    if local != [] {
      LocalErrorsSay(known, fk, local[1..], e);
      assert local == [local[0]] + local[1..];
    }
  }

  lemma {:induction false} TargetErrorsSay(known: set<Token>, fk: ForeignKey, ref: seq<Token>, e: Error)
    ensures e in TargetErrors(known, fk, ref) <==>
              exists x | x in ref :: x !in known && e == UnknownTargetColumn(fk.target, x)
  {
    if ref != [] {
      TargetErrorsSay(known, fk, ref[1..], e);
      assert ref == [ref[0]] + ref[1..];
    }
  }

  /** Which errors the final checks report for a reference; they raise exactly if its own table was never created. */
  lemma FinalErrorsSay(c: Catalog, fk: ForeignKey, e: Error)
    ensures FinalErrors(c, fk).None? <==> fk.local != [] && fk.table !in c.tables
    ensures FinalErrors(c, fk).Some? ==>
              (e in FinalErrors(c, fk).value <==>
               || (exists x | x in fk.local :: !HasColumn(c, fk.table, x) && e == UnknownLocalColumn(fk.table, x))
               || (fk.target in c.tables && exists x | x in fk.columns ::
                     !HasColumn(c, fk.target, x) && e == UnknownTargetColumn(fk.target, x))
               || (|fk.local| != |fk.columns| && e == ArityMismatch(fk.table, fk.target)))
  {
    hide LocalErrors, TargetErrors;
    if fk.table in c.tables { LocalErrorsSay(c.tables[fk.table], fk, fk.local, e); }
    if fk.target in c.tables { TargetErrorsSay(c.tables[fk.target], fk, fk.columns, e); }
  }

  lemma Prefixes(a: seq<Error>, b: seq<Error>, c: seq<Error>)
    requires a <= b <= c
    ensures a <= c && (c == a <==> b == a && c == b)
  {
  }

  // ---- A table's parts ---------------------------------------------------------------------------------

  /** One pass over the parts of a table takes those with a reference, or those without. */
  predicate InPass(part: seq<Token>, references: bool) { Has(part, "REFERENCES") == references }

  lemma {:induction false} PassLast(c: Catalog, table: Token, parts: seq<seq<Token>>, references: bool)
    requires parts != []
    ensures var n := |parts| - 1;
            AddParts(c, table, parts, references)
            == match AddParts(c, table, parts[..n], references)
               case None => None
               case Some(b) => if InPass(parts[n], references) then AddConstraint(b, table, parts[n]) else Some(b)
    decreases |parts|
  {
    hide AddConstraint, HasReference, Has;
    var n := |parts| - 1;
    HasIff(parts[0], "REFERENCES");
    InPassIff(parts[0], references);
    if n == 0 {
      assert parts[1..] == [] && parts[..0] == [];
    } else {
      var b := if InPass(parts[0], references) then AddConstraint(c, table, parts[0]) else Some(c);
      assert parts[..n][0] == parts[0] && parts[..n][1..] == parts[1..][..n - 1] && parts[1..][n - 1] == parts[n];
      if b.Some? { PassLast(b.value, table, parts[1..], references); }
    }
  }

  lemma InPassIff(part: seq<Token>, references: bool)
    ensures InPass(part, references) <==> HasReference(part) == references
  {
    HasIff(part, "REFERENCES");
  }

  ghost predicate SomePartKey(parts: seq<seq<Token>>, references: bool, columns: seq<Token>) {
    exists i | 0 <= i < |parts| :: InPass(parts[i], references) && PartKey(parts[i], columns)
  }

  ghost predicate SomePartReference(table: Token, parts: seq<seq<Token>>, references: bool, fk: ForeignKey) {
    exists i | 0 <= i < |parts| :: InPass(parts[i], references) && PartReference(table, parts[i], fk)
  }

  lemma {:induction false} PassReads(c: Catalog, table: Token, parts: seq<seq<Token>>, references: bool)
    requires AddParts(c, table, parts, references).Some?
    ensures var b := AddParts(c, table, parts, references).value;
            && b.tables == c.tables && c.errors <= b.errors
            && (forall x, columns :: Declared(b, x, columns) <==>
                  Declared(c, x, columns) || (x == table && SomePartKey(parts, references, columns)))
            && (forall fk :: fk in b.fks <==> fk in c.fks || SomePartReference(table, parts, references, fk))
    decreases |parts|
  {
    hide AddConstraint, PartKey, PartReference, InPass, Declared, Referable;
    if parts != [] {
      var n := |parts| - 1;
      var init, last := parts[..n], parts[n];
      PassLast(c, table, parts, references);
      PassReads(c, table, init, references);
      var b := AddParts(c, table, init, references).value;
      if InPass(last, references) { ConstraintReads(b, table, last); }
      forall columns ensures SomePartKey(parts, references, columns) <==>
        SomePartKey(init, references, columns) || (InPass(last, references) && PartKey(last, columns))
      {
        assert forall i | 0 <= i < n :: init[i] == parts[i];
      }
      forall fk ensures SomePartReference(table, parts, references, fk) <==>
        SomePartReference(table, init, references, fk) || (InPass(last, references) && PartReference(table, last, fk))
      {
        assert forall i | 0 <= i < n :: init[i] == parts[i];
      }
      hide SomePartKey, SomePartReference;
    }
  }

  /** The part is clean where it stands: its reference holds in the catalog that the parts before it leave. */
  ghost predicate CleanPart(c: Catalog, table: Token, parts: seq<seq<Token>>, references: bool, i: nat)
    requires i < |parts|
  {
    var before := AddParts(c, table, parts[..i], references);
    before.Some? && forall fk | PartReference(table, parts[i], fk) :: Referable(before.value, fk)
  }

  /** A pass is clean exactly if each of its parts is, where it stands. */
  lemma {:induction false} PassIsCleanIff(c: Catalog, table: Token, parts: seq<seq<Token>>, references: bool)
    requires AddParts(c, table, parts, references).Some?
    ensures AddParts(c, table, parts, references).value.errors == c.errors <==>
              forall i: nat | i < |parts| && InPass(parts[i], references) :: CleanPart(c, table, parts, references, i)
    decreases |parts|
  {
    hide AddConstraint, PartReference, InPass, Referable;
    if parts != [] {
      var n := |parts| - 1;
      var init, last := parts[..n], parts[n];
      PassLast(c, table, parts, references);
      PassIsCleanIff(c, table, init, references);
      PassReads(c, table, init, references);
      var b := AddParts(c, table, init, references).value;
      if InPass(last, references) { ConstraintReads(b, table, last); }
      var all := AddParts(c, table, parts, references).value;
      Prefixes(c.errors, b.errors, all.errors);
      forall i: nat | i < n
        ensures CleanPart(c, table, parts, references, i) <==> CleanPart(c, table, init, references, i)
      {
        assert init[..i] == parts[..i];
      }
    }
  }

  // ---- Additions -------------------------------------------------------------------------------------------

  /** ALTER TABLE ... ADD; what follows the word is read as a constraint. */
  predicate IsAddition(part: seq<Token>) { |part| >= 2 && Upper(part[0]) == "ADD" }

  /** ADD COLUMN with the column's name. */
  predicate AddsColumn(part: seq<Token>, column: Token) {
    |part| >= 3 && Upper(part[0]) == "ADD" && Upper(part[1]) == "COLUMN" && part[2] == column
  }

  lemma {:induction false} AlterLast(c: Catalog, table: Token, parts: seq<seq<Token>>)
    requires parts != []
    ensures var n := |parts| - 1;
            AlterParts(c, table, parts)
            == match AlterParts(c, table, parts[..n]) case None => None case Some(b) => AlterPart(b, table, parts[n])
    decreases |parts|
  {
    hide AlterPart;
    var n := |parts| - 1;
    if n == 0 {
      assert parts[1..] == [] && parts[..0] == [];
    } else {
      assert parts[..n][0] == parts[0] && parts[..n][1..] == parts[1..][..n - 1] && parts[1..][n - 1] == parts[n];
      if AlterPart(c, table, parts[0]).Some? { AlterLast(AlterPart(c, table, parts[0]).value, table, parts[1..]); }
    }
  }

  ghost predicate SomeAddedKey(parts: seq<seq<Token>>, columns: seq<Token>) {
    exists i | 0 <= i < |parts| :: IsAddition(parts[i]) && PartKey(parts[i][1..], columns)
  }

  ghost predicate SomeAddedReference(table: Token, parts: seq<seq<Token>>, fk: ForeignKey) {
    exists i | 0 <= i < |parts| :: IsAddition(parts[i]) && PartReference(table, parts[i][1..], fk)
  }

  ghost predicate SomeAddedColumn(parts: seq<seq<Token>>, column: Token) {
    exists i | 0 <= i < |parts| :: AddsColumn(parts[i], column)
  }

  /** The table is known, with this column. */
  predicate HasColumn(c: Catalog, table: Token, column: Token) { table in c.tables && column in c.tables[table] }

  lemma AdditionReads(c: Catalog, table: Token, part: seq<Token>)
    requires AlterPart(c, table, part).Some?
    ensures var b := AlterPart(c, table, part).value;
            && b.tables.Keys == c.tables.Keys && c.errors <= b.errors
            && (forall x, column :: HasColumn(b, x, column) <==>
                  HasColumn(c, x, column) || (x == table && table in c.tables && AddsColumn(part, column)))
            && (forall x, columns :: Declared(b, x, columns) <==>
                  Declared(c, x, columns) || (x == table && IsAddition(part) && PartKey(part[1..], columns)))
            && (forall fk :: fk in b.fks <==> fk in c.fks || (IsAddition(part) && PartReference(table, part[1..], fk)))
            && (b.errors == c.errors <==>
                  (IsAddition(part) ==> forall fk | PartReference(table, part[1..], fk) :: Referable(c, fk)))
  {
    hide AddConstraint, PartReference, PartKey;
    if IsAddition(part) {
      var a := AddColumn(c, table, part).value;
      assert a.tables.Keys == c.tables.Keys;
      ConstraintReads(a, table, part[1..]);
    }
  }

  lemma {:induction false} AdditionsRead(c: Catalog, table: Token, parts: seq<seq<Token>>)
    requires AlterParts(c, table, parts).Some?
    ensures var b := AlterParts(c, table, parts).value;
            && b.tables.Keys == c.tables.Keys && c.errors <= b.errors
            && (forall x, column :: HasColumn(b, x, column) <==>
                  HasColumn(c, x, column) || (x == table && table in c.tables && SomeAddedColumn(parts, column)))
            && (forall x, columns :: Declared(b, x, columns) <==>
                  Declared(c, x, columns) || (x == table && SomeAddedKey(parts, columns)))
            && (forall fk :: fk in b.fks <==> fk in c.fks || SomeAddedReference(table, parts, fk))
    decreases |parts|
  {
    hide AlterPart, PartKey, PartReference, Declared, HasColumn, Referable, AddsColumn;
    if parts != [] {
      var n := |parts| - 1;
      var init, last := parts[..n], parts[n];
      AlterLast(c, table, parts);
      AdditionsRead(c, table, init);
      AdditionReads(AlterParts(c, table, init).value, table, last);
      assert forall i | 0 <= i < n :: init[i] == parts[i];
      forall columns ensures SomeAddedKey(parts, columns) <==>
        SomeAddedKey(init, columns) || (IsAddition(last) && PartKey(last[1..], columns)) {}
      forall fk ensures SomeAddedReference(table, parts, fk) <==>
        SomeAddedReference(table, init, fk) || (IsAddition(last) && PartReference(table, last[1..], fk)) {}
      forall column ensures SomeAddedColumn(parts, column) <==>
        SomeAddedColumn(init, column) || AddsColumn(last, column) {}
      hide SomeAddedKey, SomeAddedReference, SomeAddedColumn;
    }
  }

  ghost predicate CleanAddition(c: Catalog, table: Token, parts: seq<seq<Token>>, i: nat)
    requires i < |parts| && IsAddition(parts[i])
  {
    var before := AlterParts(c, table, parts[..i]);
    before.Some? && forall fk | PartReference(table, parts[i][1..], fk) :: Referable(before.value, fk)
  }

  lemma {:induction false} AdditionsAreCleanIff(c: Catalog, table: Token, parts: seq<seq<Token>>)
    requires AlterParts(c, table, parts).Some?
    ensures AlterParts(c, table, parts).value.errors == c.errors <==>
              forall i: nat | i < |parts| && IsAddition(parts[i]) :: CleanAddition(c, table, parts, i)
    decreases |parts|
  {
    hide AlterPart, PartReference, Referable, IsAddition;
    if parts != [] {
      var n := |parts| - 1;
      var init, last := parts[..n], parts[n];
      AlterLast(c, table, parts);
      AdditionsAreCleanIff(c, table, init);
      AdditionsRead(c, table, init);
      var b := AlterParts(c, table, init).value;
      AdditionReads(b, table, last);
      Prefixes(c.errors, b.errors, AlterParts(c, table, parts).value.errors);
      forall i: nat | i < n && IsAddition(parts[i])
        ensures CleanAddition(c, table, parts, i) <==> CleanAddition(c, table, init, i)
      {
        assert init[..i] == parts[..i];
      }
    }
  }

  // ---- Statements ------------------------------------------------------------------------------------------

  predicate Heads(t: seq<Token>, w: Token, w': Token) { |t| >= 2 && Upper(t[0]) == w && Upper(t[1]) == w' }

  predicate CreatesTable(t: seq<Token>, table: Token) { Heads(t, "CREATE", "TABLE") && |t| > 4 && t[4] == table }

  predicate AltersTable(t: seq<Token>, table: Token) { Heads(t, "ALTER", "TABLE") && |t| > 4 && t[4] == table }

  /** ON schema . table ( columns ). */
  ghost predicate IndexOn(t: seq<Token>, table: Token, columns: seq<Token>) {
    exists pos: nat :: FirstAt(t, "ON", pos) && pos + 3 < |t| && t[pos + 3] == table && Listed(t, pos + 4, columns)
  }

  /** CREATE UNIQUE INDEX ... ON schema . table ( columns ), without WHERE. */
  ghost predicate IndexKey(t: seq<Token>, table: Token, columns: seq<Token>) {
    && Heads(t, "CREATE", "UNIQUE") && |t| >= 3 && Upper(t[2]) == "INDEX" && !Has(t, "WHERE")
    && IndexOn(t, table, columns)
  }

  /** The parts of a CREATE TABLE: what stands between the commas of its parentheses. */
  ghost predicate Body(t: seq<Token>, parts: seq<seq<Token>>) {
    exists end: nat :: Matches(t, 5, end) && parts == Pieces(t[6..end - 1], ",")
  }

  /**
   The statement declares this candidate key: UNIQUE or PRIMARY KEY in CREATE TABLE or ALTER ... ADD, or a
   unique index.
   */
  ghost predicate DeclaresKey(t: seq<Token>, table: Token, columns: seq<Token>) {
    || (CreatesTable(t, table)
        && exists parts :: Body(t, parts) && (SomePartKey(parts, false, columns) || SomePartKey(parts, true, columns)))
    || (AltersTable(t, table) && Has(t, "ADD") && SomeAddedKey(Pieces(t[5..], ","), columns))
    || IndexKey(t, table, columns)
  }

  ghost predicate DeclaresReference(t: seq<Token>, fk: ForeignKey) {
    || (CreatesTable(t, fk.table) && exists parts :: Body(t, parts) && SomePartReference(fk.table, parts, true, fk))
    || (AltersTable(t, fk.table) && Has(t, "ADD") && SomeAddedReference(fk.table, Pieces(t[5..], ","), fk))
  }

  /** A column of a CREATE TABLE: the first token of a part that does not begin with a constraint word. */
  ghost predicate BodyColumn(t: seq<Token>, column: Token) {
    exists parts, i: nat :: Body(t, parts) && i < |parts| && parts[i] != [] && parts[i][0] == column
      && Upper(column) != "CONSTRAINT" && Upper(column) != "FOREIGN" && Upper(column) != "UNIQUE"
      && Upper(column) != "CHECK" && Upper(column) != "PRIMARY"
  }

  /** The statement gives the table this column: in CREATE TABLE, or by ALTER ... ADD COLUMN. */
  ghost predicate GivesColumn(t: seq<Token>, table: Token, column: Token) {
    || (CreatesTable(t, table) && BodyColumn(t, column))
    || (AltersTable(t, table) && Has(t, "ADD") && SomeAddedColumn(Pieces(t[5..], ","), column))
  }

  lemma BodyIff(t: seq<Token>, parts: seq<seq<Token>>)
    ensures Body(t, parts) <==> InParens(t, 5).Some? && parts == Pieces(InParens(t, 5).value.0, ",")
  {
    hide Pieces;
    if Body(t, parts) {
      var end: nat :| Matches(t, 5, end) && parts == Pieces(t[6..end - 1], ",");
      ParensFindsTheMatch(t, 5, end);
    }
    if InParens(t, 5).Some? { ParensFindsTheMatch(t, 5, ParensEnd(t, 5).value); }
  }

  lemma HeadsIff(t: seq<Token>, w: Token, w': Token)
    ensures StartsWith(t, [w, w']) <==> Heads(t, w, w')
    ensures StartsWith(t, [w, w', "INDEX"]) <==> Heads(t, w, w') && |t| >= 3 && Upper(t[2]) == "INDEX"
  {
    hide Upper;
    var u := Uppers(t);
    assert forall i | 0 <= i < |t| :: u[i] == Upper(t[i]);
    if Heads(t, w, w') { assert u[..2] == [w, w']; }
    if Heads(t, w, w') && |t| >= 3 && Upper(t[2]) == "INDEX" { assert u[..3] == [w, w', "INDEX"]; }
  }

  lemma CreateReads(c: Catalog, t: seq<Token>)
    requires Heads(t, "CREATE", "TABLE") && CreateTable(c, t).Some?
    ensures var b, table := CreateTable(c, t).value, t[4];
            && |t| > 4 && b.tables.Keys == c.tables.Keys + {table}
            && (forall x, column :: HasColumn(b, x, column) <==>
                  if x == table then BodyColumn(t, column) else HasColumn(c, x, column))
            && (forall x, columns :: Declared(b, x, columns) <==> Declared(c, x, columns) || DeclaresKey(t, x, columns))
            && (forall fk :: fk in b.fks <==> fk in c.fks || DeclaresReference(t, fk))
            && c.errors + (if table in c.tables then [DuplicateTable(table)] else []) <= b.errors
  {
    hide AddParts, Pieces, InParens, Upper, SomePartKey, SomePartReference, Body, Declared, Has;
    var table, parts := t[4], Pieces(InParens(t, 5).value.0, ",");
    forall q ensures Body(t, q) <==> q == parts { BodyIff(t, q); }
    var made := c.(tables := c.tables[table := Columns(parts)],
                   errors := c.errors + When(table in c.tables, DuplicateTable(table)));
    PassReads(made, table, parts, false);
    var b := AddParts(made, table, parts, false).value;
    PassReads(b, table, parts, true);
    Prefixes(c.errors, made.errors, b.errors);
    Prefixes(c.errors, b.errors, CreateTable(c, t).value.errors);
    forall column ensures BodyColumn(t, column) <==> column in Columns(parts) { ColumnsAre(t, parts, column); }
    forall fk ensures !SomePartReference(table, parts, false, fk)
                      && (SomePartReference(table, parts, true, fk) ==> fk.table == table)
    {
      OnlyTheSecondPassRefers(table, parts, fk);
    }
    assert forall x, columns :: Declared(made, x, columns) <==> Declared(c, x, columns) by { SameKeys(c, made); }
  }

  lemma SameKeys(a: Catalog, b: Catalog)
    requires a.keys == b.keys
    ensures forall x, columns :: Declared(b, x, columns) <==> Declared(a, x, columns)
  {
  }

  lemma ColumnsAre(t: seq<Token>, parts: seq<seq<Token>>, column: Token)
    requires (forall q :: Body(t, q) <==> q == parts) && forall p | p in parts :: p != []
    ensures BodyColumn(t, column) <==> column in Columns(parts)
  {
    hide Body, Upper;
    if column in Columns(parts) {
      var p :| p in parts && Upper(p[0]) !in NOT_COLUMNS && p[0] == column;
      var i: nat :| i < |parts| && parts[i] == p;
      assert Body(t, parts);
    }
    if BodyColumn(t, column) {
      var q, i: nat :| Body(t, q) && i < |q| && q[i] != [] && q[i][0] == column && Upper(column) !in NOT_COLUMNS;
      assert q[i] in parts;
    }
  }

  lemma OnlyTheSecondPassRefers(table: Token, parts: seq<seq<Token>>, fk: ForeignKey)
    ensures !SomePartReference(table, parts, false, fk)
    ensures SomePartReference(table, parts, true, fk) ==> fk.table == table
  {
  }

  lemma AlterReads(c: Catalog, t: seq<Token>)
    requires Heads(t, "ALTER", "TABLE") && AlterTable(c, t).Some?
    ensures var b := AlterTable(c, t).value;
            && b.tables.Keys == c.tables.Keys
            && c.errors + (if t[4] !in c.tables then [AlterUnknownTable(t[4])] else []) <= b.errors
            && (forall x, column :: HasColumn(b, x, column) <==>
                  HasColumn(c, x, column) || (x in c.tables && GivesColumn(t, x, column)))
            && (forall x, columns :: Declared(b, x, columns) <==> Declared(c, x, columns) || DeclaresKey(t, x, columns))
            && (forall fk :: fk in b.fks <==> fk in c.fks || DeclaresReference(t, fk))
  {
    hide AlterParts, Pieces, Upper, SomeAddedKey, SomeAddedReference, SomeAddedColumn, Has, Balanced;
    HasIff(t, "ADD");
    var known := c.(errors := c.errors + When(t[4] !in c.tables, AlterUnknownTable(t[4])));
    SameKeys(c, known);
    assert forall x, column :: HasColumn(known, x, column) <==> HasColumn(c, x, column);
    forall x, columns ensures !IndexKey(t, x, columns) { NotAnIndex(t, x, columns); }
    if Has(t, "ADD") {
      var parts := Pieces(t[5..], ",");
      AdditionsRead(known, t[4], parts);
      forall fk ensures SomeAddedReference(t[4], parts, fk) ==> fk.table == t[4] {
        AddedReferenceIsOfTable(t[4], parts, fk);
      }
      hide Declared, HasColumn;
    }
  }

  lemma NotAnIndex(t: seq<Token>, table: Token, columns: seq<Token>)
    requires Heads(t, "ALTER", "TABLE")
    ensures !IndexKey(t, table, columns)
  {
  }

  lemma AddedReferenceIsOfTable(table: Token, parts: seq<seq<Token>>, fk: ForeignKey)
    ensures SomeAddedReference(table, parts, fk) ==> fk.table == table
  {
  }

  predicate CreatesIndex(t: seq<Token>) {
    Heads(t, "CREATE", "INDEX") || (Heads(t, "CREATE", "UNIQUE") && |t| >= 3 && Upper(t[2]) == "INDEX")
  }

  /** An index adds its columns as a key if it is unique and not partial, and nothing else otherwise. */
  lemma IndexReads(c: Catalog, t: seq<Token>)
    requires CreatesIndex(t) && CreateIndex(c, t).Some?
    ensures var b := CreateIndex(c, t).value;
            && b.tables == c.tables && b.fks == c.fks && b.errors == c.errors
            && (forall x, columns :: Declared(b, x, columns) <==> Declared(c, x, columns) || DeclaresKey(t, x, columns))
            && (!Heads(t, "CREATE", "UNIQUE") ==> b == c)
  {
    hide InParens, WithoutCommas, Listed, Has, FirstAt, IndexOf;
    HasIff(t, "WHERE");
    forall pos: nat ensures FirstAt(t, "ON", pos) <==> IndexOf(Uppers(t), "ON") == Some(pos) {
      FirstAtIff(t, "ON", pos);
    }
    forall start: nat, columns ensures Listed(t, start, columns) <==>
      InParens(t, start).Some? && columns == WithoutCommas(InParens(t, start).value.0)
    {
      ListedIff(t, start, columns);
    }
    var pos := IndexOf(Uppers(t), "ON").value;
    var columns := WithoutCommas(InParens(t, pos + 4).value.0);
    forall x, k ensures IndexKey(t, x, k) <==>
      Heads(t, "CREATE", "UNIQUE") && !Has(t, "WHERE") && x == t[pos + 3] && k == columns
    {
      if Heads(t, "CREATE", "UNIQUE") && !Has(t, "WHERE") && x == t[pos + 3] && k == columns {
        assert FirstAt(t, "ON", pos) && Listed(t, pos + 4, k);
      }
    }
    assert forall x :: !CreatesTable(t, x) && !AltersTable(t, x);
  }

  // ---- What raises -------------------------------------------------------------------------------------------

  /** A reference without its target or its columns, or a key without columns: reading the part raises. */
  ghost predicate Unreadable(part: seq<Token>) {
    || (Has(part, "REFERENCES") && forall table, fk :: !PartReference(table, part, fk))
    || ((Has(part, "UNIQUE") || Has(part, "PRIMARY")) && forall columns :: !PartKey(part, columns))
  }

  lemma ConstraintRaisesIff(c: Catalog, table: Token, part: seq<Token>)
    ensures AddConstraint(c, table, part).None? <==> Unreadable(part)
  {
    hide ReadReference, ReadKey, PartKey, PartReference, Has, Uppers;
    HasIff(part, "REFERENCES");
    HasIff(part, "UNIQUE");
    HasIff(part, "PRIMARY");
    forall columns ensures PartKey(part, columns) <==> HasKey(part) && ReadKey(part) == Some(columns) {
      ReadKeyIff(part, columns);
    }
    forall x, fk ensures PartReference(x, part, fk) <==> HasReference(part) && ReadReference(x, part) == Some(fk) {
      ReadReferenceIff(x, part, fk);
    }
    if HasReference(part) {
      forall x ensures ReadReference(x, part).None? <==> ReadReference(table, part).None? {
        SameReading(x, table, part);
      }
      if ReadReference(table, part).Some? { assert PartReference(table, part, ReadReference(table, part).value); }
    }
    if HasKey(part) && ReadKey(part).Some? { assert PartKey(part, ReadKey(part).value); }
  }

  lemma SameReading(x: Token, y: Token, part: seq<Token>)
    requires HasReference(part)
    ensures ReadReference(x, part).None? <==> ReadReference(y, part).None?
  {
  }

  lemma {:induction false} PassRaisesIff(c: Catalog, table: Token, parts: seq<seq<Token>>, references: bool)
    ensures AddParts(c, table, parts, references).None? <==>
              exists i | 0 <= i < |parts| :: InPass(parts[i], references) && Unreadable(parts[i])
    decreases |parts|
  {
    hide AddConstraint, InPass, Unreadable;
    if parts != [] {
      var n := |parts| - 1;
      var init := parts[..n];
      PassLast(c, table, parts, references);
      PassRaisesIff(c, table, init, references);
      if AddParts(c, table, init, references).Some? {
        ConstraintRaisesIff(AddParts(c, table, init, references).value, table, parts[n]);
      }
      assert forall i | 0 <= i < n :: init[i] == parts[i];
    }
  }

  /** CREATE TABLE without a name or a closed body, or with an empty or unreadable part. */
  ghost predicate CreateRaises(t: seq<Token>) {
    || |t| <= 4
    || (forall parts :: !Body(t, parts))
    || exists parts, i: nat :: Body(t, parts) && i < |parts| && (parts[i] == [] || Unreadable(parts[i]))
  }

  lemma CreateRaisesIff(c: Catalog, t: seq<Token>)
    ensures CreateTable(c, t).None? <==> CreateRaises(t)
  {
    hide AddParts, Pieces, InParens, Body, Unreadable;
    forall q ensures Body(t, q) <==> InParens(t, 5).Some? && q == Pieces(InParens(t, 5).value.0, ",") { BodyIff(t, q); }
    if |t| > 4 && InParens(t, 5).Some? {
      var table, parts := t[4], Pieces(InParens(t, 5).value.0, ",");
      assert Body(t, parts);
      if q :| q in parts && q == [] {
        var i: nat :| i < |parts| && parts[i] == q;
      } else {
        assert forall i: nat | i < |parts| :: parts[i] in parts;
        var made := c.(tables := c.tables[table := Columns(parts)],
                       errors := c.errors + When(table in c.tables, DuplicateTable(table)));
        PassRaisesIff(made, table, parts, false);
        if AddParts(made, table, parts, false).Some? {
          PassRaisesIff(AddParts(made, table, parts, false).value, table, parts, true);
        }
      }
    }
  }

  /** An empty part, ADD or ADD COLUMN with nothing after it, or an unreadable constraint. */
  ghost predicate AdditionRaises(part: seq<Token>, known: bool) {
    || part == []
    || (Upper(part[0]) == "ADD"
        && (|part| == 1 || (|part| == 2 && Upper(part[1]) == "COLUMN" && known) || Unreadable(part[1..])))
  }

  lemma AdditionRaisesIff(c: Catalog, table: Token, part: seq<Token>)
    ensures AlterPart(c, table, part).None? <==> AdditionRaises(part, table in c.tables)
  {
    hide AddConstraint, Unreadable;
    if |part| >= 2 && AddColumn(c, table, part).Some? {
      ConstraintRaisesIff(AddColumn(c, table, part).value, table, part[1..]);
    }
  }

  lemma {:induction false} AdditionsRaiseIff(c: Catalog, table: Token, parts: seq<seq<Token>>)
    ensures AlterParts(c, table, parts).None? <==>
              exists i | 0 <= i < |parts| :: AdditionRaises(parts[i], table in c.tables)
    decreases |parts|
  {
    hide AlterPart, AdditionRaises, Declared, HasColumn, SomeAddedKey, SomeAddedReference, SomeAddedColumn;
    if parts != [] {
      var n := |parts| - 1;
      var init := parts[..n];
      AlterLast(c, table, parts);
      AdditionsRaiseIff(c, table, init);
      if AlterParts(c, table, init).Some? {
        AdditionsRead(c, table, init);
        var b := AlterParts(c, table, init).value;
        assert table in b.tables <==> table in b.tables.Keys;
        AdditionRaisesIff(b, table, parts[n]);
      }
      assert forall i | 0 <= i < n :: init[i] == parts[i];
    }
  }

  /** ALTER TABLE without a name, or with additions that are not balanced or that raise. */
  ghost predicate AlterRaises(t: seq<Token>, known: bool) {
    || |t| <= 4
    || (Has(t, "ADD")
        && (!Balanced(t[5..]) || exists part | part in Pieces(t[5..], ",") :: AdditionRaises(part, known)))
  }

  lemma AlterRaisesIff(c: Catalog, t: seq<Token>)
    ensures AlterTable(c, t).None? <==> AlterRaises(t, |t| > 4 && t[4] in c.tables)
  {
    hide AlterParts, Pieces, Has, Balanced, AdditionRaises;
    HasIff(t, "ADD");
    if |t| > 4 && Has(t, "ADD") && Balanced(t[5..]) {
      var known := c.(errors := c.errors + When(t[4] !in c.tables, AlterUnknownTable(t[4])));
      var parts := Pieces(t[5..], ",");
      AdditionsRaiseIff(known, t[4], parts);
    }
  }

  /** An index names a table after ON and lists columns in parentheses, or reading it raises. */
  ghost predicate IndexRaises(t: seq<Token>) { forall table, columns :: !IndexOn(t, table, columns) }

  lemma IndexRaisesIff(c: Catalog, t: seq<Token>)
    requires |t| >= 2
    ensures CreateIndex(c, t).None? <==> IndexRaises(t)
  {
    hide InParens, WithoutCommas, Listed, FirstAt, IndexOf, AddKey;
    forall pos: nat ensures FirstAt(t, "ON", pos) <==> IndexOf(Uppers(t), "ON") == Some(pos) {
      FirstAtIff(t, "ON", pos);
    }
    forall start: nat, columns ensures Listed(t, start, columns) <==>
      InParens(t, start).Some? && columns == WithoutCommas(InParens(t, start).value.0)
    {
      ListedIff(t, start, columns);
    }
    if CreateIndex(c, t).Some? {
      var pos := IndexOf(Uppers(t), "ON").value;
      assert FirstAt(t, "ON", pos) && Listed(t, pos + 4, WithoutCommas(InParens(t, pos + 4).value.0));
      assert IndexOn(t, t[pos + 3], WithoutCommas(InParens(t, pos + 4).value.0));
    }
  }
}
