/**
 The migration linter's catalog of tables, candidate keys and foreign keys (scripts/check_migrations.py,
 `check`): statements in order, then the checks at the end. A Python exception ends the lint without a
 verdict and is None here. Statements that touch none of the three (policies, functions, grants, triggers)
 are skipped: they can only add errors.
 */
module MigrationCatalog {
  import opened Wrappers
  import opened MigrationTokens

  /** `schema` is the one written before the target; the source keeps it in its checks, not in the record. */
  datatype ForeignKey = ForeignKey(table: Token, local: seq<Token>, schema: Token, target: Token, columns: seq<Token>)

  datatype Error = DuplicateTable(table: Token) | AlterUnknownTable(table: Token)
                 | UnavailableTable(table: Token, target: Token) | MissingCandidateKey(table: Token, target: Token)
                 | UnknownExternal(target: Token) | UnknownLocalColumn(table: Token, column: Token)
                 | UnknownTargetColumn(table: Token, column: Token) | ArityMismatch(table: Token, target: Token)

  datatype Catalog = Catalog(tables: map<Token, set<Token>>, keys: map<Token, set<seq<Token>>>,
                             fks: seq<ForeignKey>, errors: seq<Error>)

  const EMPTY := Catalog(map[], map[], [], [])

  // ---- Reading tokens -----------------------------------------------------------------------------

  function UpperChar(c: char): char {
    if 'a' <= c <= 'z' then (c as int - 32) as char else c
  }

  function Upper(t: Token): Token { seq(|t|, i requires 0 <= i < |t| => UpperChar(t[i])) }

  function Uppers(t: seq<Token>): seq<Token> { seq(|t|, i requires 0 <= i < |t| => Upper(t[i])) }

  function IndexOf(t: seq<Token>, w: Token): (r: Option<nat>)
    ensures r.Some? ==> r.value < |t| && t[r.value] == w
    ensures r.None? <==> w !in t
  {
    if t == [] then None
    else if t[0] == w then Some(0)
    else match IndexOf(t[1..], w) case None => None case Some(i) => Some(i + 1)
  }

  /** What stands in the parentheses at `start`, and the place after them. */
  function InParens(t: seq<Token>, start: nat): (r: Option<(seq<Token>, nat)>)
    ensures r.Some? ==> r.value.1 <= |t|
  {
    match ParensEnd(t, start)
    case None => None
    case Some(end) => Some((t[start + 1..end - 1], end))
  }

  function WithoutCommas(t: seq<Token>): seq<Token> {
    if t == [] then [] else (if t[0] == "," then [] else [t[0]]) + WithoutCommas(t[1..])
  }

  predicate HasReference(t: seq<Token>) { "REFERENCES" in Uppers(t) }

  predicate HasKey(t: seq<Token>) { "UNIQUE" in Uppers(t) || "PRIMARY" in Uppers(t) }

  /** The referring columns: those listed after FOREIGN KEY, or the first token of the part. */
  function LocalColumns(t: seq<Token>): Option<seq<Token>>
    requires t != []
  {
    var u := Uppers(t);
    if "FOREIGN" !in u then Some([t[0]])
    else
      match IndexOf(u, "KEY")
      case None => None
      case Some(k) => match InParens(t, k + 1) case None => None case Some(p) => Some(WithoutCommas(p.0))
  }

  function ReadReference(name: Token, t: seq<Token>): Option<ForeignKey>
    requires HasReference(t)
  {
    var pos := IndexOf(Uppers(t), "REFERENCES").value;
    if pos + 3 >= |t| then None
    else
      match InParens(t, pos + 4)
      case None => None
      case Some(p) =>
        match LocalColumns(t)
        case None => None
        case Some(local) => Some(ForeignKey(name, local, t[pos + 1], t[pos + 3], WithoutCommas(p.0)))
  }

  /** The columns of a UNIQUE or PRIMARY KEY part. */
  function ReadKey(t: seq<Token>): Option<seq<Token>>
    requires HasKey(t)
  {
    var u := Uppers(t);
    match if "UNIQUE" in u then IndexOf(u, "UNIQUE") else IndexOf(u, "KEY")
    case None => None
    case Some(pos) =>
      if pos + 1 < |t| && t[pos + 1] == "(" then
        match InParens(t, pos + 1) case None => None case Some(p) => Some(WithoutCommas(p.0))
      else Some([t[0]])
  }

  // ---- The catalog as functions --------------------------------------------------------------------

  function KeysOf(c: Catalog, table: Token): set<seq<Token>> { if table in c.keys then c.keys[table] else {} }

  function When(b: bool, e: Error): seq<Error> { if b then [e] else [] }

  predicate IsAuthUsers(fk: ForeignKey) { fk.schema == "auth" && fk.target == "users" && fk.columns == ["id"] }

  function ReferenceErrors(c: Catalog, fk: ForeignKey): seq<Error> {
    if fk.schema == "public" then
      When(fk.target !in c.tables, UnavailableTable(fk.table, fk.target))
      + When(fk.columns !in KeysOf(c, fk.target), MissingCandidateKey(fk.table, fk.target))
    else When(!IsAuthUsers(fk), UnknownExternal(fk.target))
  }

  function AddReference(c: Catalog, fk: ForeignKey): Catalog {
    c.(fks := c.fks + [fk], errors := c.errors + ReferenceErrors(c, fk))
  }

  function AddKey(c: Catalog, table: Token, columns: seq<Token>): Catalog {
    c.(keys := c.keys[table := KeysOf(c, table) + {columns}])
  }

  function AddConstraint(c: Catalog, name: Token, t: seq<Token>): Option<Catalog> {
    var referred := if !HasReference(t) then Some(c)
                    else match ReadReference(name, t) case None => None case Some(fk) => Some(AddReference(c, fk));
    match referred
    case None => None
    case Some(b) =>
      if !HasKey(t) then Some(b)
      else match ReadKey(t) case None => None case Some(columns) => Some(AddKey(b, name, columns))
  }

  /** The parts with a reference, or those without, in order. */
  function AddParts(c: Catalog, name: Token, parts: seq<seq<Token>>, references: bool): Option<Catalog>
    decreases |parts|
  {
    if parts == [] then Some(c)
    else if HasReference(parts[0]) != references then AddParts(c, name, parts[1..], references)
    else
      match AddConstraint(c, name, parts[0])
      case None => None
      case Some(b) => AddParts(b, name, parts[1..], references)
  }

  const NOT_COLUMNS: set<Token> := {"CONSTRAINT", "FOREIGN", "UNIQUE", "CHECK", "PRIMARY"}

  function Columns(parts: seq<seq<Token>>): set<Token>
    requires forall p | p in parts :: p != []
  {
    set p | p in parts && Upper(p[0]) !in NOT_COLUMNS :: p[0]
  }

  function CreateTable(c: Catalog, t: seq<Token>): Option<Catalog> {
    if |t| <= 4 then None
    else
      match InParens(t, 5)
      case None => None
      case Some(p) =>
        var parts := Pieces(p.0, ",");
        if exists q | q in parts :: q == [] then None
        else
          var name := t[4];
          var made := c.(tables := c.tables[name := Columns(parts)],
                         errors := c.errors + When(name in c.tables, DuplicateTable(name)));
          match AddParts(made, name, parts, false)
          case None => None
          case Some(b) => AddParts(b, name, parts, true)
  }

  /** ADD COLUMN makes the column known before the constraint that follows it is read. */
  function AddColumn(c: Catalog, name: Token, part: seq<Token>): Option<Catalog>
    requires |part| >= 2
  {
    if !(Upper(part[1]) == "COLUMN" && name in c.tables) then Some(c)
    else if |part| < 3 then None
    else Some(c.(tables := c.tables[name := c.tables[name] + {part[2]}]))
  }

  function AlterPart(c: Catalog, name: Token, part: seq<Token>): Option<Catalog> {
    if part == [] then None
    else if Upper(part[0]) != "ADD" then Some(c)
    else if |part| < 2 then None
    else match AddColumn(c, name, part) case None => None case Some(b) => AddConstraint(b, name, part[1..])
  }

  function AlterParts(c: Catalog, name: Token, parts: seq<seq<Token>>): Option<Catalog>
    decreases |parts|
  {
    if parts == [] then Some(c)
    else match AlterPart(c, name, parts[0]) case None => None case Some(b) => AlterParts(b, name, parts[1..])
  }

  function AlterTable(c: Catalog, t: seq<Token>): Option<Catalog> {
    if |t| <= 4 then None
    else
      var b := c.(errors := c.errors + When(t[4] !in c.tables, AlterUnknownTable(t[4])));
      if "ADD" !in Uppers(t) then Some(b)
      else if !Balanced(t[5..]) then None
      else AlterParts(b, t[4], Pieces(t[5..], ","))
  }

  function CreateIndex(c: Catalog, t: seq<Token>): Option<Catalog>
    requires |t| >= 2
  {
    var u := Uppers(t);
    match IndexOf(u, "ON")
    case None => None
    case Some(pos) =>
      if pos + 3 >= |t| then None
      else
        match InParens(t, pos + 4)
        case None => None
        case Some(p) =>
          Some(if u[1] == "UNIQUE" && "WHERE" !in u then AddKey(c, t[pos + 3], WithoutCommas(p.0)) else c)
  }

  predicate StartsWith(t: seq<Token>, w: seq<Token>) { w <= Uppers(t) }

  function Statement(c: Catalog, t: seq<Token>): Option<Catalog> {
    if StartsWith(t, ["CREATE", "TABLE"]) then CreateTable(c, t)
    else if StartsWith(t, ["ALTER", "TABLE"]) then AlterTable(c, t)
    else if StartsWith(t, ["CREATE", "INDEX"]) || StartsWith(t, ["CREATE", "UNIQUE", "INDEX"]) then CreateIndex(c, t)
    else if t == [] then None
    else Some(c)
  }

  function Statements(c: Catalog, ts: seq<seq<Token>>): Option<Catalog>
    decreases |ts|
  {
    if ts == [] then Some(c)
    else match Statement(c, ts[0]) case None => None case Some(b) => Statements(b, ts[1..])
  }

  function LocalErrors(columns: set<Token>, fk: ForeignKey, local: seq<Token>): seq<Error> {
    if local == [] then []
    else When(local[0] !in columns, UnknownLocalColumn(fk.table, local[0])) + LocalErrors(columns, fk, local[1..])
  }

  function TargetErrors(columns: set<Token>, fk: ForeignKey, ref: seq<Token>): seq<Error> {
    if ref == [] then []
    else When(ref[0] !in columns, UnknownTargetColumn(fk.target, ref[0])) + TargetErrors(columns, fk, ref[1..])
  }

  /** The checks of one recorded key at the end; a table that never appeared raises. */
  function FinalErrors(c: Catalog, fk: ForeignKey): Option<seq<Error>> {
    if fk.local != [] && fk.table !in c.tables then None
    else Some((if fk.local == [] then [] else LocalErrors(c.tables[fk.table], fk, fk.local))
              + (if fk.target in c.tables then TargetErrors(c.tables[fk.target], fk, fk.columns) else [])
              + When(|fk.local| != |fk.columns|, ArityMismatch(fk.table, fk.target)))
  }

  function FinalChecks(c: Catalog, fks: seq<ForeignKey>): Option<Catalog>
    decreases |fks|
  {
    if fks == [] then Some(c)
    else
      match FinalErrors(c, fks[0])
      case None => None
      case Some(errors) => FinalChecks(c.(errors := c.errors + errors), fks[1..])
  }

  function Check(ts: seq<seq<Token>>): Option<Catalog> {
    match Statements(EMPTY, ts)
    case None => None
    case Some(c) => FinalChecks(c, c.fks)
  }

  // ---- The catalog only grows ----------------------------------------------------------------------

  /** Later catalogs keep every error and, while there is none, every table, column, key and reference. */
  ghost predicate Grown(a: Catalog, b: Catalog) {
    && a.errors <= b.errors && a.fks <= b.fks
    && (b.errors == [] ==> Kept(a, b))
  }

  ghost predicate Kept(a: Catalog, b: Catalog) {
    && (forall t | t in a.tables :: t in b.tables && a.tables[t] <= b.tables[t])
    && (forall t | t in a.keys :: t in b.keys && a.keys[t] <= b.keys[t])
  }

  /** What the reference meant when it was read: a table already there with this very key, or auth.users. */
  ghost predicate Resolved(c: Catalog, fk: ForeignKey) {
    && fk.table in c.tables
    && if fk.schema == "public" then fk.target in c.tables && fk.columns in KeysOf(c, fk.target) else IsAuthUsers(fk)
  }

  ghost predicate Sound(c: Catalog) {
    c.errors == [] ==> forall fk | fk in c.fks :: Resolved(c, fk)
  }

  lemma GrownTrans(a: Catalog, b: Catalog, c: Catalog)
    requires Grown(a, b) && Grown(b, c)
    ensures Grown(a, c)
  {
    if c.errors == [] {
      assert b.errors == [];
      forall t | t in a.tables ensures t in c.tables && a.tables[t] <= c.tables[t] { assert t in b.tables; }
      forall t | t in a.keys ensures t in c.keys && a.keys[t] <= c.keys[t] { assert t in b.keys; }
    }
  }

  lemma StaysSound(a: Catalog, b: Catalog)
    requires Sound(a) && Grown(a, b) && a.fks == b.fks
    ensures Sound(b)
  {
    if b.errors == [] {
      forall fk | fk in b.fks ensures Resolved(b, fk) {
        assert Resolved(a, fk);
        if fk.schema == "public" { assert fk.target in a.keys; }
      }
    }
  }

  lemma ConstraintGrows(c: Catalog, name: Token, t: seq<Token>)
    requires Sound(c) && (c.errors == [] ==> name in c.tables) && AddConstraint(c, name, t).Some?
    ensures var b := AddConstraint(c, name, t).value;
            Grown(c, b) && Sound(b) && b.tables == c.tables
  {
    hide HasReference, HasKey, ReadKey, IsAuthUsers;
    var b := AddConstraint(c, name, t).value;
    if HasReference(t) {
      var fk := ReadReference(name, t).value;
      assert fk.table == name;
      var a := AddReference(c, fk);
      assert Grown(c, a) && Sound(a);
      if HasKey(t) {
        assert Grown(a, b);
        StaysSound(a, b);
        GrownTrans(c, a, b);
      }
    } else if HasKey(t) {
      assert Grown(c, b);
      StaysSound(c, b);
    }
  }

  lemma {:induction false} PartsGrow(c: Catalog, name: Token, parts: seq<seq<Token>>, references: bool)
    requires Sound(c) && (c.errors == [] ==> name in c.tables) && AddParts(c, name, parts, references).Some?
    ensures var b := AddParts(c, name, parts, references).value;
            Grown(c, b) && Sound(b) && b.tables == c.tables
    decreases |parts|
  {
    hide AddConstraint, HasReference, Sound;
    if parts != [] {
      if HasReference(parts[0]) != references {
        PartsGrow(c, name, parts[1..], references);
      } else {
        ConstraintGrows(c, name, parts[0]);
        var b := AddConstraint(c, name, parts[0]).value;
        PartsGrow(b, name, parts[1..], references);
        GrownTrans(c, b, AddParts(b, name, parts[1..], references).value);
      }
    }
  }

  lemma CreateGrows(c: Catalog, t: seq<Token>)
    requires Sound(c) && CreateTable(c, t).Some?
    ensures Grown(c, CreateTable(c, t).value) && Sound(CreateTable(c, t).value)
  {
    hide AddParts, Pieces;
    var name, parts := t[4], Pieces(InParens(t, 5).value.0, ",");
    var made := c.(tables := c.tables[name := Columns(parts)],
                   errors := c.errors + When(name in c.tables, DuplicateTable(name)));
    assert Grown(c, made);
    StaysSound(c, made);
    PartsGrow(made, name, parts, false);
    var b := AddParts(made, name, parts, false).value;
    PartsGrow(b, name, parts, true);
    GrownTrans(c, made, b);
    GrownTrans(c, b, CreateTable(c, t).value);
  }

  lemma AlterPartGrows(c: Catalog, name: Token, part: seq<Token>)
    requires Sound(c) && (c.errors == [] ==> name in c.tables) && AlterPart(c, name, part).Some?
    ensures var b := AlterPart(c, name, part).value;
            Grown(c, b) && Sound(b) && (b.errors == [] ==> name in b.tables)
  {
    hide AddConstraint;
    if Upper(part[0]) == "ADD" {
      var a := AddColumn(c, name, part).value;
      assert Grown(c, a);
      StaysSound(c, a);
      ConstraintGrows(a, name, part[1..]);
      GrownTrans(c, a, AlterPart(c, name, part).value);
    }
  }

  lemma {:induction false} AlterPartsGrow(c: Catalog, name: Token, parts: seq<seq<Token>>)
    requires Sound(c) && (c.errors == [] ==> name in c.tables) && AlterParts(c, name, parts).Some?
    ensures var b := AlterParts(c, name, parts).value;
            Grown(c, b) && Sound(b)
    decreases |parts|
  {
    hide AlterPart, Sound;
    if parts != [] {
      AlterPartGrows(c, name, parts[0]);
      var b := AlterPart(c, name, parts[0]).value;
      AlterPartsGrow(b, name, parts[1..]);
      GrownTrans(c, b, AlterParts(b, name, parts[1..]).value);
    }
  }

  lemma StatementGrows(c: Catalog, t: seq<Token>)
    requires Sound(c) && Statement(c, t).Some?
    ensures Grown(c, Statement(c, t).value) && Sound(Statement(c, t).value)
  {
    hide CreateTable, AlterParts, StartsWith, InParens, IndexOf;
    if StartsWith(t, ["CREATE", "TABLE"]) {
      CreateGrows(c, t);
    } else if StartsWith(t, ["ALTER", "TABLE"]) {
      var b := c.(errors := c.errors + When(t[4] !in c.tables, AlterUnknownTable(t[4])));
      assert Grown(c, b);
      StaysSound(c, b);
      if "ADD" in Uppers(t) {
        AlterPartsGrow(b, t[4], Pieces(t[5..], ","));
        GrownTrans(c, b, Statement(c, t).value);
      }
    } else {
      var b := Statement(c, t).value;
      assert Grown(c, b);
      StaysSound(c, b);
    }
  }

  lemma {:induction false} StatementsGrow(c: Catalog, ts: seq<seq<Token>>)
    requires Sound(c) && Statements(c, ts).Some?
    ensures Grown(c, Statements(c, ts).value) && Sound(Statements(c, ts).value)
    decreases |ts|
  {
    hide Statement, Sound;
    if ts != [] {
      StatementGrows(c, ts[0]);
      var b := Statement(c, ts[0]).value;
      StatementsGrow(b, ts[1..]);
      GrownTrans(c, b, Statements(b, ts[1..]).value);
    }
  }

  // ---- The checks at the end --------------------------------------------------------------------------

  lemma {:induction false} NoLocalErrors(columns: set<Token>, fk: ForeignKey, local: seq<Token>)
    ensures LocalErrors(columns, fk, local) == [] <==> forall x | x in local :: x in columns
  {
    if local != [] {
      NoLocalErrors(columns, fk, local[1..]);
      assert local == [local[0]] + local[1..];
    }
  }

  lemma {:induction false} NoTargetErrors(columns: set<Token>, fk: ForeignKey, ref: seq<Token>)
    ensures TargetErrors(columns, fk, ref) == [] <==> forall x | x in ref :: x in columns
  {
    if ref != [] {
      NoTargetErrors(columns, fk, ref[1..]);
      assert ref == [ref[0]] + ref[1..];
    }
  }

  /** Columns on both sides exist and are equally many. */
  ghost predicate ColumnsOk(c: Catalog, fk: ForeignKey) {
    && (fk.local != [] ==> fk.table in c.tables && forall x | x in fk.local :: x in c.tables[fk.table])
    && (fk.target in c.tables ==> forall x | x in fk.columns :: x in c.tables[fk.target])
    && |fk.local| == |fk.columns|
  }

  lemma NoFinalErrors(c: Catalog, fk: ForeignKey)
    ensures FinalErrors(c, fk) == Some([]) <==> ColumnsOk(c, fk)
  {
    hide LocalErrors, TargetErrors;
    if fk.table in c.tables { NoLocalErrors(c.tables[fk.table], fk, fk.local); }
    if fk.target in c.tables { NoTargetErrors(c.tables[fk.target], fk, fk.columns); }
    if FinalErrors(c, fk).Some? {
      var a := if fk.local == [] then [] else LocalErrors(c.tables[fk.table], fk, fk.local);
      var b := if fk.target in c.tables then TargetErrors(c.tables[fk.target], fk, fk.columns) else [];
      var w := When(|fk.local| != |fk.columns|, ArityMismatch(fk.table, fk.target));
      assert FinalErrors(c, fk).value == a + b + w;
      assert a + b + w == [] <==> a == [] && b == [] && w == [];
    }
  }

  /** The final checks pass exactly when every recorded key's columns are in order. */
  lemma {:induction false} FinalChecksPassIff(c: Catalog, fks: seq<ForeignKey>)
    requires c.errors == []
    ensures FinalChecks(c, fks).Some? && FinalChecks(c, fks).value.errors == []
            <==> forall fk | fk in fks :: ColumnsOk(c, fk)
    ensures FinalChecks(c, fks).Some? && FinalChecks(c, fks).value.errors == [] ==> FinalChecks(c, fks).value == c
    decreases |fks|
  {
    hide FinalErrors, ColumnsOk;
    if fks != [] {
      assert fks == [fks[0]] + fks[1..];
      NoFinalErrors(c, fks[0]);
      match FinalErrors(c, fks[0]) {
        case None =>
        case Some(errors) =>
          if errors == [] {
            assert c.(errors := c.errors + errors) == c;
            FinalChecksPassIff(c, fks[1..]);
          } else {
            ErrorsStay(c.(errors := c.errors + errors), fks[1..]);
          }
      }
    }
  }

  lemma {:induction false} ErrorsStay(c: Catalog, fks: seq<ForeignKey>)
    ensures FinalChecks(c, fks).Some? ==> c.errors <= FinalChecks(c, fks).value.errors
    decreases |fks|
  {
    hide FinalErrors;
    if fks != [] && FinalErrors(c, fks[0]).Some? {
      ErrorsStay(c.(errors := c.errors + FinalErrors(c, fks[0]).value), fks[1..]);
    }
  }

  // ---- Statements in two ---------------------------------------------------------------------------------

  lemma {:induction false} StatementsInTwo(c: Catalog, a: seq<seq<Token>>, b: seq<seq<Token>>)
    ensures Statements(c, a + b) == match Statements(c, a) case None => None case Some(m) => Statements(m, b)
    decreases |a|
  {
    hide Statement;
    if a == [] {
      assert a + b == b;
    } else {
      assert (a + b)[1..] == a[1..] + b && (a + b)[0] == a[0];
      if Statement(c, a[0]).Some? { StatementsInTwo(Statement(c, a[0]).value, a[1..], b); }
    }
  }

  /**
   What the lint refuses although PostgreSQL accepts it: ADD COLUMN with an inline reference is read with the
   word COLUMN as its column instead of the column just added. So the key passes exactly when the one that was
   meant would pass and the table happens to have a column of that name.
   */
  lemma InlineReferenceOnAddedColumn(c: Catalog, name: Token, part: seq<Token>)
    requires name in c.tables && |part| >= 3 && Upper(part[0]) == "ADD" && Upper(part[1]) == "COLUMN"
    requires HasReference(part[1..]) && "FOREIGN" !in Uppers(part[1..])
    requires AlterPart(c, name, part).Some?
    ensures exists fk :: fk in AlterPart(c, name, part).value.fks && fk.table == name && fk.local == [part[1]]
    ensures forall later: Catalog, fk: ForeignKey
              | fk.table == name && fk.local == [part[1]] && name in later.tables && part[2] in later.tables[name] ::
              ColumnsOk(later, fk) <==> ColumnsOk(later, fk.(local := [part[2]])) && part[1] in later.tables[name]
  {
    hide HasReference, Uppers, Upper, InParens, ReadKey, HasKey;
    var t := part[1..];
    var a := AddColumn(c, name, part).value;
    assert t[0] == part[1];
    var fk := ReadReference(name, t).value;
    assert fk.local == [part[1]];
    assert fk in AddReference(a, fk).fks;
    forall later: Catalog, k: ForeignKey
      | k.table == name && k.local == [part[1]] && name in later.tables && part[2] in later.tables[name]
      ensures ColumnsOk(later, k) <==> ColumnsOk(later, k.(local := [part[2]])) && part[1] in later.tables[name]
    {
      assert part[1] in k.local;
    }
  }

  // ---- The linter ---------------------------------------------------------------------------------------

  class Linter {
    var tables: map<Token, set<Token>>
    var keys: map<Token, set<seq<Token>>>
    var fks: seq<ForeignKey>
    var errors: seq<Error>

    function Snapshot(): Catalog
      reads this
    {
      Catalog(tables, keys, fks, errors)
    }

    constructor ()
      ensures Snapshot() == EMPTY
    {
      tables, keys, fks, errors := map[], map[], [], [];
    }

    method Report(b: bool, e: Error)
      modifies this`errors
      ensures errors == old(errors) + When(b, e)
    {
      if b { errors := errors + [e]; }
    }

    method Key(name: Token, columns: seq<Token>)
      modifies this`keys
      ensures Snapshot() == AddKey(old(Snapshot()), name, columns)
    {
      if name !in keys { keys := keys[name := {}]; }
      keys := keys[name := keys[name] + {columns}];
      assert keys == AddKey(old(Snapshot()), name, columns).keys;
    }

    method Reference(name: Token, t: seq<Token>) returns (raised: bool)
      requires HasReference(t)
      modifies this`fks, this`errors
      ensures raised <==> ReadReference(name, t).None?
      ensures !raised ==> Snapshot() == AddReference(old(Snapshot()), ReadReference(name, t).value)
    {
      var fk := ReadReference(name, t);
      if fk.None? { return true; }
      fks := fks + [fk.value];
      if fk.value.schema == "public" {
        Report(fk.value.target !in tables, UnavailableTable(name, fk.value.target));
        Report(!(fk.value.target in keys && fk.value.columns in keys[fk.value.target]),
          MissingCandidateKey(name, fk.value.target));
      } else {
        Report(!IsAuthUsers(fk.value), UnknownExternal(fk.value.target));
      }
      return false;
    }

    method Constraint(name: Token, t: seq<Token>) returns (raised: bool)
      modifies this
      ensures raised <==> AddConstraint(old(Snapshot()), name, t).None?
      ensures !raised ==> Snapshot() == AddConstraint(old(Snapshot()), name, t).value
    {
      hide ReadReference, ReadKey, HasReference, HasKey, AddReference, AddKey;
      if HasReference(t) {
        raised := Reference(name, t);
        if raised { return; }
      }
      if HasKey(t) {
        var columns := ReadKey(t);
        if columns.None? { return true; }
        Key(name, columns.value);
      }
      return false;
    }

    /** One of the two passes over the parts of a table. */
    method Parts(name: Token, parts: seq<seq<Token>>, references: bool) returns (raised: bool)
      modifies this
      ensures raised <==> AddParts(old(Snapshot()), name, parts, references).None?
      ensures !raised ==> Snapshot() == AddParts(old(Snapshot()), name, parts, references).value
    {
      hide AddConstraint, HasReference;
      for i := 0 to |parts|
        invariant AddParts(old(Snapshot()), name, parts, references)
                  == AddParts(Snapshot(), name, parts[i..], references)
      {
        assert parts[i..][0] == parts[i] && parts[i..][1..] == parts[i + 1..];
        if HasReference(parts[i]) == references {
          raised := Constraint(name, parts[i]);
          if raised { return; }
        }
      }
      return false;
    }

    method Create(t: seq<Token>) returns (raised: bool)
      modifies this
      ensures raised <==> CreateTable(old(Snapshot()), t).None?
      ensures !raised ==> Snapshot() == CreateTable(old(Snapshot()), t).value
    {
      hide AddParts, Columns;
      if |t| <= 4 { return true; }
      var body := Parens(t, 5);
      if body.Failure? { return true; }
      CommasSplit(t, 5);
      var parts := Split(body.value.0, ",");
      if parts.Failure? { return true; }
      if [] in parts.value { return true; }
      Report(t[4] in tables, DuplicateTable(t[4]));
      tables := tables[t[4] := Columns(parts.value)];
      raised := Parts(t[4], parts.value, false);
      if raised { return; }
      raised := Parts(t[4], parts.value, true);
    }

    method Alter(t: seq<Token>) returns (raised: bool)
      modifies this
      ensures raised <==> AlterTable(old(Snapshot()), t).None?
      ensures !raised ==> Snapshot() == AlterTable(old(Snapshot()), t).value
    {
      hide AlterParts, Uppers;
      if |t| <= 4 { return true; }
      Report(t[4] !in tables, AlterUnknownTable(t[4]));
      if "ADD" !in Uppers(t) { return false; }
      SplitsIffBalanced(t[5..], ",");
      var parts := Split(t[5..], ",");
      if parts.Failure? { return true; }
      raised := Additions(t[4], parts.value);
    }

    method Additions(name: Token, parts: seq<seq<Token>>) returns (raised: bool)
      modifies this
      ensures raised <==> AlterParts(old(Snapshot()), name, parts).None?
      ensures !raised ==> Snapshot() == AlterParts(old(Snapshot()), name, parts).value
    {
      hide AddConstraint, Upper;
      for i := 0 to |parts|
        invariant AlterParts(old(Snapshot()), name, parts) == AlterParts(Snapshot(), name, parts[i..])
      {
        var part := parts[i];
        assert parts[i..][0] == part && parts[i..][1..] == parts[i + 1..];
        if part == [] { return true; }
        if Upper(part[0]) == "ADD" {
          if |part| < 2 { return true; }
          if Upper(part[1]) == "COLUMN" && name in tables {
            if |part| < 3 { return true; }
            tables := tables[name := tables[name] + {part[2]}];
          }
          raised := Constraint(name, part[1..]);
          if raised { return; }
        }
      }
      return false;
    }

    method Index(t: seq<Token>) returns (raised: bool)
      requires |t| >= 2
      modifies this`keys
      ensures raised <==> CreateIndex(old(Snapshot()), t).None?
      ensures !raised ==> Snapshot() == CreateIndex(old(Snapshot()), t).value
    {
      var u := Uppers(t);
      var pos := IndexOf(u, "ON");
      if pos.None? || pos.value + 3 >= |t| { return true; }
      var columns := Parens(t, pos.value + 4);
      if columns.Failure? { return true; }
      if u[1] == "UNIQUE" && "WHERE" !in u { Key(t[pos.value + 3], WithoutCommas(columns.value.0)); }
      return false;
    }

    method Run(ts: seq<seq<Token>>) returns (raised: bool)
      modifies this
      ensures raised <==> Statements(old(Snapshot()), ts).None?
      ensures !raised ==> Snapshot() == Statements(old(Snapshot()), ts).value
    {
      hide CreateTable, AlterTable, CreateIndex, StartsWith;
      for i := 0 to |ts|
        invariant Statements(old(Snapshot()), ts) == Statements(Snapshot(), ts[i..])
      {
        var t := ts[i];
        assert ts[i..][0] == t && ts[i..][1..] == ts[i + 1..];
        if StartsWith(t, ["CREATE", "TABLE"]) {
          raised := Create(t);
        } else if StartsWith(t, ["ALTER", "TABLE"]) {
          raised := Alter(t);
        } else if StartsWith(t, ["CREATE", "INDEX"]) || StartsWith(t, ["CREATE", "UNIQUE", "INDEX"]) {
          LongEnough(t);
          raised := Index(t);
        } else {
          raised := t == [];
        }
        if raised { return; }
      }
      return false;
    }

    method LocalColumnChecks(fk: ForeignKey, columns: set<Token>)
      modifies this`errors
      ensures errors == old(errors) + LocalErrors(columns, fk, fk.local)
    {
      for i := 0 to |fk.local|
        invariant errors + LocalErrors(columns, fk, fk.local[i..]) == old(errors) + LocalErrors(columns, fk, fk.local)
      {
        assert fk.local[i..][1..] == fk.local[i + 1..];
        Report(fk.local[i] !in columns, UnknownLocalColumn(fk.table, fk.local[i]));
      }
    }

    method TargetColumnChecks(fk: ForeignKey, columns: set<Token>)
      modifies this`errors
      ensures errors == old(errors) + TargetErrors(columns, fk, fk.columns)
    {
      for i := 0 to |fk.columns|
        invariant errors + TargetErrors(columns, fk, fk.columns[i..])
                  == old(errors) + TargetErrors(columns, fk, fk.columns)
      {
        assert fk.columns[i..][1..] == fk.columns[i + 1..];
        Report(fk.columns[i] !in columns, UnknownTargetColumn(fk.target, fk.columns[i]));
      }
    }

    method CheckKey(fk: ForeignKey) returns (raised: bool)
      modifies this`errors
      ensures raised <==> FinalErrors(old(Snapshot()), fk).None?
      ensures !raised ==> errors == old(errors) + FinalErrors(old(Snapshot()), fk).value
    {
      hide LocalErrors, TargetErrors;
      if fk.local != [] {
        if fk.table !in tables { return true; }
        LocalColumnChecks(fk, tables[fk.table]);
      }
      if fk.target in tables { TargetColumnChecks(fk, tables[fk.target]); }
      Report(|fk.local| != |fk.columns|, ArityMismatch(fk.table, fk.target));
      return false;
    }

    /** The loop over the recorded keys after the last statement. */
    method FinishChecks() returns (raised: bool)
      modifies this`errors
      ensures raised <==> FinalChecks(old(Snapshot()), old(fks)).None?
      ensures !raised ==> Snapshot() == FinalChecks(old(Snapshot()), old(fks)).value
    {
      hide FinalErrors;
      for i := 0 to |fks|
        invariant FinalChecks(old(Snapshot()), fks) == FinalChecks(Snapshot(), fks[i..])
      {
        assert fks[i..][1..] == fks[i + 1..];
        raised := CheckKey(fks[i]);
        if raised { return; }
      }
      return false;
    }
  }

  /** The whole lint of a list of statements. */
  method Lint(ts: seq<seq<Token>>) returns (r: Option<Catalog>)
    ensures r == Check(ts)
  {
    var linter := new Linter();
    var raised := linter.Run(ts);
    if raised { return None; }
    raised := linter.FinishChecks();
    if raised { return None; }
    return Some(linter.Snapshot());
  }

  lemma CommasSplit(t: seq<Token>, start: nat)
    ensures InParens(t, start).Some? ==> Splits(InParens(t, start).value.0, ",")
  {
    if ParensEnd(t, start).Some? {
      ParensFindsTheMatch(t, start, ParensEnd(t, start).value);
      SplitsIffBalanced(InParens(t, start).value.0, ",");
    }
  }

  lemma LongEnough(t: seq<Token>)
    requires StartsWith(t, ["CREATE", "INDEX"]) || StartsWith(t, ["CREATE", "UNIQUE", "INDEX"])
    ensures |t| >= 2
  {
  }
}
