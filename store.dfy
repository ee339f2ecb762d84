/**
 * The relational store the script refreshes, abstracted to a map from table
 * name to rows plus the session's FOREIGN_KEY_CHECKS flag. The store enforces
 * what the declared schema asks of MySQL: primary keys always, foreign keys
 * while the checks are on, and no TRUNCATE of a table that a foreign key
 * references unless the checks are off.
 */
module Store {
  import opened Wrappers
  import opened Records
  import opened Dedup
  import opened Normalization

  /** The seven tables of the schema. */
  datatype TableName =
    | Eixos | Tipos | Subtipos | Operacoes
    | OperacaoEixoRel | OperacaoTipoRel | OperacaoSubtipoRel

  const AllTables: set<TableName> :=
    {Eixos, Tipos, Subtipos, Operacoes, OperacaoEixoRel, OperacaoTipoRel, OperacaoSubtipoRel}

  /** The tables each table's declared foreign keys point to. */
  function ReferencedTables(t: TableName): set<TableName>
  {
    match t
    case Eixos => {}
    case Tipos => {Eixos}
    case Subtipos => {Tipos}
    case Operacoes => {}
    case OperacaoEixoRel => {Operacoes, Eixos}
    case OperacaoTipoRel => {Operacoes, Tipos}
    case OperacaoSubtipoRel => {Operacoes, Subtipos}
  }

  /** The store has an entry for each of the seven tables. */
  predicate HasAllTables(tables: map<TableName, seq<Row>>)
  {
    && Eixos in tables && Tipos in tables && Subtipos in tables && Operacoes in tables
    && OperacaoEixoRel in tables && OperacaoTipoRel in tables && OperacaoSubtipoRel in tables
  }

  /** Some foreign key of the schema points to `t`. */
  predicate IsReferenced(t: TableName)
  {
    exists u | u in AllTables :: t in ReferencedTables(u)
  }

  /** A stored row: of the fact table, of a dimension table or of an association table. */
  datatype Row = FactRow(op: OperacaoRow) | DimRow(entry: Entry) | LinkRow(link: Link)

  /** A primary-key value. */
  datatype Key = OpKey(op: string) | DimKey(dim: int) | PairKey(pairOp: string, pairDim: int)

  /** A foreign-key reference from a row: the table it points to and the key it names. */
  datatype Ref = Ref(table: TableName, key: Key)

  function PrimaryKey(row: Row): Key
  {
    match row
    case FactRow(o) => OpKey(o.idOperacao)
    case DimRow(e) => DimKey(e.id)
    case LinkRow(l) => PairKey(l.idOperacao, l.dimId)
  }

  /** The row has the columns of table `t`. */
  predicate Fits(t: TableName, row: Row)
  {
    match t
    case Operacoes => row.FactRow?
    case Eixos => row.DimRow?
    case Tipos => row.DimRow?
    case Subtipos => row.DimRow?
    case OperacaoEixoRel => row.LinkRow?
    case OperacaoTipoRel => row.LinkRow?
    case OperacaoSubtipoRel => row.LinkRow?
  }

  /** The references a row of table `t` makes; a NULL parent column makes none. */
  function References(t: TableName, row: Row): set<Ref>
  {
    match t
    case Tipos =>
      if row.DimRow? && row.entry.parent.Some? then {Ref(Eixos, DimKey(row.entry.parent.value))} else {}
    case Subtipos =>
      if row.DimRow? && row.entry.parent.Some? then {Ref(Tipos, DimKey(row.entry.parent.value))} else {}
    case OperacaoEixoRel =>
      if row.LinkRow? then {Ref(Operacoes, OpKey(row.link.idOperacao)), Ref(Eixos, DimKey(row.link.dimId))} else {}
    case OperacaoTipoRel =>
      if row.LinkRow? then {Ref(Operacoes, OpKey(row.link.idOperacao)), Ref(Tipos, DimKey(row.link.dimId))} else {}
    case OperacaoSubtipoRel =>
      if row.LinkRow? then {Ref(Operacoes, OpKey(row.link.idOperacao)), Ref(Subtipos, DimKey(row.link.dimId))} else {}
    case _ => {}
  }

  /** Every reference a row makes follows a declared foreign key of its table. */
  lemma ReferencesAreDeclared(t: TableName, row: Row)
    ensures forall ref :: ref in References(t, row) ==> ref.table in ReferencedTables(t) && ref.table != t
  {
  }

  /**
   * Whether one bulk insert (`to_sql(..., if_exists='append')`, one transaction)
   * is accepted: the rows fit the table, their primary keys are new and
   * pairwise distinct, and, while the checks are on, every reference resolves.
   */
  predicate Admits(tables: map<TableName, seq<Row>>, checks: bool, t: TableName, rows: seq<Row>)
    requires t in tables
  {
    && (forall i :: 0 <= i < |rows| ==> Fits(t, rows[i]))
    && (forall i, j :: 0 <= i < j < |rows| ==> PrimaryKey(rows[i]) != PrimaryKey(rows[j]))
    && (forall i :: 0 <= i < |rows| ==> PrimaryKey(rows[i]) !in Keys(tables[t], PrimaryKey))
    && (checks ==>
          forall i, ref :: 0 <= i < |rows| && ref in References(t, rows[i]) ==>
            ref.table in tables && ref.key in Keys(tables[ref.table], PrimaryKey))
  }

  /** Every reference made by a stored row resolves to a stored row. */
  ghost predicate NoOrphans(tables: map<TableName, seq<Row>>)
  {
    forall t, i, ref :: t in tables && 0 <= i < |tables[t]| && ref in References(t, tables[t][i]) ==>
      ref.table in tables && ref.key in Keys(tables[ref.table], PrimaryKey)
  }

  /** The statements the script sends, as recorded in the store's log. */
  datatype Stmt = ChecksSet(on: bool) | Truncated(table: TableName) | Appended(table: TableName)

  /** The order of the TRUNCATE statements: association tables first. */
  const TruncateOrder: seq<TableName> :=
    [OperacaoSubtipoRel, OperacaoTipoRel, OperacaoEixoRel, Operacoes, Subtipos, Tipos, Eixos]

  /** The order of the bulk inserts: fact and dimension tables first. */
  const LoadOrder: seq<TableName> :=
    [Operacoes, Eixos, Tipos, Subtipos, OperacaoEixoRel, OperacaoTipoRel, OperacaoSubtipoRel]

  /** The statement log of the clear block. */
  const ClearScript: seq<Stmt> :=
    [ChecksSet(false),
     Truncated(OperacaoSubtipoRel), Truncated(OperacaoTipoRel), Truncated(OperacaoEixoRel),
     Truncated(Operacoes), Truncated(Subtipos), Truncated(Tipos), Truncated(Eixos),
     ChecksSet(true)]

  /** The statement log of a load that succeeds. */
  const LoadScript: seq<Stmt> :=
    [Appended(Operacoes), Appended(Eixos), Appended(Tipos), Appended(Subtipos),
     Appended(OperacaoEixoRel), Appended(OperacaoTipoRel), Appended(OperacaoSubtipoRel)]

  /** The position of each table in the clear block. */
  function TruncateRank(t: TableName): nat
  {
    match t
    case OperacaoSubtipoRel => 0
    case OperacaoTipoRel => 1
    case OperacaoEixoRel => 2
    case Operacoes => 3
    case Subtipos => 4
    case Tipos => 5
    case Eixos => 6
  }

  /** The position of each table in the load block. */
  function LoadRank(t: TableName): nat
  {
    match t
    case Operacoes => 0
    case Eixos => 1
    case Tipos => 2
    case Subtipos => 3
    case OperacaoEixoRel => 4
    case OperacaoTipoRel => 5
    case OperacaoSubtipoRel => 6
  }

  /**
   * The clear block truncates each of the seven tables exactly once (the rank is
   * a bijection onto the positions of the order) and every table before each
   * table it references.
   */
  lemma TruncateOrderChildrenFirst()
    ensures |TruncateOrder| == 7
    ensures forall t :: TruncateRank(t) < 7 && TruncateOrder[TruncateRank(t)] == t
    ensures forall i :: 0 <= i < 7 ==> TruncateRank(TruncateOrder[i]) == i
    ensures forall t, p :: p in ReferencedTables(t) ==> TruncateRank(t) < TruncateRank(p)
    ensures forall i :: 0 <= i < 7 ==> ClearScript[i + 1] == Truncated(TruncateOrder[i])
  {
  }

  /**
   * The load block appends each of the seven tables exactly once and every
   * table after each table it references.
   */
  lemma LoadOrderParentsFirst()
    ensures |LoadOrder| == 7
    ensures forall t :: LoadRank(t) < 7 && LoadOrder[LoadRank(t)] == t
    ensures forall i :: 0 <= i < 7 ==> LoadRank(LoadOrder[i]) == i
    ensures forall t, p :: p in ReferencedTables(t) ==> LoadRank(p) < LoadRank(t)
    ensures forall i :: 0 <= i < 7 ==> LoadScript[i] == Appended(LoadOrder[i])
  {
  }

  function FactRows(os: seq<OperacaoRow>): seq<Row>
  {
    seq(|os|, i requires 0 <= i < |os| => FactRow(os[i]))
  }

  function DimRows(es: seq<Entry>): seq<Row>
  {
    seq(|es|, i requires 0 <= i < |es| => DimRow(es[i]))
  }

  function LinkRows(ls: seq<Link>): seq<Row>
  {
    seq(|ls|, i requires 0 <= i < |ls| => LinkRow(ls[i]))
  }

  /** The rows of table `t` in a normalised schema. */
  function RowsOf(s: Schema, t: TableName): seq<Row>
  {
    match t
    case Operacoes => FactRows(s.operacoes)
    case Eixos => DimRows(s.eixos)
    case Tipos => DimRows(s.tipos)
    case Subtipos => DimRows(s.subtipos)
    case OperacaoEixoRel => LinkRows(s.operacaoEixoRel)
    case OperacaoTipoRel => LinkRows(s.operacaoTipoRel)
    case OperacaoSubtipoRel => LinkRows(s.operacaoSubtipoRel)
  }

  /** The `id_eixo` of every tipo and the `id_tipo` of every subtipo, when present, name a loaded row. */
  ghost predicate ParentsResolve(s: Schema)
  {
    && (forall k :: 0 <= k < |s.tipos| && s.tipos[k].parent.Some? ==> s.tipos[k].parent.value in Keys(s.eixos, EntryId))
    && (forall k :: 0 <= k < |s.subtipos| && s.subtipos[k].parent.Some? ==> s.subtipos[k].parent.value in Keys(s.tipos, EntryId))
  }

  /** Every association row names a fact row and a row of its dimension. */
  ghost predicate AssociationsResolve(s: Schema)
  {
    forall d: Dim, k :: 0 <= k < |s.Association(d)| ==>
      s.Association(d)[k].idOperacao in Keys(s.operacoes, OperacaoId) &&
      s.Association(d)[k].dimId in Keys(s.Dimension(d), EntryId)
  }

  /** The primary keys of every table are pairwise distinct. */
  ghost predicate KeysUnique(s: Schema)
  {
    && KeysDistinct(s.operacoes, OperacaoId)
    && KeysDistinct(s.eixos, EntryId)
    && KeysDistinct(s.tipos, EntryId)
    && KeysDistinct(s.subtipos, EntryId)
    && KeysDistinct(s.operacaoEixoRel, Whole)
    && KeysDistinct(s.operacaoTipoRel, Whole)
    && KeysDistinct(s.operacaoSubtipoRel, Whole)
  }

  /** What a schema needs for every insert of the load to be accepted. */
  ghost predicate Loadable(s: Schema)
  {
    KeysUnique(s) && AssociationsResolve(s) && ParentsResolve(s)
  }

  /** Deduplication leaves the primary key of every normalised table pairwise distinct. */
  lemma NormalizedKeysUnique(records: seq<RawRecord>, s: Schema)
    requires Normalized(records) == Ok(s)
    ensures KeysUnique(s)
  {
    DedupByDistinct(OperacaoRows(records), OperacaoId, {});
    DedupByDistinct(Gathered(records, Eixo), EntryId, {});
    DedupByDistinct(Gathered(records, Tipo), EntryId, {});
    DedupByDistinct(Gathered(records, Subtipo), EntryId, {});
    DedupByDistinct(Linked(records, Eixo), Whole, {});
    DedupByDistinct(Linked(records, Tipo), Whole, {});
    DedupByDistinct(Linked(records, Subtipo), Whole, {});
  }

  /**
   * The normalised tables satisfy every primary key and the foreign keys of the
   * association tables; only the tipos/subtipos parent links are left to the data.
   */
  lemma NormalizedIsLoadable(records: seq<RawRecord>, s: Schema)
    requires Normalized(records) == Ok(s)
    ensures KeysUnique(s) && AssociationsResolve(s)
    ensures ParentsResolve(s) ==> Loadable(s)
  {
    NormalizedKeysUnique(records, s);
    forall d: Dim
      ensures forall k :: 0 <= k < |s.Association(d)| ==>
        s.Association(d)[k].idOperacao in Keys(s.operacoes, OperacaoId) &&
        s.Association(d)[k].dimId in Keys(s.Dimension(d), EntryId)
    {
      ReferentialIntegrity(records, s, d);
    }
  }

  /** The table that holds dimension `d`. */
  function DimTable(d: Dim): TableName
  {
    match d
    case Eixo => Eixos
    case Tipo => Tipos
    case Subtipo => Subtipos
  }

  /** The association table of dimension `d`. */
  function LinkTable(d: Dim): TableName
  {
    match d
    case Eixo => OperacaoEixoRel
    case Tipo => OperacaoTipoRel
    case Subtipo => OperacaoSubtipoRel
  }

  /** A stored fact table holds the key of every operation id. */
  lemma FactKeysStored(os: seq<OperacaoRow>)
    ensures forall x :: x in Keys(os, OperacaoId) ==> OpKey(x) in Keys(FactRows(os), PrimaryKey)
  {
    forall x | x in Keys(os, OperacaoId) ensures OpKey(x) in Keys(FactRows(os), PrimaryKey) {
      var i :| 0 <= i < |os| && OperacaoId(os[i]) == x;
      assert PrimaryKey(FactRows(os)[i]) == OpKey(x);
    }
  }

  /** A stored dimension table holds the key of every entry id. */
  lemma DimKeysStored(es: seq<Entry>)
    ensures forall x :: x in Keys(es, EntryId) ==> DimKey(x) in Keys(DimRows(es), PrimaryKey)
  {
    forall x | x in Keys(es, EntryId) ensures DimKey(x) in Keys(DimRows(es), PrimaryKey) {
      var i :| 0 <= i < |es| && EntryId(es[i]) == x;
      assert PrimaryKey(DimRows(es)[i]) == DimKey(x);
    }
  }

  /** Every table of the store is empty. */
  ghost predicate AllEmptyTables(tables: map<TableName, seq<Row>>)
  {
    forall t :: t in AllTables ==> t in tables && tables[t] == []
  }

  /** The store holds the rows of the first `n` tables of the load order and nothing else. */
  ghost predicate LoadedExactly(tables: map<TableName, seq<Row>>, s: Schema, n: nat)
  {
    && HasAllTables(tables)
    && tables[Operacoes] == LoadedPart(s, Operacoes, n)
    && tables[Eixos] == LoadedPart(s, Eixos, n)
    && tables[Tipos] == LoadedPart(s, Tipos, n)
    && tables[Subtipos] == LoadedPart(s, Subtipos, n)
    && tables[OperacaoEixoRel] == LoadedPart(s, OperacaoEixoRel, n)
    && tables[OperacaoTipoRel] == LoadedPart(s, OperacaoTipoRel, n)
    && tables[OperacaoSubtipoRel] == LoadedPart(s, OperacaoSubtipoRel, n)
  }

  /** The rows table `t` gains from the first `n` inserts of the load. */
  function LoadedPart(s: Schema, t: TableName, n: nat): seq<Row>
  {
    if LoadRank(t) < n then RowsOf(s, t) else []
  }

  /**
   * The first `n` inserts of the load have run on a store that held `base`:
   * each of those tables is its old contents followed by its normalised rows,
   * the others are untouched, and the log has grown by those `n` statements.
   * The seven tables are listed one by one.
   */
  ghost predicate Extended(base: map<TableName, seq<Row>>, baseLog: seq<Stmt>, tables: map<TableName, seq<Row>>, log: seq<Stmt>, s: Schema, n: nat)
  {
    && n <= |LoadScript|
    && HasAllTables(base)
    && HasAllTables(tables)
    && tables[Operacoes] == base[Operacoes] + LoadedPart(s, Operacoes, n)
    && tables[Eixos] == base[Eixos] + LoadedPart(s, Eixos, n)
    && tables[Tipos] == base[Tipos] + LoadedPart(s, Tipos, n)
    && tables[Subtipos] == base[Subtipos] + LoadedPart(s, Subtipos, n)
    && tables[OperacaoEixoRel] == base[OperacaoEixoRel] + LoadedPart(s, OperacaoEixoRel, n)
    && tables[OperacaoTipoRel] == base[OperacaoTipoRel] + LoadedPart(s, OperacaoTipoRel, n)
    && tables[OperacaoSubtipoRel] == base[OperacaoSubtipoRel] + LoadedPart(s, OperacaoSubtipoRel, n)
    && log == baseLog + LoadScript[..n]
  }

  lemma ExtendedFromEmpty(base: map<TableName, seq<Row>>, baseLog: seq<Stmt>, tables: map<TableName, seq<Row>>, log: seq<Stmt>, s: Schema, n: nat)
    requires Extended(base, baseLog, tables, log, s, n) && AllEmptyTables(base)
    ensures LoadedExactly(tables, s, n)
  {
  }

  /** Appending the normalised rows of the next table of the load order extends the store. */
  lemma ExtendedStep(base: map<TableName, seq<Row>>, baseLog: seq<Stmt>, tables: map<TableName, seq<Row>>, log: seq<Stmt>, s: Schema, t: TableName)
    requires Extended(base, baseLog, tables, log, s, LoadRank(t))
    ensures Extended(base, baseLog, tables[t := tables[t] + RowsOf(s, t)], log + [Appended(t)], s, LoadRank(t) + 1)
  {
    var n := LoadRank(t);
    assert LoadScript[n] == Appended(t);
    assert tables[t] == base[t] + [] == base[t];
    assert LoadScript[..n + 1] == LoadScript[..n] + [Appended(t)];
  }

  /** After the seven inserts every table has gained its rows and the log the whole load script. */
  lemma ExtendedComplete(base: map<TableName, seq<Row>>, baseLog: seq<Stmt>, tables: map<TableName, seq<Row>>, log: seq<Stmt>, s: Schema)
    requires Extended(base, baseLog, tables, log, s, |LoadScript|)
    ensures forall t :: t in AllTables ==> tables[t] == base[t] + RowsOf(s, t)
    ensures log == baseLog + LoadScript
  {
    assert LoadScript[..|LoadScript|] == LoadScript;
  }

  /** Before the first insert the store is its starting state. */
  lemma ExtendedStart(tables: map<TableName, seq<Row>>, log: seq<Stmt>, s: Schema)
    requires HasAllTables(tables)
    ensures Extended(tables, log, tables, log, s, 0)
  {
    forall t | t in AllTables ensures tables[t] + LoadedPart(s, t, 0) == tables[t] {
      assert LoadedPart(s, t, 0) == [];
    }
    assert LoadScript[..0] == [];
  }

  /** Inserting the fact table into an empty `operacoes` is accepted. */
  lemma FactAdmitted(s: Schema, tables: map<TableName, seq<Row>>, checks: bool)
    requires KeysDistinct(s.operacoes, OperacaoId)
    requires Operacoes in tables && tables[Operacoes] == []
    ensures Admits(tables, checks, Operacoes, FactRows(s.operacoes))
  {
    var rows := FactRows(s.operacoes);
    forall i, j | 0 <= i < j < |rows| ensures PrimaryKey(rows[i]) != PrimaryKey(rows[j]) {
      assert OperacaoId(s.operacoes[i]) != OperacaoId(s.operacoes[j]);
    }
  }

  /** Inserting a dimension table into its empty table is accepted once its parent table is stored. */
  lemma DimAdmitted(s: Schema, tables: map<TableName, seq<Row>>, d: Dim, checks: bool)
    requires KeysDistinct(s.Dimension(d), EntryId) && ParentsResolve(s)
    requires HasAllTables(tables) && tables[DimTable(d)] == []
    requires d == Tipo ==> tables[Eixos] == DimRows(s.eixos)
    requires d == Subtipo ==> tables[Tipos] == DimRows(s.tipos)
    ensures Admits(tables, checks, DimTable(d), DimRows(s.Dimension(d)))
  {
    var es := s.Dimension(d);
    var rows := DimRows(es);
    forall i, j | 0 <= i < j < |rows| ensures PrimaryKey(rows[i]) != PrimaryKey(rows[j]) {
      assert EntryId(es[i]) != EntryId(es[j]);
    }
    DimKeysStored(s.eixos);
    DimKeysStored(s.tipos);
    forall i, ref | 0 <= i < |rows| && ref in References(DimTable(d), rows[i])
      ensures ref.table in tables && ref.key in Keys(tables[ref.table], PrimaryKey)
    {
      assert rows[i] == DimRow(es[i]);
    }
  }

  /** Every reference of a stored association row resolves once its fact and dimension tables are stored. */
  lemma LinkReferencesResolve(s: Schema, tables: map<TableName, seq<Row>>, d: Dim)
    requires AssociationsResolve(s)
    requires HasAllTables(tables)
    requires tables[Operacoes] == FactRows(s.operacoes)
    requires tables[DimTable(d)] == DimRows(s.Dimension(d))
    ensures forall i, ref :: 0 <= i < |LinkRows(s.Association(d))| && ref in References(LinkTable(d), LinkRows(s.Association(d))[i]) ==>
      ref.table in tables && ref.key in Keys(tables[ref.table], PrimaryKey)
  {
    var ls := s.Association(d);
    var rows := LinkRows(ls);
    FactKeysStored(s.operacoes);
    DimKeysStored(s.Dimension(d));
    forall i, ref | 0 <= i < |rows| && ref in References(LinkTable(d), rows[i])
      ensures ref.table in tables && ref.key in Keys(tables[ref.table], PrimaryKey)
    {
      assert rows[i] == LinkRow(ls[i]);
      assert ls[i].idOperacao in Keys(s.operacoes, OperacaoId) && ls[i].dimId in Keys(s.Dimension(d), EntryId);
    }
  }

  /** Inserting an association table into its empty table is accepted once its parents are stored. */
  lemma LinkAdmitted(s: Schema, tables: map<TableName, seq<Row>>, d: Dim, checks: bool)
    requires KeysDistinct(s.Association(d), Whole) && AssociationsResolve(s)
    requires HasAllTables(tables) && tables[LinkTable(d)] == []
    requires tables[Operacoes] == FactRows(s.operacoes)
    requires tables[DimTable(d)] == DimRows(s.Dimension(d))
    ensures Admits(tables, checks, LinkTable(d), LinkRows(s.Association(d)))
  {
    var ls := s.Association(d);
    var rows := LinkRows(ls);
    forall i, j | 0 <= i < j < |rows| ensures PrimaryKey(rows[i]) != PrimaryKey(rows[j]) {
      assert Whole(ls[i]) != Whole(ls[j]);
    }
    LinkReferencesResolve(s, tables, d);
  }

  /**
   * Appending a table whose referenced tables are already loaded, into an
   * otherwise fresh store, is accepted whatever the state of the checks.
   */
  lemma AppendAdmitted(s: Schema, tables: map<TableName, seq<Row>>, t: TableName, checks: bool)
    requires Loadable(s)
    requires LoadedExactly(tables, s, LoadRank(t))
    ensures Admits(tables, checks, t, RowsOf(s, t))
  {
    match t
    case Operacoes => FactAdmitted(s, tables, checks);
    case Eixos => DimAdmitted(s, tables, Eixo, checks);
    case Tipos => DimAdmitted(s, tables, Tipo, checks);
    case Subtipos => DimAdmitted(s, tables, Subtipo, checks);
    case OperacaoEixoRel => LinkAdmitted(s, tables, Eixo, checks);
    case OperacaoTipoRel => LinkAdmitted(s, tables, Tipo, checks);
    case OperacaoSubtipoRel => LinkAdmitted(s, tables, Subtipo, checks);
  }

  /** The statements of the clear block, sent one by one, make up its script. */
  lemma ClearLog(l0: seq<Stmt>, l: seq<Stmt>)
    requires l == l0 + [ChecksSet(false)]
      + [Truncated(OperacaoSubtipoRel)] + [Truncated(OperacaoTipoRel)] + [Truncated(OperacaoEixoRel)]
      + [Truncated(Operacoes)] + [Truncated(Subtipos)] + [Truncated(Tipos)] + [Truncated(Eixos)]
      + [ChecksSet(true)]
    ensures l == l0 + ClearScript
  {
  }

  /** A store whose tables are all empty has no orphans. */
  lemma EmptyHasNoOrphans(tables: map<TableName, seq<Row>>)
    requires AllEmptyTables(tables)
    ensures NoOrphans(tables)
  {
  }

  /** Emptying a table that no foreign key points to orphans nothing. */
  lemma TruncateKeepsNoOrphans(before: map<TableName, seq<Row>>, t: TableName)
    requires NoOrphans(before) && t in before && !IsReferenced(t)
    requires HasAllTables(before)
    ensures NoOrphans(before[t := []])
  {
    var after := before[t := []];
    forall u, i, ref | u in after && 0 <= i < |after[u]| && ref in References(u, after[u][i])
      ensures ref.table in after && ref.key in Keys(after[ref.table], PrimaryKey)
    {
      ReferencesAreDeclared(u, after[u][i]);
      assert u != t && after[u] == before[u];
      assert ref.table in ReferencedTables(u);
      assert ref.table != t;
    }
  }

  /** An insert accepted with the checks on orphans nothing: keys only grow. */
  lemma AppendKeepsNoOrphans(before: map<TableName, seq<Row>>, t: TableName, rows: seq<Row>)
    requires t in before && NoOrphans(before) && Admits(before, true, t, rows)
    ensures NoOrphans(before[t := before[t] + rows])
  {
    var after := before[t := before[t] + rows];
    KeysOfAppend(before[t], rows, PrimaryKey);
    forall u, i, ref | u in after && 0 <= i < |after[u]| && ref in References(u, after[u][i])
      ensures ref.table in after && ref.key in Keys(after[ref.table], PrimaryKey)
    {
      if u == t && i >= |before[t]| {
        assert after[u][i] == rows[i - |before[t]|];
      } else {
        assert after[u][i] == before[u][i];
      }
      assert Keys(before[ref.table], PrimaryKey) <= Keys(after[ref.table], PrimaryKey);
    }
  }

  /** The store: table contents, the FOREIGN_KEY_CHECKS flag and the log of accepted statements. */
  class Database {
    var tables: map<TableName, seq<Row>>
    var fkChecks: bool
    ghost var log: seq<Stmt>

    ghost predicate Valid()
      reads this
    {
      HasAllTables(tables)
    }

    /** `metadata.create_all` on an empty database: the seven tables exist, empty. */
    constructor ()
      ensures Valid() && AllEmptyTables(tables) && fkChecks && log == []
    {
      tables := map t | t in AllTables :: [];
      fkChecks := true;
      log := [];
    }

    /** `SET FOREIGN_KEY_CHECKS = 0 / 1`: the flag only; stored rows are not re-checked. */
    method SetForeignKeyChecks(on: bool)
      requires Valid()
      modifies this
      ensures Valid() && fkChecks == on && tables == old(tables)
      ensures log == old(log) + [ChecksSet(on)]
    {
      fkChecks := on;
      log := log + [ChecksSet(on)];
    }

    /**
     * `TRUNCATE TABLE t`: refused while the checks are on and a foreign key
     * points to `t`; otherwise empties `t`. A table nobody references can be
     * emptied without orphaning anything.
     */
    method Truncate(t: TableName) returns (ok: bool)
      requires Valid()
      modifies this
      ensures Valid() && fkChecks == old(fkChecks)
      ensures ok == (!old(fkChecks) || !IsReferenced(t))
      ensures tables == if ok then old(tables)[t := []] else old(tables)
      ensures log == if ok then old(log) + [Truncated(t)] else old(log)
      ensures old(fkChecks) && old(NoOrphans(tables)) ==> NoOrphans(tables)
    {
      ok := !fkChecks || !IsReferenced(t);
      if ok {
        if fkChecks && NoOrphans(tables) {
          TruncateKeepsNoOrphans(tables, t);
        }
        tables := tables[t := []];
        log := log + [Truncated(t)];
      }
    }

    /**
     * `to_sql(t, if_exists='append')`: all rows are inserted in one transaction
     * when the insert is admitted, and none otherwise. With the checks on, a
     * store without orphans stays without orphans.
     */
    method Append(t: TableName, rows: seq<Row>) returns (ok: bool)
      requires Valid()
      modifies this
      ensures Valid() && fkChecks == old(fkChecks)
      ensures ok == Admits(old(tables), old(fkChecks), t, rows)
      ensures tables == if ok then old(tables)[t := old(tables)[t] + rows] else old(tables)
      ensures log == if ok then old(log) + [Appended(t)] else old(log)
      ensures old(fkChecks) && old(NoOrphans(tables)) ==> NoOrphans(tables)
    {
      ok := Admits(tables, fkChecks, t, rows);
      if ok {
        if fkChecks && NoOrphans(tables) {
          AppendKeepsNoOrphans(tables, t, rows);
        }
        tables := tables[t := tables[t] + rows];
        log := log + [Appended(t)];
      }
    }

    /**
     * The clear block: checks off, the seven tables truncated association
     * tables first, checks back on. It cannot fail, and leaves an empty store.
     */
    method Clear()
      requires Valid()
      modifies this
      ensures Valid() && AllEmptyTables(tables) && fkChecks && NoOrphans(tables)
      ensures log == old(log) + ClearScript
    {
      ghost var log0 := log;
      SetForeignKeyChecks(false);
      var ok := Truncate(OperacaoSubtipoRel);
      ok := Truncate(OperacaoTipoRel);
      ok := Truncate(OperacaoEixoRel);
      ok := Truncate(Operacoes);
      ok := Truncate(Subtipos);
      ok := Truncate(Tipos);
      ok := Truncate(Eixos);
      SetForeignKeyChecks(true);
      ClearLog(log0, log);
      EmptyHasNoOrphans(tables);
    }

    /**
     * One `to_sql` line of the load block: table `t` of the normalised schema
     * appended to the store. `base` and `baseLog` record, for the proof, what
     * the store held before the load.
     */
    method AppendTable(s: Schema, t: TableName, ghost base: map<TableName, seq<Row>>, ghost baseLog: seq<Stmt>)
      returns (ok: bool)
      requires Extended(base, baseLog, tables, log, s, LoadRank(t))
      modifies this
      ensures Valid() && fkChecks == old(fkChecks)
      ensures ok ==> Extended(base, baseLog, tables, log, s, LoadRank(t) + 1)
      ensures !ok ==> tables == old(tables) && log == old(log)
      ensures old(fkChecks) && old(NoOrphans(tables)) ==> NoOrphans(tables)
      ensures AllEmptyTables(base) && Loadable(s) ==> ok
    {
      if AllEmptyTables(base) && Loadable(s) {
        ExtendedFromEmpty(base, baseLog, tables, log, s, LoadRank(t));
        AppendAdmitted(s, tables, t, fkChecks);
      }
      ExtendedStep(base, baseLog, tables, log, s, t);
      ok := Append(t, RowsOf(s, t));
    }

    /**
     * The first four lines of the load block: the fact table, then the three
     * dimension tables.
     */
    method LoadEntities(s: Schema, ghost base: map<TableName, seq<Row>>, ghost baseLog: seq<Stmt>)
      returns (ok: bool)
      requires Extended(base, baseLog, tables, log, s, 0)
      modifies this
      ensures Valid() && fkChecks == old(fkChecks)
      ensures ok ==> Extended(base, baseLog, tables, log, s, 4)
      ensures !ok ==> exists n :: 0 <= n < 4 && Extended(base, baseLog, tables, log, s, n)
      ensures old(fkChecks) && old(NoOrphans(tables)) ==> NoOrphans(tables)
      ensures AllEmptyTables(base) && Loadable(s) ==> ok
    {
      ok := AppendTable(s, Operacoes, base, baseLog);
      if !ok { return; }
      ok := AppendTable(s, Eixos, base, baseLog);
      if !ok { return; }
      ok := AppendTable(s, Tipos, base, baseLog);
      if !ok { return; }
      ok := AppendTable(s, Subtipos, base, baseLog);
    }

    /** The last three lines of the load block: the association tables. */
    method LoadAssociations(s: Schema, ghost base: map<TableName, seq<Row>>, ghost baseLog: seq<Stmt>)
      returns (ok: bool)
      requires Extended(base, baseLog, tables, log, s, 4)
      modifies this
      ensures Valid() && fkChecks == old(fkChecks)
      ensures ok ==> Extended(base, baseLog, tables, log, s, 7)
      ensures !ok ==> exists n :: 4 <= n < 7 && Extended(base, baseLog, tables, log, s, n)
      ensures old(fkChecks) && old(NoOrphans(tables)) ==> NoOrphans(tables)
      ensures AllEmptyTables(base) && Loadable(s) ==> ok
    {
      ok := AppendTable(s, OperacaoEixoRel, base, baseLog);
      if !ok { return; }
      ok := AppendTable(s, OperacaoTipoRel, base, baseLog);
      if !ok { return; }
      ok := AppendTable(s, OperacaoSubtipoRel, base, baseLog);
    }

    /**
     * The load block: the seven tables appended in the script's order; the
     * first rejected insert stops the run, leaving the tables before it
     * appended. Into an empty store, a loadable schema is accepted whole.
     */
    method Load(s: Schema) returns (ok: bool)
      requires Valid()
      modifies this
      ensures Valid() && fkChecks == old(fkChecks)
      ensures ok ==> forall t :: t in AllTables ==> tables[t] == old(tables[t]) + RowsOf(s, t)
      ensures ok ==> log == old(log) + LoadScript
      ensures !ok ==> exists n :: 0 <= n < |LoadScript| && Extended(old(tables), old(log), tables, log, s, n)
      ensures old(fkChecks) && old(NoOrphans(tables)) ==> NoOrphans(tables)
      ensures old(AllEmptyTables(tables)) && Loadable(s) ==> ok
    {
      ghost var base, baseLog := tables, log;
      ExtendedStart(tables, log, s);
      ok := LoadEntities(s, base, baseLog);
      if !ok { return; }
      ok := LoadAssociations(s, base, baseLog);
      if !ok { return; }
      ExtendedComplete(base, baseLog, tables, log, s);
    }

    /**
     * Clear then load, as the script runs them on a store in any prior state:
     * a loadable schema ends up stored exactly, and a refused insert leaves
     * the cleared store holding the tables loaded before it; either way every
     * reference resolves.
     */
    method FullRefresh(s: Schema) returns (ok: bool)
      requires Valid()
      modifies this
      ensures Valid() && fkChecks && NoOrphans(tables)
      ensures ok ==> forall t :: t in AllTables ==> tables[t] == RowsOf(s, t)
      ensures ok ==> log == old(log) + ClearScript + LoadScript
      ensures !ok ==>
        exists n :: 0 <= n < |LoadScript| && LoadedExactly(tables, s, n) && log == old(log) + ClearScript + LoadScript[..n]
      ensures Loadable(s) ==> ok
    {
      Clear();
      ghost var base, baseLog := tables, log;
      ok := Load(s);
      if !ok {
        ghost var n :| 0 <= n < |LoadScript| && Extended(base, baseLog, tables, log, s, n);
        ExtendedFromEmpty(base, baseLog, tables, log, s, n);
      }
    }
  }

  /**
   * The whole script after fetching: normalise, then refresh the store. A run
   * that stops in normalisation leaves the store untouched; otherwise the
   * store ends up cleared and holding the normalised tables, all of them or
   * those loaded before a refused insert.
   */
  method RunPipeline(db: Database, records: seq<RawRecord>) returns (ok: bool)
    requires db.Valid()
    modifies db
    ensures db.Valid()
    ensures Normalized(records).Err? ==> !ok && db.tables == old(db.tables)
    ensures Normalized(records).Ok? ==> db.fkChecks && NoOrphans(db.tables)
    ensures Normalized(records).Ok? && ok ==>
      forall t :: t in AllTables ==> db.tables[t] == RowsOf(Normalized(records).value, t)
    ensures Normalized(records).Ok? && !ok ==>
      exists n :: 0 <= n < |LoadScript| && LoadedExactly(db.tables, Normalized(records).value, n)
    ensures Normalized(records).Ok? && ParentsResolve(Normalized(records).value) ==> ok
  {
    var res := Normalize(records);
    match res
    case Err(_) =>
      ok := false;
    case Ok(s) =>
      NormalizedIsLoadable(records, s);
      ok := db.FullRefresh(s);
  }
}
