/**
 * The normalisation step of the ETL script: raw records become one fact table
 * (`operacoes`), three dimension tables (`eixos`, `tipos`, `subtipos`) and three
 * association tables (`operacao_eixo_rel`, `operacao_tipo_rel`, `operacao_subtipo_rel`).
 */
module Normalization {
  import opened Wrappers
  import opened Records
  import opened Dedup

  /** A row of `operacoes`: the nine columns kept for the dashboard. */
  datatype OperacaoRow = OperacaoRow(
    idOperacao: string,
    valorInvestimentoPrevisto: Option<Amount>,
    tomadorNome: Option<string>,
    tomadorCodigo: Option<int>,
    executorNome: Option<string>,
    executorCodigo: Option<int>,
    repassadorNome: Option<string>,
    repassadorCodigo: Option<int>,
    origemFontesDeRecurso: Option<string>)

  /** A row of an association table: an operation id and a dimension id. */
  datatype Link = Link(idOperacao: string, dimId: int)

  /** The key of `operacoes`. */
  function OperacaoId(o: OperacaoRow): string { o.idOperacao }

  /** The seven tables the script loads. */
  datatype Schema = Schema(
    operacoes: seq<OperacaoRow>,
    eixos: seq<Entry>,
    tipos: seq<Entry>,
    subtipos: seq<Entry>,
    operacaoEixoRel: seq<Link>,
    operacaoTipoRel: seq<Link>,
    operacaoSubtipoRel: seq<Link>)
  {
    function Dimension(d: Dim): seq<Entry>
    {
      match d
      case Eixo => eixos
      case Tipo => tipos
      case Subtipo => subtipos
    }

    function Association(d: Dim): seq<Link>
    {
      match d
      case Eixo => operacaoEixoRel
      case Tipo => operacaoTipoRel
      case Subtipo => operacaoSubtipoRel
    }
  }

  /**
   * Why the script stops before loading: an empty batch has none of the
   * columns the script selects, and pandas raises KeyError. A dimension with no
   * entries at all is no failure: `drop_duplicates` returns an empty frame as
   * it is, and that table is loaded with no rows.
   */
  datatype Failure = NoRecords

  // ---------------------------------------------------------------------------
  // Single-valued attributes: first element or null
  // ---------------------------------------------------------------------------

  /** `x[0][field] if len(x) > 0 else None`. */
  function FirstOrNull<T, U>(xs: seq<T>, field: T -> U): (r: Option<U>)
    ensures r.None? <==> |xs| == 0
    ensures r.Some? ==> r.value == field(xs[0])
  {
    if |xs| > 0 then Some(field(xs[0])) else None
  }

  function PartyNome(p: Party): string { p.nome }
  function PartyCodigo(p: Party): int { p.codigo }
  function SourceOrigem(f: FundingSource): string { f.origem }
  function SourceValor(f: FundingSource): Amount { f.valorInvestimentoPrevisto }

  /**
   * The derived columns of one record, renamed and projected to the nine
   * columns of `operacoes`.
   */
  function ToOperacao(r: RawRecord): (row: OperacaoRow)
    ensures row.idOperacao == r.idUnico
    ensures |r.tomadores| == 0 ==> row.tomadorNome == None && row.tomadorCodigo == None
    ensures |r.tomadores| > 0 ==>
      row.tomadorNome == Some(r.tomadores[0].nome) && row.tomadorCodigo == Some(r.tomadores[0].codigo)
    ensures |r.executores| == 0 ==> row.executorNome == None && row.executorCodigo == None
    ensures |r.executores| > 0 ==>
      row.executorNome == Some(r.executores[0].nome) && row.executorCodigo == Some(r.executores[0].codigo)
    ensures |r.repassadores| == 0 ==> row.repassadorNome == None && row.repassadorCodigo == None
    ensures |r.repassadores| > 0 ==>
      row.repassadorNome == Some(r.repassadores[0].nome) && row.repassadorCodigo == Some(r.repassadores[0].codigo)
    ensures row.origemFontesDeRecurso.None? <==> row.valorInvestimentoPrevisto.None?
    ensures row.origemFontesDeRecurso.None? <==> |r.fontesDeRecurso| == 0
    ensures |r.fontesDeRecurso| > 0 ==>
      && row.origemFontesDeRecurso == Some(r.fontesDeRecurso[0].origem)
      && row.valorInvestimentoPrevisto == Some(r.fontesDeRecurso[0].valorInvestimentoPrevisto)
  {
    OperacaoRow(
      r.idUnico,
      FirstOrNull(r.fontesDeRecurso, SourceValor),
      FirstOrNull(r.tomadores, PartyNome),
      FirstOrNull(r.tomadores, PartyCodigo),
      FirstOrNull(r.executores, PartyNome),
      FirstOrNull(r.executores, PartyCodigo),
      FirstOrNull(r.repassadores, PartyNome),
      FirstOrNull(r.repassadores, PartyCodigo),
      FirstOrNull(r.fontesDeRecurso, SourceOrigem))
  }

  /**
   * Only the first element of each list matters: two records that agree on the
   * id and on the head (or emptiness) of each single-valued list give the same row.
   */
  lemma ToOperacaoReadsOnlyHeads(r: RawRecord, r': RawRecord)
    requires r.idUnico == r'.idUnico
    requires |r.tomadores| == 0 <==> |r'.tomadores| == 0
    requires |r.tomadores| > 0 ==> r.tomadores[0] == r'.tomadores[0]
    requires |r.executores| == 0 <==> |r'.executores| == 0
    requires |r.executores| > 0 ==> r.executores[0] == r'.executores[0]
    requires |r.repassadores| == 0 <==> |r'.repassadores| == 0
    requires |r.repassadores| > 0 ==> r.repassadores[0] == r'.repassadores[0]
    requires |r.fontesDeRecurso| == 0 <==> |r'.fontesDeRecurso| == 0
    requires |r.fontesDeRecurso| > 0 ==> r.fontesDeRecurso[0] == r'.fontesDeRecurso[0]
    ensures ToOperacao(r) == ToOperacao(r')
  {
  }

  // ---------------------------------------------------------------------------
  // Nested entries: gathered in record order, then entry order
  // ---------------------------------------------------------------------------

  /** The pairs (record id, entry id) for the entries `es` of record `idOp`. */
  function LinksOf(idOp: string, es: seq<Entry>): (ls: seq<Link>)
    ensures |ls| == |es|
    ensures forall j :: 0 <= j < |es| ==> ls[j] == Link(idOp, es[j].id)
  {
    seq(|es|, j requires 0 <= j < |es| => Link(idOp, es[j].id))
  }

  /** The association rows one record contributes for dimension `d`. */
  function RecordLinks(r: RawRecord, d: Dim): seq<Link>
  {
    LinksOf(r.idUnico, Nested(r, d))
  }

  /** Every nested entry of dimension `d`, in record order then entry order. */
  function Gathered(rs: seq<RawRecord>, d: Dim): seq<Entry>
  {
    if rs == [] then [] else Gathered(rs[..|rs| - 1], d) + Nested(rs[|rs| - 1], d)
  }

  /** One association row per nested entry, in the same order as `Gathered`. */
  function Linked(rs: seq<RawRecord>, d: Dim): seq<Link>
  {
    if rs == [] then [] else Linked(rs[..|rs| - 1], d) + RecordLinks(rs[|rs| - 1], d)
  }

  /** The total number of nested entries of dimension `d`. */
  function EntryCount(rs: seq<RawRecord>, d: Dim): nat
  {
    if rs == [] then 0 else EntryCount(rs[..|rs| - 1], d) + |Nested(rs[|rs| - 1], d)|
  }

  /**
   * The extraction loop appends, for every nested entry, the entry itself and
   * the pair (record id, entry id); the lists start empty.
   */
  method ExtractNested(records: seq<RawRecord>)
    returns (eixosData: seq<Entry>, tiposData: seq<Entry>, subtiposData: seq<Entry>,
             operacaoEixoRel: seq<Link>, operacaoTipoRel: seq<Link>, operacaoSubtipoRel: seq<Link>)
    ensures eixosData == Gathered(records, Eixo) && operacaoEixoRel == Linked(records, Eixo)
    ensures tiposData == Gathered(records, Tipo) && operacaoTipoRel == Linked(records, Tipo)
    ensures subtiposData == Gathered(records, Subtipo) && operacaoSubtipoRel == Linked(records, Subtipo)
  {
    eixosData, tiposData, subtiposData := [], [], [];
    operacaoEixoRel, operacaoTipoRel, operacaoSubtipoRel := [], [], [];
    var i := 0;
    while i < |records|
      invariant 0 <= i <= |records|
      invariant eixosData == Gathered(records[..i], Eixo) && operacaoEixoRel == Linked(records[..i], Eixo)
      invariant tiposData == Gathered(records[..i], Tipo) && operacaoTipoRel == Linked(records[..i], Tipo)
      invariant subtiposData == Gathered(records[..i], Subtipo) && operacaoSubtipoRel == Linked(records[..i], Subtipo)
    {
      var row := records[i];
      var idOp := row.idUnico;

      eixosData, operacaoEixoRel := AppendNested(eixosData, operacaoEixoRel, idOp, row.eixos);
      tiposData, operacaoTipoRel := AppendNested(tiposData, operacaoTipoRel, idOp, row.tipos);
      subtiposData, operacaoSubtipoRel := AppendNested(subtiposData, operacaoSubtipoRel, idOp, row.subTipos);
      RecordStep(records, i, Eixo);
      RecordStep(records, i, Tipo);
      RecordStep(records, i, Subtipo);
      i := i + 1;
    }
    assert records[..|records|] == records;
  }

  /**
   * One inner loop of the extraction: every entry `e` of the record's list is
   * appended to `data` and the pair (`idOp`, `e.id`) to `rel`.
   */
  method AppendNested(data0: seq<Entry>, rel0: seq<Link>, idOp: string, es: seq<Entry>)
    returns (data: seq<Entry>, rel: seq<Link>)
    ensures data == data0 + es
    ensures rel == rel0 + LinksOf(idOp, es)
  {
    data, rel := data0, rel0;
    var j := 0;
    while j < |es|
      invariant 0 <= j <= |es|
      invariant data == data0 + es[..j]
      invariant rel == rel0 + LinksOf(idOp, es)[..j]
    {
      data := data + [es[j]];
      rel := rel + [Link(idOp, es[j].id)];
      AppendStep(idOp, es, j);
      j := j + 1;
    }
    assert es[..j] == es;
    assert LinksOf(idOp, es)[..j] == LinksOf(idOp, es);
  }

  /** One more entry of a record: one more gathered entry and one more association row. */
  lemma AppendStep(idOp: string, es: seq<Entry>, j: nat)
    requires j < |es|
    ensures es[..j + 1] == es[..j] + [es[j]]
    ensures LinksOf(idOp, es)[..j + 1] == LinksOf(idOp, es)[..j] + [Link(idOp, es[j].id)]
  {
  }

  /** One more record: its entries and its association rows follow those of the earlier records. */
  lemma RecordStep(rs: seq<RawRecord>, i: nat, d: Dim)
    requires i < |rs|
    ensures Gathered(rs[..i + 1], d) == Gathered(rs[..i], d) + Nested(rs[i], d)
    ensures Linked(rs[..i + 1], d) == Linked(rs[..i], d) + RecordLinks(rs[i], d)
  {
    assert rs[..i + 1][..i] == rs[..i];
  }

  /** There are as many association rows and gathered entries as nested entries. */
  lemma {:induction false} LinkCounts(rs: seq<RawRecord>, d: Dim)
    ensures |Linked(rs, d)| == |Gathered(rs, d)| == EntryCount(rs, d)
    decreases |rs|
  {
    if rs != [] {
      LinkCounts(rs[..|rs| - 1], d);
    }
  }

  /**
   * The record `i` and the position `j` in its list of the entry behind the
   * k-th association row: `k` counts the entries of the records before `i`,
   * then `j`.
   */
  lemma {:induction false} LinkOwner(rs: seq<RawRecord>, d: Dim, k: nat) returns (i: nat, j: nat)
    requires k < |Linked(rs, d)|
    ensures |Gathered(rs, d)| == |Linked(rs, d)|
    ensures i < |rs| && j < |Nested(rs[i], d)| && k == EntryCount(rs[..i], d) + j
    ensures Gathered(rs, d)[k] == Nested(rs[i], d)[j]
    ensures Linked(rs, d)[k] == Link(rs[i].idUnico, Nested(rs[i], d)[j].id)
    decreases |rs|
  {
    var init, last := rs[..|rs| - 1], rs[|rs| - 1];
    LinkCounts(init, d);
    var n := |Linked(init, d)|;
    if k < n {
      i, j := LinkOwner(init, d, k);
      assert Linked(rs, d)[k] == Linked(init, d)[k];
      assert Gathered(rs, d)[k] == Gathered(init, d)[k];
      assert rs[i] == init[i] && rs[..i] == init[..i];
    } else {
      i, j := |rs| - 1, k - n;
      assert Linked(rs, d)[k] == RecordLinks(last, d)[j];
      assert Gathered(rs, d)[k] == Nested(last, d)[j];
      assert rs[..i] == init;
    }
  }

  /**
   * Exactly one association row per nested entry: the number of rows is the
   * total number of nested entries, and the k-th row is the pair (record id,
   * entry id) of the record that holds the k-th gathered entry, at the
   * position that entry has in that record's list.
   */
  lemma LinksFollowEntries(rs: seq<RawRecord>, d: Dim)
    ensures |Linked(rs, d)| == |Gathered(rs, d)| == EntryCount(rs, d)
    ensures forall k :: 0 <= k < |Linked(rs, d)| ==> Linked(rs, d)[k].dimId == Gathered(rs, d)[k].id
    ensures forall k :: 0 <= k < |Linked(rs, d)| ==>
      exists i, j :: 0 <= i < |rs| && 0 <= j < |Nested(rs[i], d)| && k == EntryCount(rs[..i], d) + j &&
        Gathered(rs, d)[k] == Nested(rs[i], d)[j] && Linked(rs, d)[k] == Link(rs[i].idUnico, Nested(rs[i], d)[j].id)
  {
    LinkCounts(rs, d);
    forall k | 0 <= k < |Linked(rs, d)|
      ensures Linked(rs, d)[k].dimId == Gathered(rs, d)[k].id
      ensures exists i, j :: 0 <= i < |rs| && 0 <= j < |Nested(rs[i], d)| && k == EntryCount(rs[..i], d) + j &&
                Gathered(rs, d)[k] == Nested(rs[i], d)[j] && Linked(rs, d)[k] == Link(rs[i].idUnico, Nested(rs[i], d)[j].id)
    {
      var i, j := LinkOwner(rs, d, k);
      assert 0 <= i < |rs| && 0 <= j < |Nested(rs[i], d)| && k == EntryCount(rs[..i], d) + j &&
        Gathered(rs, d)[k] == Nested(rs[i], d)[j] && Linked(rs, d)[k] == Link(rs[i].idUnico, Nested(rs[i], d)[j].id);
    }
  }

  /** Every nested entry of every record has its association row. */
  lemma {:induction false} LinksCoverEntries(rs: seq<RawRecord>, d: Dim)
    ensures forall i, j :: 0 <= i < |rs| && 0 <= j < |Nested(rs[i], d)| ==>
      Link(rs[i].idUnico, Nested(rs[i], d)[j].id) in Linked(rs, d)
    decreases |rs|
  {
    if rs != [] {
      var init, last := rs[..|rs| - 1], rs[|rs| - 1];
      LinksCoverEntries(init, d);
      forall i, j | 0 <= i < |rs| && 0 <= j < |Nested(rs[i], d)|
        ensures Link(rs[i].idUnico, Nested(rs[i], d)[j].id) in Linked(rs, d)
      {
        if i < |rs| - 1 {
          assert rs[i] == init[i];
          assert Link(init[i].idUnico, Nested(init[i], d)[j].id) in Linked(init, d);
        } else {
          assert RecordLinks(last, d)[j] == Link(rs[i].idUnico, Nested(rs[i], d)[j].id);
        }
      }
    }
  }

  // ---------------------------------------------------------------------------
  // The tables
  // ---------------------------------------------------------------------------

  /** The derived columns of every record, one row per record, before deduplication. */
  function OperacaoRows(records: seq<RawRecord>): (rows: seq<OperacaoRow>)
    ensures |rows| == |records|
    ensures forall i :: 0 <= i < |records| ==> rows[i] == ToOperacao(records[i])
  {
    seq(|records|, i requires 0 <= i < |records| => ToOperacao(records[i]))
  }

  /** The fact table: derived columns per record, first row per `idUnico`. */
  function FactTable(records: seq<RawRecord>): seq<OperacaoRow>
  {
    DropDuplicates(OperacaoRows(records), OperacaoId)
  }

  /** A dimension table: gathered entries, first entry per `id`. */
  function DimensionTable(records: seq<RawRecord>, d: Dim): seq<Entry>
  {
    DropDuplicates(Gathered(records, d), EntryId)
  }

  /** An association table: gathered pairs without exact duplicates. */
  function AssociationTable(records: seq<RawRecord>, d: Dim): seq<Link>
  {
    DropDuplicates(Linked(records, d), Whole)
  }

  /** What the whole normalisation step produces, or why it stops. */
  function Normalized(records: seq<RawRecord>): Result<Schema, Failure>
  {
    if |records| == 0 then Err(NoRecords)
    else Ok(Schema(
      FactTable(records),
      DimensionTable(records, Eixo),
      DimensionTable(records, Tipo),
      DimensionTable(records, Subtipo),
      AssociationTable(records, Eixo),
      AssociationTable(records, Tipo),
      AssociationTable(records, Subtipo)))
  }

  /**
   * The script's normalisation: the extraction loop, then the whole-table
   * deduplications, with the run stopping where pandas raises.
   */
  method Normalize(records: seq<RawRecord>) returns (res: Result<Schema, Failure>)
    ensures res == Normalized(records)
  {
    if |records| == 0 {
      return Err(NoRecords);
    }
    var eixosData, tiposData, subtiposData, operacaoEixoRel, operacaoTipoRel, operacaoSubtipoRel :=
      ExtractNested(records);
    var eixos := DropDuplicates(eixosData, EntryId);
    var eixoRel := DropDuplicates(operacaoEixoRel, Whole);
    var tipos := DropDuplicates(tiposData, EntryId);
    var tipoRel := DropDuplicates(operacaoTipoRel, Whole);
    var subtipos := DropDuplicates(subtiposData, EntryId);
    var subtipoRel := DropDuplicates(operacaoSubtipoRel, Whole);
    var operacoes := FactTable(records);
    res := Ok(Schema(operacoes, eixos, tipos, subtipos, eixoRel, tipoRel, subtipoRel));
  }

  // ---------------------------------------------------------------------------
  // Properties of the tables
  // ---------------------------------------------------------------------------

  /** The run stops exactly when the batch is empty. */
  lemma NormalizedFails(records: seq<RawRecord>)
    ensures Normalized(records).Err? <==> |records| == 0
  {
  }

  /**
   * A dimension that no record lists stops nothing: its dimension table and
   * its association table are empty, and the other tables are built as usual.
   */
  lemma EmptyDimensionLoadsNoRows(records: seq<RawRecord>, d: Dim)
    requires |records| > 0 && EntryCount(records, d) == 0
    ensures Normalized(records).Ok?
    ensures Normalized(records).value.Dimension(d) == [] && Normalized(records).value.Association(d) == []
  {
    LinksFollowEntries(records, d);
  }

  /** Projecting rows does not move the first occurrence of an id. */
  lemma {:induction false} FactRowsKeepRecordIds(records: seq<RawRecord>)
    ensures var rows := OperacaoRows(records);
      && Keys(rows, OperacaoId) == Keys(records, RecordId)
      && forall x :: x in Keys(records, RecordId) ==>
           x in Keys(rows, OperacaoId) && FirstIndexOf(rows, OperacaoId, x) == FirstIndexOf(records, RecordId, x)
  {
    var rows := OperacaoRows(records);
    assert forall i :: 0 <= i < |records| ==> OperacaoId(rows[i]) == RecordId(records[i]);
    forall x | x in Keys(rows, OperacaoId) ensures x in Keys(records, RecordId) {
      var i :| 0 <= i < |rows| && OperacaoId(rows[i]) == x;
      assert RecordId(records[i]) == x;
    }
    forall x | x in Keys(records, RecordId)
      ensures x in Keys(rows, OperacaoId) && FirstIndexOf(rows, OperacaoId, x) == FirstIndexOf(records, RecordId, x)
    {
      var f := FirstIndexOf(records, RecordId, x);
      FirstIndexOfUnique(rows, OperacaoId, x, f);
    }
  }

  /**
   * The fact table has one row per `idUnico` of the input, no two rows share an
   * id, each row is built from the first record with its id, and rows follow
   * the order of those records.
   */
  lemma FactTableKeepsFirstRecord(records: seq<RawRecord>)
    ensures var f := FactTable(records);
      && KeysDistinct(f, OperacaoId)
      && Keys(f, OperacaoId) == Keys(records, RecordId)
      && (forall k :: 0 <= k < |f| ==>
            f[k].idOperacao in Keys(records, RecordId) &&
            f[k] == ToOperacao(records[FirstIndexOf(records, RecordId, f[k].idOperacao)]))
      && (forall a, b :: 0 <= a < b < |f| && f[a].idOperacao in Keys(records, RecordId) && f[b].idOperacao in Keys(records, RecordId) ==>
            FirstIndexOf(records, RecordId, f[a].idOperacao) < FirstIndexOf(records, RecordId, f[b].idOperacao))
  {
    var rows := OperacaoRows(records);
    var f := FactTable(records);
    DropDuplicatesSpec(rows, OperacaoId);
    FactRowsKeepRecordIds(records);
    forall k | 0 <= k < |f|
      ensures f[k].idOperacao in Keys(records, RecordId)
      ensures f[k] == ToOperacao(records[FirstIndexOf(records, RecordId, f[k].idOperacao)])
    {
      assert OperacaoId(f[k]) in Keys(rows, OperacaoId);
    }
    forall a, b | 0 <= a < b < |f| && f[a].idOperacao in Keys(records, RecordId) && f[b].idOperacao in Keys(records, RecordId)
      ensures FirstIndexOf(records, RecordId, f[a].idOperacao) < FirstIndexOf(records, RecordId, f[b].idOperacao)
    {
      assert OperacaoId(f[a]) in Keys(rows, OperacaoId) && OperacaoId(f[b]) in Keys(rows, OperacaoId);
    }
  }

  /**
   * A dimension table has pairwise-distinct ids, exactly the ids of the
   * gathered entries, each row is the first entry seen with its id, and rows
   * keep the order in which the entries were gathered.
   */
  lemma DimensionTableFirstWins(records: seq<RawRecord>, d: Dim)
    ensures var t := DimensionTable(records, d);
      && KeysDistinct(t, EntryId)
      && Keys(t, EntryId) == Keys(Gathered(records, d), EntryId)
      && FirstOccurrencesInOrder(Gathered(records, d), EntryId, t)
  {
    DropDuplicatesSpec(Gathered(records, d), EntryId);
  }

  /**
   * An association table has no duplicate pair and holds exactly the pairs
   * (record id, entry id) of the input's nested entries: every such pair is
   * in it, and every pair in it is one record's id with one of that record's
   * entries. Each of its ids therefore names an input record and a gathered entry.
   */
  lemma AssociationTableExact(records: seq<RawRecord>, d: Dim)
    ensures var t := AssociationTable(records, d);
      && KeysDistinct(t, Whole)
      && Keys(t, Whole) == Keys(Linked(records, d), Whole)
      && (forall i, j :: 0 <= i < |records| && 0 <= j < |Nested(records[i], d)| ==>
            Link(records[i].idUnico, Nested(records[i], d)[j].id) in Keys(t, Whole))
      && (forall l :: l in Keys(t, Whole) ==>
            exists i, j :: 0 <= i < |records| && 0 <= j < |Nested(records[i], d)| &&
              l == Link(records[i].idUnico, Nested(records[i], d)[j].id))
      && (forall l :: l in Keys(t, Whole) ==>
            l.idOperacao in Keys(records, RecordId) && l.dimId in Keys(Gathered(records, d), EntryId))
  {
    var ls := Linked(records, d);
    var t := AssociationTable(records, d);
    DropDuplicatesSpec(ls, Whole);
    LinksCoverEntries(records, d);
    forall i, j | 0 <= i < |records| && 0 <= j < |Nested(records[i], d)|
      ensures Link(records[i].idUnico, Nested(records[i], d)[j].id) in Keys(t, Whole)
    {
      var l := Link(records[i].idUnico, Nested(records[i], d)[j].id);
      assert l in ls;
      var k :| 0 <= k < |ls| && ls[k] == l;
      assert Whole(ls[k]) == l;
    }
    forall l | l in Keys(t, Whole)
      ensures exists i, j :: 0 <= i < |records| && 0 <= j < |Nested(records[i], d)| &&
                l == Link(records[i].idUnico, Nested(records[i], d)[j].id)
      ensures l.idOperacao in Keys(records, RecordId) && l.dimId in Keys(Gathered(records, d), EntryId)
    {
      var k :| 0 <= k < |ls| && Whole(ls[k]) == l;
      var i, j := LinkOwner(records, d, k);
      assert RecordId(records[i]) == l.idOperacao;
      assert EntryId(Gathered(records, d)[k]) == l.dimId;
    }
  }

  /**
   * Referential integrity before load: every association row names an
   * operation of the fact table and an entry of the matching dimension table.
   */
  lemma ReferentialIntegrity(records: seq<RawRecord>, s: Schema, d: Dim)
    requires Normalized(records) == Ok(s)
    ensures forall k :: 0 <= k < |s.Association(d)| ==>
      s.Association(d)[k].idOperacao in Keys(s.operacoes, OperacaoId) &&
      s.Association(d)[k].dimId in Keys(s.Dimension(d), EntryId)
  {
    AssociationTableExact(records, d);
    FactTableKeepsFirstRecord(records);
    DimensionTableFirstWins(records, d);
    var t := s.Association(d);
    forall k | 0 <= k < |t|
      ensures t[k].idOperacao in Keys(s.operacoes, OperacaoId) && t[k].dimId in Keys(s.Dimension(d), EntryId)
    {
      assert Whole(t[k]) in Keys(t, Whole);
    }
  }
}
