/**
 * Concrete runs of the normalisation step on small batches: what the script
 * produces, or where it stops, for a handful of hand-written records.
 */
module Scenarios {
  import opened Wrappers
  import opened Records
  import opened Dedup
  import opened Normalization

  const Saneamento: Entry := Entry(1, "Saneamento", None)

  /** A record with one axis, no type and no subtype, and one federal funding source. */
  const A1: RawRecord :=
    RawRecord("A1", [], [], [], [FundingSource("Federal", 1000)], [Saneamento], [], [])

  /** The operation row every record shaped like `A1` yields. */
  const A1Row: OperacaoRow :=
    OperacaoRow("A1", Some(1000), None, None, None, None, None, None, Some("Federal"))

  /**
   * `A1` alone: it lists an axis but no type and no subtype. The run goes on;
   * it yields the operation row, the axis and its pair, and the type and
   * subtype tables and their association tables stay empty.
   */
  lemma RecordWithoutTypesLoadsAxisOnly()
    ensures Normalized([A1]) == Ok(Schema([A1Row], [Saneamento], [], [], [Link("A1", 1)], [], []))
  {
    var rs := [A1];
    assert rs[..0] == [] && rs[1..] == [];
    assert Gathered(rs, Eixo) == [Saneamento];
    assert Nested(A1, Tipo) == [] && Nested(A1, Subtipo) == [];
    assert Gathered(rs, Tipo) == [];
    assert Gathered(rs, Subtipo) == [];
    assert Linked(rs, Eixo) == [Link("A1", 1)];
    assert Linked(rs, Tipo) == [];
    assert Linked(rs, Subtipo) == [];
    assert ToOperacao(A1) == A1Row;
    assert OperacaoRows(rs) == [A1Row];
    SingletonDedup(A1Row, OperacaoId);
    SingletonDedup(Saneamento, EntryId);
    SingletonDedup(Link("A1", 1), Whole);
  }

  const Abastecimento: Entry := Entry(2, "Abastecimento", Some(1))
  const Adutora: Entry := Entry(3, "Adutora", Some(2))

  /** `A1` with one type under its axis and one subtype under that type. */
  const A1Full: RawRecord := A1.(tipos := [Abastecimento], subTipos := [Adutora])

  /**
   * A single record with one entry per dimension gives one operation row with
   * null parties and the funding source's origin and value, one row per
   * dimension, and one association row per dimension.
   */
  lemma SingleRecordSchema()
    ensures Normalized([A1Full]) == Ok(Schema(
      [A1Row], [Saneamento], [Abastecimento], [Adutora],
      [Link("A1", 1)], [Link("A1", 2)], [Link("A1", 3)]))
  {
    var rs := [A1Full];
    assert rs[..0] == [] && rs[1..] == [];
    assert Gathered(rs, Eixo) == [Saneamento];
    assert Gathered(rs, Tipo) == [Abastecimento];
    assert Gathered(rs, Subtipo) == [Adutora];
    assert Linked(rs, Eixo) == [Link("A1", 1)];
    assert Linked(rs, Tipo) == [Link("A1", 2)];
    assert Linked(rs, Subtipo) == [Link("A1", 3)];
    assert ToOperacao(A1Full) == A1Row;
    assert OperacaoRows(rs) == [A1Row];
    SingletonDedup(A1Row, OperacaoId);
    SingletonDedup(Saneamento, EntryId);
    SingletonDedup(Abastecimento, EntryId);
    SingletonDedup(Adutora, EntryId);
    SingletonDedup(Link("A1", 1), Whole);
    SingletonDedup(Link("A1", 2), Whole);
    SingletonDedup(Link("A1", 3), Whole);
  }

  /** A one-row table has no duplicates to drop. */
  lemma SingletonDedup<T, K>(x: T, key: T -> K)
    ensures DropDuplicates([x], key) == [x]
  {
    assert [x][1..] == [];
  }

  /** Two records that describe axis 7 differently. */
  const First7: RawRecord := RawRecord("B1", [], [], [], [], [Entry(7, "Mobilidade", None)], [], [])
  const Second7: RawRecord := RawRecord("B2", [], [], [], [], [Entry(7, "Transporte", None)], [], [])

  /**
   * The two records normalise (neither lists a type or a subtype, which stops
   * nothing), and axis 7 is stored once, with the description of the first
   * record that mentions it.
   */
  lemma FirstDescriptionWins()
    ensures Normalized([First7, Second7]).Ok?
    ensures Normalized([First7, Second7]).value.eixos == [Entry(7, "Mobilidade", None)]
  {
    var rs := [First7, Second7];
    var mobilidade, transporte := Entry(7, "Mobilidade", None), Entry(7, "Transporte", None);
    assert rs[..1] == [First7] && [First7][..0] == [];
    assert Gathered([First7], Eixo) == [mobilidade];
    var gathered := Gathered(rs, Eixo);
    assert gathered == [mobilidade] + [transporte];
    assert gathered[1..] == [transporte] && [transporte][1..] == [];
    assert DedupBy([transporte], EntryId, {7}) == [];
    assert DedupBy(gathered, EntryId, {}) == [mobilidade] + DedupBy([transporte], EntryId, {7});
  }
}
