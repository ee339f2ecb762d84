/**
 * The raw investment-project records delivered by the open-data API, as the
 * normalisation step sees them: one record per project, with single-valued
 * information held in nested lists and the classification in three lists of entries.
 */
module Records {
  import opened Wrappers

  /**
   * The predicted investment value of a funding source. Carried through the
   * pipeline unchanged: no arithmetic, rounding or DECIMAL(15,2) conversion is modelled.
   */
  type Amount = int

  /** An element of `tomadores`, `executores` or `repassadores`: a name and a numeric code. */
  datatype Party = Party(nome: string, codigo: int)

  /** An element of `fontesDeRecurso`. */
  datatype FundingSource = FundingSource(origem: string, valorInvestimentoPrevisto: Amount)

  /**
   * An element of `eixos`, `tipos` or `subTipos`. `parent` is the `idEixo` of a
   * tipo and the `idTipo` of a subtipo; an eixo has none.
   */
  datatype Entry = Entry(id: int, descricao: string, parent: Option<int>)

  /** One raw record, keyed by `idUnico`. */
  datatype RawRecord = RawRecord(
    idUnico: string,
    tomadores: seq<Party>,
    executores: seq<Party>,
    repassadores: seq<Party>,
    fontesDeRecurso: seq<FundingSource>,
    eixos: seq<Entry>,
    tipos: seq<Entry>,
    subTipos: seq<Entry>)

  /** The three classification dimensions. */
  datatype Dim = Eixo | Tipo | Subtipo

  /** The nested list of a record that feeds dimension `d`. */
  function Nested(r: RawRecord, d: Dim): seq<Entry>
  {
    match d
    case Eixo => r.eixos
    case Tipo => r.tipos
    case Subtipo => r.subTipos
  }

  /** The `id` column of an entry, the dimension tables' key. */
  function EntryId(e: Entry): int { e.id }

  /** The `idUnico` column of a record, the fact table's key. */
  function RecordId(r: RawRecord): string { r.idUnico }
}
