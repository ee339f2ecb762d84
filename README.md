# Investment-project ETL: normalisation and full refresh

This project models the core of the ETL script `scripts/processa_dados.py`, in Dafny. The script takes the raw records of federal investment projects and turns them into a small star schema in MySQL, for a dashboard to read.

- `operacoes` is the fact table: one row per project (`idUnico`).
- `eixos`, `tipos` and `subtipos` are the dimension tables for the three classification levels.
- `operacao_eixo_rel`, `operacao_tipo_rel` and `operacao_subtipo_rel` are the association tables. Each pairs a project with one entry of a dimension.

The model has two parts.

**Normalisation** (module `Normalization`, on top of `Records` and `Dedup`):
- Each single-valued attribute of a record (borrower, executor, transfer agent, funding source) is collapsed by the first-element-or-null rule.
- The extraction loop walks the records and appends every nested `eixos` / `tipos` / `subTipos` entry to a list. It also appends the pair `(idUnico, entry id)` to the matching association list.
- pandas' `drop_duplicates` is modelled once, generically, as a scan that keeps a row exactly when no earlier row has the same key. Three tables use it:
  - the dimension tables, keyed by `id`;
  - the association tables, keyed by the whole row;
  - the fact table, keyed by `idUnico`.
- The fact table is projected to its nine columns.
- `Normalized` is the specification of the whole step and `Normalize` the method that follows the script. The result is a `Result`: either the seven tables, or `Err(NoRecords)` when the script stops (see below).

**Full refresh** (module `Store`):
- The database is a `Database` object. It holds a map from table name to rows, the session's `FOREIGN_KEY_CHECKS` flag, and a ghost log of the statements it accepted.
- The store enforces what the declared schema asks of MySQL:
  - primary keys, always;
  - foreign keys, while the checks are on;
  - no `TRUNCATE` of a table that a foreign key points to, unless the checks are off.
- Each `to_sql(..., if_exists='append')` is one all-or-nothing insert.
- `Clear` is the truncate block:
  - checks off;
  - the seven tables emptied, association tables first;
  - checks on.
- `Load` is the load block: seven appends in the script's order, each loading a table only after every table it references.
- `RunPipeline` is normalisation followed by clear-and-load.

`Scenarios` holds concrete runs of the normalisation on hand-written records.

The script stops in one case only. Selecting columns of an empty DataFrame (line 84) raises KeyError, so an empty batch stops the run before anything reaches the store; the model returns `Err(NoRecords)`.
A dimension that no record lists is no failure. Its list stays empty, `drop_duplicates` returns an empty frame as it is (lines 129-144), and `to_sql` appends no rows. So the model yields an empty dimension table and an empty association table for it, and loads the other tables as usual.
`Scenarios.RecordWithoutTypesLoadsAxisOnly` shows this for a record that lists an axis but no type and no subtype.

## Model

| member | source | states |
|---|---|---|
| Dedup.DedupBy | scripts/processa_dados.py:129-149 | a kept row's key is not among the keys already seen and occurs in the input; the output is never longer than the input |
| Dedup.DedupByDistinct | scripts/processa_dados.py:129-149 | after deduplication no two rows share a key |
| Dedup.DedupByKeys | scripts/processa_dados.py:129-149 | the kept keys are exactly the input's keys minus those already seen, so no key is lost |
| Dedup.DedupByFirstInOrder | scripts/processa_dados.py:129-149 | each kept row is the first input row with its key (`keep='first'`); kept rows are in the order of those first positions |
| Dedup.DropDuplicatesSpec | scripts/processa_dados.py:129-149 | `drop_duplicates(subset=key)`: keys are distinct, the key set is unchanged, and rows are the first occurrences in input order |
| Normalization.FirstOrNull | scripts/processa_dados.py:86-96 | null exactly when the list is empty; otherwise the field of element 0 |
| Normalization.ToOperacao | scripts/processa_dados.py:86-96 | the id is `idUnico`; each party's name and code are null when its list is empty, else those of element 0; funding origin and predicted value come from the same element 0, and are both null exactly when there is no funding source |
| Normalization.ToOperacaoReadsOnlyHeads | scripts/processa_dados.py:86-96 | elements after the first of each single-valued list do not affect the row |
| Normalization.AppendNested | scripts/processa_dados.py:114-124 | one inner loop appends the record's entries, in order, and one pair (record id, entry id) per entry |
| Normalization.ExtractNested | scripts/processa_dados.py:101-124 | the six lists start empty and end as the entries and pairs of all records, in record order then entry order |
| Normalization.LinksFollowEntries | scripts/processa_dados.py:111-124 | before deduplication there are as many pairs as gathered entries and as nested entries in total; the k-th pair is (id of the record that holds the k-th gathered entry, that entry's id), the entry sitting after all entries of earlier records |
| Normalization.LinksCoverEntries | scripts/processa_dados.py:111-124 | every nested entry of every record has its pair (record id, entry id) |
| Normalization.Normalize | scripts/processa_dados.py:84-185 | the extraction loop, then the deduplications and projection, give exactly the specified schema, or stop on an empty batch |
| Normalization.NormalizedFails | scripts/processa_dados.py:84 | the run stops if and only if the batch is empty |
| Normalization.EmptyDimensionLoadsNoRows | scripts/processa_dados.py:111-144 | in a non-empty batch, a dimension that no record lists stops nothing and gives an empty dimension table and an empty association table |
| Normalization.LinkOwner | scripts/processa_dados.py:111-124 | names the record and the position in its list of the entry behind each association row before deduplication |
| Normalization.FactRowsKeepRecordIds | scripts/processa_dados.py:149-185 | deriving and projecting the columns keeps every record's id and the position of each id's first record |
| Normalization.FactTableKeepsFirstRecord | scripts/processa_dados.py:149 | the fact table's ids are distinct and equal the input's ids; each row is built from the first record with its id; rows keep the order of those records |
| Normalization.DimensionTableFirstWins | scripts/processa_dados.py:129-141 | a dimension table's ids are distinct and equal the gathered ids; each row is the first gathered entry with its id; gathering order is kept |
| Normalization.AssociationTableExact | scripts/processa_dados.py:132-144 | an association table has no duplicate pair and the same pairs as before deduplication: every (record id, entry id) pair of a record and one of its own entries, and no other pair; hence each id names an input record and a gathered entry |
| Normalization.ReferentialIntegrity | scripts/processa_dados.py:111-149 | every association row's operation id is in the fact table and its dimension id in the matching dimension table |
| Store.ReferencesAreDeclared | scripts/processa_dados.py:241-289 | every reference a row makes follows a foreign key declared on its table, and no table references itself |
| Store.NormalizedKeysUnique | scripts/processa_dados.py:129-149 | the primary key of each of the seven normalised tables is pairwise distinct |
| Store.NormalizedIsLoadable | scripts/processa_dados.py:274-289 | normalised tables meet every primary key and the association tables' foreign keys; only the parent columns of `tipos` and `subtipos` are left to the data |
| Store.LinkReferencesResolve | scripts/processa_dados.py:274-289 | once the fact table and a dimension table are stored, every reference of that dimension's association rows resolves |
| Store.FactAdmitted | scripts/processa_dados.py:309 | appending the fact table to an empty `operacoes` is accepted |
| Store.DimAdmitted | scripts/processa_dados.py:310-312 | appending a dimension table to its empty table is accepted once its parent table holds its rows |
| Store.LinkAdmitted | scripts/processa_dados.py:313-315 | appending an association table to its empty table is accepted once the fact table and its dimension table are stored |
| Store.AppendAdmitted | scripts/processa_dados.py:309-315 | after the earlier tables of the load order, the next table's append into a fresh store is accepted whatever the checks |
| Store.TruncateOrderChildrenFirst | scripts/processa_dados.py:296-304 | the clear block truncates each of the seven tables exactly once, each before every table it references |
| Store.LoadOrderParentsFirst | scripts/processa_dados.py:309-315 | the load block appends each of the seven tables exactly once, each after every table it references |
| Store.EmptyHasNoOrphans | scripts/processa_dados.py:296-304 | a store whose tables are all empty has no dangling reference |
| Store.TruncateKeepsNoOrphans | scripts/processa_dados.py:297-303 | truncating a table no foreign key points to leaves no dangling reference |
| Store.AppendKeepsNoOrphans | scripts/processa_dados.py:309-315 | an insert accepted with the checks on leaves no dangling reference |
| Store.Database.constructor | scripts/processa_dados.py:293 | after `create_all` the seven tables exist, empty, with the checks on |
| Store.Database.SetForeignKeyChecks | scripts/processa_dados.py:296-304 | sets the flag and leaves the rows alone |
| Store.Database.Truncate | scripts/processa_dados.py:297-303 | refused exactly when the checks are on and the table is referenced; otherwise the table is emptied and nothing else changes |
| Store.Database.Append | scripts/processa_dados.py:309-315 | all rows are appended when the insert is admitted (fitting rows, new and distinct keys, references resolved while the checks are on), none otherwise; no dangling reference appears |
| Store.Database.Clear | scripts/processa_dados.py:295-305 | the clear block cannot fail; it leaves every table empty and the checks on, and logs its nine statements |
| Store.Database.AppendTable | scripts/processa_dados.py:309-315 | one `to_sql` of the load block appends one table of the schema in its turn, or changes nothing; no dangling reference appears |
| Store.Database.LoadEntities | scripts/processa_dados.py:309-312 | the fact and dimension appends, in order, stopping at the first refusal |
| Store.Database.LoadAssociations | scripts/processa_dados.py:313-315 | the three association appends, in order, stopping at the first refusal |
| Store.Database.Load | scripts/processa_dados.py:309-315 | on success, each table has gained exactly its normalised rows and the log the seven appends; a refusal leaves a prefix of the load applied; no dangling reference appears; into an empty store a loadable schema is always accepted |
| Store.Database.FullRefresh | scripts/processa_dados.py:295-315 | from any prior state, the store ends with the checks on and no dangling reference, holding exactly the normalised tables, or, after a refused insert, exactly the tables of the load order before it (the rest empty); a loadable schema is never refused |
| Store.RunPipeline | scripts/processa_dados.py:84-315 | an empty batch leaves the store untouched; otherwise the store ends with no dangling reference and holds exactly the normalised tables, or a prefix of them in load order after a refused insert; when the parent columns resolve, no insert is refused |
| Scenarios.RecordWithoutTypesLoadsAxisOnly | scripts/processa_dados.py:86-149 | a single record with an axis but no type and no subtype gives its operation row, the axis and its pair, and empty type and subtype tables |
| Scenarios.SingleRecordSchema | scripts/processa_dados.py:86-149 | a single record with one entry per level gives one fact row with null parties and the funding source's values, one row per dimension and one pair per association table |
| Scenarios.FirstDescriptionWins | scripts/processa_dados.py:129 | two records describing axis 7 differently normalise, and the axis is stored once, with the first record's description |

## Left out

- `fetch_data` (`scripts/processa_dados.py:13-48`): HTTP paging, sleeping on HTTP 429 and retrying. This is network I/O. The records reach the model as a parameter.
- `get_data_from_api_or_cache` (`scripts/processa_dados.py:52-78`): reading and writing the JSON cache file. This is filesystem I/O.
- The MySQL connection and its retry loops, and the `exit(1)` paths (`scripts/processa_dados.py:196-234`). These are connectivity glue; the model starts from a connected store.
- `metadata.create_all`, `conn.execute` and `to_sql` as real SQLAlchemy/MySQL calls. Only their effect on table contents and on the checks flag is modelled, through an abstract store.
  - The store stands for one session.
  - Column types and lengths (`String(255)`, `String(100)`, `BIGINT`) are not checked.
- `Store.Database.Append`: one rejected `to_sql` is modelled as rejecting all of its rows. How a partly failed multi-row insert really behaves depends on the driver and is not modelled.
- The numeric semantics of `valorInvestimentoPrevisto`: a JSON float in the source, stored as DECIMAL(15,2). It is an opaque integer `Amount` that is only copied, with no rounding or range.
- NaN values, and records without some of the keys. Every `RawRecord` carries an `idUnico` and all the nested lists, and the `nome` column selected at line 84 is not part of the record. pandas' null-filling of missing columns is not modelled.
- `Store.RunPipeline` and `Store.Database.FullRefresh`: the foreign keys `tipos.id_eixo -> eixos` and `subtipos.id_tipo -> tipos` (lines 250 and 257) are not guaranteed by the normalisation. Success of the load is therefore stated under the hypothesis `ParentsResolve`.
- Console output (`print`) throughout the script. It is not modelled.
- `dashboard/app.py` in full (Streamlit UI, the SQL aggregate query, float KPIs, the connection cache). It only reads the tables and is not part of this model.
