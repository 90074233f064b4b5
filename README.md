# GDP / CO2 pipeline — a Dafny model

This project models the core of a small batch ETL pipeline. The pipeline joins two public datasets by country and year:

- a World Bank GDP-per-capita indicator, read from a paginated REST API;
- a CO2-per-capita table scraped from a Wikipedia page.

It then builds a curated table and two analytical artifacts from the joined data. Runs and checkpoints are tracked in a ledger that has two backends: a local JSON file and a DynamoDB table. Bytes and tables are kept by a storage adapter that has two backends: the local filesystem and S3.

There is one Dafny module per source file. Every module imports `Common`, which holds:

- Option/Result;
- a JSON value type;
- the Python string methods the code relies on (strip, split, join, lower, `int()`, `float()`);
- string ordering and sorting;
- first- and last-kept deduplication;
- grouping rows by year.

The modules, one per source file:

- `Ledger` (src/metadata/store.py) is a class `LocalStore`. It holds the list of runs and the checkpoint map. Its methods append to and update them in place.
- `MetadataAdapters` (src/adapters/metadata.py) has two classes:
  - `LocalMetadataAdapter` forwards every call to the ledger.
  - `DynamoMetadataAdapter` keeps the table as a map from (pk, sk) to items. Its `end_run` builds an update expression, and the model parses and applies that expression.
- `WorldBankIngestion` (src/ingestion_api/world_bank_ingestion.py) covers:
  - pagination over a fetch function;
  - the year filter;
  - the incremental watermark, with its checkpoint and lower bound;
  - record enrichment with an abstract hash;
  - run bookkeeping.
- `WorldBankGdpProcessed`, `WikipediaCo2Processed`, `CountryMapping` and `CuratedEconEnvironment` (src/transformations/) cover:
  - the per-record transforms;
  - country-name normalisation;
  - the float parser and its sentinels;
  - the unpivot;
  - the mapping merge with its precedence rules;
  - the curated left join and the derived metric;
  - the year-partitioned saves.
- `WikipediaCo2Crawler` (src/crawler/wikipedia_co2_crawler.py) works over an abstract HTML table: a caption, a text and rows of cells. It covers cell cleaning, table choice, row parsing and run bookkeeping.
- `EconEnvironmentAnalytics` (src/analysis/econ_environment_analytics.py) covers:
  - snapshot dates in paths;
  - the choice of the latest-snapshot file;
  - the keep-last deduplication;
  - the top-5 text;
  - the shape of the per-year correlation summary;
  - the scatter's row selection.
- `Storage` (src/adapters/storage.py) has two classes, `S3StorageAdapter` and `LocalStorageAdapter`. Each keeps its objects or files as a map. The module covers key normalisation and listing.
- `EnvLoader` (src/env_loader.py) is the `.env` loader. The model is a class whose variable map is updated line by line.
- `Retry` (src/common/retry.py) is the retry loop. It runs over an abstract sequence of attempt outcomes and jitter values.
- `Models` and `LegacyIngestion` (src/pipeline/) cover:
  - the dataset registry and its JSON round trip;
  - the older CSV ingestion path with its page loop, row filters and dispatch.

Loops in the source become methods with loop invariants. Each of these methods is proved equal to a reference function, and the properties the source promises are proved as lemmas about those functions.

Two facts about the code shape the model:

- The Wikipedia crawler has no revision-id check and no skip path: it always fetches, and closes its run with no checkpoint.
- The curated join is a left merge followed by a filter on a non-null CO2 value, so GDP-only pairs are counted and then dropped.

## Model

| member | source | states |
|---|---|---|
| Ledger.OpenRun | src/metadata/store.py:106-116 | the appended record carries the given id, scope and start time, status RUNNING, and no end time, row count, checkpoint or error |
| Ledger.CloseRun | src/metadata/store.py:169-179 | end time and status are always set; row count, checkpoint and error change only when the argument is non-null; the checkpoint is kept as its `str()` text; id, scope and start time are kept |
| Ledger.FindLast | src/metadata/store.py:160-164 | the scan from the end finds nothing iff no run has the id, and otherwise finds a run with the id after which no run has it |
| Ledger.RunsOfScope | src/metadata/store.py:251-259 | a run is listed iff it is in the ledger and in the requested scope (every run without a scope) |
| Ledger.ListAllRuns | src/metadata/store.py:257-258 | without a scope the listing is the whole list, in order |
| Ledger.RunsOfScopeAppend | src/metadata/store.py:251-259 | the listing is an order-preserving filter: appending a run extends its own scope's listing by that run and no other scope's |
| Ledger.Lookup | src/metadata/store.py:216-220 | the stored value for a known source, the default for an unknown one |
| Ledger.LoadAfterSave | src/metadata/store.py:199-200 | a saved checkpoint reads back as saved and every other source reads as before (last write wins) |
| Ledger.LocalStore.constructor | src/metadata/store.py:53-55 | a store that does not exist yet reads as no runs and no checkpoints |
| Ledger.LocalStore.StartRun | src/metadata/store.py:104-121 | exactly one open run is appended, earlier runs and all checkpoints unchanged, and its id is returned |
| Ledger.LocalStore.EndRun | src/metadata/store.py:157-182 | an unknown id fails with KeyError and changes nothing; otherwise only the last run with the id is replaced, by its closed form, which is returned; checkpoints are never touched |
| Ledger.LocalStore.SaveCheckpoint | src/metadata/store.py:185-203 | the checkpoint map gains or overwrites exactly that source; runs are unchanged |
| Ledger.LocalStore.GetLastRun | src/metadata/store.py:223-248 | none for an empty ledger; the last run without a scope; with a scope, none iff no run has it, else a run of that scope after which no run has it |
| Ledger.LocalStore.ResetLocalStore | src/metadata/store.py:270-288 | both collections are emptied and their former sizes returned |
| MetadataAdapters.LocalMetadataAdapter.constructor | src/adapters/metadata.py:49-52 | the local adapter wraps the given ledger store |
| MetadataAdapters.LocalMetadataAdapter.StartRun | src/adapters/metadata.py:54-55 | returns the new run's id and appends exactly the opened run to the ledger, leaving checkpoints alone |
| MetadataAdapters.LocalMetadataAdapter.EndRun | src/adapters/metadata.py:57-72 | delegates to the ledger: an unknown id is an error that changes nothing; otherwise the latest run with the id is replaced by its closed form, which is also returned |
| MetadataAdapters.LocalMetadataAdapter.SaveCheckpoint | src/adapters/metadata.py:74-75 | the checkpoint map gets the value under the source; runs are untouched |
| MetadataAdapters.LocalMetadataAdapter.LoadCheckpoint | src/adapters/metadata.py:77-78 | the stored value when the source has one, else the default |
| MetadataAdapters.LocalMetadataAdapter.ListRuns | src/adapters/metadata.py:80-81 | a run is listed iff it is in the ledger and in scope; no scope lists every run in order |
| MetadataAdapters.RunKeyInjective | src/adapters/metadata.py:109 | distinct run ids get distinct `RUN#` partition keys |
| MetadataAdapters.RunKey | src/adapters/metadata.py:109 | the item key `RUN#<id>` / `META` of a run; RunKeyInjective and RunAndCheckpointKeysDiffer state its properties |
| MetadataAdapters.CheckpointKeyInjective | src/adapters/metadata.py:164 | distinct sources get distinct `CHECKPOINT#` partition keys |
| MetadataAdapters.CheckpointKey | src/adapters/metadata.py:164 | the item key `CHECKPOINT#<source>` / `META`; CheckpointKeyInjective and CheckpointKeyIsNotRunKey state its properties |
| MetadataAdapters.RunAndCheckpointKeysDiffer | src/adapters/metadata.py:109-164 | a run item and a checkpoint item never share a key, so neither kind of write overwrites the other |
| MetadataAdapters.StartRunItemMirrorsLocal | src/adapters/metadata.py:107-119 | the item start_run puts holds exactly the fields of the local store's freshly opened run (RUNNING, nulls elsewhere) |
| MetadataAdapters.ParseActions | src/adapters/metadata.py:152 | a parsed SET clause list has one action per comma-separated piece |
| MetadataAdapters.CommaJoinedParses | src/adapters/metadata.py:152 | joining end_run's clauses with `", "` gives an UpdateExpression that parses back to exactly those actions |
| MetadataAdapters.BlankJoinedRejected | src/adapters/metadata.py:152 | joining two or more well-formed clauses with a blank, as written, gives an UpdateExpression the service rejects as a syntax error |
| MetadataAdapters.EndRunPartsShape | src/adapters/metadata.py:135-150 | the clause texts end_run builds are `set #status = :status`, `end_ts = :end_ts`, then the rows, checkpoint and error clauses for each argument that is not null, in that order |
| MetadataAdapters.EndRunPlaceholders | src/adapters/metadata.py:136-150 | every value placeholder the clauses use is bound and every bound one is used; the only name placeholder is `#status` |
| MetadataAdapters.AsWrittenEndRunRejected | src/adapters/metadata.py:152-159 | whatever the optional arguments and the table's contents, the update end_run sends as written fails with a syntax error |
| MetadataAdapters.EndRunUpdateApplies | src/adapters/metadata.py:134-160 | with the clauses comma-joined the update succeeds and returns the run item with status and end time set and each non-null optional field set |
| MetadataAdapters.ApplyEndRunActions | src/adapters/metadata.py:135-150 | applying end_run's actions to an item sets status, end_ts, rows_processed, last_checkpoint (as text) and error_message exactly as the closed item says |
| MetadataAdapters.ClosedItemMirrorsLocal | src/adapters/metadata.py:84-90 | closing a run's item gives the item of the local store's closed run: both back-ends agree on end_run |
| MetadataAdapters.LoadCheckpointFrom | src/adapters/metadata.py:171-177 | a source with no stored item, or whose item has no `value`, loads the default; otherwise the item's `value` |
| MetadataAdapters.LoadAfterSaveCheckpoint | src/adapters/metadata.py:162-177 | after saving a value for a source, loading it gives that value |
| MetadataAdapters.LoadOtherAfterSaveCheckpoint | src/adapters/metadata.py:162-177 | saving one source's checkpoint does not change what another source loads |
| MetadataAdapters.LoadAfterRunWrite | src/adapters/metadata.py:120-177 | writing a run item does not change any checkpoint load |
| MetadataAdapters.CheckpointKeyIsNotRunKey | src/adapters/metadata.py:181-185 | checkpoint items never pass the scan's `begins_with(pk, "RUN#")` filter |
| MetadataAdapters.ListRunsAfterSaveCheckpoint | src/adapters/metadata.py:162-189 | over the same scanned keys, saving a checkpoint leaves every run listing unchanged |
| MetadataAdapters.StartedRunListed | src/adapters/metadata.py:103-189 | a started run whose key the scan page reaches is listed both unscoped and under its own scope |
| MetadataAdapters.ScopedListing | src/adapters/metadata.py:187-189 | an item is in the scoped listing iff it is in the unscoped listing and its run_scope is the scope |
| MetadataAdapters.ListRunsPages | src/adapters/metadata.py:179-189 | a scan page that reaches more keys lists a superset, and a page that covers the whole table lists every `RUN#` item in scope |
| MetadataAdapters.ListRunsFrom | src/adapters/metadata.py:179-189 | `list_runs` over one scan page, filtered on the `RUN#` prefix and the scope; its properties are the ScopedListing, ListRunsPages, StartedRunListed and ListRunsAfterSaveCheckpoint rows |
| MetadataAdapters.DynamoMetadataAdapter.constructor | src/adapters/metadata.py:92-101 | the adapter starts from the given table contents |
| MetadataAdapters.DynamoMetadataAdapter.Update | src/adapters/metadata.py:153-159 | update_item: on success the key's item is replaced by the returned item; on an error the table is unchanged |
| MetadataAdapters.DynamoMetadataAdapter.StartRun | src/adapters/metadata.py:103-121 | returns the id and puts the opened-run item under `RUN#id`, nothing else changes |
| MetadataAdapters.DynamoMetadataAdapter.EndRunAsWritten | src/adapters/metadata.py:123-160 | as written, end_run always fails with a syntax error and leaves the table unchanged |
| MetadataAdapters.DynamoMetadataAdapter.EndRun | src/adapters/metadata.py:123-160 | with comma-joined clauses, end_run returns the closed item (a bare key item when the run was missing) and stores it under `RUN#id` |
| MetadataAdapters.DynamoMetadataAdapter.SaveCheckpoint | src/adapters/metadata.py:162-169 | puts the checkpoint item under `CHECKPOINT#source`, nothing else changes |
| MetadataAdapters.DynamoMetadataAdapter.LoadCheckpoint | src/adapters/metadata.py:171-177 | a source with no item loads the default |
| MetadataAdapters.DynamoMetadataAdapter.ListRuns | src/adapters/metadata.py:179-189 | only `RUN#` items of the single scan page are listed; every such item in scope is listed; a scoped listing holds only items of that scope |
| WorldBankIngestion.Objects | src/ingestion_api/world_bank_ingestion.py:73-77 | the page's records are the objects of the response's second element, one per element, in order |
| WorldBankIngestion.DecodePage | src/ingestion_api/world_bank_ingestion.py:60-77 | an HTTP failure stays that failure; a body that is not a two-element list is an unexpected-response error, and one whose parts are not an object and a list an unexpected-structure error; a page decodes iff the body has that shape and every record is an object, and then has the first element's metadata and, in order, the fields of each record |
| WorldBankIngestion.FetchAllIndicatorRecords | src/ingestion_api/world_bank_ingestion.py:80-110 | the records are exactly those of the paged reference definition; pages are requested as 1, 2, … in order, as many as the first page's `pages` says (at least one); every page before the last requested decoded, and an error stops at the page that failed |
| WorldBankIngestion.AllIndicatorRecords | src/ingestion_api/world_bank_ingestion.py:80-110 | the reference definition of `fetch_all_indicator_records`: page 1, then pages 2 up to its page count, stopping at the first failure; FetchAllIndicatorRecords is proved equal to it |
| WorldBankIngestion.FetchPagesAfter | src/ingestion_api/world_bank_ingestion.py:101-110 | the loop over pages 2..total gives the accumulated records followed by those pages' records, requests pages 2, 3, … in order, and stops at the first page that fails |
| WorldBankIngestion.PrependTwice | src/ingestion_api/world_bank_ingestion.py:98-110 | yielding two batches in turn is the same as yielding their concatenation |
| WorldBankIngestion.ListIndicatorYears | src/ingestion_api/world_bank_ingestion.py:113-122 | a fetch failure is passed on; otherwise the result is strictly increasing and holds a year iff some record's `date` is all digits with that value |
| WorldBankIngestion.CollectYears | src/ingestion_api/world_bank_ingestion.py:117-121 | the collected years are exactly the years of records with an all-digit `date` |
| WorldBankIngestion.FilterRecordsByYears | src/ingestion_api/world_bank_ingestion.py:135-158 | the filtered list is the records, in order, that pass the year window |
| WorldBankIngestion.FilterKeepsExactlyWindow | src/ingestion_api/world_bank_ingestion.py:148-157 | a record is kept iff it is in the input, its `date` is all digits, its year is above the exclusive lower bound and at most the inclusive upper bound |
| WorldBankIngestion.CheckpointIsExclusive | src/ingestion_api/world_bank_ingestion.py:153-154 | the lower bound is exclusive: the checkpoint year itself is skipped, the next year kept |
| WorldBankIngestion.ParseCheckpoint | src/ingestion_api/world_bank_ingestion.py:190-196 | a missing checkpoint gives no year; a stored integer gives that year |
| WorldBankIngestion.NonIntegerCheckpointIgnored | src/ingestion_api/world_bank_ingestion.py:193-196 | a boolean, float, list or object checkpoint does not parse to a year (`int(str(x))` raises and is caught) |
| WorldBankIngestion.CheckpointRoundTrip | src/ingestion_api/world_bank_ingestion.py:194-259 | the text the ingestion saves as checkpoint parses back to the same year |
| WorldBankIngestion.LowerBound | src/ingestion_api/world_bank_ingestion.py:199-202 | the exclusive lower bound is the checkpoint, replaced by `min_year - 1` when there is no checkpoint or `min_year` is above it |
| WorldBankIngestion.MaxYearIsMaximum | src/ingestion_api/world_bank_ingestion.py:222-232 | the running maximum is none iff no record has a year; otherwise it is the year of some record and no record's year exceeds it |
| WorldBankIngestion.MaxYear | src/ingestion_api/world_bank_ingestion.py:222-232 | the running `max_ingested_year`; MaxYearIsMaximum states that it is the maximum year of the batch |
| WorldBankIngestion.MaxYearOrderIndependent | src/ingestion_api/world_bank_ingestion.py:222-232 | the maximum does not depend on the records' order |
| WorldBankIngestion.WatermarkIffNonEmpty | src/ingestion_api/world_bank_ingestion.py:222-258 | the checkpoint is saved iff the filtered batch is non-empty |
| WorldBankIngestion.WatermarkAdvances | src/ingestion_api/world_bank_ingestion.py:199-258 | a saved checkpoint is strictly above the previous one |
| WorldBankIngestion.RerunIngestsNothing | src/ingestion_api/world_bank_ingestion.py:199-259 | rerunning with the checkpoint just saved and the same bounds selects no record |
| WorldBankIngestion.EnrichFields | src/ingestion_api/world_bank_ingestion.py:236-244 | an enriched record has the source fields plus the six audit fields: run id, ingestion time, `world_bank_api`, the file path, the sorted-key payload and its hash |
| WorldBankIngestion.Enrich | src/ingestion_api/world_bank_ingestion.py:236-244 | one enriched record; EnrichFields states its fields and HashIgnoresAudit what its hash depends on |
| WorldBankIngestion.HashIgnoresAudit | src/ingestion_api/world_bank_ingestion.py:125-132 | the payload and record hash depend only on the source record, not on the run, time or file path |
| WorldBankIngestion.ComputeRecordHash | src/ingestion_api/world_bank_ingestion.py:125-132 | `compute_record_hash`: the codec's SHA-1 of the sorted-key dump of the record; EnrichFields and HashIgnoresAudit give its use |
| WorldBankIngestion.EnrichRecords | src/ingestion_api/world_bank_ingestion.py:221-245 | one enriched record per filtered record, in order, and the running maximum year of the batch |
| WorldBankIngestion.IngestWorldBankGdpRaw | src/ingestion_api/world_bank_ingestion.py:161-276 | on a fetch or write failure the run is closed FAILED with the message and no checkpoint is saved; otherwise the file holds the enriched batch, the checkpoint is saved only when the batch has a year, and the run is closed SUCCESS with the row count and the final checkpoint text |
| WorldBankIngestion.CloseIngestRun | src/ingestion_api/world_bank_ingestion.py:262-275 | closing the run just opened replaces only that last ledger entry, leaving checkpoints alone |
| WorldBankGdpProcessed.GdpValue | src/transformations/world_bank_gdp_processed.py:110-117 | a null value gives no GDP; an integer or float gives its number; a list or dict fails `float()` and gives none |
| WorldBankGdpProcessed.TransformRawRecord | src/transformations/world_bank_gdp_processed.py:92-133 | a truthy non-dict `country` raises; a record without a truthy country code, a truthy country name or an all-digit `date` is dropped; a kept record is built iff `indicator` is usable as a dict |
| WorldBankGdpProcessed.TransformedRowFields | src/transformations/world_bank_gdp_processed.py:119-133 | a built row has non-empty code and name, the `date` year, the `str()` of the country code, the converted GDP value, and `world_bank_api` as data source when the record has none |
| WorldBankGdpProcessed.MissingKeyDropped | src/transformations/world_bank_gdp_processed.py:105-107 | a record missing any of the minimum keys is dropped, not turned into a row |
| WorldBankGdpProcessed.BuiltRowsHaveKeys | src/transformations/world_bank_gdp_processed.py:154-157 | every row of the built table has a non-empty country code and name and a non-negative year |
| WorldBankGdpProcessed.BuildWorldBankGdpDataframe | src/transformations/world_bank_gdp_processed.py:136-200 | the table is the kept rows of the file's non-blank lines, in order, under the nine fixed columns even when no row is kept; the first exception is passed on |
| WorldBankGdpProcessed.SaveWorldBankGdpParquetPartitions | src/transformations/world_bank_gdp_processed.py:203-239 | an empty table writes nothing; otherwise one file `year=<y>/processed_worldbank_gdp_per_capita.parquet` per distinct year, in increasing year order, holding exactly that year's rows |
| WorldBankGdpProcessed.ProcessWorldBankGdpRawFile | src/transformations/world_bank_gdp_processed.py:242-258 | the partitions of the table built from the RAW file, one per distinct year of its rows; a failure while building is passed on |
| WikipediaCo2Processed.Sanitize | src/transformations/wikipedia_co2_processed.py:90 | same length; every character outside lower-case ASCII letters, digits and the blank becomes a blank, the others are kept |
| WikipediaCo2Processed.NormalizedNameShape | src/transformations/wikipedia_co2_processed.py:73-92 | a normalised name holds only lower-case letters, digits and single blanks, with no blank at either end (a missing name gives the empty key) |
| WikipediaCo2Processed.NormalizeCountryName | src/transformations/wikipedia_co2_processed.py:73-92 | `normalize_country_name`, None giving the empty key; NormalizedNameShape, NormalizeIdempotent and NormalizeIgnoresCase state its properties |
| WikipediaCo2Processed.NormalizeIdempotent | src/transformations/wikipedia_co2_processed.py:73-92 | normalising a normalised name changes nothing |
| WikipediaCo2Processed.NormalizedNameFixed | src/transformations/wikipedia_co2_processed.py:84-92 | every text of the normalised shape is its own key |
| WikipediaCo2Processed.NormalizeIgnoresCase | src/transformations/wikipedia_co2_processed.py:87 | the key does not depend on letter case |
| WikipediaCo2Processed.ParseFloat | src/transformations/wikipedia_co2_processed.py:112-127 | a null and every missing marker (empty, `-`, en dash, NA, N/A in any case, after stripping) give no value |
| WikipediaCo2Processed.ParseFloatOfIntText | src/transformations/wikipedia_co2_processed.py:121-131 | the text of an integer parses to that number |
| WikipediaCo2Processed.ParseFloatThousands | src/transformations/wikipedia_co2_processed.py:129-131 | a thousands separator is dropped before parsing: `a,b` parses as the digits of `ab` |
| WikipediaCo2Processed.ExtractEmissions | src/transformations/wikipedia_co2_processed.py:136-147 | the 2023 value is read from the per-capita column and the 2000 value from the "% change from 2000" column, each through the float parser |
| WikipediaCo2Processed.RecordAudit | src/transformations/wikipedia_co2_processed.py:172-174 | a record without a truthy `data_source` is credited to `wikipedia_co2` |
| WikipediaCo2Processed.UnpivotRowShape | src/transformations/wikipedia_co2_processed.py:179-221 | a row without a truthy location gives no row; otherwise one row per parsed year value, 2000 before 2023, each well formed with the location, its key, no code or notes, its own year's value and the record's audit fields |
| WikipediaCo2Processed.YearRowsShape | src/transformations/wikipedia_co2_processed.py:193-221 | the rows of one location: as many as there are parsed values, each unpivoted from it, 2000 first |
| WikipediaCo2Processed.BuiltRowsWellFormed | src/transformations/wikipedia_co2_processed.py:171-221 | every row built from a RAW file is well formed: a non-empty name with its normalised key, year 2000 or 2023, a value, no code, no notes |
| WikipediaCo2Processed.UnpivotTableRows | src/transformations/wikipedia_co2_processed.py:179-221 | the loop over a table's rows yields the concatenation of each row's unpivoted rows, or the first exception |
| WikipediaCo2Processed.MissingMappingColumns | src/transformations/wikipedia_co2_processed.py:263-268 | no column is reported missing iff the mapping has all three required columns |
| WikipediaCo2Processed.CombineFirst | src/transformations/wikipedia_co2_processed.py:282-283 | the mapped value where it is present, otherwise the row's own |
| WikipediaCo2Processed.ApplyMapping | src/transformations/wikipedia_co2_processed.py:262-268 | the mapping step fails iff a required column is missing |
| WikipediaCo2Processed.MappingJoin | src/transformations/wikipedia_co2_processed.py:270-284 | the merge keeps the row count; each row keeps every field but code and name, which come from the first mapping row with its key where that row has them; the deduplicated mapping has one row per key |
| WikipediaCo2Processed.BuildWikipediaCo2Dataframe | src/transformations/wikipedia_co2_processed.py:150-286 | the first exception is passed on; with no row built the table holds one all-null row; without a mapping the table is the built rows; with one, the mapping's error or its merged rows |
| WikipediaCo2Processed.SaveWikipediaCo2ParquetPartitions | src/transformations/wikipedia_co2_processed.py:289-340 | an empty table writes nothing; otherwise one file or storage key per distinct non-null year, in increasing order, under the local directory or the processed prefix, holding exactly that year's rows |
| WikipediaCo2Processed.PlaceholderWritesNothing | src/transformations/wikipedia_co2_processed.py:318-320 | the all-null placeholder row has no year, so nothing is written for it |
| WikipediaCo2Processed.BuiltYearsAreKnown | src/transformations/wikipedia_co2_processed.py:193-221 | a built table only has partitions for 2000 and 2023 |
| WikipediaCo2Processed.ProcessWikipediaCo2RawFile | src/transformations/wikipedia_co2_processed.py:343-363 | the partitions of the built (and, when given, mapped) table; a build or mapping failure is passed on |
| CountryMapping.ParquetKeys | src/transformations/country_mapping.py:82-89 | the storage branch reads a key iff it is listed and ends in `.parquet`, in listing order |
| CountryMapping.BuildBaseMapping | src/transformations/country_mapping.py:106-132 | no frame gives the empty mapping; the build fails iff there are frames and their columns lack `country_code` or `country_name` |
| CountryMapping.BaseEntriesShape | src/transformations/country_mapping.py:134-140 | every base entry has code, name, the normalised key of the name and the `world_bank` tag; every row with both code and name contributes its key |
| CountryMapping.BaseMappingShape | src/transformations/country_mapping.py:134-151 | the base mapping has one entry per key, each a normalised name tagged `world_bank`, and the entry of a key is the first complete row with that key |
| CountryMapping.RenormalizeOverride | src/transformations/country_mapping.py:184-188 | an override with a null key raises AttributeError, since `normalize_country_name` calls `lower()` on `pd.NA`; any other keeps its code and name and gets a non-null renormalised key |
| CountryMapping.ResolveSource | src/transformations/country_mapping.py:212-221 | the tag is `override` iff the override row gives a code or a name, or the base entry is already tagged `override` |
| CountryMapping.Index | src/transformations/country_mapping.py:201-206 | the merge's lookup by key holds a key iff some row has it, and gives the first row with that key |
| CountryMapping.PresentKeys | src/transformations/country_mapping.py:234-235 | the non-null keys are exactly those some row has |
| CountryMapping.ApplyOverrides | src/transformations/country_mapping.py:167-199 | no file or an empty one keeps the base unchanged; a non-empty file fails iff it lacks a required column or has a null key, and with every column present the failure is the AttributeError |
| CountryMapping.MergeKeys | src/transformations/country_mapping.py:201-235 | the merged keys are strictly increasing and are exactly the non-null keys of the base and of the overrides |
| CountryMapping.MergedEntries | src/transformations/country_mapping.py:201-235 | one merged entry per merged key, in key order |
| CountryMapping.OverrideMergeKeys | src/transformations/country_mapping.py:201-242 | after the outer merge the keys are strictly increasing, never null, and are exactly the keys of the base and of the renormalised overrides |
| CountryMapping.OverrideWins | src/transformations/country_mapping.py:201-223 | a merged entry takes the override's code and name where the override has them, the base's code and name otherwise (`combine_first`), and the tag of the precedence rule |
| CountryMapping.EmptyBaseTakesOverrides | src/transformations/country_mapping.py:190-199 | over an empty base an override file without null keys comes back one entry per row in order, renormalised and tagged `override` |
| CountryMapping.CountryMappingKeys | src/transformations/country_mapping.py:245-255 | the complete mapping has one entry per key, every key a normalised name, and every entry tagged `world_bank` or `override` |
| CountryMapping.BuildCountryMapping | src/transformations/country_mapping.py:245-255 | `build_country_mapping`: the base mapping with the overrides on top; CountryMappingKeys states the shape of its result |
| CountryMapping.MergedKeysDistinct | src/transformations/country_mapping.py:234-236 | no key occurs twice after the merge |
| CountryMapping.MergedEntryShape | src/transformations/country_mapping.py:201-242 | every merged entry has a normalised key and one of the two tags |
| CountryMapping.BaseEntries | src/transformations/country_mapping.py:134-147 | no more mapping entries than input rows |
| CountryMapping.Lookup | src/transformations/country_mapping.py:201-206 | a key is found iff it is in the index |
| CountryMapping.RenormalizedRows | src/transformations/country_mapping.py:184-188 | the key column's `map`: it fails with the AttributeError iff some row has a null key, and otherwise gives every row renormalised, in order |
| CountryMapping.MergedKeyNormalized | src/transformations/country_mapping.py:201-242 | every key of the merged mapping is a normalised country name |
| CountryMapping.KeyOfEitherNormalized | src/transformations/country_mapping.py:201-206 | a key from either side of the outer merge is normalised |
| CountryMapping.OverrideKeyNormalized | src/transformations/country_mapping.py:167-182 | every override key is normalised after the override file is read |
| CountryMapping.MergedPrecedence | src/transformations/country_mapping.py:213-224 | every merged entry's precedence is `world_bank` or `override` |
| CuratedEconEnvironment.EconConcat | src/transformations/curated_econ_environment_country_year.py:90-93 | the concatenated economic frame keeps only the four expected columns |
| CuratedEconEnvironment.EnvConcat | src/transformations/curated_econ_environment_country_year.py:136-139 | the concatenated CO2 frame keeps only the three expected columns |
| CuratedEconEnvironment.MissingSubset | src/transformations/curated_econ_environment_country_year.py:104 | no column is reported missing iff both `country_code` and `year` are present |
| CuratedEconEnvironment.LoadEcon | src/transformations/curated_econ_environment_country_year.py:61-106 | no directory or no file gives the empty frame with the four columns; the load fails iff files exist and lack `country_code` or `year` |
| CuratedEconEnvironment.LoadEnv | src/transformations/curated_econ_environment_country_year.py:109-150 | no directory or no file gives the empty frame with the three columns; the load fails iff files exist and lack `country_code` or `year` |
| CuratedEconEnvironment.LoadEconShape | src/transformations/curated_econ_environment_country_year.py:104-105 | every loaded row has a code and a year, each (code, year) occurs once, and its row is the first concatenated row with that key |
| CuratedEconEnvironment.LoadEnvShape | src/transformations/curated_econ_environment_country_year.py:148-149 | every loaded row has a code and a year, each (code, year) occurs once, and its row is the first concatenated row with that key |
| CuratedEconEnvironment.Partners | src/transformations/curated_econ_environment_country_year.py:202-207 | the CO2 rows merged with an economic row are exactly those with its (code, year) |
| CuratedEconEnvironment.Co2Per1000UsdGdp | src/transformations/curated_econ_environment_country_year.py:227-237 | the metric is present iff GDP and CO2 are present and GDP is positive, and then equals CO2 × 1000 / GDP |
| CuratedEconEnvironment.CuratedRows | src/transformations/curated_econ_environment_country_year.py:232-252 | one curated row per kept joined row, in order |
| CuratedEconEnvironment.BuildCurated | src/transformations/curated_econ_environment_country_year.py:153-269 | an empty side, or one without `country_code`, gives the empty table; any table has the eleven curated columns in order |
| CuratedEconEnvironment.LeftMergeMembership | src/transformations/curated_econ_environment_country_year.py:202-216 | a joined row with CO2 is in the left merge iff its economic row is an input and some CO2 row with the same key carries that value |
| CuratedEconEnvironment.LeftMerge | src/transformations/curated_econ_environment_country_year.py:202-216 | the left merge on (country, year), left rows in order; LeftMergeMembership and LeftMergeOneToOne state its properties |
| CuratedEconEnvironment.CuratedJoin | src/transformations/curated_econ_environment_country_year.py:202-252 | every (economic, CO2) pair with equal keys and a CO2 value gives a curated row, and every curated row comes from such a pair, with both source systems and the run id and snapshot time set |
| CuratedEconEnvironment.MissingCo2Count | src/transformations/curated_econ_environment_country_year.py:209-216 | the rows dropped for lacking CO2 and the rows kept add up to the joined rows |
| CuratedEconEnvironment.LeftMergeOneToOne | src/transformations/curated_econ_environment_country_year.py:202-207 | with one CO2 row per key the left merge keeps each economic row exactly once, in order |
| CuratedEconEnvironment.CuratedUnique | src/transformations/curated_econ_environment_country_year.py:202-216 | with key-unique inputs the curated table has one row per (code, year), and its rows plus the dropped count equal the economic rows |
| CuratedEconEnvironment.SaveCuratedPartitions | src/transformations/curated_econ_environment_country_year.py:289-319 | an empty table writes nothing; otherwise one file `year=<y>/snapshot_date=<d>/…` per distinct non-null year, in increasing order, with the given snapshot date or today's, holding that year's rows |
| CuratedEconEnvironment.BuildAndSaveCurated | src/transformations/curated_econ_environment_country_year.py:322-360 | a build or write failure closes the run FAILED with the message; otherwise the partitions of the built table are written and the run is closed SUCCESS with the row count and `snapshot_date=<d>`; checkpoints are untouched |
| CuratedEconEnvironment.BuildCuratedFromProcessed | src/transformations/curated_econ_environment_country_year.py:272-285 | the curated frame from the two PROCESSED trees; BuildAndSaveCurated states how its failures close the run |
| CuratedEconEnvironment.CuratedHasEveryPair | src/transformations/curated_econ_environment_country_year.py:202-252 | every GDP row with a matching CO2 value (same code and year) appears in the curated table |
| CuratedEconEnvironment.CuratedOnlyPairs | src/transformations/curated_econ_environment_country_year.py:202-252 | every curated row comes from a GDP row and a CO2 row with the same code and year, carries that CO2 value, the two source-system names and the run's id and timestamp |
| CuratedEconEnvironment.PartnersAtMostOne | src/transformations/curated_econ_environment_country_year.py:144-150 | with CO2 rows unique per key, a GDP row has at most one partner |
| CuratedEconEnvironment.MergeRowSingle | src/transformations/curated_econ_environment_country_year.py:202-207 | with CO2 rows unique per key, the left merge gives each GDP row exactly one joined row |
| CuratedEconEnvironment.KeptEconKeysDistinct | src/transformations/curated_econ_environment_country_year.py:202-219 | with both inputs unique per key, the kept joined rows have distinct keys |
| CuratedEconEnvironment.CuratedRowsUnique | src/transformations/curated_econ_environment_country_year.py:221-252 | rows with distinct keys stay distinct after curation |
| CuratedEconEnvironment.FindFirstSkipsFiltered | src/transformations/curated_econ_environment_country_year.py:104-105 | dropping rows with a null key does not change which row a key first finds |
| WikipediaCo2Crawler.RemoveFootnotes | src/crawler/wikipedia_co2_crawler.py:80-81 | removing bracketed footnotes never lengthens the text |
| WikipediaCo2Crawler.RemoveFootnotesChars | src/crawler/wikipedia_co2_crawler.py:81 | footnote removal only deletes characters, it adds none |
| WikipediaCo2Crawler.RemoveFootnotesNoPair | src/crawler/wikipedia_co2_crawler.py:81 | no `[...]` pair is left after removal |
| WikipediaCo2Crawler.RemoveFootnotesIdentity | src/crawler/wikipedia_co2_crawler.py:81 | a text without a `[...]` pair is unchanged |
| WikipediaCo2Crawler.CleanCellTextShape | src/crawler/wikipedia_co2_crawler.py:72-84 | a cleaned cell has no footnote pair, no run of blanks, no blank at either end, and no whitespace other than single blanks |
| WikipediaCo2Crawler.CleanCellText | src/crawler/wikipedia_co2_crawler.py:72-84 | `_clean_cell_text`; CleanCellTextShape and CleanCellTextIdempotent state its properties |
| WikipediaCo2Crawler.CleanCellTextIdempotent | src/crawler/wikipedia_co2_crawler.py:72-84 | cleaning a cleaned cell changes nothing |
| WikipediaCo2Crawler.FirstCo2Table | src/crawler/wikipedia_co2_crawler.py:101-116 | the chosen table is the first, in page order, whose caption mentions emissions per capita, CO2 or carbon dioxide, or whose text mentions CO2 and per capita; none is chosen iff no table matches |
| WikipediaCo2Crawler.CleanTexts | src/crawler/wikipedia_co2_crawler.py:128-129 | one cleaned text per cell, in order |
| WikipediaCo2Crawler.HeaderTexts | src/crawler/wikipedia_co2_crawler.py:127-131 | the headers are exactly the non-empty cleaned texts of the first row's cells |
| WikipediaCo2Crawler.Co2TableChoice | src/crawler/wikipedia_co2_crawler.py:97-137 | no wikitable is an error; a chosen table always has at least one header, each non-empty and clean |
| WikipediaCo2Crawler.Co2TableChoiceIsFirstMatch | src/crawler/wikipedia_co2_crawler.py:101-137 | with a matching table, its HTML and first-row headers are returned, or the no-headers error |
| WikipediaCo2Crawler.Co2TableChoiceFallback | src/crawler/wikipedia_co2_crawler.py:118-137 | with no matching table, the first wikitable is used |
| WikipediaCo2Crawler.SelectCo2Table | src/crawler/wikipedia_co2_crawler.py:101-120 | the loop picks the first matching table, else the first one |
| WikipediaCo2Crawler.TargetTable | src/crawler/wikipedia_co2_crawler.py:101-120 | the table the caption and content rules pick, else the first; SelectCo2Table is proved to pick it |
| WikipediaCo2Crawler.ExtractHeaders | src/crawler/wikipedia_co2_crawler.py:127-131 | the loop collects exactly the header texts |
| WikipediaCo2Crawler.FindCo2TableHtml | src/crawler/wikipedia_co2_crawler.py:87-137 | find_co2_table_html returns the table choice the reference definition gives, errors included |
| WikipediaCo2Crawler.CellValue | src/crawler/wikipedia_co2_crawler.py:164-170 | a header's value is the cleaned cell text when there is such a cell and its text is non-empty, and null otherwise |
| WikipediaCo2Crawler.RowValuesKeys | src/crawler/wikipedia_co2_crawler.py:163-170 | a row dict has exactly the headers as keys |
| WikipediaCo2Crawler.RowValuesAt | src/crawler/wikipedia_co2_crawler.py:164-170 | for the last occurrence of a header, its value is the value of that column's cell (later duplicates overwrite earlier ones) |
| WikipediaCo2Crawler.RowValues | src/crawler/wikipedia_co2_crawler.py:164-170 | the dictionary of one data row; RowValuesKeys, RowValuesAt and RowValuesIgnoresExtraCells state its properties |
| WikipediaCo2Crawler.RowValuesIgnoresExtraCells | src/crawler/wikipedia_co2_crawler.py:145 | cells beyond the headers are ignored |
| WikipediaCo2Crawler.DataRows | src/crawler/wikipedia_co2_crawler.py:153-174 | at most one row dict per table row, each keyed by exactly the headers |
| WikipediaCo2Crawler.DataRowsCount | src/crawler/wikipedia_co2_crawler.py:154-161 | one row dict per table row that has data cells and no header cell |
| WikipediaCo2Crawler.ParseCo2TableRows | src/crawler/wikipedia_co2_crawler.py:140-174 | no `<table>` tag is an error; otherwise the row dicts of the data rows, in order |
| WikipediaCo2Crawler.ParseRowValues | src/crawler/wikipedia_co2_crawler.py:163-170 | the loop builds exactly the row dict of the reference definition |
| WikipediaCo2Crawler.RowsJson | src/crawler/wikipedia_co2_crawler.py:223-227 | one JSON object per row dict, in order |
| WikipediaCo2Crawler.RecordHashIgnoresAudit | src/crawler/wikipedia_co2_crawler.py:177-243 | the record hash is the SHA-1 of the sorted JSON of url, headers and rows alone, whatever the run, time or file path |
| WikipediaCo2Crawler.RawRecordFeedsProcessed | src/crawler/wikipedia_co2_crawler.py:236-245 | the processed layer reads the RAW record's rows back exactly and credits them to this run, time and `wikipedia_co2` |
| WikipediaCo2Crawler.RawRecord | src/crawler/wikipedia_co2_crawler.py:222-244 | the one RAW record of a run; RecordHashIgnoresAudit and RawRecordFeedsProcessed state its properties |
| WikipediaCo2Crawler.ScrapeCo2Page | src/crawler/wikipedia_co2_crawler.py:213-252 | the download, table search and parse yield the record of the reference definition or its first failure |
| WikipediaCo2Crawler.CrawlWikipediaCo2Raw | src/crawler/wikipedia_co2_crawler.py:186-269 | any failure closes the run FAILED with its message; success returns the RAW output and closes the run SUCCESS with the row count and no checkpoint; checkpoints are untouched |
| WikipediaCo2Crawler.CloseCrawlRun | src/crawler/wikipedia_co2_crawler.py:255-268 | closing the crawl's run replaces only that last ledger entry |
| EconEnvironmentAnalytics.SnapshotValue | src/analysis/econ_environment_analytics.py:53-54 | the snapshot value is everything after the first `=` of `snapshot_date=` |
| EconEnvironmentAnalytics.FirstSnapshotIndex | src/analysis/econ_environment_analytics.py:52-55 | the first path segment starting with `snapshot_date=`, none iff no segment does |
| EconEnvironmentAnalytics.ExtractSnapshotDateFromPath | src/analysis/econ_environment_analytics.py:45-55 | the loop over the segments, after backslashes become slashes, returns the snapshot date of the reference definition |
| EconEnvironmentAnalytics.PartitionPathParts | src/analysis/econ_environment_analytics.py:51 | a curated partition path splits into the output directory's segments, `year=<y>`, `snapshot_date=<d>` and the file name |
| EconEnvironmentAnalytics.SnapshotOfPartitionPath | src/analysis/econ_environment_analytics.py:45-55 | the snapshot date read back from a curated partition path is the date it was written with |
| EconEnvironmentAnalytics.SnapshotOfCuratedOutput | src/analysis/econ_environment_analytics.py:45-55 | under the default curated directory, reading the snapshot back from a written path gives its date |
| EconEnvironmentAnalytics.SnapKeys | src/analysis/econ_environment_analytics.py:92-96 | one sort key per candidate: its snapshot date, or the empty text without one |
| EconEnvironmentAnalytics.LatestIndex | src/analysis/econ_environment_analytics.py:96-97 | the candidate kept has the greatest snapshot key, and is the last such in listing order (the sort is stable) |
| EconEnvironmentAnalytics.LatestCandidate | src/analysis/econ_environment_analytics.py:96-97 | the loop finds exactly the candidate of the reference definition |
| EconEnvironmentAnalytics.Candidates | src/analysis/econ_environment_analytics.py:84-108 | locally the year directory's files; from storage, exactly the listed keys under `curated/…/year=<y>` that end in the curated file name |
| EconEnvironmentAnalytics.ChosenShape | src/analysis/econ_environment_analytics.py:88-113 | no candidate reads nothing; without latest-only every candidate is read; with it exactly one, the last of the greatest snapshot |
| EconEnvironmentAnalytics.LoadCuratedForYears | src/analysis/econ_environment_analytics.py:58-146 | the loop over years and files reads exactly the rows of the reference definition |
| EconEnvironmentAnalytics.ReadFiles | src/analysis/econ_environment_analytics.py:98-100 | the rows of the chosen files, concatenated in order |
| EconEnvironmentAnalytics.LoadedRowsShape | src/analysis/econ_environment_analytics.py:141-146 | the loaded rows have one row per (code, year), all from the files read, and for each key the row kept is the last one read |
| EconEnvironmentAnalytics.RankableRows | src/analysis/econ_environment_analytics.py:264 | the rankable rows are those with a metric and a name; none iff no row has both |
| EconEnvironmentAnalytics.InsertRanked | src/analysis/econ_environment_analytics.py:268-271 | inserting into a ranked list keeps it ranked and adds exactly that row |
| EconEnvironmentAnalytics.SortRanked | src/analysis/econ_environment_analytics.py:268-270 | the ranked list is ordered by the metric (descending for the highest, ascending for the lowest) and a permutation of the input |
| EconEnvironmentAnalytics.Top5Selection | src/analysis/econ_environment_analytics.py:268-271 | the top list holds min(5, n) rows of the input, and none of the rows left out ranks before one taken |
| EconEnvironmentAnalytics.Top5 | src/analysis/econ_environment_analytics.py:268-271 | `.head(5)` of the rows sorted by the metric; Top5Selection states that it holds the best min(5, n) rows |
| EconEnvironmentAnalytics.Entries | src/analysis/econ_environment_analytics.py:272-278 | one `name: value` entry per top row, in order |
| EconEnvironmentAnalytics.FormatTop5Empty | src/analysis/econ_environment_analytics.py:264-266 | the text is empty iff no row has both metric and name |
| EconEnvironmentAnalytics.FormatTop5Entries | src/analysis/econ_environment_analytics.py:272-279 | split at `;`, the text gives back exactly the top entries, min(5, n) of them |
| EconEnvironmentAnalytics.FormatTop5Countries | src/analysis/econ_environment_analytics.py:255-279 | `_format_top5_countries`; FormatTop5Empty and FormatTop5Entries state when it is empty and what its entries are |
| EconEnvironmentAnalytics.BuildCorrelationSummary | src/analysis/econ_environment_analytics.py:293-367 | no loaded row gives an empty summary; otherwise one summary row per requested year, in order |
| EconEnvironmentAnalytics.SummaryCorrelation | src/analysis/econ_environment_analytics.py:342-353 | each summary row is for its year, and has a correlation iff some row of that year has both GDP and CO2 |
| EconEnvironmentAnalytics.SummaryFor | src/analysis/econ_environment_analytics.py:342-353 | the summary row of one year; SummaryCorrelation and SummaryTop5 state its correlation and top-5 cells |
| EconEnvironmentAnalytics.SummaryTop5 | src/analysis/econ_environment_analytics.py:343-356 | the top-5 texts of a year are empty iff no row of that year with GDP and CO2 also has a metric and a name |
| EconEnvironmentAnalytics.ScatterRows | src/analysis/econ_environment_analytics.py:165-173 | no data and no valid rows are the two errors; otherwise the plotted rows are exactly the rows with GDP, CO2 and the metric |
| EconEnvironmentAnalytics.AnalyticsKeyParts | src/analysis/econ_environment_analytics.py:244-246 | the storage key is `analytics/<date>/<file>` |
| EconEnvironmentAnalytics.AnalyticsKey | src/analysis/econ_environment_analytics.py:244-246 | `analytics/<YYYYMMDD>/<name>`; AnalyticsKeyParts states its three parts |
| Storage.NormalizeBasePrefix | src/adapters/storage.py:126 | the stored prefix is the given one with every trailing `/` removed, and empty when none is given |
| Storage.LogicalOfFullKey | src/adapters/storage.py:129-133 | stripping the base prefix from a full key gives back the logical key without its leading slashes |
| Storage.FullKey | src/adapters/storage.py:129-133 | `_full_key`; FullKeySingleSlash and LogicalOfFullKey state its shape and inverse |
| Storage.LogicalKey | src/adapters/storage.py:167-171 | the logical key `list_keys` reports for an object key; LogicalOfFullKey states that it inverts FullKey |
| Storage.FullKeySingleSlash | src/adapters/storage.py:129-133 | under a base prefix a full key is `<prefix>/<key>` with exactly one slash between them |
| Storage.ListPrefix | src/adapters/storage.py:161 | the listing prefix ends in exactly one `/`, after the full key with its trailing slashes removed |
| Storage.S3LocationParts | src/adapters/storage.py:138 | the location is `s3://<bucket>/` followed by the full key |
| Storage.ConcatSnoc | src/adapters/storage.py:164-171 | the pages' keys concatenate one page at a time |
| Storage.LogicalKeys | src/adapters/storage.py:166-171 | one logical key per listed object, in listing order |
| Storage.LogicalKeysSnoc | src/adapters/storage.py:166-171 | listing one more object appends its logical key |
| Storage.LogicalKeysAppend | src/adapters/storage.py:164-171 | the logical keys of two pages are those of each page, in order |
| Storage.ListingOfWrittenKeys | src/adapters/storage.py:129-171 | listing the objects written under logical keys gives back those keys, leading slashes removed |
| Storage.S3StorageAdapter.constructor | src/adapters/storage.py:116-127 | the adapter holds its bucket, the normalised base prefix and the bucket's objects |
| Storage.S3StorageAdapter.WriteRaw | src/adapters/storage.py:135-138 | the bytes are stored under the full key, nothing else changes, and the `s3://` location is returned |
| Storage.S3StorageAdapter.ReadRaw | src/adapters/storage.py:140-143 | the bytes stored under the full key, or a missing-key error |
| Storage.S3StorageAdapter.WriteParquet | src/adapters/storage.py:145-151 | the encoded table is stored under the full key and its location returned |
| Storage.S3StorageAdapter.ReadParquet | src/adapters/storage.py:153-158 | the decoded bytes under the full key, or a missing-key error |
| Storage.S3StorageAdapter.ListKeys | src/adapters/storage.py:160-172 | every page of the listing under the normalised prefix, in order, each key with the base prefix removed |
| Storage.S3StorageAdapter.StripPage | src/adapters/storage.py:166-171 | one page's keys, each with the base prefix removed |
| Storage.LocalStorageAdapter.constructor | src/adapters/storage.py:68-69 | the adapter holds its root and the files under it |
| Storage.LocalStorageAdapter.WriteRaw | src/adapters/storage.py:76-80 | the bytes are stored at the key, nothing else changes, and the path under the root is returned |
| Storage.LocalStorageAdapter.ReadRaw | src/adapters/storage.py:82-85 | the bytes at the key, or a file-not-found error naming the path |
| Storage.LocalStorageAdapter.WriteParquet | src/adapters/storage.py:87-90 | the encoded table is stored at the key and its path returned |
| Storage.LocalStorageAdapter.ReadParquet | src/adapters/storage.py:92-94 | the decoded bytes at the key, or a file-not-found error |
| Storage.LocalStorageAdapter.ListKeys | src/adapters/storage.py:96-106 | nothing when the prefix does not exist; otherwise the files among the walk's entries, in walk order |
| Storage.FilesAmong | src/adapters/storage.py:102-105 | only files that the walk visited |
| Storage.FilesAmongMembers | src/adapters/storage.py:102-105 | every file the walk visited is listed |
| Storage.WalkListsTree | src/adapters/storage.py:96-106 | when the walk visits the whole tree, exactly the files under the prefix are listed |
| Storage.WrittenFileListed | src/adapters/storage.py:76-106 | a file just written into a directory is listed under that directory |
| Storage.ListingIgnoresTrailingSlash | src/adapters/storage.py:97 | a trailing slash on the prefix does not change the listing |
| EnvLoader.Lines | src/env_loader.py:28 | no line contains a line boundary |
| EnvLoader.LinesFree | src/env_loader.py:28 | the pieces of a split hold no boundary character |
| EnvLoader.Assignment | src/env_loader.py:29-38 | a line assigns only a non-empty name |
| EnvLoader.StrippedAssignment | src/env_loader.py:30-38 | a trimmed line assigns only a non-empty name |
| EnvLoader.Assignments | src/env_loader.py:28-38 | one assignment or none per line |
| EnvLoader.LoadedSnoc | src/env_loader.py:28-41 | loading one more line applies that line's assignment |
| EnvLoader.Environment.constructor | src/env_loader.py:40-41 | the environment starts as the given variables |
| EnvLoader.Environment.LoadDotenvIfPresent | src/env_loader.py:7-41 | a missing or unreadable file changes nothing; a file that is not UTF-8 raises UnicodeDecodeError, since only `OSError` is caught, and changes nothing; otherwise the lines' assignments are applied in order |
| EnvLoader.Environment.Assign | src/env_loader.py:37-41 | an assignment applies only when its name is not yet set |
| EnvLoader.AppliedKeepsExisting | src/env_loader.py:40-41 | variables already set keep their values |
| EnvLoader.AppliedAddsOnlySet | src/env_loader.py:40-41 | every added name is set by some assignment |
| EnvLoader.AppliedWithoutKey | src/env_loader.py:40-41 | a name no assignment sets stays unset |
| EnvLoader.AppliedFirstWins | src/env_loader.py:40-41 | a new name takes the first value assigned to it |
| EnvLoader.LoadedKeepsExisting | src/env_loader.py:13-41 | loading a file never replaces a variable already set |
| EnvLoader.LoadedAddsOnlyAssigned | src/env_loader.py:28-41 | every name the file adds is assigned by one of its lines |
| EnvLoader.LoadedFirstWins | src/env_loader.py:28-41 | a name not yet set takes the value from the first line assigning it |
| EnvLoader.AssignmentOfPair | src/env_loader.py:34-36 | `name=value` sets `name` to `value`, even when the value holds `=` |
| Retry.Pow2 | src/common/retry.py:17 | powers of two are at least one |
| Retry.ComputeSleepBounds | src/common/retry.py:10-19 | the sleep never exceeds the maximum, is non-negative for non-negative settings, and is at least the capped exponential base |
| Retry.ComputeSleep | src/common/retry.py:10-19 | `_compute_sleep_seconds` with the jitter given; ComputeSleepBounds states its bounds |
| Retry.HttpGetWithRetries | src/common/retry.py:22-85 | the loop performs exactly the calls, sleeps and ending of the reference definition |
| Retry.FromCounts | src/common/retry.py:44-82 | at most max_attempts calls, one sleep between consecutive calls |
| Retry.GetCounts | src/common/retry.py:44-85 | no attempt allowed fails the final assertion with no call; otherwise between one and max_attempts calls, each retry preceded by one sleep |
| Retry.FromRetriedBefore | src/common/retry.py:51-78 | every call but the last was retried, and the sleep after it is the one the retry computes |
| Retry.FromEnding | src/common/retry.py:46-85 | a response is returned when not in the forcelist or on the last attempt; a transient error is raised only on the last attempt, a non-transient one at once; a negative sleep is rejected |
| Retry.AssertionFailsIffNoAttempts | src/common/retry.py:84 | the final assertion fails iff max_attempts is not positive |
| Retry.FromSleepsCapped | src/common/retry.py:17-19 | without Retry-After headers every sleep lies between zero and backoff_max |
| Retry.RetryAfterHonoured | src/common/retry.py:53-56 | a numeric Retry-After header is the sleep |
| Retry.NegativeRetryAfterRejected | src/common/retry.py:53-65 | a negative Retry-After header makes the sleep raise before any further call |
| Models.ParseSourceType | src/pipeline/metadata/models.py:11-14 | only the three enum values parse, each to its member |
| Models.ParseSourceTypeValue | src/pipeline/metadata/models.py:11-14 | every member parses back from its value |
| Models.Texts | src/pipeline/metadata/models.py:86 | one JSON text per string, in order |
| Models.ColumnsToSerializable | src/pipeline/metadata/models.py:86 | one serialised column per column, in order |
| Models.ColumnsFromSerializable | src/pipeline/metadata/models.py:102-110 | when decoding succeeds, one column per entry, each the entry's own decoding |
| Models.TextsFrom | src/pipeline/metadata/models.py:118 | when decoding succeeds, each entry is the JSON text of the string read |
| Models.DatasetFromSerializable | src/pipeline/metadata/models.py:93-122 | a decoded dataset had every required key and keeps its id; a payload without `source` raises KeyError for it |
| Models.DatasetFields | src/pipeline/metadata/models.py:112-122 | decoded fields had every required key and keep the id |
| Models.OptionalTextRoundTrip | src/pipeline/metadata/models.py:99 | an optional text written as text or null reads back unchanged |
| Models.SourceRoundTrip | src/pipeline/metadata/models.py:85-100 | a data source serialised and read back is unchanged |
| Models.ColumnRoundTrip | src/pipeline/metadata/models.py:85-108 | a column serialised and read back is unchanged |
| Models.ColumnsRoundTrip | src/pipeline/metadata/models.py:102-110 | a column list serialised and read back is unchanged |
| Models.TextsRoundTrip | src/pipeline/metadata/models.py:118 | a tag list serialised and read back is unchanged |
| Models.FieldsRoundTrip | src/pipeline/metadata/models.py:85-122 | the serialised fields read back into the same dataset |
| Models.NamingFieldsRead | src/pipeline/metadata/models.py:113-118 | id, name, description and tags read back from their serialised form |
| Models.TrailingFieldsRead | src/pipeline/metadata/models.py:119-121 | extra metadata and the two timestamps read back from their serialised form |
| Models.DatasetRoundTrip | src/pipeline/metadata/models.py:85-122 | a dataset serialised and read back is unchanged |
| Models.DefaultsFilled | src/pipeline/metadata/models.py:99-121 | absent optional keys default to no description, no columns, no tags and no extra metadata |
| Models.ColumnDefaultNullable | src/pipeline/metadata/models.py:106-107 | a column without `nullable` is nullable |
| Models.Serialized | src/pipeline/metadata/models.py:59-63 | the dictionary has exactly the store's dataset ids as keys |
| Models.DecodeEach | src/pipeline/metadata/models.py:73-74 | when every payload decodes, the result has exactly the visited keys |
| Models.DecodeEachOk | src/pipeline/metadata/models.py:73-74 | decoding succeeds iff every payload decodes, and then each key maps to its payload's dataset |
| Models.DeserializedOk | src/pipeline/metadata/models.py:71-75 | `from_dict` succeeds iff every payload deserialises, each key mapping to its dataset |
| Models.DecodeEachIs | src/pipeline/metadata/models.py:73-74 | when each payload decodes to a given dataset the result is exactly those datasets |
| Models.DecodeEachStep | src/pipeline/metadata/models.py:73-74 | one more key either passes on the earlier failure, raises its own, or adds its dataset |
| Models.DecodeEachPrefixErr | src/pipeline/metadata/models.py:73-74 | the first failure is the result |
| Models.RoundTrip | src/pipeline/metadata/models.py:59-75 | `from_dict(to_dict())` gives back the same datasets |
| Models.SerializedDecodes | src/pipeline/metadata/models.py:59-75 | every serialised entry deserialises to its dataset |
| Models.SerializedEntry | src/pipeline/metadata/models.py:59-63 | a dataset's serialised entry deserialises back to it |
| Models.MetadataStore.constructor | src/pipeline/metadata/models.py:47-48 | a new store is empty |
| Models.MetadataStore.RegisterDataset | src/pipeline/metadata/models.py:50-51 | the dataset is stored under its id, replacing any earlier one without changing the order; other ids are unaffected |
| Models.MetadataStore.GetDataset | src/pipeline/metadata/models.py:53-54 | the dataset under the id, none iff the id is not registered |
| Models.MetadataStore.ListDatasets | src/pipeline/metadata/models.py:56-57 | every stored dataset, in first-registration order |
| Models.MetadataStore.ToDict | src/pipeline/metadata/models.py:59-63 | each id mapped to its dataset's serialised form |
| Models.MetadataStore.Put | src/pipeline/metadata/models.py:74 | the decoded dataset is stored under its key |
| Models.MetadataStore.FromDict | src/pipeline/metadata/models.py:70-75 | a new store holding each key's decoded dataset, in the dictionary's order, or the first decoding failure |
| Models.MetadataStore.LoadFromFile | src/pipeline/metadata/models.py:77-82 | no file gives an empty store; a non-object file fails; otherwise `from_dict` of its contents |
| LegacyIngestion.PageUrlInjective | src/pipeline/ingestion/world_bank.py:32-33 | different pages are requested at different URLs |
| LegacyIngestion.IterWorldBankPages | src/pipeline/ingestion/world_bank.py:27-44 | the loop yields exactly the pages of WorldBankPages, requesting page n at the n-th URL; the page count is page 1's, a null count read as one page (see Findings) |
| LegacyIngestion.PageCount | src/pipeline/ingestion/world_bank.py:40-41 | `metadata.get("pages", 1)`: the stored count when it is not null, otherwise 1; never null |
| LegacyIngestion.WorldBankPages | src/pipeline/ingestion/world_bank.py:27-44 | the pager with the corrected count; PagesShape, PageCountHonoured and NullCountOnePage state its properties |
| LegacyIngestion.PagesAsWritten | src/pipeline/ingestion/world_bank.py:28-44 | the loop as written, followed for at most a given number of pages while `total_pages` is None; NullCountNeverEnds and AsWrittenAgrees state its properties |
| LegacyIngestion.NullCountNeverEnds | src/pipeline/ingestion/world_bank.py:29-44 | as written, a server whose every page has a null count is paged without end: no page limit is enough |
| LegacyIngestion.KnownCountAsWritten | src/pipeline/ingestion/world_bank.py:31-44 | once `total_pages` is known, the loop as written is the reference definition for any page limit |
| LegacyIngestion.AsWrittenAgrees | src/pipeline/ingestion/world_bank.py:27-44 | unless page 1 is well formed and its count is null, the loop as written and the corrected pager give the same run |
| LegacyIngestion.NullCountOnePage | src/pipeline/ingestion/world_bank.py:40-44 | with the corrected count, a null count on page 1 means one request, its data yielded, and no error |
| LegacyIngestion.PageUrlsSnoc | src/pipeline/ingestion/world_bank.py:32-33 | the next URL requested is for the next page |
| LegacyIngestion.PageStep | src/pipeline/ingestion/world_bank.py:31-44 | one request either stops the iteration or yields its data and goes on with the page count of the first response, a null count read as one page |
| LegacyIngestion.AfterYield | src/pipeline/ingestion/world_bank.py:43 | a yielded page is appended to those collected |
| LegacyIngestion.AfterEnd | src/pipeline/ingestion/world_bank.py:36-37 | stopping keeps the pages collected |
| LegacyIngestion.LaterPagesCount | src/pipeline/ingestion/world_bank.py:31-44 | with well-formed responses, pages from the given one up to the page count are each requested once and yielded |
| LegacyIngestion.PageCountHonoured | src/pipeline/ingestion/world_bank.py:31-44 | with well-formed responses, as many pages as the first response's count (at least one) are requested and yielded |
| LegacyIngestion.YieldShape | src/pipeline/ingestion/world_bank.py:39-43 | a page yielded is the data of a well-formed response to that page's URL |
| LegacyIngestion.LaterPagesShape | src/pipeline/ingestion/world_bank.py:27-44 | every page yielded is the data (or the empty list) of a well-formed response to its own URL |
| LegacyIngestion.PagesShape | src/pipeline/ingestion/world_bank.py:27-44 | the same from the first page |
| LegacyIngestion.ValueFieldName | src/pipeline/ingestion/world_bank.py:48-50 | the value column name is the non-empty `value_field_name`, and its absence is the error |
| LegacyIngestion.MakeRow | src/pipeline/ingestion/world_bank.py:74-79 | a row has exactly the code, name, year and value columns with their values |
| LegacyIngestion.WorldBankEntryRow | src/pipeline/ingestion/world_bank.py:61-80 | an entry without an integer date is skipped; a non-mapping entry or country raises; otherwise the row holds the country's id and value, the year and the value |
| LegacyIngestion.EntryRows | src/pipeline/ingestion/world_bank.py:61-80 | no more rows than entries |
| LegacyIngestion.AppendEntryRows | src/pipeline/ingestion/world_bank.py:61-80 | the loop appends exactly the rows of the reference definition, or fails as it does |
| LegacyIngestion.EntryRowsPrefixErr | src/pipeline/ingestion/world_bank.py:61-80 | the first entry that raises ends the fetch |
| LegacyIngestion.PagesRowsPrefixErr | src/pipeline/ingestion/world_bank.py:60-80 | the first page that raises ends the fetch |
| LegacyIngestion.PagesToRows | src/pipeline/ingestion/world_bank.py:60-82 | the rows of every page, in order, or the first failure |
| LegacyIngestion.FetchDatasetFromWorldBank | src/pipeline/ingestion/world_bank.py:47-82 | the reference definition's rows: missing value field first, then the pages from the source URI, paged by the corrected count (see Findings) |
| LegacyIngestion.WorldBankRows | src/pipeline/ingestion/world_bank.py:47-82 | the reference definition of `fetch_dataset_from_world_bank` over WorldBankPages; FetchDatasetFromWorldBank is proved equal to it |
| LegacyIngestion.EntryRowsExact | src/pipeline/ingestion/world_bank.py:61-80 | for well-formed entries exactly one row per dated entry, in order |
| LegacyIngestion.OwidValue | src/pipeline/ingestion/world_bank.py:109-113 | missing, empty or `NA` cells are null; otherwise the parsed number, or null when it does not parse |
| LegacyIngestion.TextOrNone | src/pipeline/ingestion/world_bank.py:116-117 | an empty or missing text is null |
| LegacyIngestion.OwidRecordRow | src/pipeline/ingestion/world_bank.py:99-121 | a record is skipped iff its year is missing, empty or not a number; otherwise the row holds the code, name, truncated year and value |
| LegacyIngestion.OwidRows | src/pipeline/ingestion/world_bank.py:98-123 | no more rows than records |
| LegacyIngestion.FetchDatasetFromOwidCo2 | src/pipeline/ingestion/world_bank.py:85-123 | the loop builds exactly the rows of the reference definition |
| LegacyIngestion.OwidDatasetRows | src/pipeline/ingestion/world_bank.py:85-123 | the reference definition of `fetch_dataset_from_owid_co2`; FetchDatasetFromOwidCo2 is proved equal to it |
| LegacyIngestion.FieldName | src/pipeline/ingestion/world_bank.py:91-94 | a missing setting gives the default column name; the read fails iff the setting is present and not text, and otherwise gives that text |
| LegacyIngestion.MissingValueFieldFirst | src/pipeline/ingestion/world_bank.py:48-50 | without a value field both fetchers raise before any download |
| LegacyIngestion.OwidYearTruncated | src/pipeline/ingestion/world_bank.py:105 | a decimal year is truncated to its whole part |
| LegacyIngestion.ParseNumberOfDecimal | src/pipeline/ingestion/world_bank.py:105 | a decimal text parses to its value |
| LegacyIngestion.ColumnNames | src/pipeline/ingestion/world_bank.py:130 | the header is the columns' names, in order |
| LegacyIngestion.SaveRowsToCsv | src/pipeline/ingestion/world_bank.py:126-138 | the file `<dir>/<id>.csv` with the column names as header and every row, unless some row holds a field outside the columns, which raises |
| LegacyIngestion.SourceOrganization | src/pipeline/ingestion/world_bank.py:152 | the organization lower-cased, or empty when missing |
| LegacyIngestion.RouteOf | src/pipeline/ingestion/world_bank.py:152-158 | World Bank and Our World in Data each pick their fetcher; any other organization raises naming it |
| LegacyIngestion.RouteIgnoresCase | src/pipeline/ingestion/world_bank.py:152 | the organization's case does not matter |
| LegacyIngestion.LowerIdempotent | src/pipeline/ingestion/world_bank.py:152 | lower-casing twice is lower-casing once |
| LegacyIngestion.NoOrganizationUnsupported | src/pipeline/ingestion/world_bank.py:152-158 | a dataset without an organization is unsupported |
| LegacyIngestion.Ingested | src/pipeline/ingestion/world_bank.py:141-159 | an unknown id raises KeyError; a success is the dataset's CSV file with its column header and a supported organization |
| LegacyIngestion.IngestDataset | src/pipeline/ingestion/world_bank.py:141-159 | the method computes exactly `Ingested` |
| LegacyIngestion.Registry | src/pipeline/metadata/models.py:78-82 | the datasets `load_from_file` reads; IngestDataset uses it |
| LegacyIngestion.IngestedAllPaths | src/pipeline/ingestion/world_bank.py:162-167 | all succeed iff each dataset does, and then each id maps to its file path |
| LegacyIngestion.IngestedAllFirstFailure | src/pipeline/ingestion/world_bank.py:165-166 | the first failing dataset's error is raised |
| LegacyIngestion.IngestDefaultDatasets | src/pipeline/ingestion/world_bank.py:162-167 | the two default datasets are ingested in order |
| LegacyIngestion.IngestedAll | src/pipeline/ingestion/world_bank.py:162-167 | the reference definition of `ingest_default_datasets`; IngestDefaultDatasets, IngestedAllPaths and IngestedAllFirstFailure state its properties |
| LegacyIngestion.IngestedAllPrefixErr | src/pipeline/ingestion/world_bank.py:165-166 | once a dataset fails the later ones do not matter |
| Common.YearsIn | src/transformations/world_bank_gdp_processed.py:230 | the distinct years of the rows, in increasing order, exactly those some row has |
| Common.PartitionByYear | src/transformations/world_bank_gdp_processed.py:230-237 | one partition per distinct year, in increasing order, each holding exactly that year's rows at its path |
| Common.PartitionCoversRow | src/transformations/world_bank_gdp_processed.py:230-237 | a row lies in the partition of its own year and no other |
| Common.PartitionNonEmpty | src/transformations/world_bank_gdp_processed.py:230-237 | no partition is empty |
| Common.PartitionSkipsNullYear | src/transformations/world_bank_gdp_processed.py:230-237 | a row without a year is in no partition |
| Common.DedupFirst | src/transformations/curated_econ_environment_country_year.py:105 | `drop_duplicates` keeps only input rows |
| Common.DedupFirstUnique | src/transformations/curated_econ_environment_country_year.py:105 | after `drop_duplicates` no two rows share a key |
| Common.DedupFirstFind | src/transformations/curated_econ_environment_country_year.py:105 | each key keeps its first row |
| Common.DedupLast | src/analysis/econ_environment_analytics.py:144 | `keep="last"` keeps only input rows |
| Common.DedupLastUnique | src/analysis/econ_environment_analytics.py:144 | no two kept rows share a key |
| Common.DedupLastFind | src/analysis/econ_environment_analytics.py:144 | each key keeps its last row |
| Common.CollapseWhitespace | src/crawler/wikipedia_co2_crawler.py:83 | a run of whitespace becomes one space: empty iff the input is, and the first character is a space iff the input starts with whitespace |
| Common.CollapseNoDoubleSpace | src/crawler/wikipedia_co2_crawler.py:83 | the result holds no two adjacent spaces |
| Common.CollapseWhitespaceChars | src/crawler/wikipedia_co2_crawler.py:83 | every character of the result is a space or a non-space character of the input |
| Common.CollapseWhitespaceIdentity | src/crawler/wikipedia_co2_crawler.py:83 | text already collapsed is unchanged |
| Common.Filter | src/transformations/curated_econ_environment_country_year.py:104 | the kept rows are exactly the input rows satisfying the condition |
| Common.FilterAppend | src/transformations/curated_econ_environment_country_year.py:104 | filtering distributes over concatenation |
| Common.CollectAppend | src/transformations/world_bank_gdp_processed.py:154-157 | collecting two runs of lines is collecting each, stopping at the first error |
| Common.CollectPrefixError | src/transformations/world_bank_gdp_processed.py:154-157 | an error in a prefix of the lines is the result |
| Common.Lower | src/crawler/wikipedia_co2_crawler.py:104-105 | `str.lower()` keeps the length and lower-cases each character (ASCII letters; see Left out) |
| Common.Strip | src/env_loader.py:29 | `str.strip()`: a non-empty result neither starts nor ends with whitespace; StripSlice states what is cut off |
| Common.StripSlice | src/env_loader.py:29 | the stripped text is the slice of the input that starts where `lstrip` stops, and every character cut off at either end is whitespace |
| Common.LStripCutsSpace | src/env_loader.py:29 | the leading characters `lstrip()` removes are all whitespace |
| Common.RStripCutsSpace | src/env_loader.py:29 | the trailing characters `rstrip()` removes are all whitespace |
| Common.Split | src/analysis/econ_environment_analytics.py:51 | `str.split(c)` gives at least one piece and no piece holds the separator |
| Common.SplitAppend | src/analysis/econ_environment_analytics.py:51 | splitting two texts joined by the separator gives the pieces of each, in order |
| Common.ParseNumber | src/transformations/wikipedia_co2_processed.py:130-133 | `float(text)` on decimal text without digit-group underscores (see Left out), None for any other text; the ParseNumberOf… rows state its properties |
| Common.ParseNumberOfDigits | src/transformations/wikipedia_co2_processed.py:130-133 | `float()` of a digit string is the number those digits write |
| Common.ParseNumberOfNegativeDigits | src/transformations/wikipedia_co2_processed.py:130-133 | `float()` of `-` and a digit string is minus that number |
| Common.ParseNumberOfIntToString | src/transformations/wikipedia_co2_processed.py:130-133 | `float(str(n))` is `n` for every integer `n` |
| Common.PyInt | src/ingestion_api/world_bank_ingestion.py:96 | Python `int(v)` on a decoded JSON value, with text read as ASCII decimal digits without underscores (see Left out), None for any other value; PyIntOfPyStr and PyIntTruncates state its properties |
| Common.PyIntOfPyStr | src/ingestion_api/world_bank_ingestion.py:194-259 | `int(str(n))` gives `n` back, so a year saved as its `str()` reads back as that year |
| Common.PyIntTruncates | src/ingestion_api/world_bank_ingestion.py:96 | `int()` of a float truncates toward zero, by less than one |
| Common.PyStr | src/transformations/wikipedia_co2_processed.py:121 | `str(v)` is the text itself for a string and the decimal digits for an int |

## Left out

- Networking (`requests`, `urlopen`, boto3) is not modelled. Each fetch, download, S3 listing page or DynamoDB table is a parameter: a function from URL to response, a sequence of pages, or a map of items.
- pandas, parquet, CSV, Excel and HTML parsing are not modelled. Tables are sequences of typed rows. Encoders and decoders are function parameters. An HTML table is its caption, text and cell rows.
- Plotting, the regression line, R² and outlier labels of the scatter are not modelled. Neither are the Pearson numerics of the correlation summary: the correlation is a parameter, and only whether it is present is modelled.
- `.3f` formatting is a parameter of the top-5 text.
- The XLSX export is not modelled. Nor are the CLI `__main__` blocks, the local and cloud orchestration scripts and the Lambda handler, which only sequence calls.
- SHA-1 and sorted-key JSON encoding are an abstract deterministic codec. Only the fact that the hash depends on what is hashed is modelled.
- Wall-clock timestamps, `uuid4` ids, `random.uniform` jitter and `time.sleep` are parameters, or are recorded in a trace.
- LegacyIngestion.FetchDatasetFromWorldBank, LegacyIngestion.WorldBankRows, LegacyIngestion.IterWorldBankPages and LegacyIngestion.PageStep page by the corrected count of the Findings table, so a null page count on page 1 gives one page. As written, `total_pages` stays None and the source re-reads the count from every later page. If every page's count is null, the source never stops. That run is modelled by LegacyIngestion.PagesAsWritten for a bounded number of pages, and it is not what the ingestion path uses.
- Common.ParseInt reads only ASCII digits, with no digit-group underscores. Python's `int()` also accepts underscores between digits (`int("2_020") == 2020`) and any Unicode decimal digit (`int("٢٠٢٣") == 2023`); both read as unparseable here. This reaches the checkpoint text in the World Bank ingestion and the date of a legacy World Bank entry.
- Common.ParseNumber has the same two gaps as Common.ParseInt: `float("1_000.5")` and `float("1_5")` are 1000.5 and 15.0 in Python and unparseable here, as is text in non-ASCII digits. This reaches the CO2 values of the Wikipedia table, the OWID value and year, and the Retry-After header.
- Common.PyInt reads text through Common.ParseInt, so it gives None for underscore-grouped or non-ASCII digits where Python returns a number.
- Common.AllDigits is `str.isdigit()` for ASCII only. Python's `isdigit()` is also true for other Unicode digits: `"٢٠٢٣"`, which `int()` then reads as 2023, and `"²"`, on which `int()` raises ValueError. A record with such a date is dropped here: in the World Bank year listing and year filter and in the processed GDP transform, Python would keep it or raise.
- Storage.LocalStorageAdapter joins the root and the key with one `/` and no normalisation. A root ending in `/` gives a doubled slash, which names the same POSIX file. A key starting with `/` stays under the root here, while pathlib's `root / "/abs"` is the absolute path `/abs`.
- Floating point is modelled as exact reals. Infinities, NaN and exponent notation in `float()` are not modelled.
- Unicode: Common.Lower and Common.Upper are ASCII only, so a non-ASCII letter (an `É` in a source organisation or a table caption) keeps its case where Python would change it. NFKD folding (WikipediaCo2Processed.FoldChar) covers ASCII and Latin-1.
- The local ledger's persistence is not modelled: the JSON file, its temp-file-and-replace write, corruption checks and concurrency between processes. The store is in-memory state.
- Ledger.get_all_checkpoints is not modelled, because it only copies the map.
- Filesystem paths are joined with `/` as on POSIX. `mkdir` side effects are not modelled.
- Models.MetadataStore.save_to_file is not modelled, because it is only JSON encoding and a file write. Datetimes are their ISO text, and the round trip assumes `fromisoformat(isoformat(t)) == t`.
- Models.MetadataStore.FromDict: the dictionary's iteration order is a parameter (`keys`).
- LegacyIngestion.SaveRowsToCsv: the extra-field `ValueError` is modelled, but not its message text or any partial file left behind.
- CountryMapping: save_country_mapping_parquet, load_country_mapping and build_and_save_country_mapping_from_world_bank are not modelled, because they are parquet I/O around the modelled functions.
- CountryMapping: src/transformations/country_mapping.py:34-37 imports `PROCESSED_BASE_PREFIX` from src/transformations/world_bank_gdp_processed.py, which does not define it, so the module fails at import. The model takes the storage listing as a parameter and does not depend on that constant.
- WikipediaCo2Crawler: src/crawler/__init__.py imports `RAW_BASE_PREFIX`, which the crawler does not define. Package `__init__` files and src/pipeline/metadata/bootstrap.py are not modelled.
- EconEnvironmentAnalytics.LoadCuratedForYears keeps the loaded rows in read order. The source sorts them by (country_code, year) before the keep-last deduplication. The sort is not modelled: a multi-column pandas sort is stable, so the row kept per key is the same.
- EconEnvironmentAnalytics.ScatterRows states which rows are plotted and the two errors. It does not model the image, or the write to the local file and the storage key beyond the key's shape.
- Storage.LocalStorageAdapter.ListKeys: the directory walk is a parameter (its entries in walk order). Files are the keys of the file map.
- MetadataAdapters.ListRunsAfterSaveCheckpoint compares the two listings over the same scanned keys. DynamoDB decides which keys the single 1 MB scan page reaches, and whether a new checkpoint item pushes run items out of it; that is not modelled.
- MetadataAdapters.StartedRunListed holds only when the scan page reaches the run's key. The order in which DynamoDB returns the page's items is not modelled either: the listing is a set.
- MetadataAdapters.DynamoMetadataAdapter.ListRuns takes the keys of the first scan page as a parameter, because the source never follows `LastEvaluatedKey`.
- Models.DatasetFromSerializable reads `id`, `name`, `uri`, `dtype`, `created_at` and `updated_at` as text, `description` as text or null, and `nullable` as a bool. It also reads `tags` as a list of text, `extra_metadata` as an object and `columns` as a list. Any other value fails with TypeError, where Python stores the value unchecked (`"tags": null`, a numeric name) or iterates it (`"columns": ""` gives no columns), because the dataset's fields have these types here.
- Models.DatasetFromSerializable keeps the timestamps as text, so the ValueError that `datetime.fromisoformat` raises on malformed text is not modelled. The JSONDecodeError of `MetadataStore.load_from_file` on a corrupt file is not modelled either: the file is given already decoded.
- Models.DatasetFields has the same type-strict reads and the same missing `fromisoformat` ValueError as DatasetFromSerializable.
- LegacyIngestion.ValueFieldName fails with TypeError for a truthy non-text `value_field_name`. Python goes on and keys the rows by that value, but rows here are keyed by text.
- LegacyIngestion.FieldName fails with TypeError for a non-text column-name setting. Python passes it to `record.get`, which finds no column.
- WorldBankIngestion.DecodePage rejects a page as soon as one of its records is not an object. Python raises that AttributeError later, when the consumer calls `.get` on the record, so the reported error can differ when a later page also fails. The two RuntimeError messages leave out the `{data!r}` rendering of the body.
- Ledger.NoSuchRun always quotes the id with single quotes. Python's `repr` uses double quotes for an id that contains `'`.
- Common.PyStr renders floats, lists and dicts as the placeholders `<float>`, `<list>` and `<dict>`, not as their Python `str()`.
- EconEnvironmentAnalytics.Top5 sorts by insertion, which is stable. pandas' single-column `sort_values` is a quicksort, which is not, so rows with equal metrics may appear in another order.
- Retry.HttpGetWithRetries: `float()` of the Retry-After header is the shared decimal parser (sign, digits, one point). Exponents, `inf`, `nan` and digit-group underscores (`1_5`, which Python reads as 15) are not read, and fall back to the backoff as other non-numeric text does.

## Findings

| source | as written | input that shows it | evidently intended | confidence | as-written member | corrected member |
|---|---|---|---|---|---|---|
| src/adapters/metadata.py:152 | end_run joins its SET clauses with a single space and no commas, so the UpdateExpression always has at least two clauses with no separator between them and DynamoDB rejects it | any call, e.g. `end_run("r1", status="SUCCESS")` gives `SET #status = :status end_ts = :end_ts` | the clauses joined with `", "` | not executed | MetadataAdapters.DynamoMetadataAdapter.EndRunAsWritten | MetadataAdapters.DynamoMetadataAdapter.EndRun |
| src/pipeline/ingestion/world_bank.py:40-41 | `total_pages = metadata.get("pages", 1)` stores None when page 1's metadata has `"pages": null`, so the loop condition `total_pages is None or page <= total_pages` stays true and the count is read again from every later page; NullCountNeverEnds shows that a server answering every page with a null count is paged without end | every page answers `[{"pages": null}, []]` | a null count read like a missing one, as the default 1, so the run ends after page 1 (NullCountOnePage); AsWrittenAgrees shows nothing else changes | not executed | LegacyIngestion.PagesAsWritten | LegacyIngestion.PageCount |
