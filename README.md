# Season catalog synchronisation, modelled in Dafny

The repository runs two AWS Lambda handlers over one DynamoDB table. The table is a catalog of football seasons keyed by `(league_id, season_year)`.

- **Season bootstrap importer** (`fetch_seasons`). It reads the provider's league list and flattens it to one row per season, carrying the league's metadata. It keeps the league seasons after 2019 that have event coverage, renames `year`/`start`/`end`, drops duplicate keys (the last occurrence wins) and seeds the catalog. The seed is a conditional put, so a season already tracked is left alone. Each new season gets `last_updated_fixtures = "2000-01-01"` and `data_need_to_update = 1`.
- **Fixture and team sync engine** (`fetch_fixtures_and_teams`). It queries the sparse index `LastUpdatedIndex` for due seasons (`data_need_to_update = 1`), at most `MAX_UPDATES` of them. For each one, in order, it:
  - refreshes the team snapshot when teams were never fetched or last fetched before the season started;
  - always refreshes the fixture snapshot;
  - computes the newest game day on which every fixture has a full-time score;
  - writes a partial update to the season's record (sets, conditional sets and a `REMOVE`).

The model keeps each part in the form the source has:
- Pure pipelines are functions: payload flattening and column rewriting, strict column selection, the newest-day calculation, the update expression, the per-season decisions, and the season-import pipeline.
- Stateful parts are classes whose methods carry `modifies` frames: the table (`Catalog.MetaTable`, with the index query, `update_item` and the conditional `put_item`) and the bucket (`FixturesAndTeams.SnapshotBucket`).
- The handlers' loops are methods with loop invariants. `SyncRun` and `SyncCandidate` are proved against the functional specification `Replay`/`CandidateStep`. `SeedRows` is proved against `SeedAll`. The properties are lemmas about those specifications.

Modules:
- `Wrappers`: Option and Result.
- `Dates`: ISO dates compared as Python compares strings.
- `Text`: `str.replace`.
- `Payload`: JSON values and `json_normalize` flattening.
- `Tables`: renaming and `df[[...]]` selection.
- `Catalog`: the table.
- `FixturesAndTeams`: the sync engine.
- `SyncProperties`: its properties.
- `Seasons`: the importer.
- `SeasonsProperties`: the importer's properties.

Where the code does something its comments or a reader might not expect, the model follows the code:
- **Selection order.** The query passes `ScanIndexForward=False`, so due seasons come back in DESCENDING `last_updated_fixtures` order: the most recently synced first. The docstring of `get_leagues_to_update` (app.py:187-189) contradicts itself: it speaks of the "least recently updated" items and, in the next sentence, of items "ordered … in descending order". The code does the latter. `SyncProperties.RefreshedSeasonReselected` proves the consequence. A season still open that was just synced has today's date, which is the latest in the index. So when every other due season is older, the next run picks that same season again. With `MAX_UPDATES = 1`, the others starve.
- **No fully scored day.** `.max()` over an empty selection is NaN. The comparison `last_updated_posteriors < newest_game_date` (a string against a float) then raises `TypeError`. So the run stops after the fixture snapshot is uploaded and before the record is updated (`NoCompletedGameDay`).
- **Missing or failed provider data.** `get_data` returns `None` when the provider fails or has no data. `json_normalize(None)` then raises `NotImplementedError` at its input-type check, inside `process_*_to_df`, which ends the run. The model represents that payload as an empty sequence, which ends the run too, with the missing-columns error naming every column.
- **Null season dates.** A season whose `start` or `end` is null is seeded with a NULL attribute, which the sync reads as `None` without a `KeyError`. A null `start_date` is only compared once teams were fetched, so the first pass over the season completes and the next one raises `TypeError` at line 331. A null `end_date` raises `TypeError` at line 345, after both snapshots are uploaded and before the record is updated (`NotADate`).

## Model

| member | source | states |
|---|---|---|
| `Catalog.MetaTable.QueryDue` | src/data_import/fetch_fixtures_and_teams/app.py:196-203 | A limit below 1 is refused with boto3's `ParamValidationError` by the client's parameter check, before any request is sent (`MAX_UPDATES` at line 28 comes from the environment, so it can be 0 or negative). Otherwise the answer is a due selection: at most `limit` due records, as stored, no key twice, in descending `last_updated_fixtures` order, and none left out that is later than one returned. |
| `Catalog.MetaTable.UpdateItem` | src/data_import/fetch_fixtures_and_teams/app.py:268-273 | The record under the key becomes the expression applied to it. A blank record is created when the key is absent. No other record changes. |
| `Catalog.MetaTable.ConditionalPut` | src/data_import/fetch_seasons/app.py:122 | A store fault is returned with nothing changed. A present key gives `ConditionalCheckFailedException` with nothing changed. An absent key is inserted with no error. |
| `Tables.SelectColumns` | src/data_import/fetch_fixtures_and_teams/app.py:124-140 | `df[wanted]` succeeds exactly when every wanted column exists. The result has exactly those columns in that order, with one cell per record (NaN where a record lacks one). The error lists exactly the missing columns. |
| `FixturesAndTeams.NormalizeFixtures` | src/data_import/fetch_fixtures_and_teams/app.py:117-140 | The frame has exactly the 13 fixture columns in order, one row per record, and each cell is that record's value under the renamed column (NaN when it lacks one). It succeeds exactly when the renamed payload provides every column. The error lists exactly the missing ones. |
| `FixturesAndTeams.NormalizeTeams` | src/data_import/fetch_fixtures_and_teams/app.py:159-163 | The same for the 5 team columns, with dots turned into underscores. |
| `FixturesAndTeams.FixtureColumnName` | src/data_import/fetch_fixtures_and_teams/app.py:118-123 | The fixture column renaming: dots to underscores, then `fixture`, `halftime`, `fulltime` shortened to `game`, `ht`, `ft`, each by `str.replace`. |
| `FixturesAndTeams.FixtureColumnNameNoDot` | src/data_import/fetch_fixtures_and_teams/app.py:118-123 | No renamed fixture column has a dot: the later replacements never write one back. |
| `FixturesAndTeams.NewestGameDate` | src/data_import/fetch_fixtures_and_teams/app.py:286-297 | A day is returned only when some fixture falls on it and every fixture on it has a full-time home score. It is not earlier than any such day. `None` (NaN) comes back only when no day is complete. |
| `FixturesAndTeams.NewestGameDateIs` | src/data_import/fetch_fixtures_and_teams/app.py:286-297 | The newest game day is `d` exactly when `d` is complete and no complete day is later. |
| `Dates.Less` | src/data_import/fetch_fixtures_and_teams/app.py:331 | `a < b` on Python strings: the first differing character decides, and a proper prefix sorts first. The `Less*` lemmas state its order properties. |
| `Text.ReplaceAll` | src/data_import/fetch_fixtures_and_teams/app.py:119-122 | `str.replace` with a non-empty pattern: each non-overlapping occurrence, left to right, is replaced. The `Replace*` lemmas state its properties. |
| `Payload.Flatten` | src/data_import/fetch_fixtures_and_teams/app.py:117 | `json_normalize` of one record: nested objects become dotted columns, other values are cells. `FlattenUnder` states its properties. |
| `Dates.LessIrreflexive` | src/data_import/fetch_fixtures_and_teams/app.py:331 | Python's `<` on strings: no date is earlier than itself. |
| `Dates.LessTransitive` | src/data_import/fetch_fixtures_and_teams/app.py:331 | Python's `<` on strings is transitive. |
| `Dates.LessTrichotomy` | src/data_import/fetch_fixtures_and_teams/app.py:331 | Of two different strings, one is earlier than the other. |
| `Text.ReplaceAbsent` | src/data_import/fetch_fixtures_and_teams/app.py:119-122 | `str.replace` leaves a string without the pattern unchanged. |
| `Text.ReplaceChar` | src/data_import/fetch_fixtures_and_teams/app.py:119 | Replacing one character by another maps the string character by character. |
| `Text.ReplaceCharRemoves` | src/data_import/fetch_fixtures_and_teams/app.py:119 | After `.replace(".", "_")` no dot is left. |
| `Payload.FlattenUnder` | src/data_import/fetch_fixtures_and_teams/app.py:117 | `json_normalize` of a record: no column holds an object, and each column name starts with the path prefix. |
| `FixturesAndTeams.UpdateEffects` | src/data_import/fetch_fixtures_and_teams/app.py:242-264 | The update always writes `last_updated_fixtures` and `newest_game_date`. It writes `last_updated_teams` only when one is given, sets `posteriors_need_to_update` to 1 only when asked and never clears it, removes `data_need_to_update` only when the season is closed, and keeps every other attribute. |
| `FixturesAndTeams.UpdateMetaTable` | src/data_import/fetch_fixtures_and_teams/app.py:242-273 | Building the expression clause by clause and sending it leaves the table with exactly the record that `UpdatedMeta` describes under the key. Every other record is unchanged. |
| `FixturesAndTeams.MetaUpdateExpression` | src/data_import/fetch_fixtures_and_teams/app.py:242-264 | The expression the handler builds: the two date clauses, then `last_updated_teams` when given, `posteriors_need_to_update = 1` when asked, and `REMOVE data_need_to_update` when the season is closed. `UpdateEffects` states its effect. |
| `FixturesAndTeams.UpdatedMeta` | src/data_import/fetch_fixtures_and_teams/app.py:268-273 | The record after `update_item` applies that expression. `UpdateEffects` states it attribute by attribute. |
| `FixturesAndTeams.SnapshotBucket.Upload` | src/data_import/fetch_fixtures_and_teams/app.py:339-343 | The upload replaces exactly the named snapshot. |
| `FixturesAndTeams.StartComparable` | src/data_import/fetch_fixtures_and_teams/app.py:328-331 | `last_updated_teams < start_date` is evaluated only when teams were fetched before, and Python can evaluate it only when the stored start date is a string. |
| `FixturesAndTeams.TeamsStale` | src/data_import/fetch_fixtures_and_teams/app.py:328-333 | Teams are refetched when never fetched, or fetched on a date earlier than the season's start. |
| `FixturesAndTeams.SeasonOpen` | src/data_import/fetch_fixtures_and_teams/app.py:345 | `end_date > todays_date`, as Python compares strings. |
| `FixturesAndTeams.PosteriorsStale` | src/data_import/fetch_fixtures_and_teams/app.py:317-357 | `last_updated_posteriors < newest_game_date`, a missing `last_updated_posteriors` read as `2000-01-01`. |
| `FixturesAndTeams.PassPlan` | src/data_import/fetch_fixtures_and_teams/app.py:311-359 | A pass sends the metadata update exactly when it ends without an error. The branches follow the handler's order: the `KeyError`s, the start-date `TypeError`, the team columns, the fixture columns, the end-date `TypeError`, the missing game day. The `Step*` lemmas state what each branch does. |
| `FixturesAndTeams.CandidateStep` | src/data_import/fetch_fixtures_and_teams/app.py:311-359 | One pass as a function of the catalog and the bucket: the plan's snapshots published, its update applied to the stored record, its error returned. The `Step*` lemmas state its effects. |
| `FixturesAndTeams.Replay` | src/data_import/fetch_fixtures_and_teams/app.py:311-361 | The loop as a function: the passes in order, stopping at the first error. `ReplayFrame`, `ReplayRefreshes` and `QuietCatalog` state its effects. |
| `FixturesAndTeams.SyncCandidate` | src/data_import/fetch_fixtures_and_teams/app.py:311-359 | One pass of the handler's loop leaves the table and the bucket as `CandidateStep` does, and returns its error. |
| `FixturesAndTeams.SyncRun` | src/data_import/fetch_fixtures_and_teams/app.py:306-361 | A limit below 1 stops the run with boto3's `ParamValidationError`, raised by the client's parameter check before any request is sent, and changes nothing. Otherwise the candidates are a due selection of the record set at the start, and the final table, bucket and error are those of `Replay` over them, fed each season's normalised responses (`TeamsOf`, `FixturesOf`). |
| `SyncProperties.StepKeepsOtherRecords` | src/data_import/fetch_fixtures_and_teams/app.py:268-272 | A pass changes no catalog record but its own season's. |
| `SyncProperties.StepKeepsOtherSnapshots` | src/data_import/fetch_fixtures_and_teams/app.py:219-221 | A pass changes no snapshot of another season. |
| `SyncProperties.AbortKeepsCatalog` | src/data_import/fetch_fixtures_and_teams/app.py:336-359 | A pass that fails never writes the catalog. |
| `SyncProperties.StepMissingDate` | src/data_import/fetch_fixtures_and_teams/app.py:315-316 | A pass stops on a missing attribute (`KeyError`) exactly when the record lacks `start_date` or `end_date`, and then nothing changes. A NULL attribute is not missing. |
| `SyncProperties.StepNotADate` | src/data_import/fetch_fixtures_and_teams/app.py:331-345 | A pass stops with a `TypeError` on a start date that is not a string exactly when teams were fetched before, and then nothing changes. It stops on an end date that is not a string exactly when it got past the teams and the fixtures; the fixture snapshot is published then, and the catalog is not written. |
| `SyncProperties.StepMissingTeamColumns` | src/data_import/fetch_fixtures_and_teams/app.py:328-333 | A pass stops on the team columns exactly when both dates are present, the teams are stale, and the team normalisation failed. |
| `SyncProperties.StepMissingFixtureColumns` | src/data_import/fetch_fixtures_and_teams/app.py:336-337 | A pass stops on the fixture columns exactly when it got past the dates and the teams and the fixture normalisation failed. |
| `SyncProperties.StepNoCompletedGameDay` | src/data_import/fetch_fixtures_and_teams/app.py:339-357 | A pass stops for want of a fully scored day exactly when it got past both normalisations, the end date is a string, and no day is complete. The fixture snapshot is already published then. The query's error never comes from a pass. |
| `SyncProperties.StepRecord` | src/data_import/fetch_fixtures_and_teams/app.py:324-359 | After a pass that completes, `last_updated_fixtures` is today. `newest_game_date` is the latest complete day. `last_updated_teams` is today exactly when teams were stale. `data_need_to_update` is kept while `end_date > today` and removed otherwise. `posteriors_need_to_update` is 1 when `last_updated_posteriors` (default `2000-01-01`) is earlier than the newest day, and kept otherwise. All other attributes are unchanged. |
| `SyncProperties.StepSnapshots` | src/data_import/fetch_fixtures_and_teams/app.py:328-343 | After a pass that completes, the fixture snapshot is the normalised fixtures. The team snapshot is the normalised teams when they were stale, and untouched otherwise. |
| `SyncProperties.ReplayFrame` | src/data_import/fetch_fixtures_and_teams/app.py:311-361 | A run changes no record and no snapshot of a season it did not select. |
| `SyncProperties.RefreshedPersists` | src/data_import/fetch_fixtures_and_teams/app.py:311-361 | A refreshed season that the rest of the run does not select stays refreshed. |
| `SyncProperties.StepRefreshes` | src/data_import/fetch_fixtures_and_teams/app.py:350-359 | A pass that completes leaves its season refreshed: today as `last_updated_fixtures`, and a newest game day. |
| `SyncProperties.ReplayRefreshes` | src/data_import/fetch_fixtures_and_teams/app.py:311-361 | A run over distinct candidates that completes leaves every one refreshed. |
| `SyncProperties.QuietCatalog` | src/data_import/fetch_fixtures_and_teams/app.py:196-203 | With nothing due, the selection is empty and the run changes nothing. |
| `SyncProperties.RefreshedComesFirst` | src/data_import/fetch_fixtures_and_teams/app.py:200 | A due season with today's `last_updated_fixtures` is the first one selected when every other due season is older. |
| `SyncProperties.RefreshedSeasonReselected` | src/data_import/fetch_fixtures_and_teams/app.py:200 | An open season that was just synced is selected first by the next run when the other due seasons are older. |
| `SyncProperties.FirstSyncOfOpenSeason` | src/data_import/fetch_fixtures_and_teams/app.py:324-359 | A freshly seeded open season synced on 2024-01-15 gets both snapshots, today's team and fixture dates, the newest game day, and the posteriors flag. |
| `SyncProperties.ClosedSeasonLeavesIndex` | src/data_import/fetch_fixtures_and_teams/app.py:345 | A season whose `end_date` has passed loses `data_need_to_update` and is no longer due. Its up-to-date team date is kept. |
| `SyncProperties.PendingDayIgnored` | src/data_import/fetch_fixtures_and_teams/app.py:291-295 | A later day with an unscored fixture does not count, even though another game that day is scored. |
| `SyncProperties.NullStartDate` | src/data_import/fetch_fixtures_and_teams/app.py:328-333 | A season seeded with a null `start_date` and never synced completes its first pass and gets today's `last_updated_teams`. The next pass over it stops with a `TypeError` before anything is fetched. |
| `SyncProperties.NullEndDate` | src/data_import/fetch_fixtures_and_teams/app.py:339-345 | A season seeded with a null `end_date` gets both snapshots, then stops with a `TypeError`; its record is not updated. |
| `Seasons.MetaRow` | src/data_import/fetch_seasons/app.py:75-83 | The metadata columns are the seven paths' values under their dotted names, in order. It fails exactly when the league lacks one of them, or when a `league` or `country` member is not an object. pandas raises `KeyError` for a missing path and `TypeError` for a parent that is a string, number or list; the model reports `MissingMeta` for both, and either way the import stops before any put. |
| `Seasons.LeagueSeasons` | src/data_import/fetch_seasons/app.py:72-84 | A league succeeds exactly when its `seasons` is a list (or null), it has every metadata path, and every season is an object. Then it gives one entry per season, in order: that season's flattened record paired with the league's own metadata row. |
| `Seasons.ExtractFrom` | src/data_import/fetch_seasons/app.py:72-84 | The extraction succeeds exactly when every league does. The seasons are then the concatenation, league after league, of each league's seasons. On failure the error is that of the first league that fails. |
| `Seasons.FirstConflict` | src/data_import/fetch_seasons/app.py:72-84 | The conflict reported is a metadata path that some season already has as a column. No conflict is reported exactly when none exists. |
| `Seasons.Normalized` | src/data_import/fetch_seasons/app.py:72-84 | It succeeds exactly when the extraction succeeds and no metadata name clashes with a season column. The rows are then one per season, league after league, each its record's columns followed by its own league's metadata columns. |
| `SeasonsProperties.NormalizedAt` | src/data_import/fetch_seasons/app.py:72-84 | There are as many flat rows as seasons. Season `k` of league `l` is row `Start(Groups(data), l) + k`, and it is the flattened `k`-th season record of league `l` followed by league `l`'s metadata row. |
| `SeasonsProperties.NormalizedCovers` | src/data_import/fetch_seasons/app.py:72-84 | Every flat row is one season of one league, at that season's position. |
| `Seasons.Keep` | src/data_import/fetch_seasons/app.py:89-93 | The filter mask: not a `Cup`, `year` above the cutoff, and event coverage true. A number compares as itself and a boolean as 0 or 1, as Python orders them; a missing or null year is NaN and never kept. |
| `Seasons.Filter` | src/data_import/fetch_seasons/app.py:89-93 | A row is kept exactly when its league is not a cup, its year is a number strictly greater than the cutoff, and its events coverage is true. |
| `Seasons.FilterAppend` | src/data_import/fetch_seasons/app.py:89-93 | The filter keeps input order and each occurrence once: filtering a concatenation is filtering each part and concatenating. With `FilterSingle` this fixes the result completely, so `drop_duplicates(keep="last")` sees the kept seasons in their flattened order. |
| `Seasons.FilterSingle` | src/data_import/fetch_seasons/app.py:89-93 | One row is kept, as itself, exactly when the mask holds for it. |
| `Seasons.Survivors` | src/data_import/fetch_seasons/app.py:99 | The positions returned are ascending. Each holds the last row of its key, and every such position is returned. |
| `Seasons.DedupeKeepLast` | src/data_import/fetch_seasons/app.py:99 | The rows kept are the rows at the surviving positions, in order. |
| `Seasons.ProcessSeasons` | src/data_import/fetch_seasons/app.py:72-99 | A flattening error is returned as it is. An empty league list gives `MissingColumn("league_type")`, the model's stand-in for pandas refusing a frame without columns. A frame without `year` or, after it, without `coverage_fixtures_events` gives that `KeyError`. Between the two lookups, a `year` cell that is a string or a list in any row, a cup's included, gives `IncomparableYear`: the `TypeError` that `seasons["year"] > first_year_kept` raises at line 91, so nothing is seeded. Otherwise the result is the filtered, renamed rows de-duplicated keeping the last. Its properties are the `SeasonsProperties.Processed*` lemmas. |
| `Seasons.SeedItem` | src/data_import/fetch_seasons/app.py:142-152 | The item is accepted exactly when both key cells are numbers, and otherwise refused with `ValidationException`. An accepted item has the row's key, the row's `start_date` and `end_date` as stored (a null one as NULL, an absent column as no attribute), its other columns, `last_updated_fixtures = "2000-01-01"`, `data_need_to_update = 1`, no sync attributes, and is due. |
| `Seasons.PutItem` | src/data_import/fetch_seasons/app.py:121-125 | `put_item`: the item is inserted when its key is absent. A present key changes nothing and raises nothing. Any other store fault is raised, with nothing changed. |
| `Seasons.SeedOne` | src/data_import/fetch_seasons/app.py:149-153 | One put: every tracked season stays as it was. The only season that can be added is the row's own, with its item, and it is there afterwards when the row is seedable. |
| `Seasons.SeedAll` | src/data_import/fetch_seasons/app.py:145-153 | The puts of the rows in order. The `SeasonsProperties.SeedAll*` lemmas state its properties. |
| `Seasons.AcceptedPrefixMeans` | src/data_import/fetch_seasons/app.py:145-153 | The loop's progress predicate holds exactly when every row so far was seedable and stored without a fault. |
| `Seasons.SeedRows` | src/data_import/fetch_seasons/app.py:145-153 | The loop stores the first `processed` rows as `SeedAll` does. Every row it got past was seedable and stored. It stops early exactly on an error: `ValidationException` for an unseedable row, otherwise the store's fault. |
| `Seasons.ImportSeasons` | src/data_import/fetch_seasons/app.py:133-153 | A payload that processing refuses leaves the catalog unchanged. Otherwise the catalog is seeded with a prefix of the processed rows, every one of them seedable and stored without a fault. The import stops at the first row that is not seedable, with `ValidationException`, or whose put faults, with that fault. The `TypeError` boto3 raises for a float cell is not modelled. |
| `SeasonsProperties.UnderscoredJoin` | src/data_import/fetch_seasons/app.py:86 | Replacing dots turns `a.b` into `a_b` when neither part has a dot. |
| `SeasonsProperties.MetaColumnNames` | src/data_import/fetch_seasons/app.py:86-96 | Each metadata column ends up as `league_id`, `league_name`, … `country_flag`. The rename leaves these names alone. |
| `SeasonsProperties.RenamedName` | src/data_import/fetch_seasons/app.py:86-96 | No final column name has a dot or is `year`, `start` or `end`. |
| `SeasonsProperties.ProcessedRows` | src/data_import/fetch_seasons/app.py:72-96 | Every imported row is season `k` of some league `l` that the filter kept (not a cup, year above the cutoff, events covered), under its final column names, and it ends with league `l`'s own seven metadata columns under their `_` names. |
| `SeasonsProperties.ProcessedCovers` | src/data_import/fetch_seasons/app.py:72-99 | Every kept season enters de-duplication under its final names. The last row of each key is imported. So every kept season's key is imported. |
| `SeasonsProperties.ProcessedColumnNames` | src/data_import/fetch_seasons/app.py:86-96 | No imported column name has a dot or is one of `year`, `start`, `end`. |
| `SeasonsProperties.DedupeUnique` | src/data_import/fetch_seasons/app.py:99 | After de-duplication no two rows share a `(league_id, season_year)` key. |
| `SeasonsProperties.DedupeComplete` | src/data_import/fetch_seasons/app.py:99 | Every key of the input is still present after de-duplication. |
| `SeasonsProperties.DedupeKeepsLast` | src/data_import/fetch_seasons/app.py:99 | The row kept for a key is at or after every row with that key, and the kept rows stay in input order. |
| `SeasonsProperties.ProcessedUnique` | src/data_import/fetch_seasons/app.py:99 | The imported rows have pairwise different keys. |
| `SeasonsProperties.SeedAllKeeps` | src/data_import/fetch_seasons/app.py:149-153 | Seeding never changes or removes a season already tracked. |
| `SeasonsProperties.SeedAllAdds` | src/data_import/fetch_seasons/app.py:142-143 | Every season that seeding adds has `last_updated_fixtures = "2000-01-01"` and `data_need_to_update = 1`, and is due. |
| `SeasonsProperties.SeedAllOnlyRows` | src/data_import/fetch_seasons/app.py:145-153 | Seeding adds only keys of seedable rows. |
| `SeasonsProperties.SeedAllCovers` | src/data_import/fetch_seasons/app.py:145-153 | After seeding, every seedable row's season is tracked. |
| `SeasonsProperties.SeedAllTracked` | src/data_import/fetch_seasons/app.py:145-153 | Seeding a catalog that already tracks every row's season changes nothing. |
| `SeasonsProperties.SeedAllIdempotent` | src/data_import/fetch_seasons/app.py:145-153 | Seeding twice with the same rows gives the same catalog as seeding once. |
| `SeasonsProperties.SeedAllFirstWins` | src/data_import/fetch_seasons/app.py:149-153 | A new season gets the item of its first row; later puts for it fail their condition. |

## Left out

- HTTP calls to the provider (`get_data`, `get_seasons_data_from_api`) are network I/O. Their answers are parameters of the model: a payload sequence per season, and the league list.
- `FixturesAndTeams.NormalizeFixtures`: a failed `get_data` returns `None`, and `json_normalize(None)` raises `NotImplementedError` at its input check. The model passes an empty payload sequence instead, which fails the column selection with the missing-columns error. Either way the pass stops before anything is written.
- The S3 upload and CSV serialisation (`upload_df_to_s3`, `to_csv`) become a map from snapshot name to frame. The name `{category}/{league_id}/{season_year}/data.csv` is kept as a structured key, not a formatted string.
- Transport details of boto3 and DynamoDB are left out. The table is a map from key to record. The only store failure modelled is a per-put fault code (`StoreFault`) for `put_item`; faults of the query and of `update_item` are not.
- DynamoDB number and type rules are left out: Decimal conversion, and the `int(...)` casts the sync applies to the key attributes it reads (fetch_fixtures_and_teams/app.py:311-312). Kept are the rule that key attributes must be numbers (`Seasons.Seedable`) and NULL attributes (`JNull`), which a read by `[...]` returns without a `KeyError`.
- `Seasons.SeedItem`: pandas dtypes are not modelled, so neither is boto3's refusal of floats. In the frame that `json_normalize` builds, a cell is NaN wherever a season lacks a key that another season has, in any column and whether or not the filter keeps that other season. A column of integers that holds a NaN or a null is float64 in every row, so a `season_year` of 2020 becomes 2020.0. `to_dict("records")` passes these floats to `put_item`, and boto3's serializer raises `TypeError`. That is not a `ClientError`, so `put_item` re-raises it and the import stops at that row. The model stores no attribute for a missing cell, keeps integers as integers, and seeds every row whose key cells are numbers.
- `Seasons.ImportSeasons` and `Seasons.SeedRows`: because of that, they stop only on an unseedable row or a store fault, never on a float cell.
- `pd.to_datetime` and `strftime` are left out, with time zones. A fixture's day is the first ten characters of its `date` string.
- `datetime.now` is the `today` parameter.
- `time.sleep` and logging are left out; they have no effect on state.
- The handlers' JSON response bodies are presentation only.
- `MAX_UPDATES` is read from the environment. It is the `maxUpdates` parameter of `SyncRun`.
- The pagination of query results with a 1 MB limit per page is left out. The index is assumed to project all attributes.
- Column collisions after renaming are not modelled. Two flattened paths may map to the same column name, or a season column may already be named like a catalog attribute (`last_updated_fixtures`, `data_need_to_update`, which `lambda_handler` overwrites at lines 142-143).
- In both cases, the model's lookup by name takes the first such column.
- `Seasons.Keep`: only a boolean, null or missing `coverage_fixtures_events` cell is modelled; the mask keeps the season exactly when the cell is `true`. Line 92 ANDs the raw column into the mask rather than testing it against `True`. For a column that is not boolean, pandas treats null or NaN as false and keeps or drops every other cell by Python truthiness (`1`, `"yes"` or `[0]` kept; `0`, `""` or `[]` dropped). In a column of integers only, the `&` is bitwise with `True`, so odd values are kept and even ones dropped. The model drops every such non-boolean cell. The provider sends booleans in this column.
- `Seasons.DedupeKeepLast`: `drop_duplicates` at line 99 compares key cells as Python values, so a `true` cell equals `1`; `SeasonKey` compares them as JSON values and keeps the two apart. This differs only for a key cell that is not a number, and `Seasons.SeedItem` refuses such a row anyway.
- `infer_objects` and pandas dtype inference are left out. `infer_objects` converts no string to a number, so what matters is each `year` cell as sent: a string or a list stops the import with `TypeError` at line 91 (modelled as `IncomparableYear`), and a number, a boolean, null or a missing year compares as Python and NaN do (modelled by `Seasons.Keep`).
- A season that is not an object is refused with an error of its own (`NotARecord`), after its league's records and metadata have been read. What pandas builds from such a season is not modelled.
- `Seasons.ProcessSeasons`: the column order of the pandas frame is not modelled; every row is its record columns followed by the metadata columns. A frame lacking the `year` or `coverage_fixtures_events` column raises `KeyError`, and that error path is stated in its contract.
- `Seasons.ProcessSeasons`: which exception an empty league list raises depends on the pandas version, which the handler sources do not pin. Under pandas 2, `json_normalize([])` has a `RangeIndex` for columns, and `.columns.str.replace` at line 86 raises `AttributeError`. Under pandas 1 the failure is `KeyError('league_type')` at line 90. The model returns `MissingColumn("league_type")` for both. Either way the import stops before anything is written.
- `FixturesAndTeams.FixtureColumnName` is modelled by its `str.replace` chain, and `FixtureColumnNameNoDot` states that no dot survives. No lemma evaluates it on concrete flattened names such as `score.fulltime.home`. The strict selection (`NormalizeFixtures`) is stated in terms of which records provide each renamed column.
- `FixturesAndTeams.SyncRun`: the run summary reported in the response (the selected pairs) is the `candidates` result. Its string formatting is not modelled.
