/**
 * The season bootstrap importer: flatten the provider's leagues into one
 * row per season carrying its league's metadata, keep the league seasons
 * after the cutoff year that have event coverage, de-duplicate them, and
 * seed the catalog with every season it does not track yet.
 */
module Seasons {
  import opened Wrappers
  import opened Dates
  import opened Text
  import opened Payload
  import opened Tables
  import opened Catalog

  /** Seasons of this year or earlier are not imported. */
  const FirstYear := 2019

  /** Why `process_json_to_dataframe` raises. */
  datatype SeasonsError =
    | MissingRecordPath(league: nat)           // `KeyError`: a league without "seasons"
    | NotAList(league: nat)                    // `TypeError`: "seasons" neither a list nor null
    | MissingMeta(league: nat, path: string)   // `KeyError` for a missing or null parent, `TypeError` for one that is not an object
    | NotARecord(league: nat)                  // a season that is not an object
    | ConflictingMetadata(name: string)        // `ValueError`: a season column named like a metadata path
    | MissingColumn(name: string)              // `KeyError`: a filter column the frame lacks
    | IncomparableYear                         // `TypeError`: a `year` cell that is a string or a list

  // ----- Flattening with league metadata -----

  /** A metadata path: an object member of the league record, and a field inside it. */
  datatype MetaPath = MetaPath(parent: string, field: string)

  const MetaPaths: seq<MetaPath> := [
    MetaPath("league", "id"), MetaPath("league", "name"), MetaPath("league", "type"), MetaPath("league", "logo"),
    MetaPath("country", "name"), MetaPath("country", "code"), MetaPath("country", "flag")]

  /** The column `json_normalize` names a metadata path, joined with `.`. */
  function MetaName(p: MetaPath): string {
    p.parent + "." + p.field
  }

  /** The column a metadata path ends up as, once dots are underscores. */
  function MetaColumn(p: MetaPath): string {
    p.parent + "_" + p.field
  }

  /** The value at a metadata path of a league record, if it has one. */
  function PullMeta(league: Object, p: MetaPath): Option<Json> {
    match Get(league, p.parent)
    case Some(JObj(ms)) => Get(ms, p.field)
    case _ => None
  }

  /** The metadata columns of a league for `paths`, or the first path it lacks. */
  function MetaRow(league: Object, paths: seq<MetaPath>): (r: Result<Row, string>)
    ensures r.Success? ==>
      && |r.value| == |paths|
      && forall j :: 0 <= j < |paths| ==>
           PullMeta(league, paths[j]).Some? && r.value[j] == Member(MetaName(paths[j]), PullMeta(league, paths[j]).value)
    ensures r.Failure? <==> exists j :: 0 <= j < |paths| && PullMeta(league, paths[j]).None?
  {
    if paths == [] then Success([])
    else
      match PullMeta(league, paths[0])
      case None => Failure(MetaName(paths[0]))
      case Some(v) =>
        match MetaRow(league, paths[1..])
        case Failure(e) => Failure(e)
        case Success(rest) =>
          assert forall j :: 1 <= j < |paths| ==> paths[j] == paths[1..][j - 1];
          Success([Member(MetaName(paths[0]), v)] + rest)
  }

  /** `_pull_records(league, "seasons")`: a list, null read as no seasons, anything else refused. */
  function SeasonRecords(league: Object, i: nat): Result<seq<Json>, SeasonsError> {
    match Get(league, "seasons")
    case None => Failure(MissingRecordPath(i))
    case Some(JNull) => Success([])
    case Some(JArr(items)) => Success(items)
    case Some(_) => Failure(NotAList(i))
  }

  /** One season as `json_normalize` extracts it: its flattened record and its league's metadata columns. */
  datatype Extracted = Extracted(record: Row, meta: Row)

  /**
   * The seasons of league `i`: its records are pulled first, then its
   * metadata. Each season record, in order, becomes its flattened columns
   * paired with the league's metadata row.
   */
  function LeagueSeasons(league: Object, i: nat): (r: Result<seq<Extracted>, SeasonsError>)
    ensures r.Success? <==>
      && SeasonRecords(league, i).Success?
      && MetaRow(league, MetaPaths).Success?
      && forall k :: 0 <= k < |SeasonRecords(league, i).value| ==> SeasonRecords(league, i).value[k].JObj?
    ensures r.Success? ==>
      && |r.value| == |SeasonRecords(league, i).value|
      && forall k :: 0 <= k < |r.value| ==>
           r.value[k] == Extracted(Flatten(SeasonRecords(league, i).value[k].members), MetaRow(league, MetaPaths).value)
  {
    match SeasonRecords(league, i)
    case Failure(e) => Failure(e)
    case Success(records) =>
      match MetaRow(league, MetaPaths)
      case Failure(path) => Failure(MissingMeta(i, path))
      case Success(meta) =>
        if exists k :: 0 <= k < |records| && !records[k].JObj? then Failure(NotARecord(i))
        else Success(seq(|records|, k requires 0 <= k < |records| => Extracted(Flatten(records[k].members), meta)))
  }

  /** The seasons league `l` contributes; none when its extraction fails. */
  function SeasonsOf(data: seq<Object>, l: nat): seq<Extracted>
    requires l < |data|
  {
    match LeagueSeasons(data[l], l)
    case Success(es) => es
    case Failure(_) => []
  }

  /** Season `k` of league `l` exists. */
  predicate IsSeason(data: seq<Object>, l: int, k: int) {
    0 <= l < |data| && 0 <= k < |SeasonsOf(data, l)|
  }

  /** Season `k` of league `l` as one flat row: its record's columns, then its league's metadata. */
  function SeasonRow(data: seq<Object>, l: int, k: int): Row
    requires IsSeason(data, l, k)
  {
    SeasonsOf(data, l)[k].record + SeasonsOf(data, l)[k].meta
  }

  /** The seasons of every league, league by league. */
  function Groups(data: seq<Object>): (r: seq<seq<Extracted>>)
    ensures |r| == |data| && forall l :: 0 <= l < |data| ==> r[l] == SeasonsOf(data, l)
  {
    seq(|data|, l requires 0 <= l < |data| => SeasonsOf(data, l))
  }

  /** The lists of `xs`, one after the other. */
  function Concat<T>(xs: seq<seq<T>>): seq<T>
    decreases |xs|
  {
    if xs == [] then [] else xs[0] + Concat(xs[1..])
  }

  /** Where list `l` of `xs` starts in `Concat(xs)`: the length of the lists before it. */
  function Start<T>(xs: seq<seq<T>>, l: nat): nat
    requires l <= |xs|
    decreases l
  {
    if l == 0 then 0 else |xs[0]| + Start(xs[1..], l - 1)
  }

  /** Item `k` of list `l` sits at `Start(xs, l) + k` of the concatenation. */
  lemma {:induction false} ConcatAt<T>(xs: seq<seq<T>>, l: nat, k: nat)
    requires l < |xs| && k < |xs[l]|
    ensures Start(xs, l) + k < |Concat(xs)| && Concat(xs)[Start(xs, l) + k] == xs[l][k]
    decreases l
  {
    if l > 0 {
      ConcatAt(xs[1..], l - 1, k);
      assert xs[1..][l - 1] == xs[l];
    }
  }

  /** The concatenation is as long as all the lists together. */
  lemma {:induction false} ConcatLength<T>(xs: seq<seq<T>>)
    ensures |Concat(xs)| == Start(xs, |xs|)
    decreases |xs|
  {
    if xs != [] {
      ConcatLength(xs[1..]);
    }
  }

  /** Every position of the concatenation holds an item of one of the lists. */
  lemma {:induction false} ConcatCovers<T>(xs: seq<seq<T>>, p: nat)
    requires p < |Concat(xs)|
    ensures exists l, k :: 0 <= l < |xs| && 0 <= k < |xs[l]| && p == Start(xs, l) + k && Concat(xs)[p] == xs[l][k]
    decreases |xs|
  {
    if p < |xs[0]| {
      assert p == Start(xs, 0) + p && Concat(xs)[p] == xs[0][p];
    } else {
      var q := p - |xs[0]|;
      ConcatCovers(xs[1..], q);
      var l, k :| 0 <= l < |xs[1..]| && 0 <= k < |xs[1..][l]| && q == Start(xs[1..], l) + k && Concat(xs[1..])[q] == xs[1..][l][k];
      assert Start(xs, l + 1) == |xs[0]| + Start(xs[1..], l);
      assert xs[l + 1] == xs[1..][l];
      assert Concat(xs)[p] == Concat(xs[1..])[q];
    }
  }

  /** The seasons of leagues `i` onwards; the first league that fails stops the extraction. */
  function ExtractFrom(data: seq<Object>, i: nat): (r: Result<seq<Extracted>, SeasonsError>)
    requires i <= |data|
    ensures r.Success? <==> forall l :: i <= l < |data| ==> LeagueSeasons(data[l], l).Success?
    ensures r.Failure? ==>
      exists l :: i <= l < |data| && LeagueSeasons(data[l], l) == Failure(r.error) &&
        forall j :: i <= j < l ==> LeagueSeasons(data[j], j).Success?
    ensures r.Success? ==> r.value == Concat(Groups(data)[i..])
    decreases |data| - i
  {
    if i == |data| then Success([])
    else
      match LeagueSeasons(data[i], i)
      case Failure(e) => Failure(e)
      case Success(first) =>
        match ExtractFrom(data, i + 1)
        case Failure(e) => Failure(e)
        case Success(rest) =>
          assert Groups(data)[i..][0] == first && Groups(data)[i..][1..] == Groups(data)[i + 1..];
          Success(first + rest)
  }

  /** Some season has a column named like metadata path `p`. */
  predicate Conflicts(es: seq<Extracted>, p: MetaPath) {
    exists e, m :: e in es && m in e.record && m.key == MetaName(p)
  }

  /** The first metadata path, in order, that some season's record already has as a column. */
  function FirstConflict(es: seq<Extracted>, k: nat): (r: Option<MetaPath>)
    requires k <= |MetaPaths|
    ensures r.Some? ==> r.value in MetaPaths && Conflicts(es, r.value)
    ensures r.None? <==> forall j :: k <= j < |MetaPaths| ==> !Conflicts(es, MetaPaths[j])
    decreases |MetaPaths| - k
  {
    if k == |MetaPaths| then None
    else if Conflicts(es, MetaPaths[k]) then Some(MetaPaths[k])
    else FirstConflict(es, k + 1)
  }

  /** Each season's record columns followed by its metadata columns. */
  function Joined(es: seq<Extracted>): (r: seq<Row>)
    ensures |r| == |es| && forall k :: 0 <= k < |es| ==> r[k] == es[k].record + es[k].meta
  {
    seq(|es|, k requires 0 <= k < |es| => es[k].record + es[k].meta)
  }

  /**
   * `json_normalize(data, record_path=["seasons"], meta=[...])`: one row
   * per season, league after league, each its record's columns followed by
   * its own league's metadata.
   */
  function Normalized(data: seq<Object>): (r: Result<seq<Row>, SeasonsError>)
    ensures r.Success? <==> ExtractFrom(data, 0).Success? && FirstConflict(ExtractFrom(data, 0).value, 0).None?
    ensures r.Success? ==> r.value == Joined(Concat(Groups(data)))
  {
    match ExtractFrom(data, 0)
    case Failure(e) => Failure(e)
    case Success(es) =>
      match FirstConflict(es, 0)
      case Some(p) => Failure(ConflictingMetadata(MetaName(p)))
      case None => Success(Joined(es))
  }

  // ----- Renaming, filtering, de-duplication -----

  /** `columns.str.replace(".", "_")`. */
  function Underscored(c: string): string {
    ReplaceAll(c, ".", "_")
  }

  /** `rename(columns={"year": "season_year", "start": "start_date", "end": "end_date"})`. */
  function SeasonColumnName(c: string): string {
    if c == "year" then "season_year"
    else if c == "start" then "start_date"
    else if c == "end" then "end_date"
    else c
  }

  /**
   * `year > first_year_kept` on one cell: a number compares as itself, a
   * boolean as 0 or 1, and NaN (a missing or null year) is never greater.
   */
  predicate YearAbove(year: Json, firstYearKept: int) {
    match year
    case JNum(n) => n > firstYearKept
    case JBool(b) => (if b then 1 else 0) > firstYearKept
    case _ => false
  }

  /** A `year` cell that Python cannot order against an integer. */
  predicate Incomparable(year: Json) {
    year.JStr? || year.JArr?
  }

  /**
   * The `year` column holds a cell that makes `seasons["year"] > first_year_kept`
   * raise `TypeError`; the comparison covers every row, cups included.
   */
  predicate HasIncomparableYear(rows: seq<Row>) {
    exists row :: row in rows && Incomparable(Cell(row, "year"))
  }

  /** The three filter conditions: not a cup, after the cutoff year, with event coverage. */
  predicate Keep(row: Row, firstYearKept: int) {
    && Cell(row, "league_type") != JStr("Cup")
    && YearAbove(Cell(row, "year"), firstYearKept)
    && Cell(row, "coverage_fixtures_events") == JBool(true)
  }

  /** The rows the filter keeps, in order. */
  function Filter(rows: seq<Row>, firstYearKept: int): (r: seq<Row>)
    ensures forall row :: row in r <==> row in rows && Keep(row, firstYearKept)
  {
    if rows == [] then []
    else (if Keep(rows[0], firstYearKept) then [rows[0]] else []) + Filter(rows[1..], firstYearKept)
  }

  /**
   * `seasons[mask]` keeps the kept rows in their input order, each
   * occurrence once: filtering a concatenation filters each part in turn.
   */
  lemma {:induction false} FilterAppend(xs: seq<Row>, ys: seq<Row>, firstYearKept: int)
    ensures Filter(xs + ys, firstYearKept) == Filter(xs, firstYearKept) + Filter(ys, firstYearKept)
    decreases |xs|
  {
    if xs == [] {
      assert xs + ys == ys;
    } else {
      assert (xs + ys)[0] == xs[0] && (xs + ys)[1..] == xs[1..] + ys;
      FilterAppend(xs[1..], ys, firstYearKept);
    }
  }

  /** A single row is kept exactly when the mask holds for it. */
  lemma FilterSingle(row: Row, firstYearKept: int)
    ensures Filter([row], firstYearKept) == if Keep(row, firstYearKept) then [row] else []
  {
    assert [row][1..] == [];
  }

  /** The de-duplication key `(league_id, season_year)`; a missing cell counts as NaN, and NaN matches NaN. */
  function SeasonKey(row: Row): (Json, Json) {
    (Cell(row, "league_id"), Cell(row, "season_year"))
  }

  /** Row `i` is the last one with its key. */
  predicate LastOccurrence(rows: seq<Row>, i: int) {
    0 <= i < |rows| && forall j :: i < j < |rows| ==> SeasonKey(rows[j]) != SeasonKey(rows[i])
  }

  /** The positions from `from` on that hold the last row of their key, ascending. */
  function Survivors(rows: seq<Row>, from: nat): (r: seq<nat>)
    requires from <= |rows|
    ensures forall k :: 0 <= k < |r| ==> from <= r[k] && LastOccurrence(rows, r[k])
    ensures forall a, b :: 0 <= a < b < |r| ==> r[a] < r[b]
    ensures forall i :: from <= i < |rows| && LastOccurrence(rows, i) ==> i in r
    decreases |rows| - from
  {
    if from == |rows| then []
    else
      var head := if LastOccurrence(rows, from) then [from] else [];
      var rest := Survivors(rows, from + 1);
      assert forall k :: 0 <= k < |rest| ==> (head + rest)[|head| + k] == rest[k];
      assert forall k :: 0 <= k < |head| ==> (head + rest)[k] == from;
      head + rest
  }

  /** `drop_duplicates(subset=["league_id", "season_year"], keep="last")`. */
  function DedupeKeepLast(rows: seq<Row>): (r: seq<Row>)
    ensures |r| == |Survivors(rows, 0)|
    ensures forall k :: 0 <= k < |r| ==> r[k] == rows[Survivors(rows, 0)[k]]
  {
    var idx := Survivors(rows, 0);
    seq(|idx|, k requires 0 <= k < |idx| => rows[idx[k]])
  }

  /** The flattened rows with dots replaced, filtered, and with `year`, `start`, `end` renamed. */
  function Renamed(flat: seq<Row>, firstYearKept: int): seq<Row> {
    RenameRows(Filter(RenameRows(flat, Underscored), firstYearKept), SeasonColumnName)
  }

  /**
   * `process_json_to_dataframe`: flatten, replace dots, filter (the
   * filter's columns are looked up in order, `league_type`, `year`,
   * `coverage_fixtures_events`), rename, and de-duplicate. An empty league
   * list gives a frame without columns, which pandas refuses: with
   * `AttributeError` from `.str` under pandas 2, with `KeyError('league_type')`
   * under pandas 1; here that refusal is `MissingColumn("league_type")`.
   * A frame of leagues always has the metadata columns, so `league_type`
   * is there. A `year` that is a string or a list anywhere in the frame
   * makes the comparison raise `TypeError` before `coverage_fixtures_events`
   * is looked up.
   */
  function ProcessSeasons(data: seq<Object>, firstYearKept: int): (r: Result<seq<Row>, SeasonsError>)
    ensures Normalized(data).Failure? ==> r == Failure(Normalized(data).error)
    ensures Normalized(data).Success? && |data| == 0 ==> r == Failure(MissingColumn("league_type"))
    ensures Normalized(data).Success? && |data| > 0 ==>
      var rows := RenameRows(Normalized(data).value, Underscored);
      && (!HasColumn(rows, "year") ==> r == Failure(MissingColumn("year")))
      && (HasColumn(rows, "year") && HasIncomparableYear(rows) ==> r == Failure(IncomparableYear))
      && (HasColumn(rows, "year") && !HasIncomparableYear(rows) && !HasColumn(rows, "coverage_fixtures_events") ==>
            r == Failure(MissingColumn("coverage_fixtures_events")))
      && (HasColumn(rows, "year") && !HasIncomparableYear(rows) && HasColumn(rows, "coverage_fixtures_events") ==>
            r == Success(DedupeKeepLast(Renamed(Normalized(data).value, firstYearKept))))
  {
    match Normalized(data)
    case Failure(e) => Failure(e)
    case Success(flat) =>
      var rows := RenameRows(flat, Underscored);
      if |data| == 0 then Failure(MissingColumn("league_type"))
      else if !HasColumn(rows, "year") then Failure(MissingColumn("year"))
      else if HasIncomparableYear(rows) then Failure(IncomparableYear)
      else if !HasColumn(rows, "coverage_fixtures_events") then Failure(MissingColumn("coverage_fixtures_events"))
      else Success(DedupeKeepLast(Renamed(flat, firstYearKept)))
  }

  // ----- Seeding the catalog -----

  /** The columns the catalog record does not hold as attributes of its own. */
  function OtherColumns(row: Row): (r: Row)
    ensures forall m :: m in r <==> m in row && m.key !in {"league_id", "season_year", "start_date", "end_date"}
  {
    if row == [] then []
    else (if row[0].key in {"league_id", "season_year", "start_date", "end_date"} then [] else [row[0]]) + OtherColumns(row[1..])
  }

  /** The row's key cells are numbers, as the store requires of key attributes. */
  predicate Seedable(row: Row) {
    Cell(row, "league_id").JNum? && Cell(row, "season_year").JNum?
  }

  /** The first `n` rows are all seedable and the store accepted each of their puts. */
  predicate AcceptedPrefix(rows: seq<Row>, faults: nat -> Option<StoreFault>, n: nat)
    requires n <= |rows|
  {
    n == 0 || (AcceptedPrefix(rows, faults, n - 1) && Seedable(rows[n - 1]) && faults(n - 1).None?)
  }

  lemma AcceptedPrefixMeans(rows: seq<Row>, faults: nat -> Option<StoreFault>, n: nat)
    requires n <= |rows|
    ensures AcceptedPrefix(rows, faults, n) <==> forall j :: 0 <= j < n ==> Seedable(rows[j]) && faults(j).None?
  {
    if AcceptedPrefix(rows, faults, n) {
      AcceptedPrefixAll(rows, faults, n);
    }
    if forall j :: 0 <= j < n ==> Seedable(rows[j]) && faults(j).None? {
      AllAcceptedPrefix(rows, faults, n);
    }
  }

  lemma {:induction false} AcceptedPrefixAll(rows: seq<Row>, faults: nat -> Option<StoreFault>, n: nat)
    requires n <= |rows| && AcceptedPrefix(rows, faults, n)
    ensures forall j :: 0 <= j < n ==> Seedable(rows[j]) && faults(j).None?
  {
    if n > 0 {
      AcceptedPrefixAll(rows, faults, n - 1);
    }
  }

  lemma {:induction false} AllAcceptedPrefix(rows: seq<Row>, faults: nat -> Option<StoreFault>, n: nat)
    requires n <= |rows|
    requires forall j :: 0 <= j < n ==> Seedable(rows[j]) && faults(j).None?
    ensures AcceptedPrefix(rows, faults, n)
  {
    if n > 0 {
      AllAcceptedPrefix(rows, faults, n - 1);
    }
  }


  /**
   * The item the handler puts for a row: the row's columns with the two
   * placeholders `last_updated_fixtures = "2000-01-01"` and
   * `data_need_to_update = 1`. The key attributes must be numbers, or the
   * store refuses the request. The season dates are stored as the row holds
   * them, a null one as a NULL attribute; a row without the column gives
   * no attribute.
   */
  function SeedItem(row: Row): (r: Result<CatalogItem, string>)
    ensures r.Success? <==> Seedable(row)
    ensures r.Failure? ==> r.error == ValidationException
    ensures r.Success? ==>
      && r.value.key == Key(Cell(row, "league_id").n, Cell(row, "season_year").n)
      && r.value.meta.startDate == Get(row, "start_date")
      && r.value.meta.endDate == Get(row, "end_date")
      && r.value.meta.lastUpdatedFixtures == Some(FarPast)
      && r.value.meta.dataNeedToUpdate == Some(1)
      && r.value.meta.lastUpdatedTeams.None? && r.value.meta.newestGameDate.None?
      && r.value.meta.lastUpdatedPosteriors.None? && r.value.meta.posteriorsNeedToUpdate.None?
      && r.value.meta.otherAttributes == OtherColumns(row)
      && Due(r.value.meta)
  {
    match (Cell(row, "league_id"), Cell(row, "season_year"))
    case (JNum(league), JNum(year)) =>
      Success(CatalogItem(Key(league, year), SeasonMeta(
        Get(row, "start_date"), Get(row, "end_date"),
        None, Some(FarPast), None, None, Some(1), None, OtherColumns(row))))
    case _ => Failure(ValidationException)
  }

  /** A conditional put that succeeds: the item goes in only when its key is absent. */
  function Insert(items: map<Key, SeasonMeta>, item: CatalogItem): map<Key, SeasonMeta> {
    if item.key in items then items else items[item.key := item.meta]
  }

  /**
   * The catalog after putting the item of `row`: every tracked season stays
   * as it was, and the only season that can be added is the row's own, with
   * its item, when the row is seedable; a row the store refuses changes nothing.
   */
  function SeedOne(items: map<Key, SeasonMeta>, row: Row): (r: map<Key, SeasonMeta>)
    ensures forall k :: k in items ==> k in r && r[k] == items[k]
    ensures Seedable(row) ==> SeedItem(row).value.key in r
    ensures forall k :: k in r && k !in items ==>
      Seedable(row) && k == SeedItem(row).value.key && r[k] == SeedItem(row).value.meta
  {
    match SeedItem(row)
    case Success(item) => Insert(items, item)
    case Failure(_) => items
  }

  /** The catalog after putting the items of `rows` in order. */
  function SeedAll(items: map<Key, SeasonMeta>, rows: seq<Row>): map<Key, SeasonMeta>
    decreases |rows|
  {
    if rows == [] then items else SeedOne(SeedAll(items, rows[..|rows| - 1]), rows[|rows| - 1])
  }

  /** Seeding one more row puts that row's item. */
  lemma SeedAllStep(items: map<Key, SeasonMeta>, rows: seq<Row>, i: nat)
    requires i < |rows|
    ensures SeedAll(items, rows[..i + 1]) == SeedOne(SeedAll(items, rows[..i]), rows[i])
  {
    assert rows[..i + 1][..i] == rows[..i];
  }

  /** Why an import stops: the payload is refused, or the store fails a put. */
  datatype ImportError = Rejected(cause: SeasonsError) | StoreError(code: string)

  /**
   * `put_item`: the conditional put, with "condition failed" swallowed —
   * the season is tracked already — and every other error passed on.
   */
  method PutItem(table: MetaTable, item: CatalogItem, fault: Option<StoreFault>) returns (error: Option<string>)
    modifies table
    ensures error == fault
    ensures table.items == if fault.Some? then old(table.items) else Insert(old(table.items), item)
  {
    error := table.ConditionalPut(item.key, item.meta, fault);
    if error == Some(ConditionalCheckFailed) {
      error := None;
    }
  }

  /**
   * The seeding loop of `lambda_handler`: put one item per row in order
   * until the first error. `faults(i)` is the store's own failure, if any,
   * on the `i`-th put. Returns how many rows were put and the error, if the
   * loop stopped early.
   */
  method SeedRows(table: MetaTable, rows: seq<Row>, faults: nat -> Option<StoreFault>)
    returns (processed: nat, error: Option<string>)
    modifies table
    ensures processed <= |rows|
    ensures table.items == SeedAll(old(table.items), rows[..processed])
    ensures forall j :: 0 <= j < processed ==> Seedable(rows[j]) && faults(j).None?
    ensures error.None? <==> processed == |rows|
    ensures error.Some? && SeedItem(rows[processed]).Failure? ==> error == Some(ValidationException)
    ensures error.Some? && SeedItem(rows[processed]).Success? ==> faults(processed) == error
  {
    ghost var start := table.items;
    processed := 0;
    while processed < |rows|
      invariant processed <= |rows|
      invariant table.items == SeedAll(start, rows[..processed])
      invariant AcceptedPrefix(rows, faults, processed)
    {
      var item := SeedItem(rows[processed]);
      if item.Failure? {
        AcceptedPrefixMeans(rows, faults, processed);
        return processed, Some(item.error);
      }
      error := PutItem(table, item.value, faults(processed));
      if error.Some? {
        AcceptedPrefixMeans(rows, faults, processed);
        return;
      }
      SeedAllStep(start, rows, processed);
      processed := processed + 1;
    }
    assert rows[..processed] == rows;
    AcceptedPrefixMeans(rows, faults, processed);
    error := None;
  }

  /**
   * `lambda_handler`: process the provider's leagues (`data`) with the
   * cutoff year, then seed the catalog with the rows.
   */
  method ImportSeasons(table: MetaTable, data: seq<Object>, faults: nat -> Option<StoreFault>)
    returns (processed: nat, error: Option<ImportError>)
    modifies table
    ensures ProcessSeasons(data, FirstYear).Failure? ==>
      error == Some(Rejected(ProcessSeasons(data, FirstYear).error)) && processed == 0 && table.items == old(table.items)
    ensures ProcessSeasons(data, FirstYear).Success? ==>
      && processed <= |ProcessSeasons(data, FirstYear).value|
      && table.items == SeedAll(old(table.items), ProcessSeasons(data, FirstYear).value[..processed])
      && (error.None? <==> processed == |ProcessSeasons(data, FirstYear).value|)
      && (error.Some? ==> error.value.StoreError?)
      && (forall j :: 0 <= j < processed ==> Seedable(ProcessSeasons(data, FirstYear).value[j]) && faults(j).None?)
      && (error.Some? && !Seedable(ProcessSeasons(data, FirstYear).value[processed]) ==>
            error == Some(StoreError(ValidationException)))
      && (error.Some? && Seedable(ProcessSeasons(data, FirstYear).value[processed]) ==>
            faults(processed).Some? && error == Some(StoreError(faults(processed).value)))
  {
    var result := ProcessSeasons(data, FirstYear);
    if result.Failure? {
      return 0, Some(Rejected(result.error));
    }
    var failure;
    processed, failure := SeedRows(table, result.value, faults);
    error := if failure.Some? then Some(StoreError(failure.value)) else None;
  }
}
