/**
 * The fixture and team sync engine: pick the due seasons, normalise the
 * provider's team and fixture payloads, publish them as snapshots, derive
 * the newest fully scored game day, and write the partial metadata update.
 */
module FixturesAndTeams {
  import opened Wrappers
  import opened Dates
  import opened Text
  import opened Payload
  import opened Tables
  import opened Catalog

  // ----- Normalisation -----

  /** The fixture frame's columns, in order. */
  const FixtureColumns: seq<string> := [
    "game_id", "game_date", "league_id", "league_name", "league_season",
    "teams_home_id", "teams_home_name", "teams_away_id", "teams_away_name",
    "score_ht_home", "score_ft_home", "score_ht_away", "score_ft_away"]

  /** Positions of the two columns the freshness calculation reads. */
  const GameDateColumn := 1
  const FullTimeHomeColumn := 10

  /** The team frame's columns, in order. */
  const TeamColumns: seq<string> := ["team_id", "team_name", "team_code", "team_logo", "team_country"]

  /** A fixture column name: dots become underscores, then `fixture`, `halftime`, `fulltime` are shortened. */
  function FixtureColumnName(c: string): string {
    ReplaceAll(ReplaceAll(ReplaceAll(ReplaceAll(c, ".", "_"), "fixture", "game"), "halftime", "ht"), "fulltime", "ft")
  }

  /** No fixture column name has a dot left: dots go first, and none of the later replacements writes one. */
  lemma FixtureColumnNameNoDot(c: string)
    ensures '.' !in FixtureColumnName(c)
  {
    var s1 := ReplaceAll(c, ".", "_");
    ReplaceCharRemoves(c, '.', '_');
    var s2 := ReplaceAll(s1, "fixture", "game");
    ReplaceKeepsAbsent(s1, "fixture", "game", '.');
    var s3 := ReplaceAll(s2, "halftime", "ht");
    ReplaceKeepsAbsent(s2, "halftime", "ht", '.');
    ReplaceKeepsAbsent(s3, "fulltime", "ft", '.');
  }

  /** A team column name: dots become underscores. */
  function TeamColumnName(c: string): string {
    ReplaceAll(c, ".", "_")
  }

  /** `json_normalize` of a list of records. */
  function FlattenAll(records: seq<Object>): (r: seq<Row>)
    ensures |r| == |records| && forall i :: 0 <= i < |records| ==> r[i] == Flatten(records[i])
  {
    seq(|records|, i requires 0 <= i < |records| => Flatten(records[i]))
  }

  /** Some record of the payload has a flattened path that `rename` turns into column `c`. */
  predicate Provides(records: seq<Object>, rename: string -> string, c: string) {
    exists i, m :: 0 <= i < |records| && m in Flatten(records[i]) && rename(m.key) == c
  }

  lemma HasRenamedColumn(records: seq<Object>, rename: string -> string, c: string)
    ensures HasColumn(RenameRows(FlattenAll(records), rename), c) <==> Provides(records, rename, c)
  {
    var rows := RenameRows(FlattenAll(records), rename);
    forall i | 0 <= i < |records|
      ensures Get(rows[i], c).Some? <==> exists m :: m in Flatten(records[i]) && rename(m.key) == c
    {
      GetRenamed(Flatten(records[i]), rename, c);
    }
  }

  /** Flatten, rename with `rename`, and keep exactly the `wanted` columns. */
  function Normalize(records: seq<Object>, rename: string -> string, wanted: seq<string>): (r: Result<Frame, seq<string>>)
    ensures r.Success? <==> forall c :: c in wanted ==> Provides(records, rename, c)
    ensures r.Success? ==>
      && r.value.columns == wanted
      && |r.value.rows| == |records|
      && forall i :: 0 <= i < |records| ==> |r.value.rows[i]| == |wanted|
    ensures r.Success? ==>
      forall i, j :: 0 <= i < |records| && 0 <= j < |wanted| ==>
        r.value.rows[i][j] == Cell(RenameRow(Flatten(records[i]), rename), wanted[j])
    ensures r.Failure? ==> r.error != [] && forall c :: c in r.error <==> c in wanted && !Provides(records, rename, c)
  {
    forall c ensures HasColumn(RenameRows(FlattenAll(records), rename), c) <==> Provides(records, rename, c) {
      HasRenamedColumn(records, rename, c);
    }
    SelectColumns(RenameRows(FlattenAll(records), rename), wanted)
  }

  /** `process_fixtures_to_df`: the 13 fixture columns, or the missing ones as an error. */
  function NormalizeFixtures(records: seq<Object>): (r: FixtureResult)
    ensures r.Success? <==> forall c :: c in FixtureColumns ==> Provides(records, FixtureColumnName, c)
    ensures r.Success? ==> r.value.columns == FixtureColumns && |r.value.rows| == |records|
    ensures r.Success? ==> forall i :: 0 <= i < |records| ==> |r.value.rows[i]| == |FixtureColumns|
    ensures r.Success? ==> forall i, j :: 0 <= i < |records| && 0 <= j < |FixtureColumns| ==>
      r.value.rows[i][j] == Cell(RenameRow(Flatten(records[i]), FixtureColumnName), FixtureColumns[j])
    ensures r.Failure? ==> r.error != [] && forall c :: c in r.error <==> c in FixtureColumns && !Provides(records, FixtureColumnName, c)
  {
    Normalize(records, FixtureColumnName, FixtureColumns)
  }

  /** `process_teams_to_df`: the 5 team columns, or the missing ones as an error. */
  function NormalizeTeams(records: seq<Object>): (r: Result<Frame, seq<string>>)
    ensures r.Success? <==> forall c :: c in TeamColumns ==> Provides(records, TeamColumnName, c)
    ensures r.Success? ==> r.value.columns == TeamColumns && |r.value.rows| == |records|
    ensures r.Success? ==> forall i :: 0 <= i < |records| ==> |r.value.rows[i]| == |TeamColumns|
    ensures r.Success? ==> forall i, j :: 0 <= i < |records| && 0 <= j < |TeamColumns| ==>
      r.value.rows[i][j] == Cell(RenameRow(Flatten(records[i]), TeamColumnName), TeamColumns[j])
    ensures r.Failure? ==> r.error != [] && forall c :: c in r.error <==> c in TeamColumns && !Provides(records, TeamColumnName, c)
  {
    Normalize(records, TeamColumnName, TeamColumns)
  }

  // ----- Freshness -----

  /** What the freshness calculation reads of one fixture: its calendar day (if any) and its full-time home score. */
  datatype Game = Game(day: Option<Date>, fullTimeHome: Json)

  /** The calendar day of a `game_date` cell: the leading `YYYY-MM-DD` of the timestamp; none for a missing date. */
  function DayOf(gameDate: Json): Option<Date> {
    if gameDate.JStr? && |gameDate.s| >= 10 then Some(gameDate.s[..10]) else None
  }

  function Games(f: Frame): (r: seq<Game>)
    requires f.columns == FixtureColumns
    requires forall i :: 0 <= i < |f.rows| ==> |f.rows[i]| == |FixtureColumns|
    ensures |r| == |f.rows|
  {
    seq(|f.rows|, i requires 0 <= i < |f.rows| =>
      Game(DayOf(f.rows[i][GameDateColumn]), f.rows[i][FullTimeHomeColumn]))
  }

  /** Some fixture falls on day `d`, and every fixture on `d` has a full-time home score. */
  predicate CompleteDay(games: seq<Game>, d: Date) {
    && (exists i :: 0 <= i < |games| && games[i].day == Some(d))
    && (forall i :: 0 <= i < |games| && games[i].day == Some(d) ==> !games[i].fullTimeHome.JNull?)
  }

  /** The latest complete day among the days of the first `k` fixtures. */
  function NewestAmong(games: seq<Game>, k: nat): (r: Option<Date>)
    requires k <= |games|
    ensures r.Some? ==> CompleteDay(games, r.value) && exists i :: 0 <= i < k && games[i].day == r
    ensures forall i :: 0 <= i < k && games[i].day.Some? && CompleteDay(games, games[i].day.value) ==>
      r.Some? && !Less(r.value, games[i].day.value)
  {
    if k == 0 then None
    else
      var previous := NewestAmong(games, k - 1);
      var day := games[k - 1].day;
      if day.Some? && CompleteDay(games, day.value) && (previous.None? || Less(previous.value, day.value)) then
        LessIrreflexive(day.value);
        if previous.Some? then
          assert forall i :: 0 <= i < k - 1 && games[i].day.Some? && CompleteDay(games, games[i].day.value) ==>
            !Less(day.value, games[i].day.value) by {
            forall i | 0 <= i < k - 1 && games[i].day.Some? && CompleteDay(games, games[i].day.value)
              ensures !Less(day.value, games[i].day.value)
            {
              if Less(day.value, games[i].day.value) {
                LessTransitive(previous.value, day.value, games[i].day.value);
              }
            }
          }
          day
        else
          day
      else
        previous
  }

  /**
   * `get_newest_game_date`: group the fixtures by day, keep the days on
   * which every fixture has a full-time home score, take the latest.
   * `None` stands for the NaN that `max()` gives when no day qualifies.
   */
  function NewestGameDate(games: seq<Game>): (r: Option<Date>)
    ensures r.Some? ==> CompleteDay(games, r.value)
    ensures forall d :: CompleteDay(games, d) ==> r.Some? && !Less(r.value, d)
  {
    NewestAmong(games, |games|)
  }

  /** The newest game day is exactly the complete day no complete day is later than. */
  lemma NewestGameDateIs(games: seq<Game>, d: Date)
    ensures NewestGameDate(games) == Some(d) <==>
      CompleteDay(games, d) && forall e :: CompleteDay(games, e) ==> !Less(d, e)
  {
    var r := NewestGameDate(games);
    if CompleteDay(games, d) && forall e :: CompleteDay(games, e) ==> !Less(d, e) {
      assert r.Some? && !Less(r.value, d);
      assert !Less(d, r.value);
      LessTrichotomy(r.value, d);
    }
    if r == Some(d) {
      forall e | CompleteDay(games, e)
        ensures !Less(d, e)
      {
        assert !Less(r.value, e);
      }
    }
  }

  // ----- The metadata update -----

  /** The arguments of `update_the_dymamodb_meta_table` besides the table and the key. */
  datatype MetaUpdate = MetaUpdate(
    lastUpdatedTeams: Option<Date>,
    lastUpdatedFixtures: Date,
    newestGameDate: Date,
    posteriorsNeedToUpdate: bool,
    dataNeedToUpdate: bool)

  /** The update expression the handler sends for `u`. */
  function MetaUpdateExpression(u: MetaUpdate): UpdateExpression {
    UpdateExpression(
      [SetDate(LastUpdatedFixtures, u.lastUpdatedFixtures), SetDate(DateAttribute.NewestGameDate, u.newestGameDate)]
      + (if u.lastUpdatedTeams.Some? then [SetDate(LastUpdatedTeams, u.lastUpdatedTeams.value)] else [])
      + (if u.posteriorsNeedToUpdate then [SetFlag(PosteriorsNeedToUpdate, 1)] else []),
      if u.dataNeedToUpdate then [] else [DataNeedToUpdate])
  }

  function UpdatedMeta(m: SeasonMeta, u: MetaUpdate): SeasonMeta {
    ApplyUpdate(m, MetaUpdateExpression(u))
  }

  /**
   * The update always writes `last_updated_fixtures` and `newest_game_date`;
   * writes `last_updated_teams` only when given one; sets
   * `posteriors_need_to_update` to 1 only when asked and never clears it;
   * removes `data_need_to_update` only when the season is closed; and keeps
   * every other attribute.
   */
  lemma UpdateEffects(m: SeasonMeta, u: MetaUpdate)
    ensures UpdatedMeta(m, u).lastUpdatedFixtures == Some(u.lastUpdatedFixtures)
    ensures UpdatedMeta(m, u).newestGameDate == Some(u.newestGameDate)
    ensures UpdatedMeta(m, u).lastUpdatedTeams == if u.lastUpdatedTeams.Some? then u.lastUpdatedTeams else m.lastUpdatedTeams
    ensures UpdatedMeta(m, u).posteriorsNeedToUpdate == if u.posteriorsNeedToUpdate then Some(1) else m.posteriorsNeedToUpdate
    ensures UpdatedMeta(m, u).dataNeedToUpdate == if u.dataNeedToUpdate then m.dataNeedToUpdate else None
    ensures UpdatedMeta(m, u).startDate == m.startDate && UpdatedMeta(m, u).endDate == m.endDate
    ensures UpdatedMeta(m, u).lastUpdatedPosteriors == m.lastUpdatedPosteriors
    ensures UpdatedMeta(m, u).otherAttributes == m.otherAttributes
  {
    var e := MetaUpdateExpression(u);
    var first := [SetDate(LastUpdatedFixtures, u.lastUpdatedFixtures), SetDate(DateAttribute.NewestGameDate, u.newestGameDate)];
    var teams := if u.lastUpdatedTeams.Some? then [SetDate(LastUpdatedTeams, u.lastUpdatedTeams.value)] else [];
    var posteriors := if u.posteriorsNeedToUpdate then [SetFlag(PosteriorsNeedToUpdate, 1)] else [];
    assert e.assignments == (first + teams) + posteriors;
    AssignAllAppend(m, first + teams, posteriors);
    AssignAllAppend(m, first, teams);
    var m1 := AssignAll(m, first);
    assert m1 == m.(lastUpdatedFixtures := Some(u.lastUpdatedFixtures), newestGameDate := Some(u.newestGameDate)) by {
      assert first == [first[0]] + [first[1]];
      AssignAllAppend(m, [first[0]], [first[1]]);
      AssignAllSingle(m, first[0]);
      AssignAllSingle(Assign(m, first[0]), first[1]);
    }
    var m2 := AssignAll(m1, teams);
    if u.lastUpdatedTeams.Some? {
      AssignAllSingle(m1, teams[0]);
    }
    var m3 := AssignAll(m2, posteriors);
    if u.posteriorsNeedToUpdate {
      AssignAllSingle(m2, posteriors[0]);
    }
    assert UpdatedMeta(m, u) == RemoveAll(m3, e.removals);
    if !u.dataNeedToUpdate {
      assert RemoveAll(m3, e.removals) == RemoveAll(Remove(m3, DataNeedToUpdate), []);
    }
  }

  lemma AssignAllSingle(m: SeasonMeta, a: Assignment)
    ensures AssignAll(m, [a]) == Assign(m, a)
  {
    assert [a][1..] == [];
  }

  lemma {:induction false} AssignAllAppend(m: SeasonMeta, xs: seq<Assignment>, ys: seq<Assignment>)
    ensures AssignAll(m, xs + ys) == AssignAll(AssignAll(m, xs), ys)
    decreases |xs|
  {
    if xs != [] {
      assert (xs + ys)[0] == xs[0] && (xs + ys)[1..] == xs[1..] + ys;
      AssignAllAppend(Assign(m, xs[0]), xs[1..], ys);
    } else {
      assert xs + ys == ys;
    }
  }

  /**
   * `update_the_dymamodb_meta_table`: builds the expression clause by clause
   * — the two dates always, `last_updated_teams` when given,
   * `posteriors_need_to_update = 1` when asked, `REMOVE data_need_to_update`
   * when the season is closed — and sends it for `key`.
   */
  method UpdateMetaTable(table: MetaTable, key: Key, u: MetaUpdate)
    modifies table
    ensures table.items == old(table.items)[key := UpdatedMeta(if key in old(table.items) then old(table.items)[key] else Blank, u)]
  {
    var assignments := [SetDate(LastUpdatedFixtures, u.lastUpdatedFixtures), SetDate(DateAttribute.NewestGameDate, u.newestGameDate)];
    if u.lastUpdatedTeams.Some? {
      assignments := assignments + [SetDate(LastUpdatedTeams, u.lastUpdatedTeams.value)];
    }
    if u.posteriorsNeedToUpdate {
      assignments := assignments + [SetFlag(PosteriorsNeedToUpdate, 1)];
    }
    var removals: seq<FlagAttribute> := [];
    if !u.dataNeedToUpdate {
      removals := removals + [DataNeedToUpdate];
    }
    assert UpdateExpression(assignments, removals) == MetaUpdateExpression(u);
    table.UpdateItem(key, UpdateExpression(assignments, removals));
  }

  // ----- Snapshots -----

  datatype Category = TeamsSnapshot | FixturesSnapshot

  /** An uploaded snapshot's name, `{category}/{league_id}/{season_year}/data.csv`. */
  datatype SnapshotKey = SnapshotKey(category: Category, key: Key)

  /** The destination bucket: each upload replaces the object of that name. */
  class SnapshotBucket {
    var objects: map<SnapshotKey, Frame>

    constructor (initial: map<SnapshotKey, Frame>)
      ensures objects == initial
    {
      objects := initial;
    }

    method Upload(name: SnapshotKey, frame: Frame)
      modifies this
      ensures objects == old(objects)[name := frame]
    {
      objects := objects[name := frame];
    }
  }

  // ----- Per-candidate decisions -----

  /**
   * `last_updated_teams < start_date` is only evaluated when teams were
   * fetched before, and Python can only evaluate it when the stored start
   * date is a string.
   */
  predicate StartComparable(lastUpdatedTeams: Option<Date>, startDate: Json) {
    lastUpdatedTeams.None? || startDate.JStr?
  }

  /** Teams are refreshed when never fetched, or last fetched before the season started. */
  predicate TeamsStale(lastUpdatedTeams: Option<Date>, startDate: Json) {
    lastUpdatedTeams.None? || (startDate.JStr? && Less(lastUpdatedTeams.value, startDate.s))
  }

  /** `end_date > todays_date`. */
  predicate SeasonOpen(endDate: Date, today: Date) {
    Less(today, endDate)
  }

  /** `last_updated_posteriors < newest_game_date`, a missing `last_updated_posteriors` read as the far past. */
  predicate PosteriorsStale(lastUpdatedPosteriors: Option<Date>, newestGameDate: Date) {
    Less(lastUpdatedPosteriors.GetOr(FarPast), newestGameDate)
  }

  /** Why a run stops. */
  datatype SyncError =
    | QueryRejected(code: string)                    // the query was refused before it ran
    | MissingAttribute(name: string)                 // `KeyError`: the record lacks the attribute
    | NotADate(name: string)                         // `TypeError`: the attribute is stored, but not as a string
    | MissingTeamColumns(teamColumns: seq<string>)
    | MissingFixtureColumns(fixtureColumns: seq<string>)
    | NoCompletedGameDay

  /** The state a run works on: the catalog and the bucket. */
  datatype Effects = Effects(items: map<Key, SeasonMeta>, objects: map<SnapshotKey, Frame>)

  datatype StepResult = Continue(state: Effects) | Abort(state: Effects, error: SyncError)

  /** The record an update applies to: the stored one, or a blank one under that key. */
  function Stored(items: map<Key, SeasonMeta>, key: Key): SeasonMeta {
    if key in items then items[key] else Blank
  }

  /** A frame with the fixture columns, as `process_fixtures_to_df` returns it. */
  predicate FixtureFrame(f: Frame) {
    f.columns == FixtureColumns && forall i :: 0 <= i < |f.rows| ==> |f.rows[i]| == |FixtureColumns|
  }

  /** What `process_fixtures_to_df` can return: a frame with the fixture columns, or the missing ones. */
  type FixtureResult = r: Result<Frame, seq<string>> | r.Success? ==> FixtureFrame(r.value) witness Failure([])

  /**
   * What one pass decides: the team and fixture snapshots it publishes, the
   * metadata update it sends, and the error that stops the run, if any.
   */
  datatype Plan = Plan(teams: Option<Frame>, fixtures: Option<Frame>, update: Option<MetaUpdate>, error: Option<SyncError>)

  /**
   * The decisions of one pass of the handler's loop for candidate `c`, as
   * read by the query, given the normalised provider answers. Team columns
   * matter only when the teams are stale; what was published before an
   * error stays published.
   */
  function PassPlan(c: CatalogItem, today: Date, teams: Result<Frame, seq<string>>, fixtures: FixtureResult): (r: Plan)
    ensures r.update.Some? <==> r.error.None?
  {
    var m := c.meta;
    if m.startDate.None? then Plan(None, None, None, Some(MissingAttribute("start_date")))
    else if m.endDate.None? then Plan(None, None, None, Some(MissingAttribute("end_date")))
    else if !StartComparable(m.lastUpdatedTeams, m.startDate.value) then Plan(None, None, None, Some(NotADate("start_date")))
    else
      var refresh := TeamsStale(m.lastUpdatedTeams, m.startDate.value);
      if refresh && teams.Failure? then Plan(None, None, None, Some(MissingTeamColumns(teams.error)))
      else
        var published := if refresh then Some(teams.value) else None;
        if fixtures.Failure? then Plan(published, None, None, Some(MissingFixtureColumns(fixtures.error)))
        else
          var newest := NewestGameDate(Games(fixtures.value));
          if !m.endDate.value.JStr? then Plan(published, Some(fixtures.value), None, Some(NotADate("end_date")))
          else if newest.None? then Plan(published, Some(fixtures.value), None, Some(NoCompletedGameDay))
          else
            Plan(published, Some(fixtures.value), Some(MetaUpdate(
              if refresh then Some(today) else None,
              today,
              newest.value,
              PosteriorsStale(m.lastUpdatedPosteriors, newest.value),
              SeasonOpen(m.endDate.value.s, today))), None)
  }

  /** The bucket after publishing a plan's snapshots for season `key`, teams first. */
  function Publish(objects: map<SnapshotKey, Frame>, key: Key, p: Plan): map<SnapshotKey, Frame> {
    var withTeams := if p.teams.Some? then objects[SnapshotKey(TeamsSnapshot, key) := p.teams.value] else objects;
    if p.fixtures.Some? then withTeams[SnapshotKey(FixturesSnapshot, key) := p.fixtures.value] else withTeams
  }

  /**
   * One pass of the handler's loop for candidate `c`, with the provider's
   * answers as `process_teams_to_df` and `process_fixtures_to_df` make them
   * (`teams`, `fixtures`): the plan's snapshots are published, its update
   * applied to the stored record, and its error stops the run.
   */
  function CandidateStep(st: Effects, c: CatalogItem, today: Date, teams: Result<Frame, seq<string>>, fixtures: FixtureResult): StepResult {
    var p := PassPlan(c, today, teams, fixtures);
    var items := if p.update.Some? then st.items[c.key := UpdatedMeta(Stored(st.items, c.key), p.update.value)] else st.items;
    var next := Effects(items, Publish(st.objects, c.key, p));
    if p.error.Some? then Abort(next, p.error.value) else Continue(next)
  }

  /** What the provider's teams response for each season normalises to. */
  function TeamsOf(api: Key -> seq<Object>): Key -> Result<Frame, seq<string>> {
    k => NormalizeTeams(api(k))
  }

  /** What the provider's fixtures response for each season normalises to. */
  function FixturesOf(api: Key -> seq<Object>): Key -> FixtureResult {
    k => NormalizeFixtures(api(k))
  }

  /**
   * The handler's loop over `candidates`, in order, until the first error;
   * `teamsOf` and `fixturesOf` give each season's normalised responses.
   */
  function Replay(st: Effects, candidates: seq<CatalogItem>, today: Date,
                  teamsOf: Key -> Result<Frame, seq<string>>, fixturesOf: Key -> FixtureResult): StepResult
    decreases |candidates|
  {
    if candidates == [] then Continue(st)
    else
      match CandidateStep(st, candidates[0], today, teamsOf(candidates[0].key), fixturesOf(candidates[0].key))
      case Abort(s, e) => Abort(s, e)
      case Continue(s) => Replay(s, candidates[1..], today, teamsOf, fixturesOf)
  }

  /**
   * The body of the handler's loop for candidate `c`: the handler's own
   * sequence of reads, fetches, uploads and the update, with the flag
   * `teamsUpdated` set on the way.
   */
  method SyncCandidate(table: MetaTable, bucket: SnapshotBucket, c: CatalogItem, today: Date,
                       teamsPayload: seq<Object>, fixturesPayload: seq<Object>)
    returns (error: Option<SyncError>)
    modifies table, bucket
    ensures CandidateStep(Effects(old(table.items), old(bucket.objects)), c, today, NormalizeTeams(teamsPayload), NormalizeFixtures(fixturesPayload))
      == (if error.None? then Continue(Effects(table.items, bucket.objects))
          else Abort(Effects(table.items, bucket.objects), error.value))
  {
    if c.meta.startDate.None? {
      return Some(MissingAttribute("start_date"));
    }
    var startDate := c.meta.startDate.value;
    if c.meta.endDate.None? {
      return Some(MissingAttribute("end_date"));
    }
    var endDate := c.meta.endDate.value;
    var lastUpdatedPosteriors := c.meta.lastUpdatedPosteriors.GetOr(FarPast);
    var lastUpdatedTeams := c.meta.lastUpdatedTeams;
    var teamsUpdated := false;
    if lastUpdatedTeams.None? {
      var teams := NormalizeTeams(teamsPayload);
      if teams.Failure? {
        return Some(MissingTeamColumns(teams.error));
      }
      bucket.Upload(SnapshotKey(TeamsSnapshot, c.key), teams.value);
      teamsUpdated := true;
    } else if !startDate.JStr? {
      return Some(NotADate("start_date"));
    } else if Less(lastUpdatedTeams.value, startDate.s) {
      var teams := NormalizeTeams(teamsPayload);
      if teams.Failure? {
        return Some(MissingTeamColumns(teams.error));
      }
      bucket.Upload(SnapshotKey(TeamsSnapshot, c.key), teams.value);
      teamsUpdated := true;
    }
    var fixtures := NormalizeFixtures(fixturesPayload);
    if fixtures.Failure? {
      return Some(MissingFixtureColumns(fixtures.error));
    }
    bucket.Upload(SnapshotKey(FixturesSnapshot, c.key), fixtures.value);
    var newestGameDate := NewestGameDate(Games(fixtures.value));
    if !endDate.JStr? {
      return Some(NotADate("end_date"));
    }
    var dataNeedToUpdate := Less(today, endDate.s);
    if newestGameDate.None? {
      return Some(NoCompletedGameDay);
    }
    UpdateMetaTable(table, c.key, MetaUpdate(
      if teamsUpdated then Some(today) else None,
      today,
      newestGameDate.value,
      Less(lastUpdatedPosteriors, newestGameDate.value),
      dataNeedToUpdate));
    return None;
  }

  /**
   * `lambda_handler`: query at most `maxUpdates` due seasons, then handle
   * each in order until the first error. `teamsApi` and `fixturesApi` stand
   * for the provider. Returns the candidates and, if the run stopped early, why.
   */
  method SyncRun(table: MetaTable, bucket: SnapshotBucket, maxUpdates: int, today: Date,
                 teamsApi: Key -> seq<Object>, fixturesApi: Key -> seq<Object>)
    returns (candidates: seq<CatalogItem>, error: Option<SyncError>)
    modifies table, bucket
    ensures maxUpdates < 1 ==>
      (error == Some(QueryRejected(LimitRejected))
       && table.items == old(table.items) && bucket.objects == old(bucket.objects))
    ensures maxUpdates >= 1 ==> IsDueSelection(old(table.items), maxUpdates, candidates)
    ensures maxUpdates >= 1 ==>
      Replay(Effects(old(table.items), old(bucket.objects)), candidates, today, TeamsOf(teamsApi), FixturesOf(fixturesApi))
      == (if error.None? then Continue(Effects(table.items, bucket.objects))
          else Abort(Effects(table.items, bucket.objects), error.value))
  {
    var query := table.QueryDue(maxUpdates);
    if query.Failure? {
      return [], Some(QueryRejected(query.error));
    }
    candidates := query.value;
    ghost var start := Effects(table.items, bucket.objects);
    var i := 0;
    while i < |candidates|
      invariant 0 <= i <= |candidates|
      invariant Replay(start, candidates, today, TeamsOf(teamsApi), FixturesOf(fixturesApi))
        == Replay(Effects(table.items, bucket.objects), candidates[i..], today, TeamsOf(teamsApi), FixturesOf(fixturesApi))
    {
      var c := candidates[i];
      assert candidates[i..][0] == c && candidates[i..][1..] == candidates[i + 1..];
      error := SyncCandidate(table, bucket, c, today, teamsApi(c.key), fixturesApi(c.key));
      if error.Some? {
        return;
      }
      i := i + 1;
    }
    error := None;
  }
}
