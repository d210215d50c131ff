/**
 * What one pass of the sync handler does to the catalog and the bucket,
 * what an error leaves behind, what a whole run touches, and why the
 * descending due query keeps choosing the season it has just refreshed.
 */
module SyncProperties {
  import opened Wrappers
  import opened Dates
  import opened Payload
  import opened Tables
  import opened Catalog
  import opened FixturesAndTeams

  /** `a` and `b` agree at `k`: both lack it, or both hold the same value. */
  predicate SameAt<K, V(==)>(a: map<K, V>, b: map<K, V>, k: K) {
    (k in a <==> k in b) && (k in a ==> a[k] == b[k])
  }

  // ----- One candidate -----

  /** Publishing a plan for one season leaves every other season's snapshots as they were. */
  lemma PublishFrame(objects: map<SnapshotKey, Frame>, key: Key, p: Plan)
    ensures forall n: SnapshotKey :: n.key != key ==> SameAt(Publish(objects, key, p), objects, n)
  {
  }

  /** A pass changes no record but the candidate's. */
  lemma StepKeepsOtherRecords(st: Effects, c: CatalogItem, today: Date, teams: Result<Frame, seq<string>>, fixtures: FixtureResult)
    ensures forall k :: k != c.key ==> SameAt(CandidateStep(st, c, today, teams, fixtures).state.items, st.items, k)
  {
    var p := PassPlan(c, today, teams, fixtures);
    var items := CandidateStep(st, c, today, teams, fixtures).state.items;
    assert items == st.items || (p.update.Some? && items == st.items[c.key := UpdatedMeta(Stored(st.items, c.key), p.update.value)]);
  }

  /** A pass publishes no snapshot of another season. */
  lemma StepKeepsOtherSnapshots(st: Effects, c: CatalogItem, today: Date, teams: Result<Frame, seq<string>>, fixtures: FixtureResult)
    ensures forall n: SnapshotKey :: n.key != c.key ==>
      SameAt(CandidateStep(st, c, today, teams, fixtures).state.objects, st.objects, n)
  {
    PublishFrame(st.objects, c.key, PassPlan(c, today, teams, fixtures));
  }

  /** A pass that stops with an error changes no record at all. */
  lemma AbortKeepsCatalog(st: Effects, c: CatalogItem, today: Date, teams: Result<Frame, seq<string>>, fixtures: FixtureResult)
    requires CandidateStep(st, c, today, teams, fixtures).Abort?
    ensures CandidateStep(st, c, today, teams, fixtures).state.items == st.items
  {
  }

  /** A pass stops on a missing season date exactly when the record lacks `start_date` or `end_date`, and then changes nothing. */
  lemma StepMissingDate(st: Effects, c: CatalogItem, today: Date, teams: Result<Frame, seq<string>>, fixtures: FixtureResult)
    ensures var r := CandidateStep(st, c, today, teams, fixtures);
      && (r.Abort? && r.error.MissingAttribute? <==> c.meta.startDate.None? || c.meta.endDate.None?)
      && (r.Abort? && r.error.MissingAttribute? ==> r.state == st)
  {
  }

  /**
   * A pass stops with a `TypeError` on a stored start date that is not a
   * string exactly when teams were fetched before, and then changes
   * nothing. It stops on an end date that is not a string exactly when it
   * gets past the teams and the fixtures; the fixture snapshot is published
   * by then, and the catalog is not written.
   */
  lemma StepNotADate(st: Effects, c: CatalogItem, today: Date, teams: Result<Frame, seq<string>>, fixtures: FixtureResult)
    ensures var r := CandidateStep(st, c, today, teams, fixtures);
      && (r.Abort? && r.error == NotADate("start_date") <==>
            c.meta.startDate.Some? && c.meta.endDate.Some? && !StartComparable(c.meta.lastUpdatedTeams, c.meta.startDate.value))
      && (r.Abort? && r.error == NotADate("start_date") ==> r.state == st)
      && (r.Abort? && r.error == NotADate("end_date") <==>
            && c.meta.startDate.Some? && c.meta.endDate.Some?
            && StartComparable(c.meta.lastUpdatedTeams, c.meta.startDate.value)
            && (TeamsStale(c.meta.lastUpdatedTeams, c.meta.startDate.value) ==> teams.Success?)
            && fixtures.Success?
            && !c.meta.endDate.value.JStr?)
      && (r.Abort? && r.error == NotADate("end_date") ==>
            && r.state.items == st.items
            && SnapshotKey(FixturesSnapshot, c.key) in r.state.objects
            && r.state.objects[SnapshotKey(FixturesSnapshot, c.key)] == fixtures.value)
  {
  }

  /** A pass stops on missing team columns exactly when the teams are stale and their normalisation failed. */
  lemma StepMissingTeamColumns(st: Effects, c: CatalogItem, today: Date, teams: Result<Frame, seq<string>>, fixtures: FixtureResult)
    ensures var r := CandidateStep(st, c, today, teams, fixtures);
      r.Abort? && r.error.MissingTeamColumns? <==>
        && c.meta.startDate.Some? && c.meta.endDate.Some?
        && TeamsStale(c.meta.lastUpdatedTeams, c.meta.startDate.value)
        && teams.Failure?
  {
  }

  /** A pass stops on missing fixture columns exactly when it gets past the teams and the fixtures' normalisation failed. */
  lemma StepMissingFixtureColumns(st: Effects, c: CatalogItem, today: Date, teams: Result<Frame, seq<string>>, fixtures: FixtureResult)
    ensures var r := CandidateStep(st, c, today, teams, fixtures);
      r.Abort? && r.error.MissingFixtureColumns? <==>
        && c.meta.startDate.Some? && c.meta.endDate.Some?
        && StartComparable(c.meta.lastUpdatedTeams, c.meta.startDate.value)
        && (TeamsStale(c.meta.lastUpdatedTeams, c.meta.startDate.value) ==> teams.Success?)
        && fixtures.Failure?
  {
  }

  /**
   * A pass stops for want of a fully scored day exactly when it gets past
   * both normalisations and no day is complete; the fixture snapshot is
   * published by then. The query's error never comes from a pass.
   */
  lemma StepNoCompletedGameDay(st: Effects, c: CatalogItem, today: Date, teams: Result<Frame, seq<string>>, fixtures: FixtureResult)
    ensures var r := CandidateStep(st, c, today, teams, fixtures);
      && (r.Abort? && r.error.NoCompletedGameDay? <==>
            && c.meta.startDate.Some? && c.meta.endDate.Some?
            && StartComparable(c.meta.lastUpdatedTeams, c.meta.startDate.value)
            && (TeamsStale(c.meta.lastUpdatedTeams, c.meta.startDate.value) ==> teams.Success?)
            && fixtures.Success?
            && c.meta.endDate.value.JStr?
            && forall d :: !CompleteDay(Games(fixtures.value), d))
      && (r.Abort? && r.error.NoCompletedGameDay? ==>
            && SnapshotKey(FixturesSnapshot, c.key) in r.state.objects
            && r.state.objects[SnapshotKey(FixturesSnapshot, c.key)] == fixtures.value)
      && (r.Abort? ==> !r.error.QueryRejected?)
  {
    if fixtures.Success? {
      var newest := FixturesAndTeams.NewestGameDate(Games(fixtures.value));
      if newest.Some? {
        assert CompleteDay(Games(fixtures.value), newest.value);
      }
    }
  }

  /**
   * After a pass that completes, the candidate's record holds today's
   * `last_updated_fixtures`; the latest fully scored day as
   * `newest_game_date`; today's `last_updated_teams` exactly when the teams
   * were stale, the old value otherwise; the old `data_need_to_update` while
   * the season is open and none once it has ended;
   * `posteriors_need_to_update = 1` when the posteriors predate the newest
   * game day, the old flag otherwise; and its other attributes unchanged.
   */
  lemma StepRecord(st: Effects, c: CatalogItem, today: Date, teams: Result<Frame, seq<string>>, fixtures: FixtureResult)
    requires CandidateStep(st, c, today, teams, fixtures).Continue?
    ensures c.meta.startDate.Some? && c.meta.endDate.Some? && c.meta.endDate.value.JStr? && fixtures.Success?
    ensures var s := CandidateStep(st, c, today, teams, fixtures).state;
      var before := Stored(st.items, c.key);
      var games := Games(fixtures.value);
      && c.key in s.items
      && s.items[c.key].lastUpdatedFixtures == Some(today)
      && s.items[c.key].newestGameDate.Some?
      && CompleteDay(games, s.items[c.key].newestGameDate.value)
      && (forall d :: CompleteDay(games, d) ==> !Less(s.items[c.key].newestGameDate.value, d))
      && s.items[c.key].lastUpdatedTeams ==
           (if TeamsStale(c.meta.lastUpdatedTeams, c.meta.startDate.value) then Some(today) else before.lastUpdatedTeams)
      && s.items[c.key].dataNeedToUpdate ==
           (if SeasonOpen(c.meta.endDate.value.s, today) then before.dataNeedToUpdate else None)
      && s.items[c.key].posteriorsNeedToUpdate ==
           (if PosteriorsStale(c.meta.lastUpdatedPosteriors, s.items[c.key].newestGameDate.value) then Some(1)
            else before.posteriorsNeedToUpdate)
      && s.items[c.key].startDate == before.startDate
      && s.items[c.key].endDate == before.endDate
      && s.items[c.key].lastUpdatedPosteriors == before.lastUpdatedPosteriors
      && s.items[c.key].otherAttributes == before.otherAttributes
  {
    var m := c.meta;
    var refresh := TeamsStale(m.lastUpdatedTeams, m.startDate.value);
    var newest := FixturesAndTeams.NewestGameDate(Games(fixtures.value));
    var u := MetaUpdate(
      if refresh then Some(today) else None,
      today,
      newest.value,
      PosteriorsStale(m.lastUpdatedPosteriors, newest.value),
      SeasonOpen(m.endDate.value.s, today));
    UpdateEffects(Stored(st.items, c.key), u);
  }

  /**
   * After a pass that completes, the season's fixture snapshot is the
   * normalised fixtures, and its team snapshot is the normalised teams when
   * they were stale and untouched otherwise.
   */
  lemma StepSnapshots(st: Effects, c: CatalogItem, today: Date, teams: Result<Frame, seq<string>>, fixtures: FixtureResult)
    requires CandidateStep(st, c, today, teams, fixtures).Continue?
    ensures c.meta.startDate.Some? && fixtures.Success?
    ensures var s := CandidateStep(st, c, today, teams, fixtures).state;
      var teamsName := SnapshotKey(TeamsSnapshot, c.key);
      var fixturesName := SnapshotKey(FixturesSnapshot, c.key);
      && fixturesName in s.objects
      && s.objects[fixturesName] == fixtures.value
      && (TeamsStale(c.meta.lastUpdatedTeams, c.meta.startDate.value) ==>
            teams.Success? && teamsName in s.objects
            && s.objects[teamsName] == teams.value)
      && (!TeamsStale(c.meta.lastUpdatedTeams, c.meta.startDate.value) ==> SameAt(s.objects, st.objects, teamsName))
  {
  }

  // ----- A whole run -----

  lemma KeysOfTail(cs: seq<CatalogItem>)
    requires cs != []
    ensures KeysOf(cs) == {cs[0].key} + KeysOf(cs[1..])
  {
    forall k | k in KeysOf(cs)
      ensures k in {cs[0].key} + KeysOf(cs[1..])
    {
      var i :| 0 <= i < |cs| && cs[i].key == k;
      if i > 0 {
        assert cs[1..][i - 1].key == k;
      }
    }
    forall k | k in KeysOf(cs[1..])
      ensures k in KeysOf(cs)
    {
      var i :| 0 <= i < |cs[1..]| && cs[1..][i].key == k;
      assert cs[i + 1].key == k;
    }
    assert cs[0].key in KeysOf(cs);
  }

  /** A run leaves every record and every snapshot of a season it did not select as it was. */
  lemma {:induction false} ReplayFrame(st: Effects, candidates: seq<CatalogItem>, today: Date,
                                       teamsOf: Key -> Result<Frame, seq<string>>, fixturesOf: Key -> FixtureResult)
    ensures forall k :: k !in KeysOf(candidates) ==>
      SameAt(Replay(st, candidates, today, teamsOf, fixturesOf).state.items, st.items, k)
    ensures forall n: SnapshotKey :: n.key !in KeysOf(candidates) ==>
      SameAt(Replay(st, candidates, today, teamsOf, fixturesOf).state.objects, st.objects, n)
    decreases |candidates|
  {
    if candidates != [] {
      var c := candidates[0];
      StepKeepsOtherRecords(st, c, today, teamsOf(c.key), fixturesOf(c.key));
      StepKeepsOtherSnapshots(st, c, today, teamsOf(c.key), fixturesOf(c.key));
      KeysOfTail(candidates);
      var r := CandidateStep(st, c, today, teamsOf(c.key), fixturesOf(c.key));
      if r.Continue? {
        ReplayFrame(r.state, candidates[1..], today, teamsOf, fixturesOf);
      }
    }
  }

  /** The record of `key` was synced on `today`: it has today's `last_updated_fixtures` and a newest game day. */
  predicate Refreshed(items: map<Key, SeasonMeta>, key: Key, today: Date) {
    key in items && items[key].lastUpdatedFixtures == Some(today) && items[key].newestGameDate.Some?
  }

  /** A pass that completes leaves its season's record refreshed. */
  lemma StepRefreshes(st: Effects, c: CatalogItem, today: Date, teams: Result<Frame, seq<string>>, fixtures: FixtureResult)
    requires CandidateStep(st, c, today, teams, fixtures).Continue?
    ensures Refreshed(CandidateStep(st, c, today, teams, fixtures).state.items, c.key, today)
  {
    StepRecord(st, c, today, teams, fixtures);
  }

  /** When the first pass completes, the run goes on from its state with the other candidates. */
  lemma ReplayContinues(st: Effects, candidates: seq<CatalogItem>, today: Date,
                        teamsOf: Key -> Result<Frame, seq<string>>, fixturesOf: Key -> FixtureResult)
    requires candidates != []
    requires CandidateStep(st, candidates[0], today, teamsOf(candidates[0].key), fixturesOf(candidates[0].key)).Continue?
    ensures Replay(st, candidates, today, teamsOf, fixturesOf) ==
      Replay(CandidateStep(st, candidates[0], today, teamsOf(candidates[0].key), fixturesOf(candidates[0].key)).state,
             candidates[1..], today, teamsOf, fixturesOf)
  {
  }

  /** A season refreshed before the rest of a run that does not select it again stays refreshed. */
  lemma RefreshedPersists(st: Effects, candidates: seq<CatalogItem>, today: Date,
                          teamsOf: Key -> Result<Frame, seq<string>>, fixturesOf: Key -> FixtureResult, key: Key)
    requires key !in KeysOf(candidates) && Refreshed(st.items, key, today)
    ensures Refreshed(Replay(st, candidates, today, teamsOf, fixturesOf).state.items, key, today)
  {
    ReplayFrame(st, candidates, today, teamsOf, fixturesOf);
    assert SameAt(Replay(st, candidates, today, teamsOf, fixturesOf).state.items, st.items, key);
  }

  /**
   * A run that meets no error has refreshed every season it selected,
   * since no later pass touches an earlier season's record.
   */
  lemma {:induction false} ReplayRefreshes(st: Effects, candidates: seq<CatalogItem>, today: Date,
                                           teamsOf: Key -> Result<Frame, seq<string>>, fixturesOf: Key -> FixtureResult)
    requires forall i, j :: 0 <= i < j < |candidates| ==> candidates[i].key != candidates[j].key
    requires Replay(st, candidates, today, teamsOf, fixturesOf).Continue?
    ensures forall i :: 0 <= i < |candidates| ==>
      Refreshed(Replay(st, candidates, today, teamsOf, fixturesOf).state.items, candidates[i].key, today)
    decreases |candidates|
  {
    if candidates != [] {
      var c := candidates[0];
      var r := CandidateStep(st, c, today, teamsOf(c.key), fixturesOf(c.key));
      var rest := candidates[1..];
      assert r.Continue?;
      ReplayContinues(st, candidates, today, teamsOf, fixturesOf);
      var s := Replay(r.state, rest, today, teamsOf, fixturesOf).state;
      StepRefreshes(st, c, today, teamsOf(c.key), fixturesOf(c.key));
      ReplayRefreshes(r.state, rest, today, teamsOf, fixturesOf);
      DistinctTail(candidates);
      RefreshedPersists(r.state, rest, today, teamsOf, fixturesOf, c.key);
      RefreshedCons(candidates, Replay(r.state, rest, today, teamsOf, fixturesOf).state.items, today);
    }
  }

  /** With distinct keys, no later candidate repeats the first one's key. */
  lemma DistinctTail(candidates: seq<CatalogItem>)
    requires candidates != []
    requires forall i, j :: 0 <= i < j < |candidates| ==> candidates[i].key != candidates[j].key
    ensures candidates[0].key !in KeysOf(candidates[1..])
    ensures forall i, j :: 0 <= i < j < |candidates[1..]| ==> candidates[1..][i].key != candidates[1..][j].key
  {
    forall j | 0 <= j < |candidates[1..]|
      ensures candidates[1..][j].key != candidates[0].key
    {
      assert candidates[1..][j] == candidates[j + 1];
    }
  }

  /** Refreshing the first candidate and every later one refreshes them all. */
  lemma RefreshedCons(candidates: seq<CatalogItem>, items: map<Key, SeasonMeta>, today: Date)
    requires candidates != [] && Refreshed(items, candidates[0].key, today)
    requires forall j :: 0 <= j < |candidates[1..]| ==> Refreshed(items, candidates[1..][j].key, today)
    ensures forall i :: 0 <= i < |candidates| ==> Refreshed(items, candidates[i].key, today)
  {
    forall i | 0 < i < |candidates|
      ensures Refreshed(items, candidates[i].key, today)
    {
      assert candidates[i] == candidates[1..][i - 1];
    }
  }

  /** With no season due, a run selects nothing and changes nothing. */
  lemma QuietCatalog(st: Effects, limit: nat, candidates: seq<CatalogItem>, today: Date,
                     teamsOf: Key -> Result<Frame, seq<string>>, fixturesOf: Key -> FixtureResult)
    requires DueKeys(st.items) == {} && IsDueSelection(st.items, limit, candidates)
    ensures candidates == []
    ensures Replay(st, candidates, today, teamsOf, fixturesOf) == Continue(st)
  {
  }

  // ----- Selection order -----

  /**
   * When one due season was refreshed today and every other due season
   * earlier, the descending due query returns that season first, whatever
   * the limit: the most recently updated season, not the least.
   */
  lemma RefreshedComesFirst(items: map<Key, SeasonMeta>, k: Key, today: Date, limit: nat, r: seq<CatalogItem>)
    requires k in items && items[k].dataNeedToUpdate == Some(1) && items[k].lastUpdatedFixtures == Some(today)
    requires forall other :: other in DueKeys(items) && other != k ==> Less(IndexDate(items[other]), today)
    requires limit >= 1 && IsDueSelection(items, limit, r)
    ensures |r| >= 1 && r[0].key == k
  {
    assert k in DueKeys(items);
    assert |r| >= 1;
    var first := IndexDate(r[0].meta);
    assert r[0].key in DueKeys(items);
    assert r[0].key != k ==> Less(first, today);
    assert k !in KeysOf(r) ==> !Less(first, today);
    assert forall j :: 0 < j < |r| && r[j].key == k ==> !Less(first, today);
  }

  /**
   * The next run picks the same season again: after a pass over an open
   * season whose record is due, while every other due season was last
   * updated before today, any answer to the next due query starts with
   * that season. With `MAX_UPDATES = 1` the other seasons wait until it
   * closes.
   */
  lemma RefreshedSeasonReselected(st: Effects, c: CatalogItem, today: Date, teams: Result<Frame, seq<string>>, fixtures: FixtureResult,
                                  limit: nat, next: seq<CatalogItem>)
    requires CandidateStep(st, c, today, teams, fixtures).Continue?
    requires c.meta.endDate.Some? && c.meta.endDate.value.JStr? && SeasonOpen(c.meta.endDate.value.s, today)
    requires Stored(st.items, c.key).dataNeedToUpdate == Some(1)
    requires forall other :: other in DueKeys(st.items) && other != c.key ==> Less(IndexDate(st.items[other]), today)
    requires limit >= 1 && IsDueSelection(CandidateStep(st, c, today, teams, fixtures).state.items, limit, next)
    ensures |next| >= 1 && next[0].key == c.key
  {
    var s := CandidateStep(st, c, today, teams, fixtures).state;
    StepRecord(st, c, today, teams, fixtures);
    StepKeepsOtherRecords(st, c, today, teams, fixtures);
    forall other | other in DueKeys(s.items) && other != c.key
      ensures Less(IndexDate(s.items[other]), today)
    {
      assert SameAt(s.items, st.items, other);
      assert other in DueKeys(st.items);
    }
    RefreshedComesFirst(s.items, c.key, today, limit, next);
  }

  // ----- Worked cases -----

  /** Premier League 2023, as seeded and never synced. */
  const PremierLeague2023 := Key(39, 2023)
  const SeededSeason := SeasonMeta(Some(JStr("2023-08-01")), Some(JStr("2024-05-31")), None, Some(FarPast), None, None, Some(1), None, [])

  /**
   * With both season dates present, the provider's columns complete and a
   * fully scored day, a pass publishes the fixtures, the teams when stale,
   * and sends the update built from the newest game day.
   */
  lemma PlanOfCompletePass(c: CatalogItem, today: Date, teams: Frame, fixtures: Frame)
    requires c.meta.startDate.Some? && c.meta.endDate.Some? && FixtureFrame(fixtures)
    requires StartComparable(c.meta.lastUpdatedTeams, c.meta.startDate.value) && c.meta.endDate.value.JStr?
    requires FixturesAndTeams.NewestGameDate(Games(fixtures)).Some?
    ensures var refresh := TeamsStale(c.meta.lastUpdatedTeams, c.meta.startDate.value);
      var newest := FixturesAndTeams.NewestGameDate(Games(fixtures)).value;
      PassPlan(c, today, Success(teams), Success(fixtures)) == Plan(
        if refresh then Some(teams) else None,
        Some(fixtures),
        Some(MetaUpdate(
          if refresh then Some(today) else None,
          today,
          newest,
          PosteriorsStale(c.meta.lastUpdatedPosteriors, newest),
          SeasonOpen(c.meta.endDate.value.s, today))),
        None)
  {
  }

  /**
   * The first sync of a season in progress publishes its teams and
   * fixtures, stamps `last_updated_teams` and `last_updated_fixtures` with
   * today, keeps the season due, and asks for posteriors, which have never
   * been computed.
   */
  lemma FirstSyncOfOpenSeason(m: SeasonMeta, today: Date, teams: Frame, fixtures: Frame)
    requires m == SeededSeason && today == "2024-01-15"
    requires FixtureFrame(fixtures)
    requires FixturesAndTeams.NewestGameDate(Games(fixtures)) == Some("2024-01-14")
    ensures var p := PassPlan(CatalogItem(PremierLeague2023, m), today, Success(teams), Success(fixtures));
      && p.teams == Some(teams) && p.fixtures == Some(fixtures) && p.error.None? && p.update.Some?
      && UpdatedMeta(m, p.update.value) == m.(
           lastUpdatedTeams := Some(today),
           lastUpdatedFixtures := Some(today),
           newestGameDate := Some("2024-01-14"),
           posteriorsNeedToUpdate := Some(1))
  {
    assert TeamsStale(m.lastUpdatedTeams, m.startDate.value);
    assert SeasonOpen(m.endDate.value.s, today) by { assert Less("2024-01-15", "2024-05-31"); }
    assert PosteriorsStale(m.lastUpdatedPosteriors, "2024-01-14") by { assert Less(FarPast, "2024-01-14"); }
    var u := MetaUpdate(Some(today), today, "2024-01-14", true, true);
    PlanOfCompletePass(CatalogItem(PremierLeague2023, m), today, teams, fixtures);
    UpdateEffects(m, u);
  }

  /**
   * A season that ended before today leaves the due index on its next
   * sync; teams refreshed after the season start are not fetched again.
   */
  lemma ClosedSeasonLeavesIndex(st: Effects, teams: Result<Frame, seq<string>>, fixtures: FixtureResult)
    requires var m := SeededSeason.(endDate := Some(JStr("2023-01-01")), lastUpdatedTeams := Some("2023-08-05"));
      PremierLeague2023 in st.items && st.items[PremierLeague2023] == m
    requires fixtures.Success?
    requires FixturesAndTeams.NewestGameDate(Games(fixtures.value)).Some?
    ensures var m := SeededSeason.(endDate := Some(JStr("2023-01-01")), lastUpdatedTeams := Some("2023-08-05"));
      var r := CandidateStep(st, CatalogItem(PremierLeague2023, m), "2024-01-15", teams, fixtures);
      && r.Continue?
      && r.state.items[PremierLeague2023].dataNeedToUpdate == None
      && r.state.items[PremierLeague2023].lastUpdatedTeams == Some("2023-08-05")
      && !Due(r.state.items[PremierLeague2023])
  {
    var m := SeededSeason.(endDate := Some(JStr("2023-01-01")), lastUpdatedTeams := Some("2023-08-05"));
    var today := "2024-01-15";
    var newest := FixturesAndTeams.NewestGameDate(Games(fixtures.value));
    assert !TeamsStale(Some("2023-08-05"), JStr("2023-08-01")) by { assert !Less("2023-08-05", "2023-08-01"); }
    assert !SeasonOpen("2023-01-01", today) by { assert !Less("2024-01-15", "2023-01-01"); }
    var u := MetaUpdate(None, today, newest.value, PosteriorsStale(None, newest.value), false);
    assert PassPlan(CatalogItem(PremierLeague2023, m), today, teams, fixtures) == Plan(None, Some(fixtures.value), Some(u), None);
    UpdateEffects(m, u);
  }

  /**
   * A season seeded with a null `start_date` (a NULL attribute) syncs as
   * usual while its teams were never fetched: the teams are fetched and
   * dated today. From then on `last_updated_teams < start_date` compares a
   * string with `None`, so the next pass over the season stops with a
   * `TypeError` before it fetches anything.
   */
  lemma NullStartDate(m: SeasonMeta, today: Date, next: Date, teams: Frame, fixtures: Frame)
    requires m == SeededSeason.(startDate := Some(JNull))
    requires FixtureFrame(fixtures) && FixturesAndTeams.NewestGameDate(Games(fixtures)).Some?
    ensures var p := PassPlan(CatalogItem(PremierLeague2023, m), today, Success(teams), Success(fixtures));
      && p.teams == Some(teams) && p.fixtures == Some(fixtures) && p.error.None? && p.update.Some?
      && UpdatedMeta(m, p.update.value).lastUpdatedTeams == Some(today)
      && PassPlan(CatalogItem(PremierLeague2023, UpdatedMeta(m, p.update.value)), next, Success(teams), Success(fixtures))
         == Plan(None, None, None, Some(NotADate("start_date")))
  {
    var c := CatalogItem(PremierLeague2023, m);
    PlanOfCompletePass(c, today, teams, fixtures);
    UpdateEffects(m, PassPlan(c, today, Success(teams), Success(fixtures)).update.value);
  }

  /**
   * A season seeded with a null `end_date` gets both snapshots; then
   * `end_date > todays_date` raises a `TypeError`, so its record is never
   * updated and it stays due.
   */
  lemma NullEndDate(m: SeasonMeta, today: Date, teams: Frame, fixtures: Frame)
    requires m == SeededSeason.(endDate := Some(JNull))
    requires FixtureFrame(fixtures)
    ensures PassPlan(CatalogItem(PremierLeague2023, m), today, Success(teams), Success(fixtures))
      == Plan(Some(teams), Some(fixtures), None, Some(NotADate("end_date")))
  {
  }

  /** A day with a game still unscored does not count as the newest game day. */
  lemma PendingDayIgnored(games: seq<Game>)
    requires games == [
      Game(Some("2024-04-28"), JNum(1)),
      Game(Some("2024-05-01"), JNum(2)),
      Game(Some("2024-05-02"), JNum(0)),
      Game(Some("2024-05-02"), JNull)]
    ensures FixturesAndTeams.NewestGameDate(games) == Some("2024-05-01")
  {
    assert CompleteDay(games, "2024-05-01") by {
      assert games[1].day == Some("2024-05-01");
    }
    assert !CompleteDay(games, "2024-05-02") by {
      assert games[3].day == Some("2024-05-02");
    }
    forall e | CompleteDay(games, e)
      ensures !Less("2024-05-01", e)
    {
      var i :| 0 <= i < |games| && games[i].day == Some(e);
      if i == 0 {
        assert !Less("2024-05-01", "2024-04-28");
      } else if i == 1 {
        LessIrreflexive(e);
      }
    }
    NewestGameDateIs(games, "2024-05-01");
  }
}
