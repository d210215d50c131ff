/**
 * What the season importer promises: the rows it keeps, the columns they
 * carry, one row per season, and a seeding that only ever adds seasons.
 */
module SeasonsProperties {
  import opened Wrappers
  import opened Dates
  import opened Text
  import opened Payload
  import opened Tables
  import opened Catalog
  import opened Seasons

  // ----- Column names -----

  /** Joining two dot-free names with `.` and replacing dots gives the `_`-joined name. */
  lemma UnderscoredJoin(a: string, b: string)
    requires '.' !in a && '.' !in b
    ensures Underscored(a + "." + b) == a + "_" + b
  {
    var s := a + "." + b;
    ReplaceChar(s, '.', '_');
    var r := Underscored(s);
    assert |r| == |a + "_" + b|;
    forall i | 0 <= i < |r|
      ensures r[i] == (a + "_" + b)[i]
    {
      if i < |a| {
        assert s[i] == a[i];
        assert a[i] in a;
      } else if i > |a| {
        assert s[i] == b[i - |a| - 1];
        assert b[i - |a| - 1] in b;
      }
    }
  }

  /** Every metadata path keeps its `_`-joined name through both renamings. */
  lemma MetaColumnNames(j: nat)
    requires j < |MetaPaths|
    ensures Underscored(MetaName(MetaPaths[j])) == MetaColumn(MetaPaths[j])
    ensures SeasonColumnName(MetaColumn(MetaPaths[j])) == MetaColumn(MetaPaths[j])
  {
    UnderscoredJoin(MetaPaths[j].parent, MetaPaths[j].field);
  }

  /** No renamed name has a dot, and none is one of the three names the rename replaces. */
  lemma RenamedName(c: string)
    ensures '.' !in SeasonColumnName(Underscored(c))
    ensures SeasonColumnName(Underscored(c)) !in {"year", "start", "end"}
  {
    ReplaceCharRemoves(c, '.', '_');
  }

  // ----- The flattened rows -----

  /**
   * One flat row per season, league after league: season `k` of league `l`
   * is row `Start(Groups(data), l) + k`, and it is that season record's
   * flattened columns followed by league `l`'s own metadata row.
   */
  lemma NormalizedAt(data: seq<Object>, l: nat, k: nat)
    requires Normalized(data).Success? && IsSeason(data, l, k)
    ensures |Normalized(data).value| == Start(Groups(data), |data|)
    ensures Start(Groups(data), l) + k < |Normalized(data).value|
    ensures Normalized(data).value[Start(Groups(data), l) + k] == SeasonRow(data, l, k)
    ensures SeasonRecords(data[l], l).Success? && k < |SeasonRecords(data[l], l).value|
    ensures SeasonRecords(data[l], l).value[k].JObj? && MetaRow(data[l], MetaPaths).Success?
    ensures SeasonRow(data, l, k) == Flatten(SeasonRecords(data[l], l).value[k].members) + MetaRow(data[l], MetaPaths).value
  {
    assert Groups(data)[0..] == Groups(data);
    ConcatLength(Groups(data));
    ConcatAt(Groups(data), l, k);
    assert LeagueSeasons(data[l], l).Success?;
  }

  /** Every flat row is one season of one league. */
  lemma NormalizedCovers(data: seq<Object>, p: nat)
    requires Normalized(data).Success? && p < |Normalized(data).value|
    ensures exists l, k :: IsSeason(data, l, k) && p == Start(Groups(data), l) + k && Normalized(data).value[p] == SeasonRow(data, l, k)
  {
    assert Groups(data)[0..] == Groups(data);
    ConcatCovers(Groups(data), p);
    var l, k :| 0 <= l < |Groups(data)| && 0 <= k < |Groups(data)[l]| && p == Start(Groups(data), l) + k
      && Concat(Groups(data))[p] == Groups(data)[l][k];
    assert IsSeason(data, l, k);
  }

  // ----- The processed rows -----

  /** A flat row under its final column names: dots replaced, then `year`, `start` and `end` renamed. */
  function Final(o: Row): Row {
    RenameRow(RenameRow(o, Underscored), SeasonColumnName)
  }

  /** The filter keeps season `k` of league `l`. */
  predicate Kept(data: seq<Object>, l: int, k: int, firstYearKept: int)
    requires IsSeason(data, l, k)
  {
    Keep(RenameRow(SeasonRow(data, l, k), Underscored), firstYearKept)
  }

  predicate LeagueColumns(league: Object, row: Row)
    requires |row| >= |MetaPaths|
  {
    PathColumns(league, MetaPaths, row)
  }

  /** `row` ends with the values of `paths` in `league`, in order, under their `_` names. */
  predicate PathColumns(league: Object, paths: seq<MetaPath>, row: Row)
    requires |row| >= |paths|
  {
    forall j :: 0 <= j < |paths| ==>
      PullMeta(league, paths[j]).Some? &&
      row[|row| - |paths| + j] == Member(MetaColumn(paths[j]), PullMeta(league, paths[j]).value)
  }

  lemma ProcessedFromRenamed(data: seq<Object>, firstYearKept: int)
    requires ProcessSeasons(data, firstYearKept).Success?
    ensures Normalized(data).Success?
    ensures ProcessSeasons(data, firstYearKept).value == DedupeKeepLast(Renamed(Normalized(data).value, firstYearKept))
    ensures forall row :: row in ProcessSeasons(data, firstYearKept).value ==>
      row in Renamed(Normalized(data).value, firstYearKept)
  {
    DedupeFrom(Renamed(Normalized(data).value, firstYearKept));
  }

  /** Each de-duplicated row is one of the input rows. */
  lemma DedupeFrom(rows: seq<Row>)
    ensures forall row :: row in DedupeKeepLast(rows) ==> row in rows
  {
    var r := DedupeKeepLast(rows);
    forall row | row in r
      ensures row in rows
    {
      var k :| 0 <= k < |r| && r[k] == row;
      assert LastOccurrence(rows, Survivors(rows, 0)[k]);
    }
  }

  /** A renamed row is the rename of one of the rows. */
  lemma InRenamed(rows: seq<Row>, rename: string -> string, row: Row)
    requires row in RenameRows(rows, rename)
    ensures exists x :: x in rows && row == RenameRow(x, rename)
  {
    var i :| 0 <= i < |rows| && RenameRows(rows, rename)[i] == row;
    assert rows[i] in rows;
  }

  /** The rename of one of the rows is a renamed row. */
  lemma RenamedIn(rows: seq<Row>, rename: string -> string, x: Row)
    requires x in rows
    ensures RenameRow(x, rename) in RenameRows(rows, rename)
  {
    var i :| 0 <= i < |rows| && rows[i] == x;
    assert RenameRows(rows, rename)[i] == RenameRow(x, rename);
  }

  lemma MetaColumnsRenamed(league: Object, o: Row)
    requires |o| >= |MetaPaths| && MetaRow(league, MetaPaths) == Success(o[|o| - |MetaPaths|..])
    ensures LeagueColumns(league, RenameRow(RenameRow(o, Underscored), SeasonColumnName))
  {
    MetaColumnsAtEnd(league, o);
    MetaNamesRenamed();
    PathColumnsRenamed(league, MetaPaths, o, Underscored, SeasonColumnName);
  }

  /** Both renamings take every metadata path's `.` name to its `_` name. */
  lemma MetaNamesRenamed()
    ensures forall j :: 0 <= j < |MetaPaths| ==> SeasonColumnName(Underscored(MetaName(MetaPaths[j]))) == MetaColumn(MetaPaths[j])
  {
    forall j | 0 <= j < |MetaPaths|
      ensures SeasonColumnName(Underscored(MetaName(MetaPaths[j]))) == MetaColumn(MetaPaths[j])
    {
      MetaColumnNames(j);
    }
  }

  /** A metadata row at the end of `o` puts each path's pulled value at its place. */
  lemma MetaColumnsAtEnd(league: Object, o: Row)
    requires |o| >= |MetaPaths| && MetaRow(league, MetaPaths) == Success(o[|o| - |MetaPaths|..])
    ensures forall j :: 0 <= j < |MetaPaths| ==>
      PullMeta(league, MetaPaths[j]).Some? && o[|o| - |MetaPaths| + j] == Member(MetaName(MetaPaths[j]), PullMeta(league, MetaPaths[j]).value)
  {
    var meta := o[|o| - |MetaPaths|..];
    forall j | 0 <= j < |MetaPaths|
      ensures o[|o| - |MetaPaths| + j] == meta[j]
    {
    }
  }

  /** When two renamings take each path's name to its `_` name, the metadata columns end the renamed row. */
  lemma PathColumnsRenamed(league: Object, paths: seq<MetaPath>, o: Row, first: string -> string, second: string -> string)
    requires forall j :: 0 <= j < |paths| ==> second(first(MetaName(paths[j]))) == MetaColumn(paths[j])
    requires |o| >= |paths|
    requires forall j :: 0 <= j < |paths| ==>
      PullMeta(league, paths[j]).Some? && o[|o| - |paths| + j] == Member(MetaName(paths[j]), PullMeta(league, paths[j]).value)
    ensures |RenameRow(RenameRow(o, first), second)| == |o|
    ensures PathColumns(league, paths, RenameRow(RenameRow(o, first), second))
  {
    var x := RenameRow(o, first);
    var row := RenameRow(x, second);
    var n := |o|;
    forall j | 0 <= j < |paths|
      ensures row[n - |paths| + j] == Member(MetaColumn(paths[j]), PullMeta(league, paths[j]).value)
    {
      var i := n - |paths| + j;
      assert x[i] == Member(first(o[i].key), o[i].value);
      assert row[i] == Member(second(x[i].key), x[i].value);
    }
  }

  /** Season `k` of league `l`, under its final names, ends with league `l`'s metadata columns. */
  lemma SeasonColumns(data: seq<Object>, l: nat, k: nat)
    requires Normalized(data).Success? && IsSeason(data, l, k)
    ensures |Final(SeasonRow(data, l, k))| >= |MetaPaths| && LeagueColumns(data[l], Final(SeasonRow(data, l, k)))
  {
    NormalizedAt(data, l, k);
    var o := SeasonRow(data, l, k);
    assert o[|o| - |MetaPaths|..] == MetaRow(data[l], MetaPaths).value;
    MetaColumnsRenamed(data[l], o);
  }

  /** A row before de-duplication is a flat row the filter kept, under its final names. */
  lemma RenamedFlatRow(flat: seq<Row>, firstYearKept: int, row: Row)
    requires row in Renamed(flat, firstYearKept)
    ensures exists p :: 0 <= p < |flat| && Keep(RenameRow(flat[p], Underscored), firstYearKept) && row == Final(flat[p])
  {
    var rows := RenameRows(flat, Underscored);
    InRenamed(Filter(rows, firstYearKept), SeasonColumnName, row);
    var x: Row :| x in Filter(rows, firstYearKept) && row == RenameRow(x, SeasonColumnName);
    InRenamed(flat, Underscored, x);
    var o: Row :| o in flat && x == RenameRow(o, Underscored);
    var p :| 0 <= p < |flat| && flat[p] == o;
  }

  /** A row before de-duplication is a kept season under its final names. */
  lemma RenamedRow(data: seq<Object>, firstYearKept: int, row: Row)
    requires Normalized(data).Success? && row in Renamed(Normalized(data).value, firstYearKept)
    ensures exists l, k :: IsSeason(data, l, k) && Kept(data, l, k, firstYearKept) && row == Final(SeasonRow(data, l, k))
  {
    var flat := Normalized(data).value;
    RenamedFlatRow(flat, firstYearKept, row);
    var p :| 0 <= p < |flat| && Keep(RenameRow(flat[p], Underscored), firstYearKept) && row == Final(flat[p]);
    NormalizedCovers(data, p);
  }

  /**
   * Every imported row is one season of one league, kept by the filter —
   * not a cup, later than the cutoff year, covered with events — under its
   * final column names, and it ends with the metadata of that same league.
   */
  lemma ProcessedRows(data: seq<Object>, firstYearKept: int)
    requires ProcessSeasons(data, firstYearKept).Success?
    ensures forall row :: row in ProcessSeasons(data, firstYearKept).value ==>
      exists l, k ::
        && IsSeason(data, l, k) && Kept(data, l, k, firstYearKept) && row == Final(SeasonRow(data, l, k))
        && |row| >= |MetaPaths| && LeagueColumns(data[l], row)
  {
    ProcessedFromRenamed(data, firstYearKept);
    forall row | row in ProcessSeasons(data, firstYearKept).value
      ensures exists l, k ::
        && IsSeason(data, l, k) && Kept(data, l, k, firstYearKept) && row == Final(SeasonRow(data, l, k))
        && |row| >= |MetaPaths| && LeagueColumns(data[l], row)
    {
      RenamedRow(data, firstYearKept, row);
      var l, k :| IsSeason(data, l, k) && Kept(data, l, k, firstYearKept) && row == Final(SeasonRow(data, l, k));
      SeasonColumns(data, l, k);
    }
  }

  /** A kept season enters de-duplication under its final names. */
  lemma KeptSeasonRenamed(data: seq<Object>, firstYearKept: int, l: nat, k: nat)
    requires Normalized(data).Success? && IsSeason(data, l, k) && Kept(data, l, k, firstYearKept)
    ensures Final(SeasonRow(data, l, k)) in Renamed(Normalized(data).value, firstYearKept)
  {
    var flat := Normalized(data).value;
    NormalizedAt(data, l, k);
    var o := SeasonRow(data, l, k);
    assert o in flat;
    RenamedIn(flat, Underscored, o);
    RenamedIn(Filter(RenameRows(flat, Underscored), firstYearKept), SeasonColumnName, RenameRow(o, Underscored));
  }

  /** De-duplication keeps the last row of every key. */
  lemma DedupeKeepsLastRows(rows: seq<Row>)
    ensures forall i :: LastOccurrence(rows, i) ==> rows[i] in DedupeKeepLast(rows)
  {
    var idx := Survivors(rows, 0);
    forall i | LastOccurrence(rows, i)
      ensures rows[i] in DedupeKeepLast(rows)
    {
      var j :| 0 <= j < |idx| && idx[j] == i;
      assert DedupeKeepLast(rows)[j] == rows[i];
    }
  }

  /** De-duplication keeps the key of every row. */
  lemma DedupeKeepsKey(rows: seq<Row>, row: Row)
    requires row in rows
    ensures exists r :: r in DedupeKeepLast(rows) && SeasonKey(r) == SeasonKey(row)
  {
    DedupeComplete(rows);
    var i :| 0 <= i < |rows| && rows[i] == row;
    var j :| 0 <= j < |DedupeKeepLast(rows)| && SeasonKey(DedupeKeepLast(rows)[j]) == SeasonKey(rows[i]);
    assert DedupeKeepLast(rows)[j] in DedupeKeepLast(rows);
  }

  /**
   * No kept season is lost: each one enters de-duplication under its final
   * names, the last row of each key is imported, and so every kept
   * season's key is imported.
   */
  lemma ProcessedCovers(data: seq<Object>, firstYearKept: int)
    requires ProcessSeasons(data, firstYearKept).Success?
    ensures Normalized(data).Success?
    ensures forall l, k :: IsSeason(data, l, k) && Kept(data, l, k, firstYearKept) ==>
      Final(SeasonRow(data, l, k)) in Renamed(Normalized(data).value, firstYearKept)
    ensures forall i :: LastOccurrence(Renamed(Normalized(data).value, firstYearKept), i) ==>
      Renamed(Normalized(data).value, firstYearKept)[i] in ProcessSeasons(data, firstYearKept).value
    ensures forall l, k :: IsSeason(data, l, k) && Kept(data, l, k, firstYearKept) ==>
      exists row :: row in ProcessSeasons(data, firstYearKept).value && SeasonKey(row) == SeasonKey(Final(SeasonRow(data, l, k)))
  {
    ProcessedFromRenamed(data, firstYearKept);
    var rows := Renamed(Normalized(data).value, firstYearKept);
    forall l, k | IsSeason(data, l, k) && Kept(data, l, k, firstYearKept)
      ensures Final(SeasonRow(data, l, k)) in rows
      ensures exists row :: row in DedupeKeepLast(rows) && SeasonKey(row) == SeasonKey(Final(SeasonRow(data, l, k)))
    {
      KeptSeasonRenamed(data, firstYearKept, l, k);
      DedupeKeepsKey(rows, Final(SeasonRow(data, l, k)));
    }
    DedupeKeepsLastRows(rows);
  }

  /** Renaming twice leaves no dot and none of `year`, `start`, `end` in a row's column names. */
  lemma RenamedRowNames(flat: seq<Row>, firstYearKept: int, row: Row)
    requires row in Renamed(flat, firstYearKept)
    ensures forall m :: m in row ==> '.' !in m.key && m.key !in {"year", "start", "end"}
  {
    var rows := RenameRows(flat, Underscored);
    InRenamed(Filter(rows, firstYearKept), SeasonColumnName, row);
    var x: Row :| x in Filter(rows, firstYearKept) && row == RenameRow(x, SeasonColumnName);
    InRenamed(flat, Underscored, x);
    var o: Row :| o in flat && x == RenameRow(o, Underscored);
    RenamedTwiceNames(o);
  }

  lemma RenamedTwiceNames(o: Row)
    ensures forall m :: m in RenameRow(RenameRow(o, Underscored), SeasonColumnName) ==>
      '.' !in m.key && m.key !in {"year", "start", "end"}
  {
    var x := RenameRow(o, Underscored);
    var row := RenameRow(x, SeasonColumnName);
    forall m | m in row
      ensures '.' !in m.key && m.key !in {"year", "start", "end"}
    {
      var i :| 0 <= i < |row| && row[i] == m;
      assert m.key == SeasonColumnName(x[i].key);
      assert x[i].key == Underscored(o[i].key);
      RenamedName(o[i].key);
    }
  }

  /** No imported column name has a dot or is one of the renamed-away `year`, `start`, `end`. */
  lemma ProcessedColumnNames(data: seq<Object>, firstYearKept: int)
    requires ProcessSeasons(data, firstYearKept).Success?
    ensures forall row, m :: row in ProcessSeasons(data, firstYearKept).value && m in row ==>
      '.' !in m.key && m.key !in {"year", "start", "end"}
  {
    ProcessedFromRenamed(data, firstYearKept);
    forall row | row in ProcessSeasons(data, firstYearKept).value
      ensures forall m :: m in row ==> '.' !in m.key && m.key !in {"year", "start", "end"}
    {
      RenamedRowNames(Normalized(data).value, firstYearKept, row);
    }
  }

  // ----- De-duplication -----

  /** Every key has a last row, at or after any row with that key. */
  lemma {:induction false} LastOccurrenceExists(rows: seq<Row>, i: nat)
    requires i < |rows|
    ensures exists j :: i <= j < |rows| && LastOccurrence(rows, j) && SeasonKey(rows[j]) == SeasonKey(rows[i])
    decreases |rows| - i
  {
    if !LastOccurrence(rows, i) {
      var j :| i < j < |rows| && SeasonKey(rows[j]) == SeasonKey(rows[i]);
      LastOccurrenceExists(rows, j);
    }
  }

  /** After `drop_duplicates` no two rows share a `(league_id, season_year)` key. */
  lemma DedupeUnique(rows: seq<Row>)
    ensures forall a, b :: 0 <= a < b < |DedupeKeepLast(rows)| ==>
      SeasonKey(DedupeKeepLast(rows)[a]) != SeasonKey(DedupeKeepLast(rows)[b])
  {
    var idx := Survivors(rows, 0);
    forall a, b | 0 <= a < b < |idx|
      ensures SeasonKey(rows[idx[a]]) != SeasonKey(rows[idx[b]])
    {
      assert LastOccurrence(rows, idx[a]);
    }
  }

  /** After `drop_duplicates` every key of the input is still there. */
  lemma DedupeComplete(rows: seq<Row>)
    ensures forall i :: 0 <= i < |rows| ==>
      exists k :: 0 <= k < |DedupeKeepLast(rows)| && SeasonKey(DedupeKeepLast(rows)[k]) == SeasonKey(rows[i])
  {
    var r := DedupeKeepLast(rows);
    var idx := Survivors(rows, 0);
    forall i | 0 <= i < |rows|
      ensures exists k :: 0 <= k < |r| && SeasonKey(r[k]) == SeasonKey(rows[i])
    {
      LastOccurrenceExists(rows, i);
      var j :| i <= j < |rows| && LastOccurrence(rows, j) && SeasonKey(rows[j]) == SeasonKey(rows[i]);
      var k :| 0 <= k < |idx| && idx[k] == j;
      assert r[k] == rows[j];
    }
  }

  /** The row kept for a key is its last one (`keep="last"`), and kept rows stay in input order. */
  lemma DedupeKeepsLast(rows: seq<Row>)
    ensures forall k, i ::
      (0 <= k < |DedupeKeepLast(rows)| && 0 <= i < |rows| && SeasonKey(rows[i]) == SeasonKey(DedupeKeepLast(rows)[k]))
      ==> i <= Survivors(rows, 0)[k]
    ensures forall a, b :: 0 <= a < b < |DedupeKeepLast(rows)| ==> Survivors(rows, 0)[a] < Survivors(rows, 0)[b]
  {
    var idx := Survivors(rows, 0);
    forall k, i | 0 <= k < |idx| && 0 <= i < |rows| && SeasonKey(rows[i]) == SeasonKey(rows[idx[k]])
      ensures i <= idx[k]
    {
      assert LastOccurrence(rows, idx[k]);
    }
  }

  /** The imported rows have pairwise different `(league_id, season_year)` keys. */
  lemma ProcessedUnique(data: seq<Object>, firstYearKept: int)
    requires ProcessSeasons(data, firstYearKept).Success?
    ensures forall a, b :: 0 <= a < b < |ProcessSeasons(data, firstYearKept).value| ==>
      SeasonKey(ProcessSeasons(data, firstYearKept).value[a]) != SeasonKey(ProcessSeasons(data, firstYearKept).value[b])
  {
    assert ProcessSeasons(data, firstYearKept).value == DedupeKeepLast(Renamed(Normalized(data).value, firstYearKept));
    DedupeUnique(Renamed(Normalized(data).value, firstYearKept));
  }

  // ----- Seeding -----

  /** Seeding never changes or removes a season already tracked. */
  lemma {:induction false} SeedAllKeeps(items: map<Key, SeasonMeta>, rows: seq<Row>)
    ensures forall k :: k in items ==> k in SeedAll(items, rows) && SeedAll(items, rows)[k] == items[k]
    decreases |rows|
  {
    if rows != [] {
      SeedAllKeeps(items, rows[..|rows| - 1]);
    }
  }

  /** Every season seeding adds starts out never synced and due: `last_updated_fixtures` far back, flag up. */
  lemma {:induction false} SeedAllAdds(items: map<Key, SeasonMeta>, rows: seq<Row>)
    ensures forall k :: k in SeedAll(items, rows) && k !in items ==>
      && SeedAll(items, rows)[k].lastUpdatedFixtures == Some(FarPast)
      && SeedAll(items, rows)[k].dataNeedToUpdate == Some(1)
      && Due(SeedAll(items, rows)[k])
    decreases |rows|
  {
    if rows != [] {
      SeedAllAdds(items, rows[..|rows| - 1]);
    }
  }

  /** Seeding adds only the keys of seedable rows. */
  lemma {:induction false} SeedAllOnlyRows(items: map<Key, SeasonMeta>, rows: seq<Row>)
    ensures forall k :: k in SeedAll(items, rows) && k !in items ==>
      exists j :: 0 <= j < |rows| && Seedable(rows[j]) && SeedItem(rows[j]).value.key == k
    decreases |rows|
  {
    if rows != [] {
      var init := rows[..|rows| - 1];
      var last := rows[|rows| - 1];
      var before := SeedAll(items, init);
      SeedAllOnlyRows(items, init);
      assert SeedAll(items, rows) == SeedOne(before, last);
      forall k | k in SeedAll(items, rows) && k !in items
        ensures exists j :: 0 <= j < |rows| && Seedable(rows[j]) && SeedItem(rows[j]).value.key == k
      {
        if k in before {
          var j :| 0 <= j < |init| && Seedable(init[j]) && SeedItem(init[j]).value.key == k;
          assert rows[j] == init[j];
        } else {
          SeedOneOnly(before, last, k);
          assert rows[|rows| - 1] == last;
        }
      }
    }
  }

  /** Seeding one row adds at most that row's key. */
  lemma SeedOneOnly(items: map<Key, SeasonMeta>, row: Row, k: Key)
    requires k in SeedOne(items, row) && k !in items
    ensures Seedable(row) && SeedItem(row).value.key == k
  {
  }

  /** After seeding, the catalog tracks the season of every seedable row. */
  lemma {:induction false} SeedAllCovers(items: map<Key, SeasonMeta>, rows: seq<Row>)
    ensures forall j :: 0 <= j < |rows| && Seedable(rows[j]) ==> SeedItem(rows[j]).value.key in SeedAll(items, rows)
    decreases |rows|
  {
    if rows != [] {
      var init := rows[..|rows| - 1];
      var last := rows[|rows| - 1];
      var before := SeedAll(items, init);
      SeedAllCovers(items, init);
      assert SeedAll(items, rows) == SeedOne(before, last);
      forall j | 0 <= j < |rows| && Seedable(rows[j])
        ensures SeedItem(rows[j]).value.key in SeedAll(items, rows)
      {
        if j < |init| {
          assert rows[j] == init[j];
          SeedOneKeeps(before, last, SeedItem(rows[j]).value.key);
        } else {
          SeedOneCovers(before, last);
        }
      }
    }
  }

  /** Seeding a seedable row leaves its season in the catalog. */
  lemma SeedOneCovers(items: map<Key, SeasonMeta>, row: Row)
    requires Seedable(row)
    ensures SeedItem(row).value.key in SeedOne(items, row)
  {
  }

  /** Seeding a catalog that tracks every row's season already changes nothing. */
  lemma {:induction false} SeedAllTracked(items: map<Key, SeasonMeta>, rows: seq<Row>)
    requires forall j :: 0 <= j < |rows| && Seedable(rows[j]) ==> SeedItem(rows[j]).value.key in items
    ensures SeedAll(items, rows) == items
    decreases |rows|
  {
    if rows != [] {
      var init := rows[..|rows| - 1];
      assert forall j :: 0 <= j < |init| ==> init[j] == rows[j];
      SeedAllTracked(items, init);
    }
  }

  /** Running the import twice on the same rows is the same as running it once. */
  lemma SeedAllIdempotent(items: map<Key, SeasonMeta>, rows: seq<Row>)
    ensures SeedAll(SeedAll(items, rows), rows) == SeedAll(items, rows)
  {
    SeedAllCovers(items, rows);
    SeedAllTracked(SeedAll(items, rows), rows);
  }

  /** A new season gets the item of its first seedable row: later puts for the same key fail their condition. */
  lemma {:induction false} SeedAllFirstWins(items: map<Key, SeasonMeta>, rows: seq<Row>, j: nat)
    requires j < |rows| && Seedable(rows[j])
    requires SeedItem(rows[j]).value.key !in items
    requires forall i :: 0 <= i < j && Seedable(rows[i]) ==> SeedItem(rows[i]).value.key != SeedItem(rows[j]).value.key
    ensures SeedItem(rows[j]).value.key in SeedAll(items, rows)
    ensures SeedAll(items, rows)[SeedItem(rows[j]).value.key] == SeedItem(rows[j]).value.meta
    decreases |rows|
  {
    var k := SeedItem(rows[j]).value.key;
    var init := rows[..|rows| - 1];
    var before := SeedAll(items, init);
    assert SeedAll(items, rows) == SeedOne(before, rows[|rows| - 1]);
    if j == |rows| - 1 {
      SeedAllOnlyRows(items, init);
      assert forall i :: 0 <= i < |init| ==> init[i] == rows[i];
      assert k !in before;
    } else {
      assert init[j] == rows[j];
      assert forall i :: 0 <= i < j ==> init[i] == rows[i];
      SeedAllFirstWins(items, init, j);
      SeedOneKeeps(before, rows[|rows| - 1], k);
    }
  }

  /** Seeding one row leaves a season already in the catalog as it was. */
  lemma SeedOneKeeps(items: map<Key, SeasonMeta>, row: Row, k: Key)
    requires k in items
    ensures k in SeedOne(items, row) && SeedOne(items, row)[k] == items[k]
  {
  }

}
