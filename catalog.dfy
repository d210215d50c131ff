/**
 * The season catalog table: one record per (league_id, season_year), with
 * the store operations the handlers use — the due-index query, the partial
 * update, and the conditional put.
 */
module Catalog {
  import opened Wrappers
  import opened Dates
  import opened Payload

  /** The table's primary key. */
  datatype Key = Key(leagueId: int, seasonYear: int)

  /**
   * The non-key attributes of one catalog record. Every attribute may be
   * absent; `dataNeedToUpdate` and `posteriorsNeedToUpdate` are presence
   * flags holding the number 1. The season's `start_date` and `end_date`
   * are kept as the values seeding wrote, which may be NULL (`JNull`)
   * rather than a date string. `otherAttributes` holds the remaining
   * season columns written at seeding, which the sync engine never reads.
   */
  datatype SeasonMeta = SeasonMeta(
    startDate: Option<Json>,
    endDate: Option<Json>,
    lastUpdatedTeams: Option<Date>,
    lastUpdatedFixtures: Option<Date>,
    newestGameDate: Option<Date>,
    lastUpdatedPosteriors: Option<Date>,
    dataNeedToUpdate: Option<int>,
    posteriorsNeedToUpdate: Option<int>,
    otherAttributes: Row)

  /** The record an update creates when the key is not in the table yet. */
  const Blank := SeasonMeta(None, None, None, None, None, None, None, None, [])

  /** A record as a query returns it: key and attributes. */
  datatype CatalogItem = CatalogItem(key: Key, meta: SeasonMeta)

  /** The error code DynamoDB reports when a request parameter is invalid. */
  const ValidationException := "ValidationException"

  /**
   * The exception boto3 raises, before any request is sent, for a
   * parameter outside its allowed range such as a `Limit` below 1.
   */
  const LimitRejected := "ParamValidationError"

  /** The error code of a put whose condition does not hold. */
  const ConditionalCheckFailed := "ConditionalCheckFailedException"

  /** The error code of a request the store fails on its own (throttling, an unreachable service, ...). */
  type StoreFault = code: string | code != ConditionalCheckFailed witness "InternalServerError"

  // ----- The secondary index LastUpdatedIndex -----

  /**
   * A record is in the due query's range: it is in the sparse index (it has
   * both index attributes) and its hash attribute `data_need_to_update` is 1.
   */
  predicate Due(m: SeasonMeta) {
    m.dataNeedToUpdate == Some(1) && m.lastUpdatedFixtures.Some?
  }

  /** The range attribute of the index. */
  function IndexDate(m: SeasonMeta): Date
    requires m.lastUpdatedFixtures.Some?
  {
    m.lastUpdatedFixtures.value
  }

  function DueKeys(items: map<Key, SeasonMeta>): set<Key> {
    set k | k in items && Due(items[k])
  }

  function KeysOf(r: seq<CatalogItem>): set<Key> {
    set i | 0 <= i < |r| :: r[i].key
  }

  /**
   * `r` is a possible answer to the due query with `ScanIndexForward=False`
   * and `Limit=limit`: as many due records as the limit allows, each one
   * as stored, no key twice, in descending `last_updated_fixtures` order,
   * and no due record left out that sorts after one returned. Among equal
   * dates the store's order is unknown, so this is a relation, not a function.
   */
  predicate IsDueSelection(items: map<Key, SeasonMeta>, limit: nat, r: seq<CatalogItem>) {
    && |r| == (if limit < |DueKeys(items)| then limit else |DueKeys(items)|)
    && (forall i :: 0 <= i < |r| ==> r[i].key in items && items[r[i].key] == r[i].meta && Due(r[i].meta))
    && (forall i, j :: 0 <= i < j < |r| ==> r[i].key != r[j].key)
    && (forall i, j :: 0 <= i < j < |r| ==> !Less(IndexDate(r[i].meta), IndexDate(r[j].meta)))
    && (forall k, i :: k in DueKeys(items) && k !in KeysOf(r) && 0 <= i < |r| ==>
          !Less(IndexDate(r[i].meta), IndexDate(items[k])))
  }

  /**
   * The keys half of the query's progress: `picked` are distinct due
   * records as stored, `remaining` the due keys not yet picked.
   */
  predicate SelectingKeys(items: map<Key, SeasonMeta>, picked: seq<CatalogItem>, remaining: set<Key>) {
    && remaining <= DueKeys(items)
    && KeysOf(picked) == DueKeys(items) - remaining
    && |picked| + |remaining| == |DueKeys(items)|
    && (forall i :: 0 <= i < |picked| ==>
          picked[i].key in items && items[picked[i].key] == picked[i].meta && Due(picked[i].meta))
    && (forall i, j :: 0 <= i < j < |picked| ==> picked[i].key != picked[j].key)
  }

  /** The order half of the query's progress: `picked` is in descending index order, each at least as late as every record still remaining. */
  predicate SelectingOrder(items: map<Key, SeasonMeta>, picked: seq<CatalogItem>, remaining: set<Key>)
    requires SelectingKeys(items, picked, remaining)
  {
    && (forall i, j :: 0 <= i < j < |picked| ==> !Less(IndexDate(picked[i].meta), IndexDate(picked[j].meta)))
    && (forall k, i :: k in remaining && 0 <= i < |picked| ==>
          !Less(IndexDate(picked[i].meta), IndexDate(items[k])))
  }

  predicate Selecting(items: map<Key, SeasonMeta>, picked: seq<CatalogItem>, remaining: set<Key>) {
    SelectingKeys(items, picked, remaining) && SelectingOrder(items, picked, remaining)
  }

  lemma SelectionStepKeys(items: map<Key, SeasonMeta>, picked: seq<CatalogItem>, remaining: set<Key>, best: Key)
    requires SelectingKeys(items, picked, remaining) && best in remaining
    ensures SelectingKeys(items, picked + [CatalogItem(best, items[best])], remaining - {best})
  {
    var c := CatalogItem(best, items[best]);
    var p := picked + [c];
    KeysOfAppend(picked, c);
    assert DueKeys(items) - (remaining - {best}) == (DueKeys(items) - remaining) + {best};
    assert |remaining - {best}| == |remaining| - 1;
    assert forall i :: 0 <= i < |picked| ==> picked[i].key != best by {
      forall i | 0 <= i < |picked| ensures picked[i].key != best {
        assert picked[i].key in KeysOf(picked);
      }
    }
    forall i | 0 <= i < |p|
      ensures p[i].key in items && items[p[i].key] == p[i].meta && Due(p[i].meta)
    {
      if i < |picked| {
        assert p[i] == picked[i];
      } else {
        assert p[i] == c && best in DueKeys(items);
      }
    }
    forall i, j | 0 <= i < j < |p|
      ensures p[i].key != p[j].key
    {
      assert p[i] == picked[i];
      if j < |picked| {
        assert p[j] == picked[j];
      } else {
        assert p[j] == c;
      }
    }
  }

  lemma KeysOfAppend(r: seq<CatalogItem>, c: CatalogItem)
    ensures KeysOf(r + [c]) == KeysOf(r) + {c.key}
  {
    var p := r + [c];
    assert p[|r|] == c;
    forall k | k in KeysOf(r)
      ensures k in KeysOf(p)
    {
      var i :| 0 <= i < |r| && r[i].key == k;
      assert p[i] == r[i];
    }
  }

  lemma SelectionStepOrder(items: map<Key, SeasonMeta>, picked: seq<CatalogItem>, remaining: set<Key>, best: Key)
    requires Selecting(items, picked, remaining) && best in remaining
    requires forall k :: k in remaining ==> !Less(IndexDate(items[best]), IndexDate(items[k]))
    requires SelectingKeys(items, picked + [CatalogItem(best, items[best])], remaining - {best})
    ensures SelectingOrder(items, picked + [CatalogItem(best, items[best])], remaining - {best})
  {
    var p := picked + [CatalogItem(best, items[best])];
    forall i, j | 0 <= i < j < |p|
      ensures !Less(IndexDate(p[i].meta), IndexDate(p[j].meta))
    {
      if j < |picked| {
        assert p[i] == picked[i] && p[j] == picked[j];
      } else {
        assert p[i] == picked[i] && p[j].meta == items[best];
      }
    }
    forall k, i | k in remaining - {best} && 0 <= i < |p|
      ensures !Less(IndexDate(p[i].meta), IndexDate(items[k]))
    {
      if i < |picked| {
        assert p[i] == picked[i];
      } else {
        assert p[i].meta == items[best];
      }
    }
  }

  /** Taking the latest remaining record keeps the query's progress. */
  lemma SelectionStep(items: map<Key, SeasonMeta>, picked: seq<CatalogItem>, remaining: set<Key>, best: Key)
    requires Selecting(items, picked, remaining)
    requires best in remaining
    requires forall k :: k in remaining ==> !Less(IndexDate(items[best]), IndexDate(items[k]))
    ensures Selecting(items, picked + [CatalogItem(best, items[best])], remaining - {best})
  {
    SelectionStepKeys(items, picked, remaining, best);
    SelectionStepOrder(items, picked, remaining, best);
  }

  /** Once the query stops, its progress is a due selection. */
  lemma SelectionDone(items: map<Key, SeasonMeta>, limit: nat, picked: seq<CatalogItem>, remaining: set<Key>)
    requires Selecting(items, picked, remaining)
    requires |picked| <= limit && (|picked| == limit || remaining == {})
    ensures IsDueSelection(items, limit, picked)
  {
  }

  /** A key among `keys` whose index date is the latest. */
  method Latest(items: map<Key, SeasonMeta>, keys: set<Key>) returns (best: Key)
    requires keys != {} && keys <= DueKeys(items)
    ensures best in keys
    ensures forall k :: k in keys ==> !Less(IndexDate(items[best]), IndexDate(items[k]))
  {
    best :| best in keys;
    LessIrreflexive(IndexDate(items[best]));
    var rest := keys - {best};
    while rest != {}
      invariant rest <= keys && best in keys
      invariant forall k :: k in keys - rest ==> !Less(IndexDate(items[best]), IndexDate(items[k]))
      decreases rest
    {
      var k :| k in rest;
      if Less(IndexDate(items[best]), IndexDate(items[k])) {
        forall j | j in keys - rest
          ensures !Less(IndexDate(items[k]), IndexDate(items[j]))
        {
          if Less(IndexDate(items[k]), IndexDate(items[j])) {
            LessTransitive(IndexDate(items[best]), IndexDate(items[k]), IndexDate(items[j]));
          }
        }
        LessIrreflexive(IndexDate(items[k]));
        best := k;
      }
      rest := rest - {k};
    }
  }

  // ----- Update expressions -----

  datatype DateAttribute = LastUpdatedFixtures | NewestGameDate | LastUpdatedTeams

  datatype FlagAttribute = PosteriorsNeedToUpdate | DataNeedToUpdate

  /** One clause of a `SET` list. */
  datatype Assignment = SetDate(dateAttr: DateAttribute, date: Date) | SetFlag(flagAttr: FlagAttribute, n: int)

  /** `SET a = :v, ... REMOVE b, ...`, with the values already substituted. */
  datatype UpdateExpression = UpdateExpression(assignments: seq<Assignment>, removals: seq<FlagAttribute>)

  function Assign(m: SeasonMeta, a: Assignment): SeasonMeta {
    match a
    case SetDate(LastUpdatedFixtures, d) => m.(lastUpdatedFixtures := Some(d))
    case SetDate(NewestGameDate, d) => m.(newestGameDate := Some(d))
    case SetDate(LastUpdatedTeams, d) => m.(lastUpdatedTeams := Some(d))
    case SetFlag(PosteriorsNeedToUpdate, n) => m.(posteriorsNeedToUpdate := Some(n))
    case SetFlag(DataNeedToUpdate, n) => m.(dataNeedToUpdate := Some(n))
  }

  function Remove(m: SeasonMeta, f: FlagAttribute): SeasonMeta {
    match f
    case PosteriorsNeedToUpdate => m.(posteriorsNeedToUpdate := None)
    case DataNeedToUpdate => m.(dataNeedToUpdate := None)
  }

  function AssignAll(m: SeasonMeta, clauses: seq<Assignment>): SeasonMeta
    decreases |clauses|
  {
    if clauses == [] then m else AssignAll(Assign(m, clauses[0]), clauses[1..])
  }

  function RemoveAll(m: SeasonMeta, fs: seq<FlagAttribute>): SeasonMeta
    decreases |fs|
  {
    if fs == [] then m else RemoveAll(Remove(m, fs[0]), fs[1..])
  }

  /** The record after `update_item` with this expression. */
  function ApplyUpdate(m: SeasonMeta, e: UpdateExpression): SeasonMeta {
    RemoveAll(AssignAll(m, e.assignments), e.removals)
  }

  // ----- The table -----

  class MetaTable {
    var items: map<Key, SeasonMeta>

    constructor (initial: map<Key, SeasonMeta>)
      ensures items == initial
    {
      items := initial;
    }

    /**
     * `query(IndexName="LastUpdatedIndex", KeyConditionExpression=
     * "data_need_to_update = :val", ScanIndexForward=False, Limit=limit)`.
     * A limit below 1 is refused by the client's parameter check before
     * any request is sent.
     */
    method QueryDue(limit: int) returns (r: Result<seq<CatalogItem>, string>)
      ensures r.Failure? <==> limit < 1
      ensures r.Failure? ==> r.error == LimitRejected
      ensures r.Success? ==> IsDueSelection(items, limit, r.value)
    {
      if limit < 1 {
        return Failure(LimitRejected);
      }
      var remaining := DueKeys(items);
      var picked: seq<CatalogItem> := [];
      while |picked| < limit && remaining != {}
        invariant Selecting(items, picked, remaining) && |picked| <= limit
        decreases remaining
      {
        var best := Latest(items, remaining);
        SelectionStep(items, picked, remaining, best);
        picked := picked + [CatalogItem(best, items[best])];
        remaining := remaining - {best};
      }
      SelectionDone(items, limit, picked, remaining);
      return Success(picked);
    }

    /**
     * `update_item(Key=key, UpdateExpression=e)`: the record is updated in
     * place, or created from the key alone when absent; no other record changes.
     */
    method UpdateItem(key: Key, e: UpdateExpression)
      modifies this
      ensures items == old(items)[key := ApplyUpdate(if key in old(items) then old(items)[key] else Blank, e)]
    {
      var current := if key in items then items[key] else Blank;
      items := items[key := ApplyUpdate(current, e)];
    }

    /**
     * `put_item(Item=..., ConditionExpression="attribute_not_exists(league_id)
     * and attribute_not_exists(season_year)")`. `fault` is the store's own
     * failure for this request, if any. Returns the client error code, if
     * the request failed.
     */
    method ConditionalPut(key: Key, meta: SeasonMeta, fault: Option<StoreFault>) returns (error: Option<string>)
      modifies this
      ensures fault.Some? ==> error == fault && items == old(items)
      ensures fault.None? && key in old(items) ==> error == Some(ConditionalCheckFailed) && items == old(items)
      ensures fault.None? && key !in old(items) ==> error == None && items == old(items)[key := meta]
    {
      if fault.Some? {
        error := fault;
      } else if key in items {
        error := Some(ConditionalCheckFailed);
      } else {
        items := items[key := meta];
        error := None;
      }
    }
  }
}
