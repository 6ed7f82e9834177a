/** What one location update computes, as values: the rows `change_location`
    adds (or the exception it raises), and the tables `update_location`
    leaves behind. The class in session.dfy performs the same steps on a
    database session and is proved to end in the states described here. */
module Sync {
  import opened Results
  import opened Venues
  import opened Normalizer
  import opened Provider
  import opened Forms

  /** The exception that ends a run. `KeyError("businesses")` comes from a
      reply without a business list; other keys from an incomplete record. */
  datatype SyncError =
    | RequestFailed
    | KeyError(key: string)
    | UnboundLocal(variable: string)

  /** How an update request ends: the form was refused (nothing happens),
      the tables were replaced, or the run raised and was rolled back. */
  datatype Status = Rejected | Updated | Failed(error: SyncError)

  datatype Update = Update(tables: Tables, status: Status)

  /** The local variable each loop binds to the row it builds. */
  function LoopVariable(c: Category): string
  {
    match c
    case Restaurants => "new_restaurant"
    case Bars => "new_bar"
    case CoffeeShops => "new_coffee_shop"
    case Activities => "new_activity"
  }

  /** The provider's reply to the query for category `c`. */
  function Answer(provider: Params -> Reply, location: string, miles: int, limit: int, c: Category): Reply
  {
    provider(QueryFor(location, miles, limit, c))
  }

  /** `.json()['businesses']` on a reply. */
  function Fetch(reply: Reply): (r: Result<seq<RawRecord>, SyncError>)
    ensures r.Ok? <==> reply.Businesses?
    ensures r.Ok? ==> r.value == reply.records
    ensures reply.NoBusinessesKey? ==> r == Err(KeyError("businesses"))
    ensures reply.RequestError? ==> r == Err(RequestFailed)
  {
    match reply
    case Businesses(records) => Ok(records)
    case NoBusinessesKey => Err(KeyError("businesses"))
    case RequestError => Err(RequestFailed)
  }

  /** The rows the restaurant, bar or coffee-shop loop adds. A record missing
      a required key ends the loop; its `finally` clause then adds the loop
      variable, which is still unbound if that record was the first one
      (`UnboundLocalError` replaces the `KeyError`) and otherwise holds the
      previous row, already in the session (the `KeyError` propagates). */
  function PricedRows(owner: UserId, c: Category, records: seq<RawRecord>): (r: Result<seq<Venue>, SyncError>)
    requires c != Activities
    ensures r.Ok? <==> Complete(records)
    ensures r.Ok? ==> |r.value| == |records|
    ensures r.Ok? ==> forall i | 0 <= i < |records| :: r.value[i] == NormalizePriced(owner, records[i]).value
    ensures r.Err? ==> (r.error == UnboundLocal(LoopVariable(c)) <==> !HasRequired(records[0]))
    ensures r.Err? && HasRequired(records[0]) ==>
              exists i | 0 < i < |records| :: !HasRequired(records[i]) && r.error == KeyError(FirstMissing(records[i]))
  {
    match NormalizeAll(owner, c, records)
    case Ok(rows) => Ok(rows)
    case Err(m) =>
      if m.index == 0 then Err(UnboundLocal(LoopVariable(c))) else Err(KeyError(m.key))
  }

  /** The first record lacking a required key decides how a restaurant, bar
      or coffee-shop loop fails. */
  lemma PricedRowsStopAt(owner: UserId, c: Category, records: seq<RawRecord>, i: nat)
    requires c != Activities
    requires i < |records| && !HasRequired(records[i])
    requires forall j | 0 <= j < i :: HasRequired(records[j])
    ensures PricedRows(owner, c, records)
            == Err(if i == 0 then UnboundLocal(LoopVariable(c)) else KeyError(FirstMissing(records[i])))
  {
  }

  /** The activity rows the run adds: the loop rebinds `new_activity` for
      every record and a single `add` after the loop keeps only the last one;
      an empty list leaves `new_activity` unbound. */
  function ActivityRows(owner: UserId, records: seq<RawRecord>): (r: Result<seq<Venue>, SyncError>)
    ensures r.Ok? <==> records != [] && Complete(records)
    ensures r.Ok? ==> r.value == [NormalizeActivity(owner, records[|records| - 1]).value]
    ensures records == [] ==> r == Err(UnboundLocal("new_activity"))
    ensures records != [] && r.Err? ==>
              exists i | 0 <= i < |records| :: !HasRequired(records[i]) && r.error == KeyError(FirstMissing(records[i]))
  {
    match NormalizeAll(owner, Activities, records)
    case Err(m) => Err(KeyError(m.key))
    case Ok(rows) =>
      if rows == [] then Err(UnboundLocal(LoopVariable(Activities))) else Ok([rows[|rows| - 1]])
  }

  /** The first record lacking a required key decides the `KeyError` of the
      activity loop. */
  lemma ActivityRowsStopAt(owner: UserId, records: seq<RawRecord>, i: nat)
    requires i < |records| && !HasRequired(records[i])
    requires forall j | 0 <= j < i :: HasRequired(records[j])
    ensures ActivityRows(owner, records) == Err(KeyError(FirstMissing(records[i])))
  {
  }

  /** One category of a run: `.json()['businesses']` on the reply, then
      the category's loop. */
  function CategoryRows(owner: UserId, c: Category, reply: Reply): (r: Result<seq<Venue>, SyncError>)
    ensures r.Ok? <==> reply.Businesses? && Complete(reply.records) && (c == Activities ==> reply.records != [])
    ensures r.Ok? ==> Stamped(r.value, owner)
  {
    var records :- Fetch(reply);
    if c == Activities then ActivityRows(owner, records) else PricedRows(owner, c, records)
  }

  /** The first `k` categories of a run, in fetch order: the rows they add
      per table, or the exception of the first one that fails. */
  function Progress(owner: UserId, location: string, miles: int, limit: int, provider: Params -> Reply, k: nat): (r: Result<Tables, SyncError>)
    requires k <= 4
    ensures r.Ok? ==> forall c :: Stamped(r.value.Get(c), owner)
  {
    if k == 0 then Ok(Empty())
    else
      var done :- Progress(owner, location, miles, limit, provider, k - 1);
      var c := FanOut[k - 1];
      var rows :- CategoryRows(owner, c, Answer(provider, location, miles, limit, c));
      Ok(done.Put(c, rows))
  }

  /** `change_location` as a value: all four categories. Every row it adds
      is stamped with the current user. */
  function Collect(owner: UserId, location: string, miles: int, limit: int, provider: Params -> Reply): (r: Result<Tables, SyncError>)
    ensures r.Ok? ==> forall c :: Stamped(r.value.Get(c), owner)
  {
    Progress(owner, location, miles, limit, provider, 4)
  }

  /** The first `k` categories succeed exactly when each of them does. */
  lemma {:induction false} ProgressOk(owner: UserId, location: string, miles: int, limit: int, provider: Params -> Reply, k: nat)
    requires k <= 4
    ensures Progress(owner, location, miles, limit, provider, k).Ok? <==>
              forall j | 0 <= j < k :: CategoryRows(owner, FanOut[j], Answer(provider, location, miles, limit, FanOut[j])).Ok?
  {
    if k > 0 {
      ProgressOk(owner, location, miles, limit, provider, k - 1);
    }
  }

  /** After the first `k` categories succeed, each of them has its rows in
      its own table and the other tables are still empty. */
  lemma {:induction false} ProgressRows(owner: UserId, location: string, miles: int, limit: int, provider: Params -> Reply, k: nat, j: nat)
    requires j < 4 && k <= 4
    requires Progress(owner, location, miles, limit, provider, k).Ok?
    ensures j < k ==>
              && CategoryRows(owner, FanOut[j], Answer(provider, location, miles, limit, FanOut[j])).Ok?
              && Progress(owner, location, miles, limit, provider, k).value.Get(FanOut[j])
                 == CategoryRows(owner, FanOut[j], Answer(provider, location, miles, limit, FanOut[j])).value
    ensures j >= k ==> Progress(owner, location, miles, limit, provider, k).value.Get(FanOut[j]) == []
  {
    if k > 0 {
      ProgressRows(owner, location, miles, limit, provider, k - 1, j);
    }
  }

  /** One more category of the fan-out: its rows are appended to its
      (still empty) table, or its error ends the run. */
  lemma ProgressStep(owner: UserId, location: string, miles: int, limit: int, provider: Params -> Reply, k: nat)
    requires k < 4
    requires Progress(owner, location, miles, limit, provider, k).Ok?
    ensures var done := Progress(owner, location, miles, limit, provider, k).value;
            var next := Progress(owner, location, miles, limit, provider, k + 1);
            var rows := CategoryRows(owner, FanOut[k], Answer(provider, location, miles, limit, FanOut[k]));
            && (next.Ok? <==> rows.Ok?)
            && (rows.Err? ==> next.error == rows.error)
            && (rows.Ok? ==> next.value == done.Put(FanOut[k], done.Get(FanOut[k]) + rows.value))
  {
    ProgressRows(owner, location, miles, limit, provider, k, k);
  }

  /** Once a category fails, the run ends with its error. */
  lemma {:induction false} ProgressErrSticks(owner: UserId, location: string, miles: int, limit: int, provider: Params -> Reply, k: nat, n: nat)
    requires k <= n <= 4
    requires Progress(owner, location, miles, limit, provider, k).Err?
    ensures Progress(owner, location, miles, limit, provider, n) == Progress(owner, location, miles, limit, provider, k)
  {
    if k < n {
      ProgressErrSticks(owner, location, miles, limit, provider, k, n - 1);
    }
  }

  /** A run succeeds exactly when each of its four categories does, and then
      each table receives its own category's rows. */
  lemma CollectByCategory(owner: UserId, location: string, miles: int, limit: int, provider: Params -> Reply)
    ensures Collect(owner, location, miles, limit, provider).Ok? <==>
              forall c :: CategoryRows(owner, c, Answer(provider, location, miles, limit, c)).Ok?
    ensures Collect(owner, location, miles, limit, provider).Ok? ==>
              forall c ::
                && CategoryRows(owner, c, Answer(provider, location, miles, limit, c)).Ok?
                && Collect(owner, location, miles, limit, provider).value.Get(c)
                   == CategoryRows(owner, c, Answer(provider, location, miles, limit, c)).value
  {
    ProgressOk(owner, location, miles, limit, provider, 4);
    var run := Collect(owner, location, miles, limit, provider);
    forall c | run.Ok?
      ensures && CategoryRows(owner, c, Answer(provider, location, miles, limit, c)).Ok?
              && run.value.Get(c) == CategoryRows(owner, c, Answer(provider, location, miles, limit, c)).value {
      ProgressRows(owner, location, miles, limit, provider, 4, Position(c));
    }
    if forall c :: CategoryRows(owner, c, Answer(provider, location, miles, limit, c)).Ok? {
      forall j | 0 <= j < 4
        ensures CategoryRows(owner, FanOut[j], Answer(provider, location, miles, limit, FanOut[j])).Ok? {
      }
    }
  }

  /** The tables after `owner`'s rows are deleted and `rows` inserted. */
  function Replace(t: Tables, owner: UserId, rows: Tables): Tables
  {
    Concat(DeleteOwner(t, owner), rows)
  }

  /** `update_location` as a value: a refused form changes nothing; otherwise
      the owner's rows are replaced by the run's rows if the run commits, and
      the deletions are rolled back with everything else if it raises. */
  function UpdateLocation(t: Tables, owner: UserId, location: string, miles: int, limit: int,
                          provider: Params -> Reply): (u: Update)
    ensures u.status == Rejected <==> !LocationFormValid(location, miles, limit)
    ensures u.status == Updated <==> LocationFormValid(location, miles, limit) && Collect(owner, location, miles, limit, provider).Ok?
    ensures u.status.Failed? ==> u.status.error == Collect(owner, location, miles, limit, provider).error
    ensures u.status != Updated ==> u.tables == t
  {
    if !LocationFormValid(location, miles, limit) then Update(t, Rejected)
    else
      match Collect(owner, location, miles, limit, provider)
      case Ok(rows) => Update(Replace(t, owner, rows), Updated)
      case Err(e) => Update(t, Failed(e))
  }
}

/** Properties of one run and of the update it drives. */
module SyncProperties {
  import opened Results
  import opened Venues
  import opened Normalizer
  import opened Provider
  import opened Sync

  /** The reply to category `c` is a business list whose records all carry
      the required keys. */
  ghost predicate Usable(provider: Params -> Reply, location: string, miles: int, limit: int, c: Category)
  {
    var reply := Answer(provider, location, miles, limit, c);
    reply.Businesses? && Complete(reply.records)
  }

  /** A run succeeds exactly when every category gets a business list, every
      record has its required keys, and at least one activity comes back. */
  lemma CollectSucceeds(owner: UserId, location: string, miles: int, limit: int, provider: Params -> Reply)
    ensures Collect(owner, location, miles, limit, provider).Ok? <==>
              && (forall c :: Usable(provider, location, miles, limit, c))
              && Answer(provider, location, miles, limit, Activities) != Businesses([])
  {
    CollectByCategory(owner, location, miles, limit, provider);
    var nonEmpty := Answer(provider, location, miles, limit, Activities) != Businesses([]);
    forall c ensures CategoryRows(owner, c, Answer(provider, location, miles, limit, c)).Ok?
                     <==> Usable(provider, location, miles, limit, c) && (c == Activities ==> nonEmpty) {
    }
    assert Usable(provider, location, miles, limit, Activities) && nonEmpty
           <==> CategoryRows(owner, Activities, Answer(provider, location, miles, limit, Activities)).Ok?;
  }

  /** A successful run adds one row per restaurant, bar and coffee-shop
      record, in provider order, and exactly one activity: the last record's. */
  lemma CollectRows(owner: UserId, location: string, miles: int, limit: int, provider: Params -> Reply, c: Category)
    requires Collect(owner, location, miles, limit, provider).Ok?
    ensures Answer(provider, location, miles, limit, c).Businesses?
    ensures Complete(Answer(provider, location, miles, limit, c).records)
    ensures var records := Answer(provider, location, miles, limit, c).records;
            var rows := Collect(owner, location, miles, limit, provider).value.Get(c);
            if c == Activities then
              records != [] && rows == [NormalizeActivity(owner, records[|records| - 1]).value]
            else
              |rows| == |records| && forall i | 0 <= i < |rows| :: rows[i] == NormalizePriced(owner, records[i]).value
  {
    CollectByCategory(owner, location, miles, limit, provider);
    assert CategoryRows(owner, c, Answer(provider, location, miles, limit, c)).Ok?;
  }

  /** A provider that returns at most `limit` businesses per query. */
  ghost predicate HonoursLimit(provider: Params -> Reply)
  {
    forall q :: provider(q).Businesses? ==> |provider(q).records| <= q.limit
  }

  /** When the provider honours the limit, no table gains more than `limit`
      rows for the owner. */
  lemma CollectWithinLimit(owner: UserId, location: string, miles: int, limit: int, provider: Params -> Reply)
    requires HonoursLimit(provider)
    requires Collect(owner, location, miles, limit, provider).Ok?
    ensures forall c :: |Collect(owner, location, miles, limit, provider).value.Get(c)| <= limit
  {
    forall c ensures |Collect(owner, location, miles, limit, provider).value.Get(c)| <= limit {
      CollectRows(owner, location, miles, limit, provider, c);
      var q := QueryFor(location, miles, limit, c);
      assert q.limit == limit && Answer(provider, location, miles, limit, c) == provider(q);
    }
  }

  /** An empty activity list fails the run even when everything else is
      usable: `new_activity` is never bound. */
  lemma EmptyActivitiesFail(owner: UserId, location: string, miles: int, limit: int, provider: Params -> Reply)
    requires forall c :: c != Activities ==> Usable(provider, location, miles, limit, c)
    requires Answer(provider, location, miles, limit, Activities) == Businesses([])
    ensures Collect(owner, location, miles, limit, provider) == Err(UnboundLocal("new_activity"))
  {
    assert Usable(provider, location, miles, limit, Restaurants);
    assert Usable(provider, location, miles, limit, Bars);
    assert Usable(provider, location, miles, limit, CoffeeShops);
    ProgressOk(owner, location, miles, limit, provider, 3);
  }

  /** After an update that commits, the owner's rows in every table are
      exactly the rows this run produced: nothing from before survives. */
  lemma UpdateReplacesOwnRows(t: Tables, owner: UserId, location: string, miles: int, limit: int,
                              provider: Params -> Reply, c: Category)
    requires UpdateLocation(t, owner, location, miles, limit, provider).status == Updated
    ensures OwnedBy(UpdateLocation(t, owner, location, miles, limit, provider).tables.Get(c), owner)
            == Collect(owner, location, miles, limit, provider).value.Get(c)
  {
    var rows := Collect(owner, location, miles, limit, provider).value;
    OwnedByConcat(Without(t.Get(c), owner), rows.Get(c), owner);
    OwnedByWithout(t.Get(c), owner, owner);
    OwnedByStamped(rows.Get(c), owner, owner);
  }

  /** Whatever the outcome, every other user owns the same rows afterwards. */
  lemma UpdateKeepsOtherOwners(t: Tables, owner: UserId, location: string, miles: int, limit: int,
                               provider: Params -> Reply, c: Category, other: UserId)
    requires other != owner
    ensures OwnedBy(UpdateLocation(t, owner, location, miles, limit, provider).tables.Get(c), other)
            == OwnedBy(t.Get(c), other)
  {
    var u := UpdateLocation(t, owner, location, miles, limit, provider);
    if u.status == Updated {
      var rows := Collect(owner, location, miles, limit, provider).value;
      OwnedByConcat(Without(t.Get(c), owner), rows.Get(c), other);
      OwnedByWithout(t.Get(c), owner, other);
      OwnedByStamped(rows.Get(c), owner, other);
    }
  }

  /** Repeating an update against a provider that answers the same way
      leaves the tables as the first update left them. */
  lemma UpdateIdempotent(t: Tables, owner: UserId, location: string, miles: int, limit: int, provider: Params -> Reply)
    ensures var once := UpdateLocation(t, owner, location, miles, limit, provider);
            var twice := UpdateLocation(once.tables, owner, location, miles, limit, provider);
            twice == Update(once.tables, once.status)
  {
    var once := UpdateLocation(t, owner, location, miles, limit, provider);
    if once.status == Updated {
      var rows := Collect(owner, location, miles, limit, provider).value;
      var again := Replace(once.tables, owner, rows);
      forall c ensures again.Get(c) == once.tables.Get(c) {
        var kept := Without(t.Get(c), owner);
        WithoutConcat(kept, rows.Get(c), owner);
        WithoutTwice(t.Get(c), owner);
        WithoutStamped(rows.Get(c), owner);
        assert Without(once.tables.Get(c), owner) == kept;
      }
      TablesExt(again, once.tables);
    }
  }
}
