/** `update_location` and `change_location` as they run against the database
    session: bulk deletes, `db.session.add` inside the loops, one commit at
    the end, and the rollback that discards everything when the view raises. */
module Store {
  import opened Results
  import opened Venues
  import opened Normalizer
  import opened Provider
  import opened Forms
  import opened Sync

  /** The database as one request's session sees it. `committed` is what
      every other request reads; `working` is this transaction's view of the
      tables, with its bulk deletes applied; `pending` holds, table by table
      and in the order they were added, the rows passed to `add` and not yet
      written. */
  class Session {
    var committed: Tables
    var working: Tables
    var pending: Tables

    constructor (tables: Tables)
      ensures committed == tables && working == tables && pending == Empty()
    {
      committed := tables;
      working := tables;
      pending := Empty();
    }

    /** No uncommitted work: the state at the start and end of a request. */
    ghost predicate Idle()
      reads this
    {
      working == committed && pending == Empty()
    }

    /** `db.session.add(row)` for a row of table `c`. */
    method Add(c: Category, row: Venue)
      modifies this
      ensures pending == old(pending).Put(c, old(pending).Get(c) + [row])
      ensures committed == old(committed) && working == old(working)
    {
      pending := pending.Put(c, pending.Get(c) + [row]);
    }

    /** `Model.query.filter_by(patron=owner).delete()` on table `c`: executed
        inside the transaction, invisible to others until the commit. */
    method DeleteOwned(c: Category, owner: UserId)
      modifies this
      ensures working == old(working).Put(c, Without(old(working).Get(c), owner))
      ensures committed == old(committed) && pending == old(pending)
    {
      working := working.Put(c, Without(working.Get(c), owner));
    }

    /** `db.session.commit()`: the pending rows are inserted after the
        existing ones and the transaction becomes what everyone reads. */
    method Commit()
      modifies this
      ensures working == Concat(old(working), old(pending))
      ensures committed == working && pending == Empty()
    {
      working := Concat(working, pending);
      committed := working;
      pending := Empty();
    }

    /** The rollback performed when the session is removed at the end of a
        request that raised: deletes and pending rows are discarded. */
    method Rollback()
      modifies this
      ensures committed == old(committed) && working == committed && pending == Empty()
    {
      working := committed;
      pending := Empty();
    }

    /** The loop over a restaurant, bar or coffee-shop list: each record is
        normalised and added in provider order. On a record missing a
        required key the `finally` clause adds the loop variable, which raises
        `UnboundLocalError` if no row was built yet, and otherwise re-adds the
        previous row (already pending, so nothing changes) before the
        `KeyError` propagates. */
    method AddPricedRows(owner: UserId, c: Category, records: seq<RawRecord>) returns (r: Outcome<SyncError>)
      requires c != Activities
      modifies this
      ensures committed == old(committed) && working == old(working)
      ensures r.Pass? <==> PricedRows(owner, c, records).Ok?
      ensures r.Pass? ==> pending == old(pending).Put(c, old(pending).Get(c) + PricedRows(owner, c, records).value)
      ensures r.Fail? ==> r.error == PricedRows(owner, c, records).error
      ensures r.Fail? ==> Extends(old(pending), pending)
    {
      ghost var start := old(pending).Get(c);
      ghost var added: seq<Venue> := [];
      var i := 0;
      while i < |records|
        invariant 0 <= i <= |records|
        invariant committed == old(committed) && working == old(working)
        invariant forall j | 0 <= j < i :: HasRequired(records[j])
        invariant |added| == i
        invariant forall j | 0 <= j < i :: added[j] == NormalizePriced(owner, records[j]).value
        invariant pending == old(pending).Put(c, start + added)
      {
        var row := NormalizePriced(owner, records[i]);
        if row.Err? {
          PricedRowsStopAt(owner, c, records, i);
          ExtendsAppend(old(pending), c, added);
          if i == 0 {
            return Fail(UnboundLocal(LoopVariable(c)));
          }
          return Fail(KeyError(row.error));
        }
        Add(c, row.value);
        assert start + added + [row.value] == start + (added + [row.value]);
        PutPut(old(pending), c, start + added, start + (added + [row.value]));
        added := added + [row.value];
        i := i + 1;
      }
      assert added == PricedRows(owner, c, records).value;
      return Pass;
    }

    /** The activity loop and the `add` after it: every record is normalised,
        only the last row is added, and an empty list reaches the `add` with
        `new_activity` unbound. */
    method AddLastActivity(owner: UserId, records: seq<RawRecord>) returns (r: Outcome<SyncError>)
      modifies this
      ensures committed == old(committed) && working == old(working)
      ensures r.Pass? <==> ActivityRows(owner, records).Ok?
      ensures r.Pass? ==> pending == old(pending).Put(Activities, old(pending).Get(Activities) + ActivityRows(owner, records).value)
      ensures r.Fail? ==> r.error == ActivityRows(owner, records).error && pending == old(pending)
    {
      var newActivity: Option<Venue> := None;
      var i := 0;
      while i < |records|
        invariant 0 <= i <= |records|
        invariant forall j | 0 <= j < i :: HasRequired(records[j])
        invariant newActivity == if i == 0 then None else Some(NormalizeActivity(owner, records[i - 1]).value)
      {
        var row := NormalizeActivity(owner, records[i]);
        if row.Err? {
          ActivityRowsStopAt(owner, records, i);
          return Fail(KeyError(row.error));
        }
        newActivity := Some(row.value);
        i := i + 1;
      }
      if newActivity.None? {
        return Fail(UnboundLocal(LoopVariable(Activities)));
      }
      Add(Activities, newActivity.value);
      return Pass;
    }

    /** The block of `change_location` for the `k`-th category of the
        fan-out: query the provider with `params`, take the reply's business
        list and run the category's loop. `base` is what was pending before
        the run began. */
    method AddCategory(owner: UserId, location: string, miles: int, limit: int, provider: Params -> Reply,
                       k: nat, params: Params, ghost base: Tables, sent: seq<Params>)
      returns (r: Outcome<SyncError>, queries: seq<Params>)
      requires k < 4 && params == QueryFor(location, miles, limit, FanOut[k])
      requires sent == Queries(location, miles, limit)[..k]
      requires Progress(owner, location, miles, limit, provider, k).Ok?
      requires pending == Concat(base, Progress(owner, location, miles, limit, provider, k).value)
      modifies this
      ensures committed == old(committed) && working == old(working)
      ensures r.Pass? <==> Progress(owner, location, miles, limit, provider, k + 1).Ok?
      ensures r.Fail? ==> Collect(owner, location, miles, limit, provider).Err?
      ensures r.Fail? ==> r.error == Collect(owner, location, miles, limit, provider).error
      ensures r.Fail? ==> Extends(base, pending)
      ensures r.Pass? ==> pending == Concat(base, Progress(owner, location, miles, limit, provider, k + 1).value)
      ensures queries == Queries(location, miles, limit)[..k + 1]
    {
      var c := FanOut[k];
      var reply := provider(params);
      queries := sent + [params];
      assert Queries(location, miles, limit)[..k + 1] == sent + [Queries(location, miles, limit)[k]];
      ProgressStep(owner, location, miles, limit, provider, k);
      ghost var done := Progress(owner, location, miles, limit, provider, k).value;
      ExtendsConcat(base, done);
      var records := Fetch(reply);
      if records.Err? {
        ProgressErrSticks(owner, location, miles, limit, provider, k + 1, 4);
        return Fail(records.error), queries;
      }
      if c == Activities {
        r := AddLastActivity(owner, records.value);
      } else {
        r := AddPricedRows(owner, c, records.value);
      }
      if r.Pass? {
        ConcatAppend(base, done, c, CategoryRows(owner, c, reply).value);
      } else {
        ProgressErrSticks(owner, location, miles, limit, provider, k + 1, 4);
        ExtendsTrans(base, old(pending), pending);
      }
    }

    /** `change_location`: four queries sharing one parameter set whose term
        is changed between them, each reply's rows added to the session, and
        a single commit once all four categories are done. A run that raises
        commits nothing; `queries` lists what was sent to the provider. */
    method ChangeLocation(owner: UserId, location: string, miles: int, limit: int, provider: Params -> Reply)
      returns (r: Outcome<SyncError>, queries: seq<Params>)
      modifies this
      ensures r.Pass? <==> Collect(owner, location, miles, limit, provider).Ok?
      ensures r.Fail? ==> r.error == Collect(owner, location, miles, limit, provider).error
      ensures r.Fail? ==> committed == old(committed) && working == old(working)
      ensures r.Fail? ==> Extends(old(pending), pending)
      ensures r.Pass? ==> committed == Concat(old(working), Concat(old(pending), Collect(owner, location, miles, limit, provider).value))
      ensures r.Pass? ==> working == committed && pending == Empty()
      ensures 1 <= |queries| <= 4 && queries == Queries(location, miles, limit)[..|queries|]
      ensures r.Pass? ==> |queries| == 4
      ensures r.Fail? ==> && Progress(owner, location, miles, limit, provider, |queries| - 1).Ok?
                          && Progress(owner, location, miles, limit, provider, |queries|).Err?
    {
      ghost var base := pending;
      TablesExt(pending, Concat(base, Empty()));

      queries := [];
      var params := Params(location, miles * MetersPerMile, limit, "rating", "restaurants");
      r, queries := AddCategory(owner, location, miles, limit, provider, 0, params, base, queries);
      if r.Fail? {
        return;
      }

      params := params.(term := "drinks");
      r, queries := AddCategory(owner, location, miles, limit, provider, 1, params, base, queries);
      if r.Fail? {
        return;
      }

      params := params.(term := "coffee");
      r, queries := AddCategory(owner, location, miles, limit, provider, 2, params, base, queries);
      if r.Fail? {
        return;
      }

      params := params.(term := "active life");
      r, queries := AddCategory(owner, location, miles, limit, provider, 3, params, base, queries);
      if r.Fail? {
        return;
      }
      Commit();
    }

    /** The four bulk deletes of `update_location`, one per table. */
    method DeleteAllOwned(owner: UserId)
      modifies this
      ensures working == DeleteOwner(old(working), owner)
      ensures committed == old(committed) && pending == old(pending)
    {
      DeleteOwned(Restaurants, owner);
      DeleteOwned(Bars, owner);
      DeleteOwned(CoffeeShops, owner);
      DeleteOwned(Activities, owner);
      TablesExt(working, DeleteOwner(old(working), owner));
    }

    /** `update_location` once the form is submitted: a form that fails its
        validators changes nothing; otherwise the owner's rows are deleted
        from all four tables and `change_location` runs; if it raises, the
        session is rolled back. The session is idle before and after. */
    method UpdateLocation(owner: UserId, location: string, miles: int, limit: int, provider: Params -> Reply)
      returns (status: Status, queries: seq<Params>)
      requires Idle()
      modifies this
      ensures Idle()
      ensures Update(committed, status) == Sync.UpdateLocation(old(committed), owner, location, miles, limit, provider)
      ensures status == Rejected ==> queries == []
      ensures status != Rejected ==> 1 <= |queries| <= 4 && queries == Queries(location, miles, limit)[..|queries|]
      ensures status == Updated ==> queries == Queries(location, miles, limit)
      ensures status.Failed? ==> && Progress(owner, location, miles, limit, provider, |queries| - 1).Ok?
                                 && Progress(owner, location, miles, limit, provider, |queries|).Err?
    {
      if !LocationFormValid(location, miles, limit) {
        return Rejected, [];
      }
      DeleteAllOwned(owner);
      var r;
      r, queries := ChangeLocation(owner, location, miles, limit, provider);
      ghost var run := Collect(owner, location, miles, limit, provider);
      if r.Fail? {
        Rollback();
        assert Sync.UpdateLocation(old(committed), owner, location, miles, limit, provider)
               == Update(old(committed), Failed(run.error));
        return Failed(r.error), queries;
      }
      assert Concat(Empty(), run.value) == run.value by {
        TablesExt(Concat(Empty(), run.value), run.value);
      }
      assert Sync.UpdateLocation(old(committed), owner, location, miles, limit, provider)
             == Update(Replace(old(committed), owner, run.value), Updated);
      return Updated, queries;
    }
  }
}
