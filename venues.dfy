/** The four venue tables (`restaurants`, `bars`, `coffee_shops`,
    `activities`) and the rows they hold, each stamped with the user who
    owns it through `patron_id`. */
module Venues {
  import opened Results

  /** The primary key of a row of `users`. */
  type UserId = nat

  /** A scalar taken from the search provider's JSON and copied into a column
      without being inspected: a string or a number (the rating). */
  datatype Value = Text(s: string) | Number(x: real)

  /** One raw business record as the provider returns it: JSON keys to values. */
  type RawRecord = map<string, Value>

  datatype Category = Restaurants | Bars | CoffeeShops | Activities

  /** A stored row. `Restaurant`, `Bar` and `CoffeeShop` share one shape with a
      nullable `price`; `Activity` has no price column at all. The database
      id is not modelled. */
  datatype Venue =
    | Priced(patron: UserId, name: Value, imageUrl: Value, url: Value, rating: Value, price: Option<Value>)
    | Activity(patron: UserId, name: Value, imageUrl: Value, url: Value, rating: Value)

  /** The contents of the four tables, each in insertion order. */
  datatype Tables = Tables(restaurants: seq<Venue>, bars: seq<Venue>, coffeeShops: seq<Venue>, activities: seq<Venue>)
  {
    function Get(c: Category): seq<Venue>
    {
      match c
      case Restaurants => restaurants
      case Bars => bars
      case CoffeeShops => coffeeShops
      case Activities => activities
    }

    function Put(c: Category, rows: seq<Venue>): (t: Tables)
      ensures t.Get(c) == rows
      ensures forall d :: d != c ==> t.Get(d) == Get(d)
    {
      match c
      case Restaurants => this.(restaurants := rows)
      case Bars => this.(bars := rows)
      case CoffeeShops => this.(coffeeShops := rows)
      case Activities => this.(activities := rows)
    }
  }

  function Empty(): (t: Tables)
    ensures forall c :: t.Get(c) == []
  {
    Tables([], [], [], [])
  }

  /** Appends, table by table, the rows of `b` after those of `a`. */
  function Concat(a: Tables, b: Tables): (t: Tables)
    ensures forall c :: t.Get(c) == a.Get(c) + b.Get(c)
  {
    Tables(a.restaurants + b.restaurants, a.bars + b.bars,
           a.coffeeShops + b.coffeeShops, a.activities + b.activities)
  }

  /** Two table sets with the same rows in every table are the same. */
  lemma TablesExt(a: Tables, b: Tables)
    requires forall c :: a.Get(c) == b.Get(c)
    ensures a == b
  {
    assert a.Get(Restaurants) == b.Get(Restaurants);
    assert a.Get(Bars) == b.Get(Bars);
    assert a.Get(CoffeeShops) == b.Get(CoffeeShops);
    assert a.Get(Activities) == b.Get(Activities);
  }

  /** A second `Put` on the same table overrides the first. */
  lemma PutPut(t: Tables, c: Category, x: seq<Venue>, y: seq<Venue>)
    ensures t.Put(c, x).Put(c, y) == t.Put(c, y)
  {
    TablesExt(t.Put(c, x).Put(c, y), t.Put(c, y));
  }

  /** Every table of `b` begins with the rows of the same table of `a`. */
  predicate Extends(a: Tables, b: Tables)
  {
    forall c :: a.Get(c) <= b.Get(c)
  }

  /** Appending rows to one table after a concatenation is appending them
      to the second operand. */
  lemma ConcatAppend(a: Tables, b: Tables, c: Category, rows: seq<Venue>)
    ensures Concat(a, b).Put(c, Concat(a, b).Get(c) + rows) == Concat(a, b.Put(c, b.Get(c) + rows))
  {
    var lhs := Concat(a, b).Put(c, Concat(a, b).Get(c) + rows);
    var rhs := Concat(a, b.Put(c, b.Get(c) + rows));
    forall d ensures lhs.Get(d) == rhs.Get(d) {
      if d == c {
        assert a.Get(c) + b.Get(c) + rows == a.Get(c) + (b.Get(c) + rows);
      }
    }
    TablesExt(lhs, rhs);
  }

  lemma ExtendsAppend(t: Tables, c: Category, rows: seq<Venue>)
    ensures Extends(t, t.Put(c, t.Get(c) + rows))
  {
    assert (t.Get(c) + rows)[..|t.Get(c)|] == t.Get(c);
  }

  lemma ExtendsConcat(a: Tables, b: Tables)
    ensures Extends(a, Concat(a, b))
  {
    forall c ensures a.Get(c) <= Concat(a, b).Get(c) {
      assert Concat(a, b).Get(c)[..|a.Get(c)|] == a.Get(c);
    }
  }

  lemma ExtendsTrans(a: Tables, b: Tables, c: Tables)
    requires Extends(a, b) && Extends(b, c)
    ensures Extends(a, c)
  {
    forall d ensures a.Get(d) <= c.Get(d) {
      assert a.Get(d) <= b.Get(d) && b.Get(d) <= c.Get(d);
      assert c.Get(d)[..|b.Get(d)|][..|a.Get(d)|] == c.Get(d)[..|a.Get(d)|];
    }
  }

  /** Every row of `rows` belongs to `u`. */
  predicate Stamped(rows: seq<Venue>, u: UserId)
  {
    forall i | 0 <= i < |rows| :: rows[i].patron == u
  }

  /** The rows of a table that belong to `u`, in table order: what
      `filter_by(patron=u)` selects. */
  function OwnedBy(rows: seq<Venue>, u: UserId): (r: seq<Venue>)
    ensures Stamped(r, u)
    ensures |r| <= |rows|
  {
    if rows == [] then []
    else (if rows[0].patron == u then [rows[0]] else []) + OwnedBy(rows[1..], u)
  }

  /** A table after `filter_by(patron=u).delete()`: the rows of everyone
      else. The table splits into these and the rows `OwnedBy` selects. */
  function Without(rows: seq<Venue>, u: UserId): (r: seq<Venue>)
    ensures forall i | 0 <= i < |r| :: r[i].patron != u
    ensures |r| + |OwnedBy(rows, u)| == |rows|
  {
    if rows == [] then []
    else (if rows[0].patron != u then [rows[0]] else []) + Without(rows[1..], u)
  }

  /** The delete removes exactly the rows the selection finds: together
      they hold every row of the table, each as often as before. */
  lemma {:induction false} OwnedByWithoutSplit(rows: seq<Venue>, u: UserId)
    ensures multiset(OwnedBy(rows, u)) + multiset(Without(rows, u)) == multiset(rows)
  {
    if rows != [] {
      OwnedByWithoutSplit(rows[1..], u);
      assert rows == [rows[0]] + rows[1..];
    }
  }

  /** Deletes every row of `u` from all four tables. */
  function DeleteOwner(t: Tables, u: UserId): (r: Tables)
    ensures forall c :: r.Get(c) == Without(t.Get(c), u)
  {
    Tables(Without(t.restaurants, u), Without(t.bars, u),
           Without(t.coffeeShops, u), Without(t.activities, u))
  }

  lemma {:induction false} OwnedByConcat(a: seq<Venue>, b: seq<Venue>, u: UserId)
    ensures OwnedBy(a + b, u) == OwnedBy(a, u) + OwnedBy(b, u)
  {
    if a == [] {
      assert a + b == b;
    } else {
      var head := if a[0].patron == u then [a[0]] else [];
      assert (a + b)[0] == a[0];
      assert (a + b)[1..] == a[1..] + b;
      OwnedByConcat(a[1..], b, u);
      calc {
        OwnedBy(a + b, u);
        head + OwnedBy(a[1..] + b, u);
        head + (OwnedBy(a[1..], u) + OwnedBy(b, u));
        head + OwnedBy(a[1..], u) + OwnedBy(b, u);
        OwnedBy(a, u) + OwnedBy(b, u);
      }
    }
  }

  lemma {:induction false} WithoutConcat(a: seq<Venue>, b: seq<Venue>, u: UserId)
    ensures Without(a + b, u) == Without(a, u) + Without(b, u)
  {
    if a == [] {
      assert a + b == b;
    } else {
      var head := if a[0].patron != u then [a[0]] else [];
      assert (a + b)[0] == a[0];
      assert (a + b)[1..] == a[1..] + b;
      WithoutConcat(a[1..], b, u);
      calc {
        Without(a + b, u);
        head + Without(a[1..] + b, u);
        head + (Without(a[1..], u) + Without(b, u));
        head + Without(a[1..], u) + Without(b, u);
        Without(a, u) + Without(b, u);
      }
    }
  }

  /** After deleting `u`'s rows, `u` owns nothing and everybody else owns
      what they owned before. */
  lemma {:induction false} OwnedByWithout(rows: seq<Venue>, u: UserId, w: UserId)
    ensures OwnedBy(Without(rows, u), w) == if w == u then [] else OwnedBy(rows, w)
  {
    if rows != [] {
      OwnedByWithout(rows[1..], u, w);
      var head := if rows[0].patron != u then [rows[0]] else [];
      OwnedByConcat(head, Without(rows[1..], u), w);
      if head != [] {
        assert head[1..] == [];
      }
    }
  }

  /** Rows all stamped with `u` are exactly what `u` owns of them, and
      nobody else owns any of them. */
  lemma {:induction false} OwnedByStamped(rows: seq<Venue>, u: UserId, w: UserId)
    requires Stamped(rows, u)
    ensures OwnedBy(rows, w) == if w == u then rows else []
  {
    if rows != [] {
      assert Stamped(rows[1..], u) by {
        forall i | 0 <= i < |rows[1..]| ensures rows[1..][i].patron == u {
          assert rows[1..][i] == rows[i + 1];
        }
      }
      OwnedByStamped(rows[1..], u, w);
      if w == u {
        assert rows == [rows[0]] + rows[1..];
      }
    }
  }

  /** Deleting `u`'s rows removes every row stamped with `u`. */
  lemma {:induction false} WithoutStamped(rows: seq<Venue>, u: UserId)
    requires Stamped(rows, u)
    ensures Without(rows, u) == []
  {
    if rows != [] {
      assert Stamped(rows[1..], u) by {
        forall i | 0 <= i < |rows[1..]| ensures rows[1..][i].patron == u {
          assert rows[1..][i] == rows[i + 1];
        }
      }
      WithoutStamped(rows[1..], u);
    }
  }

  /** Deleting the same owner twice deletes nothing more. */
  lemma {:induction false} WithoutTwice(rows: seq<Venue>, u: UserId)
    ensures Without(Without(rows, u), u) == Without(rows, u)
  {
    if rows != [] {
      WithoutTwice(rows[1..], u);
      var head := if rows[0].patron != u then [rows[0]] else [];
      WithoutConcat(head, Without(rows[1..], u), u);
      if head != [] {
        assert head[1..] == [];
      }
    }
  }
}
