/** Turning one raw business record into a row: the `try`/`except KeyError`
    pair in `change_location` for restaurants, bars and coffee shops, and the
    plain construction for activities. A missing JSON key raises `KeyError`;
    the model returns the key as the error. */
module Normalizer {
  import opened Results
  import opened Venues

  /** The four columns declared `nullable=False` that the code reads by key. */
  predicate HasRequired(raw: RawRecord)
  {
    "name" in raw && "image_url" in raw && "url" in raw && "rating" in raw
  }

  /** The key of the first `KeyError`: the arguments are evaluated in the
      order name, image_url, url, rating. */
  function FirstMissing(raw: RawRecord): string
    requires !HasRequired(raw)
  {
    if "name" !in raw then "name"
    else if "image_url" !in raw then "image_url"
    else if "url" !in raw then "url"
    else "rating"
  }

  /** `raw[key]`, which raises `KeyError(key)` when the key is absent. */
  function Field(raw: RawRecord, key: string): Result<Value, string>
  {
    if key in raw then Ok(raw[key]) else Err(key)
  }

  /** The `try` branch: every column, `price` included. */
  function WithPrice(owner: UserId, raw: RawRecord): (r: Result<Venue, string>)
    ensures r.Ok? <==> HasRequired(raw) && "price" in raw
    ensures r.Ok? ==> r.value == Priced(owner, raw["name"], raw["image_url"], raw["url"], raw["rating"], Some(raw["price"]))
    ensures r.Err? ==> r.error == if HasRequired(raw) then "price" else FirstMissing(raw)
  {
    var name :- Field(raw, "name");
    var imageUrl :- Field(raw, "image_url");
    var url :- Field(raw, "url");
    var rating :- Field(raw, "rating");
    var price :- Field(raw, "price");
    Ok(Priced(owner, name, imageUrl, url, rating, Some(price)))
  }

  /** The `except KeyError` branch: the same row with `price` left null. */
  function WithoutPrice(owner: UserId, raw: RawRecord): (r: Result<Venue, string>)
    ensures r.Ok? <==> HasRequired(raw)
    ensures r.Ok? ==> r.value == Priced(owner, raw["name"], raw["image_url"], raw["url"], raw["rating"], None)
    ensures r.Err? ==> r.error == FirstMissing(raw)
  {
    var name :- Field(raw, "name");
    var imageUrl :- Field(raw, "image_url");
    var url :- Field(raw, "url");
    var rating :- Field(raw, "rating");
    Ok(Priced(owner, name, imageUrl, url, rating, None))
  }

  /** A restaurant, bar or coffee shop row. It is built exactly when the four
      required keys are present; `price` is carried when the record has one
      and null otherwise; a missing required key fails both branches, and the
      error is the first one missing. */
  function NormalizePriced(owner: UserId, raw: RawRecord): (r: Result<Venue, string>)
    ensures r.Ok? <==> HasRequired(raw)
    ensures r.Ok? ==> r.value.Priced? && r.value.patron == owner
    ensures r.Ok? ==>
              && r.value.name == raw["name"] && r.value.imageUrl == raw["image_url"]
              && r.value.url == raw["url"] && r.value.rating == raw["rating"]
    ensures r.Ok? ==> r.value.price == if "price" in raw then Some(raw["price"]) else None
    ensures r.Err? ==> r.error == FirstMissing(raw)
  {
    var attempt := WithPrice(owner, raw);
    if attempt.Ok? then attempt else WithoutPrice(owner, raw)
  }

  /** An activity row: no price, whatever the record holds; a missing
      required key is a `KeyError` with no fallback. */
  function NormalizeActivity(owner: UserId, raw: RawRecord): (r: Result<Venue, string>)
    ensures r.Ok? <==> HasRequired(raw)
    ensures r.Ok? ==> r.value == Activity(owner, raw["name"], raw["image_url"], raw["url"], raw["rating"])
    ensures r.Err? ==> r.error == FirstMissing(raw)
  {
    var name :- Field(raw, "name");
    var imageUrl :- Field(raw, "image_url");
    var url :- Field(raw, "url");
    var rating :- Field(raw, "rating");
    Ok(Activity(owner, name, imageUrl, url, rating))
  }

  /** The row shape of category `c`. */
  function Normalize(owner: UserId, c: Category, raw: RawRecord): (r: Result<Venue, string>)
    ensures r.Ok? <==> HasRequired(raw)
    ensures r.Ok? ==> r.value.patron == owner && (r.value.Activity? <==> c == Activities)
    ensures r.Err? ==> r.error == FirstMissing(raw)
  {
    if c == Activities then NormalizeActivity(owner, raw) else NormalizePriced(owner, raw)
  }

  /** Every record of a provider list has the required keys. */
  predicate Complete(records: seq<RawRecord>)
  {
    forall i | 0 <= i < |records| :: HasRequired(records[i])
  }

  /** Where a run over a record list stopped: the index of the record and the key. */
  datatype Miss = Miss(index: nat, key: string)

  /** Normalising a list record by record, in provider order, stopping at the
      first record that lacks a required key. */
  function NormalizeAll(owner: UserId, c: Category, records: seq<RawRecord>): (r: Result<seq<Venue>, Miss>)
    ensures r.Ok? <==> Complete(records)
    ensures r.Ok? ==> |r.value| == |records|
    ensures r.Ok? ==> forall i | 0 <= i < |records| :: r.value[i] == Normalize(owner, c, records[i]).value
    ensures r.Err? ==> r.error.index < |records| && !HasRequired(records[r.error.index])
    ensures r.Err? ==> r.error.key == FirstMissing(records[r.error.index])
    ensures r.Err? ==> Complete(records[..r.error.index])
    decreases |records|
  {
    if records == [] then Ok([])
    else
      var n := |records| - 1;
      assert forall i | 0 <= i < n :: records[..n][i] == records[i];
      match NormalizeAll(owner, c, records[..n])
      case Err(m) =>
        assert records[..n][..m.index] == records[..m.index];
        Err(m)
      case Ok(vs) =>
        match Normalize(owner, c, records[n])
        case Err(k) => Err(Miss(n, k))
        case Ok(v) => Ok(vs + [v])
  }
}
