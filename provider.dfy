/** The business search the application calls once per category: the query
    parameters it sends and the three ways a reply can come back. The HTTP
    call itself is not modelled; a provider is any function from query
    parameters to a reply. */
module Provider {
  import opened Venues

  /** The conversion the code applies to the caller's miles (a mile is
      1609.344 m; the source rounds it to 1610). */
  const MetersPerMile: int := 1610

  /** The query string: `location`, `radius` in meters, `limit`, `sort_by`
      and `term`. */
  datatype Params = Params(location: string, radius: int, limit: int, sortBy: string, term: string)

  /** What `requests.get(...).json()['businesses']` yields: the business
      list; a JSON body without a `businesses` key (`KeyError`); or a
      request that raised (connection error, body that is not JSON). */
  datatype Reply = Businesses(records: seq<RawRecord>) | NoBusinessesKey | RequestError

  /** The search term sent for each category. */
  function Term(c: Category): string
  {
    match c
    case Restaurants => "restaurants"
    case Bars => "drinks"
    case CoffeeShops => "coffee"
    case Activities => "active life"
  }

  /** The order in which the categories are fetched. */
  const FanOut: seq<Category> := [Restaurants, Bars, CoffeeShops, Activities]

  /** Where a category stands in the fetch order. */
  function Position(c: Category): (i: nat)
    ensures i < 4 && FanOut[i] == c
  {
    match c
    case Restaurants => 0
    case Bars => 1
    case CoffeeShops => 2
    case Activities => 3
  }

  /** The query sent for category `c`: the shared parameters with that term. */
  function QueryFor(location: string, miles: int, limit: int, c: Category): Params
  {
    Params(location, miles * MetersPerMile, limit, "rating", Term(c))
  }

  /** The four queries of one run, in the order they are sent: all share
      location, radius in meters, limit and `sort_by=rating`, and differ
      only in their term. */
  function Queries(location: string, miles: int, limit: int): (qs: seq<Params>)
    ensures |qs| == 4
    ensures forall i | 0 <= i < 4 ::
              && qs[i].location == location && qs[i].radius == miles * 1610
              && qs[i].limit == limit && qs[i].sortBy == "rating"
    ensures qs[0].term == "restaurants" && qs[1].term == "drinks"
    ensures qs[2].term == "coffee" && qs[3].term == "active life"
  {
    [ QueryFor(location, miles, limit, Restaurants), QueryFor(location, miles, limit, Bars),
      QueryFor(location, miles, limit, CoffeeShops), QueryFor(location, miles, limit, Activities) ]
  }
}
