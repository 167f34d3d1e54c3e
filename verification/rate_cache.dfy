/** The conversion-rate cache of the converter and the rate lookup that
    fills it: case-insensitive (from, to) keys, the freshness test, the
    primary/fallback fetch decision and the bulk population of the cache
    from one provider table. The HTTP client is a pair of functions from
    the requested pair to a response; every request made is logged. */
module RateCache {

  import opened Results
  import opened Chars

  /** A (from, to) currency pair as the converter passes it. */
  datatype Pair = Pair(from: string, to: string)

  /** `string.Equals(a, b, StringComparison.OrdinalIgnoreCase)`. */
  predicate SameCode(a: string, b: string) {
    |a| == |b| && forall i :: 0 <= i < |a| ==> UpperChar(a[i]) == UpperChar(b[i])
  }

  /** The cache's key comparer: both components compared ignoring case. */
  predicate PairEquals(x: Pair, y: Pair) {
    SameCode(x.from, y.from) && SameCode(x.to, y.to)
  }

  /** The normalised form under which an entry is stored: both codes
      upper-cased, so pairs the comparer calls equal share one entry. */
  function Key(p: Pair): (k: Pair)
    ensures |k.from| == |p.from| && |k.to| == |p.to|
  {
    Pair(Upper(p.from), Upper(p.to))
  }

  lemma SameUpper(a: string, b: string)
    ensures Upper(a) == Upper(b) <==> SameCode(a, b)
  {
    if SameCode(a, b) {
      assert forall i :: 0 <= i < |a| ==> Upper(a)[i] == Upper(b)[i];
    }
  }

  /** Two pairs reach the same cache entry exactly when the comparer calls
      them equal. */
  lemma KeyMatchesComparer(x: Pair, y: Pair)
    ensures Key(x) == Key(y) <==> PairEquals(x, y)
  {
    SameUpper(x.from, y.from);
    SameUpper(x.to, y.to);
  }

  /** The comparer's hash: the XOR of the case-insensitive hashes of the two
      codes, `h` standing for the library's case-insensitive string hash
      (a function of the upper-cased text). */
  function PairHash(h: string -> bv32, p: Pair): bv32 {
    h(Upper(p.from)) ^ h(Upper(p.to))
  }

  /** Pairs the comparer calls equal hash alike, as a dictionary needs. */
  lemma HashAgreesWithComparer(h: string -> bv32, x: Pair, y: Pair)
    requires PairEquals(x, y)
    ensures PairHash(h, x) == PairHash(h, y)
  {
    KeyMatchesComparer(x, y);
  }

  /** A cached rate with the time it was fetched (seconds). */
  datatype CachedRate = CachedRate(rate: real, timestamp: int)

  /** The cache, keyed by normalised pairs. */
  type Cache = map<Pair, CachedRate>

  /** Every stored key is in normalised form. */
  predicate Normalised(cache: Cache) {
    forall k :: k in cache ==> Key(k) == k
  }

  /** `TryGetValue` under the case-insensitive comparer. */
  function Lookup(cache: Cache, p: Pair): (r: Option<CachedRate>)
    ensures r.Some? <==> Key(p) in cache
    ensures r.Some? ==> r.value == cache[Key(p)]
  {
    if Key(p) in cache then Some(cache[Key(p)]) else None
  }

  /** Lookups of pairs the comparer calls equal find the same entry. */
  lemma LookupIgnoresCase(cache: Cache, x: Pair, y: Pair)
    requires PairEquals(x, y)
    ensures Lookup(cache, x) == Lookup(cache, y)
  {
    KeyMatchesComparer(x, y);
  }

  /** An entry is served from the cache when it was stored strictly after
      `now` minus the configured cache duration. Times and the duration are
      counted in the same clock unit, so a fractional number of hours (half
      an hour is 1800 seconds) is expressed exactly. */
  predicate Fresh(entry: CachedRate, now: int, ttl: int) {
    entry.timestamp > now - ttl
  }

  /** Status classes of an HTTP response the lookup distinguishes. */
  /** What a request comes back with: a success, a 404, another
      unsuccessful status code, or no response at all because the client
      threw (a transport failure or a time-out) with the given message. */
  datatype Status = Success | NotFound | OtherFailure | Thrown(message: string)

  /** A provider response: its status and, on success, the rate table of
      the requested base currency in the order the provider lists it. */
  datatype Response = Response(status: Status, rates: seq<(string, real)>)

  /** The primary and the fallback rate endpoints. */
  datatype Network = Network(primary: Pair -> Response, fallback: Pair -> Response)

  /** A request the lookup made. */
  datatype Call = PrimaryCall(pair: Pair) | FallbackCall(pair: Pair)

  /** Why a lookup failed: an invalid currency code, both endpoints
      answering unsuccessfully, or a request that threw. */
  datatype RateError = InvalidCurrency(code: string) | FetchFailed | RequestFailed(message: string)

  /** The text of the exception a failed lookup throws. */
  function ErrorMessage(e: RateError): string {
    match e
    case InvalidCurrency(code) => Upper(code) + " is not a valid currency"
    case FetchFailed => "Something went wrong while fetching the conversion rate"
    case RequestFailed(message) => message
  }

  /** Outcome of a lookup: the rate or the error, the cache afterwards and
      the requests made, in order. */
  datatype RateLookup = RateLookup(rate: Result<real, RateError>, cache: Cache, calls: seq<Call>)

  /** The primary/fallback decision: the rate table to read, or the error,
      and the requests made. */
  function Fetch(net: Network, p: Pair): (r: (Result<seq<(string, real)>, RateError>, seq<Call>))
    ensures 1 <= |r.1| <= 2 && r.1[0] == PrimaryCall(p)
    ensures |r.1| == 2 <==> net.primary(p).status == OtherFailure
    ensures |r.1| == 2 ==> r.1[1] == FallbackCall(p)
    ensures net.primary(p).status.Thrown? ==> r.0 == Err(RequestFailed(net.primary(p).status.message))
    ensures net.primary(p).status == OtherFailure && net.fallback(p).status.Thrown? ==>
      r.0 == Err(RequestFailed(net.fallback(p).status.message))
  {
    var first := net.primary(p);
    match first.status
    case Success => (Ok(first.rates), [PrimaryCall(p)])
    case NotFound => (Err(InvalidCurrency(p.from)), [PrimaryCall(p)])
    case Thrown(message) => (Err(RequestFailed(message)), [PrimaryCall(p)])
    case OtherFailure =>
      var second := net.fallback(p);
      var calls := [PrimaryCall(p), FallbackCall(p)];
      match second.status
      case Success => (Ok(second.rates), calls)
      case NotFound => (Err(InvalidCurrency(p.from)), calls)
      case OtherFailure => (Err(FetchFailed), calls)
      case Thrown(message) => (Err(RequestFailed(message)), calls)
  }

  /** Stores every (from, target) rate of the table, in table order, all
      with the same fetch time. */
  function Fill(cache: Cache, from: string, rates: seq<(string, real)>, now: int): (r: Cache)
    ensures Normalised(cache) ==> Normalised(r)
    decreases |rates|
  {
    if rates == [] then cache
    else
      var k := Key(Pair(from, rates[0].0));
      assert Key(k) == k by { UpperTwice(from); UpperTwice(rates[0].0); }
      Fill(cache[k := CachedRate(rates[0].1, now)], from, rates[1..], now)
  }

  lemma UpperTwice(s: string)
    ensures Upper(Upper(s)) == Upper(s)
  {
    assert forall i :: 0 <= i < |s| ==> Upper(Upper(s))[i] == Upper(s)[i];
  }

  /** `GetConversionRateAsync`: a fresh cached rate is returned without any
      request; otherwise the rate table is fetched, stored in bulk, and the
      rate is read back from the cache. */
  function GetConversionRate(cache: Cache, net: Network, now: int, ttl: int, p: Pair): (r: RateLookup)
    ensures Normalised(cache) ==> Normalised(r.cache)
    ensures r.calls == [] <==> Lookup(cache, p).Some? && Fresh(Lookup(cache, p).value, now, ttl)
    ensures r.calls != [] ==> r.calls[0] == PrimaryCall(p) && |r.calls| <= 2
    ensures r.rate.Ok? && r.calls == [] ==> r.cache == cache && r.rate.value == Lookup(cache, p).value.rate
  {
    var hit := Lookup(cache, p);
    if hit.Some? && Fresh(hit.value, now, ttl) then
      RateLookup(Ok(hit.value.rate), cache, [])
    else
      var (fetched, calls) := Fetch(net, p);
      match fetched
      case Err(e) => RateLookup(Err(e), cache, calls)
      case Ok(rates) =>
        var filled := Fill(cache, p.from, rates, now);
        var stored := Lookup(filled, p);
        if stored.Some? then RateLookup(Ok(stored.value.rate), filled, calls)
        else RateLookup(Err(InvalidCurrency(p.to)), filled, calls)
  }

  // ---------------------------------------------------------------------
  // Bulk population
  // ---------------------------------------------------------------------

  /** Reference reading of a rate table: the rate of the last row whose
      (from, target) pair normalises to `k`. */
  function LastRate(from: string, rates: seq<(string, real)>, k: Pair): Option<real>
    decreases |rates|
  {
    if rates == [] then None
    else if Key(Pair(from, rates[|rates| - 1].0)) == k then Some(rates[|rates| - 1].1)
    else LastRate(from, rates[..|rates| - 1], k)
  }

  lemma {:induction false} FillAppend(cache: Cache, from: string, rates: seq<(string, real)>, x: (string, real), now: int)
    ensures Fill(cache, from, rates + [x], now)
         == Fill(cache, from, rates, now)[Key(Pair(from, x.0)) := CachedRate(x.1, now)]
    decreases |rates|
  {
    if rates == [] {
      assert rates + [x] == [x];
    } else {
      var k := Key(Pair(from, rates[0].0));
      assert (rates + [x])[1..] == rates[1..] + [x];
      FillAppend(cache[k := CachedRate(rates[0].1, now)], from, rates[1..], x, now);
    }
  }

  /** After bulk population each key holds the last rate the table gives
      for it, stamped with the fetch time; keys the table does not mention
      keep their entry, or stay absent. */
  lemma {:induction false} FillStoresLastRate(cache: Cache, from: string, rates: seq<(string, real)>, now: int, k: Pair)
    ensures var f := Fill(cache, from, rates, now);
      match LastRate(from, rates, k)
      case Some(v) => k in f && f[k] == CachedRate(v, now)
      case None => (k in f <==> k in cache) && (k in cache ==> f[k] == cache[k])
    decreases |rates|
  {
    if rates != [] {
      var init := rates[..|rates| - 1];
      var x := rates[|rates| - 1];
      assert rates == init + [x];
      FillAppend(cache, from, init, x, now);
      FillStoresLastRate(cache, from, init, now, k);
    }
  }

  /** Bulk population only touches entries whose base currency is `from`. */
  lemma FillKeepsOtherBases(cache: Cache, from: string, rates: seq<(string, real)>, now: int, k: Pair)
    requires k.from != Upper(from)
    ensures k in Fill(cache, from, rates, now) <==> k in cache
    ensures k in cache ==> Fill(cache, from, rates, now)[k] == cache[k]
  {
    NoRateForOtherBase(from, rates, k);
    FillStoresLastRate(cache, from, rates, now, k);
  }

  lemma {:induction false} NoRateForOtherBase(from: string, rates: seq<(string, real)>, k: Pair)
    requires k.from != Upper(from)
    ensures LastRate(from, rates, k).None?
    decreases |rates|
  {
    if rates != [] {
      NoRateForOtherBase(from, rates[..|rates| - 1], k);
    }
  }

  // ---------------------------------------------------------------------
  // The lookup
  // ---------------------------------------------------------------------

  /** A failed fetch changes nothing in the cache. A 404 from the endpoint
      that answered last blames the base currency; any other failure of
      both endpoints is the generic error. A 404 from the primary endpoint
      ends the lookup without asking the fallback, and so does a primary
      request that throws, whose message becomes the error. */
  lemma FetchFailures(cache: Cache, net: Network, now: int, ttl: int, p: Pair)
    requires !(Lookup(cache, p).Some? && Fresh(Lookup(cache, p).value, now, ttl))
    ensures var r := GetConversionRate(cache, net, now, ttl, p);
      && (net.primary(p).status == NotFound ==>
            r == RateLookup(Err(InvalidCurrency(p.from)), cache, [PrimaryCall(p)]))
      && (net.primary(p).status.Thrown? ==>
            r == RateLookup(Err(RequestFailed(net.primary(p).status.message)), cache, [PrimaryCall(p)]))
      && (net.primary(p).status == OtherFailure ==>
            r.calls == [PrimaryCall(p), FallbackCall(p)])
      && (net.primary(p).status == OtherFailure && net.fallback(p).status == NotFound ==>
            r.rate == Err(InvalidCurrency(p.from)) && r.cache == cache)
      && (net.primary(p).status == OtherFailure && net.fallback(p).status == OtherFailure ==>
            r.rate == Err(FetchFailed) && r.cache == cache)
      && (net.primary(p).status == OtherFailure && net.fallback(p).status.Thrown? ==>
            r.rate == Err(RequestFailed(net.fallback(p).status.message)) && r.cache == cache)
  {
  }

  /** After a successful fetch the cache is the bulk population of the
      table that answered, and the rate is read back from it: the table's
      rate for the target when it lists the target, otherwise whatever
      (possibly expired) entry the cache already held, and otherwise the
      target is reported invalid. */
  lemma FetchedRate(cache: Cache, net: Network, now: int, ttl: int, p: Pair)
    requires !(Lookup(cache, p).Some? && Fresh(Lookup(cache, p).value, now, ttl))
    requires Fetch(net, p).0.Ok?
    ensures var rates := Fetch(net, p).0.value;
      var r := GetConversionRate(cache, net, now, ttl, p);
      && (forall k :: LastRate(p.from, rates, k).Some? ==>
            k in r.cache && r.cache[k] == CachedRate(LastRate(p.from, rates, k).value, now))
      && (forall k :: k in cache && LastRate(p.from, rates, k).None? ==>
            k in r.cache && r.cache[k] == cache[k])
      && (forall k :: k in r.cache ==> k in cache || LastRate(p.from, rates, k).Some?)
      && match LastRate(p.from, rates, Key(p))
         case Some(v) => r.rate == Ok(v)
         case None =>
           if Key(p) in cache then r.rate == Ok(cache[Key(p)].rate)
           else r.rate == Err(InvalidCurrency(p.to))
  {
    var rates := Fetch(net, p).0.value;
    forall k {
      FillStoresLastRate(cache, p.from, rates, now, k);
    }
  }

  /** Once a lookup has fetched a table that lists the target, repeating it
      at the same moment is answered from the cache with the same rate. */
  lemma RepeatedLookupIsCached(cache: Cache, net: Network, now: int, ttl: int, p: Pair)
    requires ttl > 0
    requires !(Lookup(cache, p).Some? && Fresh(Lookup(cache, p).value, now, ttl))
    requires Fetch(net, p).0.Ok? && LastRate(p.from, Fetch(net, p).0.value, Key(p)).Some?
    ensures var r := GetConversionRate(cache, net, now, ttl, p);
      GetConversionRate(r.cache, net, now, ttl, p) == RateLookup(r.rate, r.cache, [])
  {
    FetchedRate(cache, net, now, ttl, p);
  }
}
