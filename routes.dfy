/**
 * The route handlers of app.js as methods over the `Search` collection.
 * The geolocation call `getIPDetails` is the oracle `geo`: for an address it
 * either yields the provider's reply or fails (network error, non-2xx
 * answer). What a handler sends back is a `Response`.
 */
module Routes {
  import opened Base
  import opened PrivateIp
  import opened ClientIp
  import opened SearchStore

  /** The provider's JSON reply, reduced to the fields the application reads. */
  datatype GeoResult = GeoResult(query: string, status: string, country: string, city: string, isp: string)

  /** Outcome of `getIPDetails(ip)`: the reply, or the exception it throws. */
  datatype Reply = Ok(data: GeoResult) | Failed

  /** What a page shows about one address. */
  datatype VisitorData =
    | Placeholder(query: string, country: string, city: string, isp: string, note: string)
    | Located(data: GeoResult)

  datatype View =
    | IndexView(visitorData: VisitorData, history: seq<Record>)   // views/index
    | ResultView(data: VisitorData)                               // views/result

  datatype Response =
    | Render(view: View)           // res.render
    | Send(body: string)           // res.send
    | Redirect(location: string)   // res.redirect

  const PRIVATE_COUNTRY: string := "Private IP Address"
  const NOT_AVAILABLE: string := "Not Available"
  const PRIVATE_NOTE: string := "This is a private IP address used inside local networks."

  const HOME_ERROR: string := "Error fetching visitor IP info"
  const TRACK_ERROR: string := "Error fetching IP info"
  const TEST_ERROR: string := "Error running test mode"

  /** Number of history entries the home page lists. */
  const HISTORY_LIMIT: nat := 10

  const TEST_IPS: seq<string> := ["8.8.8.8", "1.1.1.1", "208.80.154.224", "142.250.72.14", "151.101.1.69"]

  /** `Math.floor(Math.random() * testIPs.length)` for a draw `random` of `Math.random()`. */
  function PickIndex(random: real): (k: nat)
    requires 0.0 <= random < 1.0
    ensures k < |TEST_IPS|
    ensures k as real <= random * |TEST_IPS| as real < k as real + 1.0
  {
    (random * |TEST_IPS| as real).Floor
  }

  /** Each test address is selected by some draw of `Math.random()`. */
  lemma PickIndexCoversTestIps(k: nat)
    requires k < |TEST_IPS|
    ensures PickIndex(k as real / |TEST_IPS| as real) == k
  {
  }

  /** No test address is private, so test mode always exercises the provider. */
  lemma TestIpsArePublic()
    ensures forall k :: 0 <= k < |TEST_IPS| ==> !IsPrivateIP(TEST_IPS[k])
  {
    assert TEST_IPS[0][1] == '.' && TEST_IPS[1][1] == '.';
    assert TEST_IPS[2][0] == '2' && TEST_IPS[3][1] == '4' && TEST_IPS[4][1] == '5';
  }

  /** GET `/`: resolve and classify the caller's address, look it up and store it once, list the newest history. */
  method Home(store: Search, forwarded: Option<string>, remote: Option<string>, geo: string -> Reply)
    returns (resp: Response)
    requires store.Valid()
    modifies store
    ensures store.Valid()
    ensures store.clock == old(store.clock) + (|store.records| - |old(store.records)|)
    ensures match RawAddress(forwarded, remote)
      case None => unchanged(store) && resp == Send(HOME_ERROR)
      case Some(raw) =>
        var ip := ResolveIp(raw);
        if IsPrivateIP(ip) then
          && unchanged(store)
          && resp == Render(IndexView(
                       Placeholder(ip, PRIVATE_COUNTRY, NOT_AVAILABLE, NOT_AVAILABLE, PRIVATE_NOTE),
                       Newest(store.records, HISTORY_LIMIT)))
        else
          match geo(ip)
          case Failed => unchanged(store) && resp == Send(HOME_ERROR)
          case Ok(g) =>
            && store.records == InsertIfAbsent(old(store.records), Record(g.query, g.country, g.city, g.isp, old(store.clock)))
            && HasIp(store.records, g.query)
            && resp == Render(IndexView(Located(g), Newest(store.records, HISTORY_LIMIT)))
  {
    var raw := RawAddress(forwarded, remote);
    if raw.None? {
      // `ip.startsWith` on an undefined address throws; the handler catches it
      return Send(HOME_ERROR);
    }
    var ip := ResolveIp(raw.value);
    var visitor: VisitorData;
    if IsPrivateIP(ip) {
      visitor := Placeholder(ip, PRIVATE_COUNTRY, NOT_AVAILABLE, NOT_AVAILABLE, PRIVATE_NOTE);
    } else {
      var reply := geo(ip);
      if reply.Failed? {
        return Send(HOME_ERROR);
      }
      var data := reply.data;
      visitor := Located(data);
      var existing := store.FindOne(data.query);
      if existing.None? {
        var doc := store.Create(data.query, data.country, data.city, data.isp);
      }
    }
    var history := store.FindNewest(HISTORY_LIMIT);
    resp := Render(IndexView(visitor, history));
  }

  /** POST `/track`: look up a submitted address and store the reply, without a duplicate check. */
  method Track(store: Search, ip: string, geo: string -> Reply) returns (resp: Response)
    requires store.Valid()
    modifies store
    ensures store.Valid()
    ensures if IsPrivateIP(ip) then
        unchanged(store) && resp == Render(ResultView(Placeholder(ip, PRIVATE_COUNTRY, NOT_AVAILABLE, NOT_AVAILABLE, PRIVATE_NOTE)))
      else
        match geo(ip)
        case Failed => unchanged(store) && resp == Send(TRACK_ERROR)
        case Ok(g) =>
          && store.records == old(store.records) + [Record(g.query, g.country, g.city, g.isp, old(store.clock))]
          && store.clock == old(store.clock) + 1
          && resp == Render(ResultView(Located(g)))
  {
    if IsPrivateIP(ip) {
      return Render(ResultView(Placeholder(ip, PRIVATE_COUNTRY, NOT_AVAILABLE, NOT_AVAILABLE, PRIVATE_NOTE)));
    }
    var reply := geo(ip);
    if reply.Failed? {
      return Send(TRACK_ERROR);
    }
    var data := reply.data;
    var doc := store.Create(data.query, data.country, data.city, data.isp);
    resp := Render(ResultView(Located(data)));
  }

  /** GET `/test`: look up one of the fixed test addresses and store the reply. */
  method TestMode(store: Search, random: real, geo: string -> Reply) returns (resp: Response)
    requires store.Valid()
    requires 0.0 <= random < 1.0
    modifies store
    ensures store.Valid()
    ensures match geo(TEST_IPS[PickIndex(random)])
      case Failed => unchanged(store) && resp == Send(TEST_ERROR)
      case Ok(g) =>
        && store.records == old(store.records) + [Record(g.query, g.country, g.city, g.isp, old(store.clock))]
        && store.clock == old(store.clock) + 1
        && resp == Render(ResultView(Located(g)))
  {
    var randomIP := TEST_IPS[PickIndex(random)];
    var reply := geo(randomIP);
    if reply.Failed? {
      return Send(TEST_ERROR);
    }
    var data := reply.data;
    var doc := store.Create(data.query, data.country, data.city, data.isp);
    resp := Render(ResultView(Located(data)));
  }

  /** POST `/delete-history`: delete the first record with the submitted address, then go home. */
  method DeleteHistory(store: Search, ip: string) returns (resp: Response)
    requires store.Valid()
    modifies store
    ensures store.Valid()
    ensures store.records == DeleteFirst(old(store.records), ip) && store.clock == old(store.clock)
    ensures !HasIp(old(store.records), ip) ==> store.records == old(store.records)
    ensures resp == Redirect("/")
  {
    var deleted := store.DeleteOne(ip);
    resp := Redirect("/");
  }

  /** POST `/clear-history`: delete every record, then go home. */
  method ClearHistory(store: Search) returns (resp: Response)
    requires store.Valid()
    modifies store
    ensures store.Valid()
    ensures store.records == [] && store.clock == old(store.clock)
    ensures resp == Redirect("/")
  {
    var deleted := store.DeleteMany();
    resp := Redirect("/");
  }
}
