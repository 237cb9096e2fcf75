/**
 * The request module: the status check, the authentication wrapper, the axios call
 * builder, the search parameters and the two chained fetches.
 *
 * The remote service is not modelled: its replies come from the fields of a `Server`
 * value, and every request a fetch issues is returned, in order, as a trace.
 */
module Requests {
  import opened Wrappers

  const BaseUrl := "https://frontend-take-home-service.fetch.com"

  datatype Location = Location(zipCode: string, latitude: real, longitude: real, city: string, state: string, county: string)

  /** A JavaScript number is modelled as an unbounded integer. */
  datatype Dog = Dog(id: string, img: string, name: string, age: int, zipCode: string, breed: string)

  /** What a failed call throws: a rejection from the transport, or a property read on `undefined`. */
  datatype Error = Thrown(reason: string) | UndefinedElement

  datatype Result<T> = Ok(value: T) | Err(error: Error)

  // ---------------------------------------------------------------------------
  // Status check and authentication wrapper

  /** `status >= 200 && status < 299`: the 2xx class, except that 299 counts as a failure. */
  function SuccessfulRequest(status: int): (ok: bool)
    ensures ok <==> status / 100 == 2 && status != 299
  {
    status >= 200 && status < 299
  }

  /** What `makeAuthRequest` resolves to: the string 'Not Implemented' or the status check's verdict. */
  datatype AuthValue = NotImplemented | Succeeded(ok: bool)

  /**
   * `makeAuthRequest(tag, request)`: `response` is how the given request promise settles
   * (None when no promise was given). A rejection is re-thrown, not turned into `false`.
   */
  function MakeAuthRequest(response: Option<Result<int>>): (r: Result<AuthValue>)
    ensures r == Ok(NotImplemented) <==> response.None?
    ensures r.Err? <==> response.Some? && response.value.Err?
    ensures r.Err? ==> r.error == response.value.error
    ensures r == Ok(Succeeded(true)) <==> response.Some? && response.value.Ok? && SuccessfulRequest(response.value.value)
  {
    match response
    case None => Ok(NotImplemented)
    case Some(Err(e)) => Err(e)
    case Some(Ok(status)) => Ok(Succeeded(SuccessfulRequest(status)))
  }

  // ---------------------------------------------------------------------------
  // The axios call builder

  datatype Json = JNull | JBool(b: bool) | JNum(n: int) | JStr(s: string) | JArr(items: seq<Json>) | JObj(fields: map<string, Json>)

  type Config = map<string, Json>

  /** The numeric values of the `AxiosMethod` enum. */
  const GET := 0
  const PUT := 1
  const POST := 2
  const DELETE := 3

  /** An axios call as issued: `get` and `delete` take no body. */
  datatype HttpCall =
    | Get(url: string, config: Config)
    | Put(url: string, body: Option<Json>, config: Config)
    | Post(url: string, body: Option<Json>, config: Config)
    | Delete(url: string, config: Config)

  function VerbOf(call: HttpCall): int
  {
    match call
    case Get(_, _) => GET
    case Put(_, _, _) => PUT
    case Post(_, _, _) => POST
    case Delete(_, _) => DELETE
  }

  /** `{withCredentials: true, ...config}`: credentials are on unless the caller's config says otherwise. */
  function MergedConfig(config: Option<Config>): (c: Config)
    ensures c.Keys == {"withCredentials"} + (if config.Some? then config.value.Keys else {})
    ensures forall k :: config.Some? && k in config.value ==> c[k] == config.value[k]
    ensures (config.None? || "withCredentials" !in config.value) ==> c["withCredentials"] == JBool(true)
  {
    map["withCredentials" := JBool(true)] + config.GetOr(map[])
  }

  /** `axiosRequest(method, url, body, config)`: one call for each enum value, none for any other value. */
  function AxiosRequest(verb: int, url: string, body: Option<Json>, config: Option<Config>): (r: Option<HttpCall>)
    ensures r.Some? <==> verb in {GET, PUT, POST, DELETE}
    ensures r.Some? ==> VerbOf(r.value) == verb && r.value.url == url && r.value.config == MergedConfig(config)
    ensures r.Some? && (r.value.Put? || r.value.Post?) ==> r.value.body == body
  {
    var c := MergedConfig(config);
    if verb == GET then Some(Get(url, c))
    else if verb == PUT then Some(Put(url, body, c))
    else if verb == POST then Some(Post(url, body, c))
    else if verb == DELETE then Some(Delete(url, c))
    else None
  }

  // ---------------------------------------------------------------------------
  // Search parameters

  /** `SearchParamProps`: every property is optional; `None` stands for `undefined`. */
  datatype SearchParams = SearchParams(
    breeds: Option<seq<string>>,
    zipCodes: Option<seq<string>>,
    ageMin: Option<string>,
    ageMax: Option<string>,
    size: Option<int>,
    from: Option<int>,
    sort: Option<string>,
    ids: Option<seq<string>>)

  datatype ParamKey = Breeds | ZipCodes | AgeMin | AgeMax | Size | From | Sort | Ids

  datatype ParamValue = Strings(items: seq<string>) | Text(text: string) | Number(n: int)

  /** The parameters that reach the query string. */
  type Query = map<ParamKey, ParamValue>

  const AllKeys: set<ParamKey> := {Breeds, ZipCodes, AgeMin, AgeMax, Size, From, Sort, Ids}

  /** Helper for `Filtered`: every key is among the eight listed. */
  lemma AllKeysComplete()
    ensures forall k :: k in AllKeys
  {
    forall k ensures k in AllKeys {
      match k
      case Breeds =>
      case ZipCodes =>
      case AgeMin =>
      case AgeMax =>
      case Size =>
      case From =>
      case Sort =>
      case Ids =>
    }
  }

  /** The value of one property of the parameter object. */
  function Entry(p: SearchParams, k: ParamKey): Option<ParamValue>
  {
    match k
    case Breeds => if p.breeds.Some? then Some(Strings(p.breeds.value)) else None
    case ZipCodes => if p.zipCodes.Some? then Some(Strings(p.zipCodes.value)) else None
    case AgeMin => if p.ageMin.Some? then Some(Text(p.ageMin.value)) else None
    case AgeMax => if p.ageMax.Some? then Some(Text(p.ageMax.value)) else None
    case Size => if p.size.Some? then Some(Number(p.size.value)) else None
    case From => if p.from.Some? then Some(Number(p.from.value)) else None
    case Sort => if p.sort.Some? then Some(Text(p.sort.value)) else None
    case Ids => if p.ids.Some? then Some(Strings(p.ids.value)) else None
  }

  /**
   * `Object.fromEntries(Object.entries(params ?? {}).filter(([_, v]) => v !== undefined))`:
   * exactly the defined properties, with their values; empty strings and arrays are kept.
   */
  function Filtered(params: Option<SearchParams>): (q: Query)
    ensures forall k :: k in q <==> params.Some? && Entry(params.value, k).Some?
    ensures forall k :: k in q ==> q[k] == Entry(params.value, k).value
  {
    if params.None? then map[]
    else
      assert forall k :: k in AllKeys by { AllKeysComplete(); }
      map k | k in AllKeys && Entry(params.value, k).Some? :: Entry(params.value, k).value
  }

  // ---------------------------------------------------------------------------
  // The remote service and the trace of requests

  /** One request as it leaves the client; all of them send the session cookie. */
  datatype Request =
    | Axios(call: HttpCall)                  // through axiosRequest: login and logout
    | SearchDogs(query: Query)               // GET  /dogs/search?<query>
    | PostDogs(ids: seq<string>)             // POST /dogs, the body a JSON array of ids
    | PostMatch(favorites: seq<string>)      // POST /dogs/match
    | PostLocations(zipCodes: seq<string>)   // POST /locations

  datatype SearchResponse = SearchResponse(resultIds: seq<string>, total: int, next: Option<string>, prev: Option<string>)

  /** The replies the service gives, each an `Err` when the call throws. */
  datatype Server = Server(
    send: HttpCall -> Result<int>,
    search: Query -> Result<SearchResponse>,
    dogs: seq<string> -> Result<seq<Dog>>,
    matchOf: seq<string> -> Result<string>,
    locations: seq<string> -> Result<seq<Location>>)

  /** The axios call `logoutUser` issues. */
  function LogoutCall(): (call: HttpCall)
    ensures AxiosRequest(POST, BaseUrl + "/auth/logout", None, None) == Some(call)
    ensures call.config["withCredentials"] == JBool(true)
  {
    Post(BaseUrl + "/auth/logout", None, MergedConfig(None))
  }

  /** The axios call `loginUser(name, email)` issues. */
  function LoginCall(name: string, email: string): (call: HttpCall)
    ensures AxiosRequest(POST, BaseUrl + "/auth/login", Some(JObj(map["name" := JStr(name), "email" := JStr(email)])), None) == Some(call)
    ensures call.config["withCredentials"] == JBool(true)
  {
    Post(BaseUrl + "/auth/login", Some(JObj(map["name" := JStr(name), "email" := JStr(email)])), MergedConfig(None))
  }

  /** `loginUser(name, email)`: a POST always exists, so the answer is a verdict or a thrown error. */
  function LoginUser(server: Server, name: string, email: string): (r: Result<AuthValue>)
    ensures r != Ok(NotImplemented)
    ensures r.Err? <==> server.send(LoginCall(name, email)).Err?
    ensures r == Ok(Succeeded(true)) <==> server.send(LoginCall(name, email)).Ok? && SuccessfulRequest(server.send(LoginCall(name, email)).value)
  {
    MakeAuthRequest(Some(server.send(LoginCall(name, email))))
  }

  /** `logoutUser()`: likewise for the logout call. */
  function LogoutUser(server: Server): (r: Result<AuthValue>)
    ensures r != Ok(NotImplemented)
    ensures r.Err? <==> server.send(LogoutCall()).Err?
    ensures r == Ok(Succeeded(true)) <==> server.send(LogoutCall()).Ok? && SuccessfulRequest(server.send(LogoutCall()).value)
  {
    MakeAuthRequest(Some(server.send(LogoutCall())))
  }

  // ---------------------------------------------------------------------------
  // fetchDogs

  /** What `fetchDogs` resolves to: `{...data, dogs}` after a search, `{total, dogs}` in ids mode. */
  datatype DogsData = DogsData(total: int, dogs: seq<Dog>, search: Option<SearchResponse>)

  /** The contract of `fetchDogs(params)`: the requests issued and the value it resolves to. */
  ghost predicate DogsOutcome(server: Server, params: Option<SearchParams>, r: Result<DogsData>, issued: seq<Request>)
  {
    var q := Filtered(params);
    if Ids !in q then
      // Search branch: one search with the filtered parameters, then one batch of the result ids.
      var found := server.search(q);
      if found.Err? then
        issued == [SearchDogs(q)] && r == Err(found.error)
      else
        var fetched := server.dogs(found.value.resultIds);
        && issued == [SearchDogs(q), PostDogs(found.value.resultIds)]
        && r == (if fetched.Err? then Err(fetched.error)
                 else Ok(DogsData(found.value.total, fetched.value, Some(found.value))))
    else
      // Ids branch: no search at all; one batch of the ids, and the total is their number.
      var ids := q[Ids].items;
      var fetched := server.dogs(ids);
      && issued == [PostDogs(ids)]
      && r == (if fetched.Err? then Err(fetched.error) else Ok(DogsData(|ids|, fetched.value, None)))
  }

  /** `fetchDogs(params)` */
  method FetchDogs(server: Server, params: Option<SearchParams>) returns (r: Result<DogsData>, issued: seq<Request>)
    ensures DogsOutcome(server, params, r, issued)
  {
    var filtered := Filtered(params);
    if Ids !in filtered {
      issued := [SearchDogs(filtered)];
      var data := server.search(filtered);
      if data.Err? {
        return Err(data.error), issued;
      }
      issued := issued + [PostDogs(data.value.resultIds)];
      var dogs := server.dogs(data.value.resultIds);
      if dogs.Err? {
        return Err(dogs.error), issued;
      }
      r := Ok(DogsData(data.value.total, dogs.value, Some(data.value)));
    } else {
      var ids := filtered[Ids].items;
      issued := [PostDogs(ids)];
      var dogs := server.dogs(ids);
      if dogs.Err? {
        return Err(dogs.error), issued;
      }
      r := Ok(DogsData(|ids|, dogs.value, None));
    }
  }

  /** The outcome of `fetchDogs` is determined by the server and the parameters. */
  lemma DogsOutcomeUnique(server: Server, params: Option<SearchParams>, r1: Result<DogsData>, t1: seq<Request>, r2: Result<DogsData>, t2: seq<Request>)
    requires DogsOutcome(server, params, r1, t1) && DogsOutcome(server, params, r2, t2)
    ensures r1 == r2 && t1 == t2
  {
  }

  /** In ids mode, even with an empty array, no search is issued and the total is the number of ids. */
  lemma IdsModeNeverSearches(server: Server, p: SearchParams, r: Result<DogsData>, issued: seq<Request>)
    requires p.ids.Some?
    requires DogsOutcome(server, Some(p), r, issued)
    ensures forall i :: 0 <= i < |issued| ==> !issued[i].SearchDogs?
    ensures issued == [PostDogs(p.ids.value)]
    ensures r.Ok? ==> r.value.total == |p.ids.value| && r.value.dogs == server.dogs(p.ids.value).value
  {
    assert Entry(p, Ids).Some?;
  }

  /** Without ids, the search comes first and the batch asks for exactly the ids it returned. */
  lemma SearchModeBatchesResultIds(server: Server, params: Option<SearchParams>, r: Result<DogsData>, issued: seq<Request>)
    requires params.None? || params.value.ids.None?
    requires DogsOutcome(server, params, r, issued)
    ensures 1 <= |issued| <= 2 && issued[0] == SearchDogs(Filtered(params))
    ensures forall k :: k in issued[0].query ==> k != Ids
    ensures r.Ok? ==> |issued| == 2 && issued[1] == PostDogs(r.value.search.value.resultIds)
    ensures r.Ok? ==> r.value.search == Some(server.search(Filtered(params)).value)
    ensures r.Ok? ==> r.value.total == r.value.search.value.total
  {
    assert params.Some? ==> Entry(params.value, Ids).None?;
  }

  // ---------------------------------------------------------------------------
  // fetchMatch

  /** What `fetchMatch` resolves to; the location is `undefined` when the lookup returns no element. */
  datatype MatchData = MatchData(dog: Dog, location: Option<Location>)

  /** The contract of `fetchMatch(favorites)`: three dependent requests, each built from the previous reply. */
  ghost predicate MatchOutcome(server: Server, favorites: seq<string>, r: Result<MatchData>, issued: seq<Request>)
  {
    var matched := server.matchOf(favorites);
    if matched.Err? then
      issued == [PostMatch(favorites)] && r == Err(matched.error)
    else
      var batch := server.dogs([matched.value]);
      if batch.Err? then
        issued == [PostMatch(favorites), PostDogs([matched.value])] && r == Err(batch.error)
      else if batch.value == [] then
        // reading `zip_code` of `undefined` throws before the location lookup
        issued == [PostMatch(favorites), PostDogs([matched.value])] && r == Err(UndefinedElement)
      else
        var dog := batch.value[0];
        var located := server.locations([dog.zipCode]);
        && issued == [PostMatch(favorites), PostDogs([matched.value]), PostLocations([dog.zipCode])]
        && r == (if located.Err? then Err(located.error)
                 else Ok(MatchData(dog, if located.value == [] then None else Some(located.value[0]))))
  }

  /** `fetchMatch(favorites)` */
  method FetchMatch(server: Server, favorites: seq<string>) returns (r: Result<MatchData>, issued: seq<Request>)
    ensures MatchOutcome(server, favorites, r, issued)
  {
    issued := [PostMatch(favorites)];
    var data := server.matchOf(favorites);
    if data.Err? {
      return Err(data.error), issued;
    }
    issued := issued + [PostDogs([data.value])];
    var dogs := server.dogs([data.value]);
    if dogs.Err? {
      return Err(dogs.error), issued;
    }
    if dogs.value == [] {
      return Err(UndefinedElement), issued;
    }
    var match1 := dogs.value[0];
    issued := issued + [PostLocations([match1.zipCode])];
    var locations := server.locations([match1.zipCode]);
    if locations.Err? {
      return Err(locations.error), issued;
    }
    var location := if locations.value == [] then None else Some(locations.value[0]);
    r := Ok(MatchData(match1, location));
  }

  /** The outcome of `fetchMatch` is determined by the server and the favorites. */
  lemma MatchOutcomeUnique(server: Server, favorites: seq<string>, r1: Result<MatchData>, t1: seq<Request>, r2: Result<MatchData>, t2: seq<Request>)
    requires MatchOutcome(server, favorites, r1, t1) && MatchOutcome(server, favorites, r2, t2)
    ensures r1 == r2 && t1 == t2
  {
  }

  /** A resolved match took exactly three requests, in order, and returns the first dog and first location. */
  lemma MatchChainInOrder(server: Server, favorites: seq<string>, r: Result<MatchData>, issued: seq<Request>)
    requires MatchOutcome(server, favorites, r, issued)
    ensures 1 <= |issued| <= 3 && issued[0] == PostMatch(favorites)
    ensures r.Ok? ==> |issued| == 3
    ensures r.Ok? ==> issued[1] == PostDogs([server.matchOf(favorites).value])
    ensures r.Ok? ==> r.value.dog == server.dogs([server.matchOf(favorites).value]).value[0]
    ensures r.Ok? ==> issued[2] == PostLocations([r.value.dog.zipCode])
    ensures r.Ok? && server.locations([r.value.dog.zipCode]).value != [] ==>
              r.value.location == Some(server.locations([r.value.dog.zipCode]).value[0])
  {
  }
}
