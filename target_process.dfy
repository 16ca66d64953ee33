/** crates/target_process/src/lib.rs: the TargetProcess REST client. The pure
    parts are the query parameters, the URL construction of `make_url`, the
    payloads of the two POST calls and the shaping of the sprint task list.
    The HTTP side is a `Client` object: the base URL and the access token
    (the two environment variables) are its constants, the remote service is
    an oracle, and every request that goes out is appended to `sent`. The
    `#[cached]` functions `get_assignable` and `get_me` keep their results in
    maps of the client, which is what the macro does for the process. */
module TargetProcess {
  import opened Wrappers
  import opened Text
  import opened TpModels
  import V1 = TpV1Models
  import V2 = TpV2
  import opened Assignables

  /** errors.rs; the transport and JSON variants carry the library's message. */
  datatype ApiError =
    | AssignableNotFound(id: string)
    | Http(status: nat)
    | GenericError(message: string)
    | Json(message: string)
    | UrlParsing
    | TokenNotFound

  // ---------------------------------------------------------------------
  // Param

  datatype Param = Select(value: string) | Where(value: string) | Filter(value: string) | AccessToken(value: string)

  /** `Into<(String, String)> for Param`: the query key of the variant, and
      the value unchanged. */
  function ParamToPair(p: Param): (kv: (string, string))
    ensures kv.1 == p.value
  {
    match p
    case AccessToken(v) => ("access_token", v)
    case Where(v) => ("where", v)
    case Filter(v) => ("filter", v)
    case Select(v) => ("select", v)
  }

  /** `From<(String, String)> for Param`: an unknown key is read as a filter. */
  function ParamFromPair(kv: (string, string)): (p: Param)
    ensures p.value == kv.1
  {
    if kv.0 == "filter" then Filter(kv.1)
    else if kv.0 == "where" then Where(kv.1)
    else if kv.0 == "select" then Select(kv.1)
    else if kv.0 == "access_token" then AccessToken(kv.1)
    else Filter(kv.1)
  }

  /** Every parameter survives the trip to a query pair and back. */
  lemma ParamRoundTrip(p: Param)
    ensures ParamFromPair(ParamToPair(p)) == p
  {
  }

  /** A pair survives the trip through `Param` exactly when its key is one of
      the four known ones; any other key comes back as "filter", and the value
      is always kept. */
  lemma PairRoundTrip(k: string, v: string)
    ensures ParamToPair(ParamFromPair((k, v)))
         == if k in ["filter", "where", "select", "access_token"] then (k, v) else ("filter", v)
  {
  }

  /** The query pairs of a parameter list, in order. */
  function ParamPairs(ps: seq<Param>): (kvs: seq<(string, string)>)
    ensures |kvs| == |ps|
  {
    seq(|ps|, i requires 0 <= i < |ps| => ParamToPair(ps[i]))
  }

  /** Every parameter of a list is recovered from its pair. */
  lemma ParamsRoundTrip(ps: seq<Param>)
    ensures forall i :: 0 <= i < |ps| ==> ParamFromPair(ParamPairs(ps)[i]) == ps[i]
  {
    forall i | 0 <= i < |ps| ensures ParamFromPair(ParamPairs(ps)[i]) == ps[i] {
      ParamRoundTrip(ps[i]);
    }
  }

  // ---------------------------------------------------------------------
  // make_url

  /** The URL handed to the URL parser: the address string and the query
      pairs in order. */
  datatype Url = Url(address: string, query: seq<(string, string)>)

  /** `format!("{base}/api") + "/" + path`, then `.replace("//", "/")`. */
  function ApiAddress(base: string, path: string): string {
    ReplaceAll(base + "/api" + "/" + path, "//", "/")
  }

  /** `make_url`, with TARGET_PROCESS_API_BASE_URL and the access token (the
      environment variable, if set) passed in. Without a token it fails
      before anything else; otherwise the query decodes back to the access
      token followed by the caller's parameters in their order. */
  function MakeUrl(base: string, token: Option<string>, path: string, params: seq<Param>): (r: Result<Url, ApiError>)
    ensures r.Err? <==> token.None?
    ensures r.Err? ==> r.error == TokenNotFound
    ensures r.Ok? ==> r.value.address == ApiAddress(base, path)
    ensures r.Ok? ==> |r.value.query| == |params| + 1
    ensures r.Ok? ==> r.value.query[0] == ("access_token", token.value)
    ensures r.Ok? ==> forall i :: 0 <= i < |params| ==> r.value.query[i + 1] == ParamToPair(params[i])
    ensures r.Ok? ==> forall i :: 0 <= i < |params| ==> ParamFromPair(r.value.query[i + 1]) == params[i]
  {
    if token.None? then Err(TokenNotFound)
    else
      var rest := ParamPairs(params);
      var query := [ParamToPair(AccessToken(token.value))] + rest;
      ParamsRoundTrip(params);
      assert forall i :: 0 <= i < |params| ==> query[i + 1] == rest[i];
      Ok(Url(ApiAddress(base, path), query))
  }

  /** A base and path without any "//" are joined as they are. */
  lemma ApiAddressWithoutDoubleSlash(base: string, path: string)
    requires var s := base + "/api" + "/" + path;
             forall i :: 0 <= i <= |s| ==> !StartsWith(s[i..], "//")
    ensures ApiAddress(base, path) == base + "/api/" + path
  {
    ReplaceAllAbsent(base + "/api" + "/" + path, "//", "/");
    assert base + "/api" + "/" + path == base + "/api/" + path;
  }

  /** "/" then a non-empty slash-free part passes through unchanged. */
  lemma SlashThenSegment(x: string, s: string)
    requires x != [] && '/' !in x
    ensures ReplaceAll("/" + x + s, "//", "/") == "/" + x + ReplaceAll(s, "//", "/")
  {
    var t := "/" + x + s;
    assert t[1] == x[0];
    assert !StartsWith(t, "//");
    assert t[1..] == x + s;
    ReplaceAllSkipsPrefix(x, s, "//", "/");
  }

  /** The address of `get_assignable`: the path "/v1/Assignables/<id>" is
      glued to ".../api" with a doubled slash, which the fold removes, and the
      fold also eats one slash of the scheme's "//" (for "https://host" the
      address starts "https:/host"). */
  lemma AssignableAddress(scheme: string, host: string, id: string)
    requires '/' !in scheme && host != [] && '/' !in host && id != [] && '/' !in id
    ensures ApiAddress(scheme + "//" + host, AssignablePath(id))
         == scheme + "/" + host + "/" + "api" + AssignablePath(id)
  {
    var v := "v1" + ("/" + "Assignables" + ("/" + id));
    var y := host + ("/" + "api" + ("//" + v));
    assert AssignablePath(id) == "/" + v;
    assert "/api" == "/" + "api";
    assert scheme + "//" + host + "/api" + "/" + AssignablePath(id) == scheme + ("//" + y);
    AssignablesTail(id);
    HostThenApi(host, v);
    ReplaceAllHead("//", y, "/");
    ReplaceAllSkipsPrefix(scheme, "//" + y, "//", "/");
  }

  /** The host, then "/api" glued to a path with a doubled slash. */
  lemma HostThenApi(host: string, v: string)
    requires '/' !in host && ReplaceAll(v, "//", "/") == v
    ensures ReplaceAll(host + ("/" + "api" + ("//" + v)), "//", "/") == host + ("/" + "api" + ("/" + v))
  {
    ReplaceAllHead("//", v, "/");
    SlashThenSegment("api", "//" + v);
    ReplaceAllSkipsPrefix(host, "/" + "api" + ("//" + v), "//", "/");
  }

  /** The id part of the assignable address is free of "//". */
  lemma AssignablesTail(id: string)
    requires id != [] && '/' !in id
    ensures var v := "v1" + ("/" + "Assignables" + ("/" + id));
            ReplaceAll(v, "//", "/") == v
  {
    SlashThenSegment(id, []);
    assert "/" + id + [] == "/" + id;
    ReplaceAllAbsent([], "//", "/");
    SlashThenSegment("Assignables", "/" + id);
    ReplaceAllSkipsPrefix("v1", "/" + "Assignables" + ("/" + id), "//", "/");
  }

  // ---------------------------------------------------------------------
  // Requests, payloads and responses

  datatype AssignedUser = AssignedUser(generalUser: V1.Id, role: V1.Id)

  datatype Payload =
    | AssignDeveloper(assignments: seq<AssignedUser>)
    | UpdateState(update: V1.UpdateEntityStatePayload)

  datatype Request = GetRequest(url: Url) | PostRequest(url: Url, payload: Payload)

  /** The decoded body of a response, one variant per type the client asks
      for; a body of another shape fails to deserialize. */
  datatype Response =
    | AssignableBody(assignable: Assignable)
    | UserBody(user: CurrentUser)
    | ListBody(items: seq<V2.Assignable>)

  /** `response.json::<Assignable>()`. */
  function AsAssignable(r: Result<Response, ApiError>): Result<Assignable, ApiError> {
    match r
    case Err(e) => Err(e)
    case Ok(AssignableBody(a)) => Ok(a)
    case Ok(_) => Err(Json("expected an assignable"))
  }

  /** `response.json::<CurrentUser>()`. */
  function AsUser(r: Result<Response, ApiError>): Result<CurrentUser, ApiError> {
    match r
    case Err(e) => Err(e)
    case Ok(UserBody(u)) => Ok(u)
    case Ok(_) => Err(Json("expected a user"))
  }

  /** The payload of `assign_task`: a single assignment of the user in role 1. */
  function AssignPayload(userId: nat): (p: Payload)
    ensures p.AssignDeveloper? && |p.assignments| == 1
    ensures p.assignments[0].generalUser.id == userId && p.assignments[0].role.id == 1
  {
    AssignDeveloper([AssignedUser(V1.Id(userId), V1.Id(1))])
  }

  /** The payload of `update_entity_state`: the ticket's id and the code that
      decodes back to the requested state. */
  function StatePayload(assignableId: nat, state: EntityStates): (p: Payload)
    ensures p.UpdateState? && p.update.id == assignableId
    ensures FromCode(p.update.entityState.id) == Some(state)
  {
    FromCodeOfCode(state);
    UpdateState(V1.UpdateEntityStatePayload(assignableId, V1.Id(Code(state))))
  }

  function AssignablePath(id: string): string {
    "/v1/Assignables/" + id
  }

  // ---------------------------------------------------------------------
  // get_current_sprint_open_tasks

  const SprintFilterHead: string :=
    "(EntityState.IsInitial = true) and ( EntityType.Name = 'Bug' or (TeamIteration.IsCurrent=true or TeamIteration.IsPrevious = true))and(Project.Name='"

  const SprintSelect: string := "{id,name,description,resourceType,entityState,entityType}"

  /** Recovers the project name from a sprint filter, if it has that shape. */
  function ProjectOfFilter(w: string): Option<string> {
    if |w| >= |SprintFilterHead| + 2 && w[..|SprintFilterHead|] == SprintFilterHead && w[|w| - 2..] == "')"
    then Some(w[|SprintFilterHead|..|w| - 2])
    else None
  }

  /** The two parameters of `get_current_sprint_open_tasks`: a where filter
      that embeds the project name verbatim between quotes, and the field
      selection. */
  function SprintTasksParams(projectName: string): (ps: seq<Param>)
    ensures |ps| == 2 && ps[0].Where? && ps[1] == Select(SprintSelect)
    ensures ProjectOfFilter(ps[0].value) == Some(projectName)
  {
    var w := SprintFilterHead + projectName + "')";
    assert w[..|SprintFilterHead|] == SprintFilterHead;
    assert w[|w| - 2..] == "')";
    assert w[|SprintFilterHead|..|w| - 2] == projectName;
    [Where(w), Select(SprintSelect)]
  }

  /** `.items.into_iter().map(Assignable::from).collect()`: one v1 value per
      v2 item, in the same order; errors pass through. */
  function ShapeOpenTasks(r: Result<Response, ApiError>): (out: Result<seq<Assignable>, ApiError>)
    ensures r.Err? ==> out == Err(r.error)
    ensures r.Ok? && r.value.ListBody? ==>
              out.Ok? && |out.value| == |r.value.items|
              && forall i :: 0 <= i < |out.value| ==> out.value[i] == FromV2(r.value.items[i])
    ensures r.Ok? && !r.value.ListBody? ==> out.Err? && out.error.Json?
  {
    match r
    case Err(e) => Err(e)
    case Ok(ListBody(items)) => Ok(seq(|items|, i requires 0 <= i < |items| => FromV2(items[i])))
    case Ok(_) => Err(Json("expected a list of assignables"))
  }

  // ---------------------------------------------------------------------
  // The client

  class Client {
    /** TARGET_PROCESS_API_BASE_URL. */
    const base: string
    /** TARGET_PROCESS_ACCESS_TOKEN, if set. */
    const token: Option<string>
    /** The remote service: its answer to a request, given how many requests
        went out before it (so the service may change between calls). */
    const remote: (Request, nat) -> Result<Response, ApiError>

    /** Every request sent, in order. */
    var sent: seq<Request>
    /** The `#[cached]` store of `get_assignable`, keyed by its argument. */
    var assignableCache: map<string, Result<Assignable, ApiError>>
    /** The `#[cached]` store of `get_me`, which takes no argument. */
    var meCache: Option<Result<CurrentUser, ApiError>>

    constructor (base: string, token: Option<string>, remote: (Request, nat) -> Result<Response, ApiError>)
      ensures this.base == base && this.token == token && this.remote == remote
      ensures sent == [] && assignableCache == map[] && meCache == None
    {
      this.base := base;
      this.token := token;
      this.remote := remote;
      sent := [];
      assignableCache := map[];
      meCache := None;
    }

    /** `has_token`. */
    predicate HasToken() {
      token.Some?
    }

    /** One exchange with the service after n earlier requests: the answer
        and the requests that went out (none when the URL cannot be built). */
    function Exchange(path: string, params: seq<Param>, payload: Option<Payload>, n: nat)
      : (Result<Response, ApiError>, seq<Request>)
    {
      match MakeUrl(base, token, path, params)
      case Err(e) => (Err(e), [])
      case Ok(u) =>
        var req := if payload.Some? then PostRequest(u, payload.value) else GetRequest(u);
        (remote(req, n), [req])
    }

    /** `fetch`: a GET of the built URL. */
    method Fetch(path: string, params: seq<Param>) returns (r: Result<Response, ApiError>)
      modifies this`sent
      ensures var (resp, reqs) := Exchange(path, params, None, |old(sent)|);
              r == resp && sent == old(sent) + reqs
    {
      var url := MakeUrl(base, token, path, params);
      if url.Err? {
        assert sent + [] == sent;
        return Err(url.error);
      }
      r := remote(GetRequest(url.value), |sent|);
      sent := sent + [GetRequest(url.value)];
    }

    /** `post`: a POST of the payload to the built URL (no query parameters
        besides the token). */
    method Post(path: string, payload: Payload) returns (r: Result<Response, ApiError>)
      modifies this`sent
      ensures var (resp, reqs) := Exchange(path, [], Some(payload), |old(sent)|);
              r == resp && sent == old(sent) + reqs
    {
      var url := MakeUrl(base, token, path, []);
      if url.Err? {
        assert sent + [] == sent;
        return Err(url.error);
      }
      r := remote(PostRequest(url.value, payload), |sent|);
      sent := sent + [PostRequest(url.value, payload)];
    }

    /** `#[cached] get_assignable`: a repeated id is answered from the store
        without any request; a new id is fetched once and its result, success
        or error, is stored. No entry is ever removed or changed. */
    method GetAssignable(id: string) returns (r: Result<Assignable, ApiError>)
      modifies this`sent, this`assignableCache
      ensures id in old(assignableCache) ==>
                r == old(assignableCache)[id] && sent == old(sent) && assignableCache == old(assignableCache)
      ensures id !in old(assignableCache) ==>
                var (resp, reqs) := Exchange(AssignablePath(id), [], None, |old(sent)|);
                r == AsAssignable(resp) && sent == old(sent) + reqs
                && assignableCache == old(assignableCache)[id := r]
      ensures forall k :: k in old(assignableCache) ==> k in assignableCache && assignableCache[k] == old(assignableCache)[k]
      ensures id in assignableCache && assignableCache[id] == r
    {
      if id in assignableCache {
        return assignableCache[id];
      }
      var resp := Fetch(AssignablePath(id), []);
      r := AsAssignable(resp);
      assignableCache := assignableCache[id := r];
    }

    /** `#[cached] get_me`: fetched on the first call only. */
    method GetMe() returns (r: Result<CurrentUser, ApiError>)
      modifies this`sent, this`meCache
      ensures old(meCache).Some? ==> r == old(meCache).value && sent == old(sent) && meCache == old(meCache)
      ensures old(meCache).None? ==>
                var (resp, reqs) := Exchange("/v1/Users/loggeduser", [], None, |old(sent)|);
                r == AsUser(resp) && sent == old(sent) + reqs && meCache == Some(r)
    {
      if meCache.Some? {
        return meCache.value;
      }
      var resp := Fetch("/v1/Users/loggeduser", []);
      r := AsUser(resp);
      meCache := Some(r);
    }

    /** `get_current_sprint_open_tasks`: not cached; one GET per call. */
    method GetCurrentSprintOpenTasks(projectName: string) returns (r: Result<seq<Assignable>, ApiError>)
      modifies this`sent
      ensures var (resp, reqs) := Exchange("/v2/assignables", SprintTasksParams(projectName), None, |old(sent)|);
              r == ShapeOpenTasks(resp) && sent == old(sent) + reqs
    {
      var resp := Fetch("/v2/assignables", SprintTasksParams(projectName));
      r := ShapeOpenTasks(resp);
    }

    /** `assign_task`: posts the single-assignment payload to the ticket. */
    method AssignTask(assignableId: nat, userId: nat) returns (r: Result<Assignable, ApiError>)
      modifies this`sent
      ensures var (resp, reqs) := Exchange(AssignablePath(Decimal(assignableId)), [], Some(AssignPayload(userId)), |old(sent)|);
              r == AsAssignable(resp) && sent == old(sent) + reqs
    {
      var resp := Post(AssignablePath(Decimal(assignableId)), AssignPayload(userId));
      r := AsAssignable(resp);
    }

    /** `update_entity_state`: posts the id and the state's code. */
    method UpdateEntityState(assignableId: nat, state: EntityStates) returns (r: Result<Assignable, ApiError>)
      modifies this`sent
      ensures var (resp, reqs) := Exchange(AssignablePath(Decimal(assignableId)), [], Some(StatePayload(assignableId, state)), |old(sent)|);
              r == AsAssignable(resp) && sent == old(sent) + reqs
    {
      var resp := Post(AssignablePath(Decimal(assignableId)), StatePayload(assignableId, state));
      r := AsAssignable(resp);
    }
  }
}
