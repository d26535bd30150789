/** The request-shaping layer of the DeployBot API client (`DeployBotAPI`, wp-deploybot-api.php).
    Every endpoint turns its arguments into a request (route, parameters, HTTP method) and
    hands it to `run`; here `run` returns that request instead of sending it. */
module DeployBot {
  import opened PhpValues

  datatype HttpMethod = GET | POST

  /** What `run` passes on to `build_request`: the route below the base URI, the
      parameters, and the HTTP method. */
  datatype Request = Request(route: string, params: Dict<Value>, verb: HttpMethod)

  // ---------------------------------------------------------------------------
  // Configuration

  /** The API root of an account: `https://<subdomain>.deploybot.com/api/v1/`. */
  function BaseUri(subdomain: string): (uri: string)
    ensures |uri| == |subdomain| + 30
    ensures uri[..8] == "https://" && uri[|uri| - 22..] == ".deploybot.com/api/v1/"
    ensures uri[8..|uri| - 22] == subdomain
  {
    "https://" + subdomain + ".deploybot.com/api/v1/"
  }

  /** The value set_headers stores under `headers`. */
  function HeadersValue(apiKey: string): Value
  {
    Arr([("X-Api-Token", Str(apiKey)), ("Accept", Str("application/json"))])
  }

  /** The client object: its API key, the API root and the `args` array that the request
      builder reads. */
  class DeployBotApi {
    var apiKey: string
    var baseUri: string
    /** `$this->args`; None while it is still PHP's null, before set_headers or clear runs. */
    var args: Option<Dict<Value>>

    ghost predicate Valid()
      reads this
    {
      args.Some? ==> UniqueKeys(args.value)
    }

    /** `$this->args` as an array: PHP treats a null being written into as the empty array. */
    function CurrentArgs(): Dict<Value>
      reads this
    {
      if args.Some? then args.value else []
    }

    constructor (subdomain: string, apiKey: string)
      ensures Valid()
      ensures this.apiKey == apiKey && baseUri == BaseUri(subdomain) && args == None
    {
      this.apiKey := "";
      baseUri := "";
      args := None;
      new;
      SetApiKey(apiKey);
      SetSubdomain(subdomain);
    }

    method SetApiKey(apiKey: string)
      requires Valid()
      modifies this`apiKey
      ensures Valid() && this.apiKey == apiKey
      ensures baseUri == old(baseUri) && args == old(args)
    {
      this.apiKey := apiKey;
    }

    method SetSubdomain(subdomain: string)
      requires Valid()
      modifies this`baseUri
      ensures Valid() && baseUri == BaseUri(subdomain)
      ensures apiKey == old(apiKey) && args == old(args)
    {
      baseUri := "https://" + subdomain + ".deploybot.com/api/v1/";
    }

    /** Stores the authentication and content-type headers under `args["headers"]`;
        every other entry of `args` keeps its value and its place. */
    method SetHeaders()
      requires Valid()
      modifies this`args
      ensures Valid() && args.Some?
      ensures Lookup(args.value, "headers") == Some(HeadersValue(apiKey))
      ensures forall k :: k != "headers" ==> Lookup(args.value, k) == Lookup(old(CurrentArgs()), k)
      ensures Keys(args.value) ==
                if "headers" in Keys(old(CurrentArgs())) then Keys(old(CurrentArgs()))
                else Keys(old(CurrentArgs())) + ["headers"]
      ensures apiKey == old(apiKey) && baseUri == old(baseUri)
    {
      var current := CurrentArgs();
      PutSpec(current, "headers", HeadersValue(apiKey));
      args := Some(Put(current, "headers", HeadersValue(apiKey)));
    }

    method Clear()
      modifies this`args
      ensures Valid() && args == Some([])
      ensures apiKey == old(apiKey) && baseUri == old(baseUri)
    {
      args := Some([]);
    }
  }

  /** `run($route, $body = array(), $method = 'GET')`: the request that would be built and
      fetched. The HTTP exchange itself is not part of this model. */
  function Run(route: string, body: Dict<Value> := [], verb: HttpMethod := GET): (req: Request)
    ensures req.route == route && req.params == body && req.verb == verb
  {
    Request(route, body, verb)
  }

  // ---------------------------------------------------------------------------
  // parse_args

  /** The cleansing rule for one entry: kept unless its value is null. */
  function Keep(key: string, v: Value): Dict<Value>
  {
    if v == Null then [] else [(key, v)]
  }

  /** The entries of args that parse_args keeps, in their original order. */
  function Cleansed(args: Dict<Value>): Dict<Value>
  {
    if args == [] then []
    else
      var n := |args| - 1;
      Cleansed(args[..n]) + Keep(args[n].0, args[n].1)
  }

  /** What parse_args returns: the cleansed arguments merged onto `merge`. */
  function ParseArgsSpec(args: Dict<Value>, merge: Dict<Value> := []): Dict<Value>
  {
    ArrayMerge(merge, Cleansed(args))
  }

  /** `parse_args($args, $merge)`: keeps each entry whose value is not null (or is a non-empty
      array, which a null never is) and returns the kept entries merged onto `merge`. */
  method ParseArgs(args: Dict<Value>, merge: Dict<Value> := []) returns (r: Dict<Value>)
    requires UniqueKeys(args)
    ensures r == ParseArgsSpec(args, merge)
  {
    var results: Dict<Value> := [];
    var i := 0;
    while i < |args|
      invariant 0 <= i <= |args|
      invariant results == Cleansed(args[..i])
    {
      var (key, val) := args[i];
      assert args[..i + 1] == args[..i] + [args[i]];
      if val != Null || IsNonEmptyArray(val) {
        NotYetKept(args, i);
        PutNew(results, key, val);
        results := Put(results, key, val);
      }
      i := i + 1;
    }
    assert args[..|args|] == args;
    r := ArrayMerge(merge, results);
  }

  /** Each entry parse_args meets has a key it has not kept before. */
  lemma NotYetKept(args: Dict<Value>, i: nat)
    requires UniqueKeys(args) && i < |args|
    ensures args[i].0 !in Keys(Cleansed(args[..i]))
  {
    var c := Cleansed(args[..i]);
    if args[i].0 in Keys(c) {
      var j :| 0 <= j < |c| && Keys(c)[j] == args[i].0;
      CleansedMembers(args[..i], c[j]);
      assert false;
    }
  }

  /** An entry is kept exactly when it is an entry of args whose value is not null. */
  lemma {:induction false} CleansedMembers(args: Dict<Value>, e: (string, Value))
    ensures e in Cleansed(args) <==> e in args && e.1 != Null
  {
    if args != [] {
      var n := |args| - 1;
      assert args == args[..n] + [args[n]];
      CleansedMembers(args[..n], e);
    }
  }

  lemma CleansedOfTwo(a: (string, Value), b: (string, Value))
    ensures Cleansed([a, b]) == Keep(a.0, a.1) + Keep(b.0, b.1)
  {
    assert [a][..0] == [];
    assert Cleansed([a]) == Keep(a.0, a.1);
    assert [a, b][..1] == [a];
  }

  lemma CleansedOfThree(a: (string, Value), b: (string, Value), c: (string, Value))
    ensures Cleansed([a, b, c]) == Keep(a.0, a.1) + Keep(b.0, b.1) + Keep(c.0, c.1)
  {
    assert [a, b, c][..2] == [a, b];
    CleansedOfTwo(a, b);
  }

  lemma CleansedOfFour(a: (string, Value), b: (string, Value), c: (string, Value), d: (string, Value))
    ensures Cleansed([a, b, c, d]) == Keep(a.0, a.1) + Keep(b.0, b.1) + Keep(c.0, c.1) + Keep(d.0, d.1)
  {
    assert [a, b, c, d][..3] == [a, b, c];
    CleansedOfThree(a, b, c);
  }

  /** `pos` places the entries of s at strictly increasing positions of t. */
  ghost predicate Embeds<T>(pos: seq<nat>, s: seq<T>, t: seq<T>)
  {
    && |pos| == |s|
    && (forall i :: 0 <= i < |s| ==> pos[i] < |t| && t[pos[i]] == s[i])
    && (forall i, j :: 0 <= i < j < |s| ==> pos[i] < pos[j])
  }

  /** s is t with some entries deleted: what is left keeps its relative order. */
  ghost predicate IsSubsequence<T>(s: seq<T>, t: seq<T>)
  {
    exists pos: seq<nat> :: Embeds(pos, s, t)
  }

  /** parse_args keeps the entries it keeps in their original relative order. */
  lemma {:induction false} CleansedIsSubsequence(args: Dict<Value>)
    ensures IsSubsequence(Cleansed(args), args)
  {
    if args == [] {
      assert Embeds([], Cleansed(args), args);
    } else {
      var n := |args| - 1;
      var prefix := args[..n];
      CleansedIsSubsequence(prefix);
      var pos :| Embeds(pos, Cleansed(prefix), prefix);
      if args[n].1 == Null {
        assert Embeds(pos, Cleansed(args), args);
      } else {
        assert Embeds(pos + [n], Cleansed(args), args);
      }
    }
  }

  /** The cleansed arguments of a well-formed array are a well-formed array. */
  lemma CleansedUnique(args: Dict<Value>)
    requires UniqueKeys(args)
    ensures UniqueKeys(Cleansed(args))
  {
    CleansedIsSubsequence(args);
    var c := Cleansed(args);
    var pos :| Embeds(pos, c, args);
    forall i, j | 0 <= i < j < |c| ensures c[i].0 != c[j].0 {
      assert args[pos[i]] == c[i] && args[pos[j]] == c[j];
    }
  }

  /** The cleansed arguments hold a key exactly when args holds it with a non-null value,
      and then with that same value. */
  lemma CleansedLookup(args: Dict<Value>, k: string)
    requires UniqueKeys(args)
    ensures Lookup(Cleansed(args), k) ==
              var a := Lookup(args, k); if a.Some? && a.value != Null then a else None
  {
    var c := Cleansed(args);
    CleansedUnique(args);
    var a := Lookup(args, k);
    var r := Lookup(c, k);
    if r.Some? {
      CleansedMembers(args, (k, r.value));
      LookupMember(args, k, r.value);
    } else if a.Some? && a.value != Null {
      CleansedMembers(args, (k, a.value));
      LookupMember(c, k, a.value);
    }
  }

  /** parse_args as a whole: `merge`'s keys first, in their order, then the kept keys
      `merge` lacks, in their order; a key with a non-null value in args takes that value,
      every other key keeps `merge`'s value; and the result is a well-formed array. */
  lemma ParseArgsMerge(args: Dict<Value>, merge: Dict<Value>, k: string)
    requires UniqueKeys(args) && UniqueKeys(merge)
    ensures UniqueKeys(ParseArgsSpec(args, merge))
    ensures Keys(ParseArgsSpec(args, merge)) == Keys(merge) + Unseen(Keys(Cleansed(args)), Keys(merge))
    ensures Lookup(ParseArgsSpec(args, merge), k) ==
              var a := Lookup(args, k); if a.Some? && a.value != Null then a else Lookup(merge, k)
  {
    CleansedUnique(args);
    ArrayMergeKeys(merge, Cleansed(args));
    ArrayMergeLookup(merge, Cleansed(args), k);
    CleansedLookup(args, k);
  }

  /** Without a merge array, parse_args returns just the cleansed arguments. */
  lemma ParseArgsAlone(args: Dict<Value>)
    requires UniqueKeys(args)
    ensures ParseArgsSpec(args) == Cleansed(args)
  {
    CleansedUnique(args);
    ArrayMergeOntoEmpty(Cleansed(args));
  }

  lemma {:induction false} CleansedNoNulls(m: Dict<Value>)
    requires NoNulls(m)
    ensures Cleansed(m) == m
  {
    if m != [] {
      var n := |m| - 1;
      CleansedNoNulls(m[..n]);
      assert m == m[..n] + [m[n]];
    }
  }

  /** Running parse_args again on its own result, with nothing to merge, changes nothing,
      provided the merge array held no nulls (those would be dropped by the second pass). */
  lemma ParseArgsIdempotent(args: Dict<Value>, merge: Dict<Value>)
    requires UniqueKeys(args) && UniqueKeys(merge) && NoNulls(merge)
    ensures ParseArgsSpec(ParseArgsSpec(args, merge)) == ParseArgsSpec(args, merge)
  {
    var m := ParseArgsSpec(args, merge);
    ParseArgsMerge(args, merge, "");
    forall i | 0 <= i < |m| ensures m[i].1 != Null {
      ArrayMergeMembers(merge, Cleansed(args), m[i]);
      if m[i] in Cleansed(args) {
        CleansedMembers(args, m[i]);
      }
    }
    CleansedNoNulls(m);
    ArrayMergeOntoEmpty(m);
  }

  // ---------------------------------------------------------------------------
  // Endpoints

  function GetUsers(limit: int := 50, after: Value := Null): (req: Request)
    ensures req.route == "users" && req.verb == GET
    ensures req.params == [("limit", Int(limit))] + Keep("after", after)
  {
    var args := [("limit", Int(limit)), ("after", after)];
    ParseArgsAlone(args);
    CleansedOfTwo(args[0], args[1]);
    Run("users", ParseArgsSpec(args))
  }

  function GetUser(userId: Value): (req: Request)
    ensures req.route == "users/" + PhpString(userId) && req.params == [] && req.verb == GET
  {
    Run("users/" + PhpString(userId))
  }

  function ListDeployments(repositoryId: Value, environmentId: Value, limit: int := 50, after: Value := Null): (req: Request)
    ensures req.route == "deployments" && req.verb == GET
    ensures req.params == Keep("repository_id", repositoryId) + Keep("environment_id", environmentId)
                          + [("limit", Int(limit))] + Keep("after", after)
  {
    var args := [("repository_id", repositoryId), ("environment_id", environmentId),
                 ("limit", Int(limit)), ("after", after)];
    ParseArgsAlone(args);
    CleansedOfFour(args[0], args[1], args[2], args[3]);
    Run("deployments", ParseArgsSpec(args))
  }

  function GetDeployment(deploymentId: Value): (req: Request)
    ensures req.route == "deployments/" + PhpString(deploymentId) && req.params == [] && req.verb == GET
  {
    Run("deployments/" + PhpString(deploymentId))
  }

  /** `trigger_deployment($environment_id, $args)`: POSTs the caller's array with
      `environment_id` set; nothing is cleansed, so null entries are sent as they are. */
  method TriggerDeployment(environmentId: Value, args: Dict<Value> := []) returns (req: Request)
    ensures req.route == "deployments" && req.verb == POST
    ensures Lookup(req.params, "environment_id") == Some(environmentId)
    ensures forall k :: k != "environment_id" ==> Lookup(req.params, k) == Lookup(args, k)
    ensures Keys(req.params) ==
              if "environment_id" in Keys(args) then Keys(args) else Keys(args) + ["environment_id"]
    ensures UniqueKeys(args) ==> UniqueKeys(req.params)
  {
    var body := args;
    PutSpec(body, "environment_id", environmentId);
    body := Put(body, "environment_id", environmentId);
    req := Run("deployments", body, POST);
  }

  function GetRepository(repositoryId: Value): (req: Request)
    ensures req.route == "repositories/" + PhpString(repositoryId) && req.params == [] && req.verb == GET
  {
    Run("repositories/" + PhpString(repositoryId))
  }

  function ListRepositories(limit: int := 50, after: Value := Null): (req: Request)
    ensures req.route == "repositories" && req.verb == GET
    ensures req.params == [("limit", Int(limit))] + Keep("after", after)
  {
    var args := [("limit", Int(limit)), ("after", after)];
    ParseArgsAlone(args);
    CleansedOfTwo(args[0], args[1]);
    Run("repositories", ParseArgsSpec(args))
  }

  function GetEnvironment(environmentId: Value): (req: Request)
    ensures req.route == "environment/" + PhpString(environmentId) && req.params == [] && req.verb == GET
  {
    Run("environment/" + PhpString(environmentId))
  }

  /** `list_environments` as written: the `limit` argument is ignored and 50 is always sent. */
  function ListEnvironments(repositoryId: Value := Null, limit: int := 50, after: Value := Null): (req: Request)
    ensures req.route == "environments" && req.verb == GET
    ensures req.params == Keep("repository_id", repositoryId) + [("limit", Int(50))] + Keep("after", after)
  {
    var args := [("repository_id", repositoryId), ("limit", Int(50)), ("after", after)];
    ParseArgsAlone(args);
    CleansedOfThree(args[0], args[1], args[2]);
    Run("environments", ParseArgsSpec(args))
  }

  /** `list_environments` as its documentation describes it: `limit` is sent as given. */
  function ListEnvironmentsIntended(repositoryId: Value := Null, limit: int := 50, after: Value := Null): (req: Request)
    ensures req.route == "environments" && req.verb == GET
    ensures req.params == Keep("repository_id", repositoryId) + [("limit", Int(limit))] + Keep("after", after)
  {
    var args := [("repository_id", repositoryId), ("limit", Int(limit)), ("after", after)];
    ParseArgsAlone(args);
    CleansedOfThree(args[0], args[1], args[2]);
    Run("environments", ParseArgsSpec(args))
  }

  /** The as-written list_environments sends limit 50 whatever limit it is given, so it
      differs from the documented behaviour for every limit but the default. */
  lemma ListEnvironmentsIgnoresLimit(repositoryId: Value, limit: int, after: Value)
    ensures Lookup(ListEnvironments(repositoryId, limit, after).params, "limit") == Some(Int(50))
    ensures Lookup(ListEnvironmentsIntended(repositoryId, limit, after).params, "limit") == Some(Int(limit))
    ensures (ListEnvironments(repositoryId, limit, after) == ListEnvironmentsIntended(repositoryId, limit, after))
              <==> limit == 50
  {
    var kept := Keep("repository_id", repositoryId);
    var asWritten := ListEnvironments(repositoryId, limit, after).params;
    var intended := ListEnvironmentsIntended(repositoryId, limit, after).params;
    assert asWritten[|kept|] == ("limit", Int(50));
    assert intended[|kept|] == ("limit", Int(limit));
    LookupSingleLimit(kept, Int(50), Keep("after", after));
    LookupSingleLimit(kept, Int(limit), Keep("after", after));
  }

  /** A cleansed list holding `limit` once, between an optional `repository_id` and an
      optional `after`, reads back the given limit. */
  lemma LookupSingleLimit(before: Dict<Value>, limit: Value, after: Dict<Value>)
    requires before == [] || (|before| == 1 && before[0].0 == "repository_id")
    requires after == [] || (|after| == 1 && after[0].0 == "after")
    ensures Lookup(before + [("limit", limit)] + after, "limit") == Some(limit)
  {
    var m := before + [("limit", limit)] + after;
    assert m[|before|] == ("limit", limit);
    assert forall j :: 0 <= j < |before| ==> m[j].0 != "limit";
  }

  function GetServer(serverId: Value): (req: Request)
    ensures req.route == "server/" + PhpString(serverId) && req.params == [] && req.verb == GET
  {
    Run("server/" + PhpString(serverId))
  }

  function ListServers(repositoryId: Value := Null, environmentId: Value := Null, limit: int := 50, after: Value := Null): (req: Request)
    ensures req.route == "servers" && req.verb == GET
    ensures req.params == Keep("repository_id", repositoryId) + Keep("environment_id", environmentId)
                          + [("limit", Int(limit))] + Keep("after", after)
  {
    var args := [("repository_id", repositoryId), ("environment_id", environmentId),
                 ("limit", Int(limit)), ("after", after)];
    ParseArgsAlone(args);
    CleansedOfFour(args[0], args[1], args[2], args[3]);
    Run("servers", ParseArgsSpec(args))
  }

  /** The routes of a single user, deployment or repository are their list routes followed
      by "/" and the id; those of a single environment or server use the singular resource
      name ("environment/", "server/") and so are not. */
  lemma ItemRoutes(id: Value)
    ensures GetUser(id).route == GetUsers().route + "/" + PhpString(id)
    ensures GetDeployment(id).route == ListDeployments(Null, Null).route + "/" + PhpString(id)
    ensures GetRepository(id).route == ListRepositories().route + "/" + PhpString(id)
    ensures GetEnvironment(id).route != ListEnvironments().route + "/" + PhpString(id)
    ensures GetServer(id).route != ListServers().route + "/" + PhpString(id)
  {
    var s := PhpString(id);
    assert "users/" + s == "users" + "/" + s;
    assert "deployments/" + s == "deployments" + "/" + s;
    assert "repositories/" + s == "repositories" + "/" + s;
    assert |GetEnvironment(id).route| == 12 + |s| && |ListEnvironments().route + "/" + s| == 13 + |s|;
    assert |GetServer(id).route| == 7 + |s| && |ListServers().route + "/" + s| == 8 + |s|;
  }

  // ---------------------------------------------------------------------------
  // response_code_msg

  const UnknownCodeMsg := "Response code unknown."

  /** The documented DeployBot status codes and their messages. */
  const StatusMessages: map<int, string> := map[
    200 := "Success.",
    400 := "Bad Request: Malformed JSON payload.",
    401 := "Authentication Required: Missing or invalid API token.",
    403 := "Forbidden: Attempting to perform a restricted action.",
    422 := "Unprocessable Entity: Something is not right with the request data.",
    500 := "Internal Server Error: An error on our deploybot side. Please contact support if the error persists."
  ]

  function ResponseCodeMsg(code: int): (msg: string)
    ensures code in StatusMessages ==> msg == StatusMessages[code]
    ensures code !in StatusMessages ==> msg == UnknownCodeMsg
  {
    match code
    case 200 => "Success."
    case 400 => "Bad Request: Malformed JSON payload."
    case 401 => "Authentication Required: Missing or invalid API token."
    case 403 => "Forbidden: Attempting to perform a restricted action."
    case 422 => "Unprocessable Entity: Something is not right with the request data."
    case 500 => "Internal Server Error: An error on our deploybot side. Please contact support if the error persists."
    case _ => UnknownCodeMsg
  }

  /** The message names the code: the six documented codes get six different messages,
      none of them the fallback, and every other code gets the fallback. */
  lemma ResponseCodeMsgIdentifiesCode(code: int, other: int)
    ensures ResponseCodeMsg(code) == UnknownCodeMsg <==> code !in StatusMessages
    ensures code in StatusMessages && ResponseCodeMsg(code) == ResponseCodeMsg(other) ==> code == other
  {
  }
}
