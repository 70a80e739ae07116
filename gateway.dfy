/**
 * The service gateway's decision rules: screening the caller's address and
 * the requested service, reading the governance identity of a request
 * (session, bearer token, `authtoken` argument), validating it, building
 * the message headers with the per-actor role cache, splitting the query
 * arguments of a GET request, filling the parameter list of a service
 * operation, and naming the operation a REST request maps to.
 *
 * Flask's request object, the RPC clients and the service registry are not
 * modelled: what they return (the session, the headers, the query
 * arguments, whether an actor or a token is known, the roles found for an
 * actor, the registered services, the clock) is passed in.
 */
module Gateway {
  import opened Wrappers
  import Text

  /**
   * The actor id of an anonymous request. Its value lives in
   * pyon/core/governance, which is not part of this model; nothing proved
   * here depends on it.
   */
  const DefaultActorId: string := "anonymous"
  /** The expiry of an anonymous request: no expiry. */
  const DefaultExpiry: string := "0"

  /** The exceptions the gateway raises towards the HTTP client. */
  datatype GatewayError = BadRequest | Unauthorized | Inconsistent | AttributeError

  /** Python truthiness of an optional string: present and non-empty. */
  predicate Given(o: Option<string>) {
    o.Some? && o.value != ""
  }

  // ---------------------------------------------------------------------
  // Screening: trusted originators, service white- and blacklist

  /** The screening configuration the gateway keeps from its config tree. */
  datatype Screening = Screening(
    trustedOriginators: Option<seq<string>>,
    serviceWhitelist: seq<string>,
    serviceBlacklist: seq<string>)

  /** An empty list of trusted originators means that no address is checked. */
  function Configure(trusted: seq<string>, whitelist: seq<string>, blacklist: seq<string>): (c: Screening)
    ensures c.trustedOriginators.Some? ==> c.trustedOriginators.value != []
  {
    Screening(if trusted == [] then None else Some(trusted), whitelist, blacklist)
  }

  function IsTrustedAddress(c: Screening, address: string): bool {
    c.trustedOriginators.None? || address in c.trustedOriginators.value
  }

  /** With no configured list every address is trusted, otherwise exactly the listed ones. */
  lemma TrustedAddresses(trusted: seq<string>, whitelist: seq<string>, blacklist: seq<string>, address: string)
    ensures IsTrustedAddress(Configure(trusted, whitelist, blacklist), address) <==> trusted == [] || address in trusted
  {
  }

  /** What the service registry knows of a service: the client class, if any. */
  datatype ServiceEntry = ServiceEntry(client: Option<string>)

  /** Whether the white- and blacklist let a service name through. */
  predicate Exposed(c: Screening, name: string) {
    (c.serviceWhitelist == [] || name in c.serviceWhitelist) && name !in c.serviceBlacklist
  }

  function SecureServiceClient(c: Screening, name: string, registry: map<string, ServiceEntry>): Result<string, GatewayError> {
    if c.serviceWhitelist != [] && name !in c.serviceWhitelist then Failure(Unauthorized)
    else if c.serviceBlacklist != [] && name in c.serviceBlacklist then Failure(Unauthorized)
    else if name !in registry then Failure(BadRequest)
    else if registry[name].client.None? then Failure(Inconsistent)
    else Success(registry[name].client.value)
  }

  /** Each way of obtaining a client, and each way of being refused one. */
  lemma SecureServiceClientSpec(c: Screening, name: string, registry: map<string, ServiceEntry>)
    ensures SecureServiceClient(c, name, registry) == Failure(Unauthorized) <==> !Exposed(c, name)
    ensures SecureServiceClient(c, name, registry) == Failure(BadRequest) <==> Exposed(c, name) && name !in registry
    ensures SecureServiceClient(c, name, registry) == Failure(Inconsistent)
      <==> Exposed(c, name) && name in registry && registry[name].client.None?
    ensures SecureServiceClient(c, name, registry).Success?
      <==> Exposed(c, name) && name in registry && registry[name].client.Some?
    ensures SecureServiceClient(c, name, registry).Success?
      ==> SecureServiceClient(c, name, registry).value == registry[name].client.value
  {
  }

  // ---------------------------------------------------------------------
  // Governance identity of a request

  /**
   * The token of an `Authorization` header, if it is a bearer credential
   * (section 2.1 of RFC 6750): exactly two space-separated parts, the
   * first one `bearer` in any case. Otherwise the empty string.
   */
  function BearerToken(authorization: Option<string>): string {
    if !Given(authorization) then ""
    else
      var parts := Text.Split(authorization.value, ' ');
      if |parts| == 2 && Text.Lower(parts[0]) == "bearer" then parts[1] else ""
  }

  /** A token is only ever read from `<scheme> <token>` with a bearer scheme. */
  lemma BearerTokenShape(authorization: Option<string>)
    ensures BearerToken(authorization) != "" ==>
      authorization.Some? && ' ' !in BearerToken(authorization) &&
      var scheme := Text.Before(authorization.value, ' ');
      Text.Lower(scheme) == "bearer" && authorization.value == scheme + " " + BearerToken(authorization)
  {
    if BearerToken(authorization) != "" {
      var h := authorization.value;
      var parts := Text.Split(h, ' ');
      Text.JoinSplit(h, ' ');
      Text.SplitPieces(h, ' ');
      assert Text.Join(parts, ' ') == parts[0] + [' '] + parts[1];
    }
  }

  /** Every bearer credential yields its token. */
  lemma BearerTokenRoundTrip(scheme: string, token: string)
    requires Text.Lower(scheme) == "bearer"
    requires ' ' !in scheme && ' ' !in token
    ensures BearerToken(Some(scheme + " " + token)) == token
  {
    Text.SplitAround(scheme, ' ', token);
    Text.SplitWithout(token, ' ');
    assert scheme + " " + token == scheme + [' '] + token;
  }

  /** The header token, else `authtoken` of the JSON parameters if there are any, else of the query. */
  function AuthToken(authorization: Option<string>, jsonParams: map<string, string>, queryArgs: map<string, string>): string {
    var bearer := BearerToken(authorization);
    if bearer != "" then bearer
    else if jsonParams != map[] then (if "authtoken" in jsonParams then jsonParams["authtoken"] else "")
    else if "authtoken" in queryArgs then queryArgs["authtoken"]
    else ""
  }

  /** The query is consulted only when there is neither a header token nor a JSON body. */
  lemma AuthTokenSources(authorization: Option<string>, jsonParams: map<string, string>, queryArgs: map<string, string>)
    ensures BearerToken(authorization) != "" ==> AuthToken(authorization, jsonParams, queryArgs) == BearerToken(authorization)
    ensures AuthToken(authorization, jsonParams, queryArgs) != "" ==>
      AuthToken(authorization, jsonParams, queryArgs) == BearerToken(authorization) ||
      (jsonParams != map[] && "authtoken" in jsonParams && AuthToken(authorization, jsonParams, queryArgs) == jsonParams["authtoken"]) ||
      (jsonParams == map[] && "authtoken" in queryArgs && AuthToken(authorization, jsonParams, queryArgs) == queryArgs["authtoken"])
    ensures BearerToken(authorization) == "" && jsonParams != map[] ==>
      AuthToken(authorization, jsonParams, queryArgs) == if "authtoken" in jsonParams then jsonParams["authtoken"] else ""
    ensures BearerToken(authorization) == "" && jsonParams == map[] ==>
      AuthToken(authorization, jsonParams, queryArgs) == if "authtoken" in queryArgs then queryArgs["authtoken"] else ""
  {
  }

  /** The user session of a request: its actor, if any, and `valid_until` in seconds. */
  datatype Session = Session(actorId: Option<string>, validUntil: int)

  /** What `check_authentication_token` resolved a token into: the keys it returned. */
  datatype TokenInfo = TokenInfo(actorId: Option<string>, expiry: Option<string>)

  function OrElse(o: Option<string>, d: string): string {
    if o.Some? then o.value else d
  }

  /**
   * The `(actor_id, expiry)` of a request. `resolved` is what resolving
   * the request's token gave, `None` when that raised.
   */
  function GovernanceInfo(session: Session, authorization: Option<string>, jsonParams: map<string, string>,
                          queryArgs: map<string, string>, resolved: Option<TokenInfo>): (string, string)
  {
    var fromSession :=
      if Given(session.actorId) then (session.actorId.value, Text.IntToDecimal(session.validUntil * 1000))
      else (DefaultActorId, DefaultExpiry);
    var token := AuthToken(authorization, jsonParams, queryArgs);
    if token != "" && resolved.Some? then
      (OrElse(resolved.value.actorId, fromSession.0), OrElse(resolved.value.expiry, fromSession.1))
    else fromSession
  }

  /** Where the identity comes from: the defaults, the session, or the resolved token. */
  lemma GovernanceInfoSources(session: Session, authorization: Option<string>, jsonParams: map<string, string>,
                              queryArgs: map<string, string>, resolved: Option<TokenInfo>)
    ensures var token := AuthToken(authorization, jsonParams, queryArgs);
      var info := GovernanceInfo(session, authorization, jsonParams, queryArgs, resolved);
      (token == "" || resolved.None? ==>
        info == if Given(session.actorId) then (session.actorId.value, Text.IntToDecimal(session.validUntil * 1000))
                else (DefaultActorId, DefaultExpiry)) &&
      (token != "" && resolved.Some? && resolved.value.actorId.Some? ==> info.0 == resolved.value.actorId.value) &&
      (token != "" && resolved.Some? && resolved.value.expiry.Some? ==> info.1 == resolved.value.expiry.value) &&
      (token != "" && resolved.Some? && resolved.value.actorId.None? ==>
        info.0 == if Given(session.actorId) then session.actorId.value else DefaultActorId) &&
      (token != "" && resolved.Some? && resolved.value.expiry.None? ==>
        info.1 == if Given(session.actorId) then Text.IntToDecimal(session.validUntil * 1000) else DefaultExpiry)
  {
  }

  /**
   * `validate_request`. `known` says whether the identity service knows
   * the actor; `now` is the current time in milliseconds.
   */
  function ValidateRequest(actorId: string, expiry: string, known: bool, now: int): Result<(string, string), GatewayError> {
    if actorId == DefaultActorId then Success((DefaultActorId, DefaultExpiry))
    else if !known then Success((DefaultActorId, DefaultExpiry))
    else
      match Text.ParseInt(expiry)
      case None => Failure(Inconsistent)
      case Some(e) => if 0 < e < now then Failure(Unauthorized) else Success((actorId, expiry))
  }

  /** The five outcomes of validation. */
  lemma ValidateRequestSpec(actorId: string, expiry: string, known: bool, now: int)
    ensures actorId == DefaultActorId || !known ==> ValidateRequest(actorId, expiry, known, now) == Success((DefaultActorId, DefaultExpiry))
    ensures actorId != DefaultActorId && known ==>
      (ValidateRequest(actorId, expiry, known, now) == Failure(Inconsistent) <==> Text.ParseInt(expiry).None?)
    ensures actorId != DefaultActorId && known ==>
      (ValidateRequest(actorId, expiry, known, now) == Failure(Unauthorized) <==>
        Text.ParseInt(expiry).Some? && 0 < Text.ParseInt(expiry).value < now)
    ensures ValidateRequest(actorId, expiry, known, now).Success? ==>
      ValidateRequest(actorId, expiry, known, now).value == (DefaultActorId, DefaultExpiry) ||
      ValidateRequest(actorId, expiry, known, now).value == (actorId, expiry)
    ensures actorId != DefaultActorId && known && Text.ParseInt(expiry).Some? && !(0 < Text.ParseInt(expiry).value < now) ==>
      ValidateRequest(actorId, expiry, known, now) == Success((actorId, expiry))
  {
  }

  /** A request that passes validation for a named actor has not expired. */
  lemma ValidatedNotExpired(actorId: string, expiry: string, known: bool, now: int)
    requires ValidateRequest(actorId, expiry, known, now).Success?
    requires ValidateRequest(actorId, expiry, known, now).value.0 != DefaultActorId
    ensures Text.ParseInt(expiry).Some?
    ensures var e := Text.ParseInt(expiry).value; e <= 0 || e >= now
  {
  }

  /**
   * The expiry the gateway writes for a session, `str(valid_until * 1000)`,
   * always reads back as an integer: validating a session's identity never
   * raises Inconsistent.
   */
  lemma SessionIdentityIsReadable(session: Session, authorization: Option<string>, jsonParams: map<string, string>,
                                  queryArgs: map<string, string>, known: bool, now: int)
    requires AuthToken(authorization, jsonParams, queryArgs) == ""
    ensures var info := GovernanceInfo(session, authorization, jsonParams, queryArgs, None);
      ValidateRequest(info.0, info.1, known, now) != Failure(Inconsistent)
  {
    Text.ParseDecimal(session.validUntil * 1000);
    if !Given(session.actorId) {
      assert Text.ParseInt(DefaultExpiry) == Some(0);
    }
  }

  // ---------------------------------------------------------------------
  // Message headers and the user role cache

  /** The role names of an actor, per organization. */
  type Roles = map<string, seq<string>>

  /** The user role cache: an actor maps to its roles, or to `None`. */
  type RoleCache = map<string, Option<Roles>>

  datatype MessageHeaders = MessageHeaders(actorId: string, expiry: string, roles: Roles)

  /** The headers built for a request, the cache after it, and whether the roles were looked up. */
  datatype Built = Built(headers: MessageHeaders, cache: RoleCache, queried: bool)

  /** Whether the cache holds usable roles for an actor. */
  predicate Cached(cache: RoleCache, actorId: string) {
    actorId in cache && cache[actorId].Some?
  }

  /**
   * `build_message_headers` on a cache. `lookup` is what finding the
   * actor's roles gives, `None` when that raised.
   */
  function HeadersFor(cache: RoleCache, actorId: string, expiry: string, lookup: Option<Roles>): Built {
    if actorId == DefaultActorId then Built(MessageHeaders(actorId, expiry, map[]), cache, false)
    else if Cached(cache, actorId) then Built(MessageHeaders(actorId, expiry, cache[actorId].value), cache, false)
    else if lookup.Some? then Built(MessageHeaders(actorId, expiry, lookup.value), cache[actorId := lookup], true)
    else Built(MessageHeaders(actorId, expiry, map[]), cache, true)
  }

  /** The actor and the expiry are always carried, whatever happens to the roles. */
  lemma HeadersCarryIdentity(cache: RoleCache, actorId: string, expiry: string, lookup: Option<Roles>)
    ensures HeadersFor(cache, actorId, expiry, lookup).headers.actorId == actorId
    ensures HeadersFor(cache, actorId, expiry, lookup).headers.expiry == expiry
  {
  }

  /** Anonymous requests and cache hits do not look anything up and leave the cache alone. */
  lemma HeadersWithoutLookup(cache: RoleCache, actorId: string, expiry: string, lookup: Option<Roles>)
    ensures actorId == DefaultActorId ==>
      HeadersFor(cache, actorId, expiry, lookup) == Built(MessageHeaders(actorId, expiry, map[]), cache, false)
    ensures actorId != DefaultActorId && Cached(cache, actorId) ==>
      HeadersFor(cache, actorId, expiry, lookup) == Built(MessageHeaders(actorId, expiry, cache[actorId].value), cache, false)
    ensures !HeadersFor(cache, actorId, expiry, lookup).queried ==>
      HeadersFor(cache, actorId, expiry, lookup).cache == cache
  {
  }

  /** A miss looks the roles up: found roles are used and cached, a failure gives no roles and caches nothing. */
  lemma HeadersOnMiss(cache: RoleCache, actorId: string, expiry: string, lookup: Option<Roles>)
    requires actorId != DefaultActorId && !Cached(cache, actorId)
    ensures HeadersFor(cache, actorId, expiry, lookup).queried
    ensures lookup.Some? ==> HeadersFor(cache, actorId, expiry, lookup).headers.roles == lookup.value
    ensures lookup.Some? ==> HeadersFor(cache, actorId, expiry, lookup).cache == cache[actorId := lookup]
    ensures lookup.None? ==> HeadersFor(cache, actorId, expiry, lookup) == Built(MessageHeaders(actorId, expiry, map[]), cache, true)
  {
  }

  /**
   * Once an actor's roles are known, a later request of the same actor
   * gets the same roles without a lookup, whatever a lookup would give.
   */
  lemma {:induction false} HeadersRepeat(cache: RoleCache, actorId: string, expiry: string, lookup: Option<Roles>,
                                         expiry2: string, lookup2: Option<Roles>)
    requires actorId != DefaultActorId
    requires Cached(cache, actorId) || lookup.Some?
    ensures var first := HeadersFor(cache, actorId, expiry, lookup);
      var second := HeadersFor(first.cache, actorId, expiry2, lookup2);
      !second.queried && second.headers.roles == first.headers.roles && second.cache == first.cache
  {
    var first := HeadersFor(cache, actorId, expiry, lookup);
    if !Cached(cache, actorId) {
      assert first.cache == cache[actorId := lookup];
      assert first.cache[actorId] == lookup;
    }
    assert Cached(first.cache, actorId);
  }

  /** After a role-modified event for an actor, that actor's next request looks its roles up again. */
  lemma EvictionForcesLookup(cache: RoleCache, actorId: string, expiry: string, lookup: Option<Roles>)
    requires actorId != DefaultActorId
    ensures HeadersFor(cache - {actorId}, actorId, expiry, lookup).queried
    ensures lookup.Some? ==> HeadersFor(cache - {actorId}, actorId, expiry, lookup).headers.roles == lookup.value
  {
  }

  // ---------------------------------------------------------------------
  // Request arguments

  /** The query arguments of a GET request that are the gateway's own and not the operation's. */
  const SpecialArgs: set<string> := {"authtoken", "timeout", "headers"}

  /** `request_args`: the gateway's own arguments, and `params`, the operation's arguments. */
  datatype RequestArgs = RequestArgs(top: map<string, string>, params: map<string, string>)

  /** `_get_request_args` for a GET request. */
  function GetRequestArgs(query: map<string, string>): RequestArgs {
    RequestArgs(
      map k | k in query && k in SpecialArgs :: query[k],
      map k | k in query && k !in SpecialArgs :: query[k])
  }

  /** The query is split, without loss, into the special arguments and the operation's parameters. */
  lemma GetRequestArgsPartition(query: map<string, string>)
    ensures GetRequestArgs(query).top.Keys == query.Keys * SpecialArgs
    ensures GetRequestArgs(query).params.Keys == query.Keys - SpecialArgs
    ensures GetRequestArgs(query).top + GetRequestArgs(query).params == query
  {
    var r := GetRequestArgs(query);
    assert r.top + r.params == query by {
      assert (r.top + r.params).Keys == query.Keys;
      forall k | k in query ensures (r.top + r.params)[k] == query[k] {
        if k in SpecialArgs { assert k !in r.params; }
      }
    }
  }

  // ---------------------------------------------------------------------
  // The parameter list of a service operation

  /** An argument value: given as text (then typed by the operation's default), or the call's timeout. */
  datatype ParamValue = Typed(raw: string) | Seconds(raw: string) | Strings(values: map<string, string>)

  /** The declared parameters that the `id_param` shorthand never fills. */
  const IdSkipped: set<string> := {"self", "headers", "timeout"}

  /** The declared parameters that the `id_param` shorthand may fill, in order. */
  function RealParams(names: seq<string>): seq<string> {
    if names == [] then []
    else (if names[0] in IdSkipped then [] else [names[0]]) + RealParams(names[1..])
  }

  /** `names[i]` is the first declared parameter outside `IdSkipped`. */
  predicate FirstFill(names: seq<string>, i: int) {
    0 <= i < |names| && names[i] !in IdSkipped && forall j :: 0 <= j < i ==> names[j] in IdSkipped
  }

  lemma {:induction false} RealParamsFirst(names: seq<string>, i: int)
    requires FirstFill(names, i)
    ensures RealParams(names) != [] && RealParams(names)[0] == names[i]
  {
    if i > 0 {
      assert FirstFill(names[1..], i - 1) by {
        assert forall j :: 0 <= j < i - 1 ==> names[1..][j] == names[j + 1];
      }
      RealParamsFirst(names[1..], i - 1);
    }
  }

  lemma {:induction false} RealParamsNone(names: seq<string>)
    requires forall j :: 0 <= j < |names| ==> names[j] in IdSkipped
    ensures RealParams(names) == []
  {
    if names != [] {
      RealParamsNone(names[1..]);
    }
  }

  /** The values the loop over the declared parameters assigns, declaration by declaration. */
  function DeclaredValues(names: seq<string>, args: RequestArgs): map<string, ParamValue> {
    if names == [] then map[]
    else
      var m := DeclaredValues(names[..|names| - 1], args);
      var name := names[|names| - 1];
      if name == "self" then m
      else if name in args.params then m[name := Typed(args.params[name])]
      else if "timeout" in args.top then m[name := Seconds(args.top["timeout"])]
      else m
  }

  /**
   * Which declared parameters get a value, and which: a matching request
   * parameter, else the request's timeout (for every unmatched parameter,
   * not only `timeout`).
   */
  lemma {:induction false} DeclaredValuesSpec(names: seq<string>, args: RequestArgs)
    ensures forall k :: k in DeclaredValues(names, args) <==>
      k in names && k != "self" && (k in args.params || "timeout" in args.top)
    ensures forall k :: k in DeclaredValues(names, args) && k in args.params ==>
      DeclaredValues(names, args)[k] == Typed(args.params[k])
    ensures forall k :: k in DeclaredValues(names, args) && k !in args.params ==>
      DeclaredValues(names, args)[k] == Seconds(args.top["timeout"])
  {
    if names != [] {
      var front := names[..|names| - 1];
      DeclaredValuesSpec(front, args);
      assert names == front + [names[|names| - 1]];
      assert forall k :: k in names <==> k in front || k == names[|names| - 1];
    }
  }

  /** The request parameters that matched no declared parameter. */
  function Unmatched(names: seq<string>, args: RequestArgs): set<string> {
    set k | k in args.params && (k == "self" || k !in names)
  }

  /** `optional_args`: the request parameters no assignment used, when the operation declares it. */
  function WithOptionalArgs(m: map<string, ParamValue>, names: seq<string>, args: RequestArgs): map<string, ParamValue> {
    var optional := set k | k in args.params && k !in m;
    if optional != {} && "optional_args" in names then m["optional_args" := Strings(map k | k in optional :: args.params[k])]
    else m
  }

  /** `create_parameter_list` for the declared parameter names of the operation. */
  function ParameterList(names: seq<string>, args: RequestArgs, idParam: Option<string>): map<string, ParamValue> {
    var fillable := RealParams(names);
    if Given(idParam) && fillable != [] then map[fillable[0] := Typed(idParam.value)]
    else WithOptionalArgs(DeclaredValues(names, args), names, args)
  }

  /** The `id_param` shorthand fills exactly the first parameter outside `IdSkipped`. */
  lemma ParameterListById(names: seq<string>, args: RequestArgs, idParam: string, i: int)
    requires idParam != "" && FirstFill(names, i)
    ensures ParameterList(names, args, Some(idParam)) == map[names[i] := Typed(idParam)]
  {
    RealParamsFirst(names, i);
  }

  /** When no parameter can take it, the `id_param` shorthand is ignored. */
  lemma ParameterListNoFill(names: seq<string>, args: RequestArgs, idParam: Option<string>)
    requires forall j :: 0 <= j < |names| ==> names[j] in IdSkipped
    ensures ParameterList(names, args, idParam) == ParameterList(names, args, None)
  {
    RealParamsNone(names);
  }

  /**
   * Without the shorthand, only declared parameters other than `self` are
   * passed; each matched one gets its request value; and the unmatched
   * request parameters go, as strings, into a declared `optional_args`.
   */
  lemma ParameterListSpec(names: seq<string>, args: RequestArgs)
    ensures forall k :: k in ParameterList(names, args, None) ==> k in names && k != "self"
    ensures forall k :: k in names && k != "self" && k != "optional_args" && k in args.params ==>
      k in ParameterList(names, args, None) && ParameterList(names, args, None)[k] == Typed(args.params[k])
    ensures forall k :: k in names && k != "optional_args" && k !in args.params && "timeout" !in args.top ==>
      k !in ParameterList(names, args, None)
    ensures "optional_args" in names && Unmatched(names, args) != {} ==>
      ParameterList(names, args, None)["optional_args"] == Strings(map k | k in Unmatched(names, args) :: args.params[k])
  {
    DeclaredValuesSpec(names, args);
    var m := DeclaredValues(names, args);
    assert (set k | k in args.params && k !in m) == Unmatched(names, args);
  }

  // ---------------------------------------------------------------------
  // REST requests

  /**
   * What `_extract_payload_data` gives: the decoded JSON, and whether it
   * was an ION object dict and so became an ION object.
   */
  datatype Payload = Payload(text: string, ionObject: bool)

  /** The argument of the service call a REST request turns into. */
  datatype CallArg = IdArg(id: string) | ObjectArg(obj: string, objectId: Option<string>)

  datatype ServiceCall = ServiceCall(service: string, operation: string, arg: CallArg)

  /** `x.title()` of each piece, concatenated. */
  function TitleConcat(parts: seq<string>): string {
    if parts == [] then "" else Text.Title(parts[0]) + TitleConcat(parts[1..])
  }

  /** The ION type name of a REST resource type: `data_product` names `DataProduct`. */
  function IonResType(resType: string): string {
    TitleConcat(Text.Split(resType, '_'))
  }

  /**
   * The service call of a REST request with the given HTTP method `verb`;
   * `payload` is the request's object, if it has one. Setting `_id` on
   * a payload that is not an ION object is the AttributeError.
   */
  function RestRequest(verb: string, serviceName: string, resType: string, idParam: Option<string>,
                       payload: Option<Payload>): Result<ServiceCall, GatewayError>
  {
    if serviceName == "" || resType == "" then Failure(BadRequest)
    else if verb == "GET" && Given(idParam) then Success(ServiceCall(serviceName, "read_" + resType, IdArg(idParam.value)))
    else if verb == "GET" then Success(ServiceCall("resource_registry", "find_resources", IdArg(IonResType(resType))))
    else if verb == "PUT" then
      if payload.None? then Failure(BadRequest)
      else if Given(idParam) && !payload.value.ionObject then Failure(AttributeError)
      else Success(ServiceCall(serviceName, "update_" + resType, ObjectArg(payload.value.text, if Given(idParam) then idParam else None)))
    else if verb == "POST" then
      if payload.None? then Failure(BadRequest)
      else Success(ServiceCall(serviceName, "create_" + resType, ObjectArg(payload.value.text, None)))
    else Failure(BadRequest)
  }

  /** The operation each REST verb calls, and what it is given. */
  lemma RestRequestNaming(verb: string, serviceName: string, resType: string, idParam: Option<string>, payload: Option<Payload>)
    ensures var r := RestRequest(verb, serviceName, resType, idParam, payload);
      r.Success? ==>
        (verb == "GET" && Given(idParam) ==> r.value.operation == "read_" + resType && r.value.service == serviceName) &&
        (verb == "PUT" ==> r.value.operation == "update_" + resType && r.value.service == serviceName) &&
        (verb == "POST" ==> r.value.operation == "create_" + resType && r.value.service == serviceName) &&
        (verb == "GET" && !Given(idParam) ==> r.value == ServiceCall("resource_registry", "find_resources", IdArg(IonResType(resType)))) &&
        (verb == "GET" && Given(idParam) ==> r.value.arg == IdArg(idParam.value)) &&
        (verb == "PUT" ==> r.value.arg == ObjectArg(payload.value.text, if Given(idParam) then idParam else None)) &&
        (verb == "PUT" && Given(idParam) ==> payload.value.ionObject) &&
        (verb == "POST" ==> r.value.arg == ObjectArg(payload.value.text, None))
  {
  }

  /**
   * A REST request is refused exactly in these cases: with AttributeError
   * for a PUT with an id whose payload is not an ION object, and with
   * BadRequest otherwise.
   */
  lemma RestRequestRefused(verb: string, serviceName: string, resType: string, idParam: Option<string>, payload: Option<Payload>)
    ensures RestRequest(verb, serviceName, resType, idParam, payload) == Failure(AttributeError) <==>
      serviceName != "" && resType != "" && verb == "PUT" && payload.Some? && Given(idParam) && !payload.value.ionObject
    ensures RestRequest(verb, serviceName, resType, idParam, payload) == Failure(BadRequest) <==>
      serviceName == "" || resType == "" || (verb != "GET" && verb != "PUT" && verb != "POST") ||
      ((verb == "PUT" || verb == "POST") && payload.None?)
    ensures RestRequest(verb, serviceName, resType, idParam, payload).Failure? ==>
      RestRequest(verb, serviceName, resType, idParam, payload).error in {BadRequest, AttributeError}
  {
  }

  /** The characters of a string other than `c`. */
  function Without(s: string, c: char): string {
    if s == [] then "" else (if s[0] == c then "" else [s[0]]) + Without(s[1..], c)
  }

  function Flatten(parts: seq<string>): string {
    if parts == [] then "" else parts[0] + Flatten(parts[1..])
  }

  lemma {:induction false} FlattenSplit(s: string, c: char)
    ensures Flatten(Text.Split(s, c)) == Without(s, c)
  {
    if s != [] {
      FlattenSplit(s[1..], c);
      var rest := Text.Split(s[1..], c);
      if s[0] != c {
        var parts := Text.Split(s, c);
        assert parts[0] == [s[0]] + rest[0] && parts[1..] == rest[1..];
        assert Flatten(rest) == rest[0] + Flatten(rest[1..]);
      }
    }
  }

  lemma LowerAppend(a: string, b: string)
    ensures Text.Lower(a + b) == Text.Lower(a) + Text.Lower(b)
  {
  }

  lemma {:induction false} TitleConcatCase(parts: seq<string>)
    ensures Text.Lower(TitleConcat(parts)) == Text.Lower(Flatten(parts))
    ensures (forall i :: 0 <= i < |parts| ==> '_' !in parts[i]) ==> '_' !in TitleConcat(parts)
  {
    if parts != [] {
      TitleConcatCase(parts[1..]);
      var p := parts[0];
      Text.TitleCase(p, false);
      assert Text.Lower(Text.Title(p)) == Text.Lower(p);
      LowerAppend(Text.Title(p), TitleConcat(parts[1..]));
      LowerAppend(p, Flatten(parts[1..]));
      if forall i :: 0 <= i < |parts| ==> '_' !in parts[i] {
        assert forall i :: 0 <= i < |parts[1..]| ==> '_' !in parts[1..][i] by {
          assert forall i :: 0 <= i < |parts[1..]| ==> parts[1..][i] == parts[i + 1];
        }
        assert '_' !in p;
        assert forall j :: 0 <= j < |p| ==> Text.Title(p)[j] != '_';
      }
    }
  }

  /**
   * The ION type name drops the underscores and spells the resource type's
   * other characters, ignoring case, unchanged.
   */
  lemma IonResTypeSpelling(resType: string)
    ensures '_' !in IonResType(resType)
    ensures Text.Lower(IonResType(resType)) == Text.Lower(Without(resType, '_'))
  {
    Text.SplitPieces(resType, '_');
    TitleConcatCase(Text.Split(resType, '_'));
    FlattenSplit(resType, '_');
  }

  // ---------------------------------------------------------------------
  // The gateway object

  /** The gateway's screening configuration and its user role cache (without a capacity). */
  class ServiceGateway {
    const screening: Screening
    var userRoleCache: RoleCache

    constructor (trusted: seq<string>, whitelist: seq<string>, blacklist: seq<string>)
      ensures screening == Configure(trusted, whitelist, blacklist)
      ensures userRoleCache == map[]
    {
      screening := Configure(trusted, whitelist, blacklist);
      userRoleCache := map[];
    }

    /** `build_message_headers`; `queried` says whether the actor's roles were looked up. */
    method BuildMessageHeaders(actorId: string, expiry: string, lookup: Option<Roles>) returns (headers: MessageHeaders, queried: bool)
      modifies this`userRoleCache
      ensures Built(headers, userRoleCache, queried) == HeadersFor(old(userRoleCache), actorId, expiry, lookup)
    {
      queried := false;
      if actorId == DefaultActorId {
        headers := MessageHeaders(actorId, expiry, map[]);
        return;
      }
      if actorId in userRoleCache {
        var roleHeader := userRoleCache[actorId];
        if roleHeader.Some? {
          headers := MessageHeaders(actorId, expiry, roleHeader.value);
          return;
        }
      }
      queried := true;
      var roleHeader: Roles := map[];
      if lookup.Some? {
        roleHeader := lookup.value;
        userRoleCache := userRoleCache[actorId := Some(roleHeader)];
      }
      headers := MessageHeaders(actorId, expiry, roleHeader);
    }

    /** A role of an actor changed: forget only that actor's roles. */
    method UserRoleEventCallback(actorId: string)
      modifies this`userRoleCache
      ensures userRoleCache == old(userRoleCache) - {actorId}
      ensures forall a :: a != actorId && a in old(userRoleCache) ==> a in userRoleCache && userRoleCache[a] == old(userRoleCache)[a]
    {
      if actorId in userRoleCache {
        userRoleCache := userRoleCache - {actorId};
      }
    }

    /** The role cache is reset: forget every actor's roles. */
    method UserRoleResetCallback()
      modifies this`userRoleCache
      ensures userRoleCache == map[]
    {
      userRoleCache := map[];
    }

    /** `_get_request_args` for a GET request: sort each query argument into one of the two dicts. */
    method GetRequestArguments(query: map<string, string>) returns (args: RequestArgs)
      ensures args == GetRequestArgs(query)
    {
      var top: map<string, string> := map[];
      var params: map<string, string> := map[];
      var rest := query.Keys;
      while rest != {}
        invariant rest <= query.Keys
        invariant forall k :: k in top <==> k in query && k !in rest && k in SpecialArgs
        invariant forall k :: k in params <==> k in query && k !in rest && k !in SpecialArgs
        invariant forall k :: k in top ==> top[k] == query[k]
        invariant forall k :: k in params ==> params[k] == query[k]
        decreases |rest|
      {
        var k :| k in rest;
        if k in SpecialArgs {
          top := top[k := query[k]];
        } else {
          params := params[k := query[k]];
        }
        rest := rest - {k};
      }
      args := RequestArgs(top, params);
      assert top == GetRequestArgs(query).top;
      assert params == GetRequestArgs(query).params;
    }

    /** `create_parameter_list`, for the declared parameter names of the target operation. */
    method CreateParameterList(names: seq<string>, args: RequestArgs, idParam: Option<string>) returns (svcParams: map<string, ParamValue>)
      ensures svcParams == ParameterList(names, args, idParam)
    {
      if Given(idParam) {
        var fillable := RealParams(names);
        if fillable != [] {
          svcParams := map[fillable[0] := Typed(idParam.value)];
          return;
        }
      }
      svcParams := map[];
      var i := 0;
      while i < |names|
        invariant 0 <= i <= |names|
        invariant svcParams == DeclaredValues(names[..i], args)
      {
        var name := names[i];
        assert names[..i + 1][..i] == names[..i];
        if name == "self" {
        } else if name in args.params {
          svcParams := svcParams[name := Typed(args.params[name])];
        } else if "timeout" in args.top {
          svcParams := svcParams[name := Seconds(args.top["timeout"])];
        }
        i := i + 1;
      }
      assert names[..i] == names;
      var optional := set k | k in args.params && k !in svcParams;
      if optional != {} && "optional_args" in names {
        svcParams := svcParams["optional_args" := Strings(map k | k in optional :: args.params[k])];
      }
    }
  }
}
