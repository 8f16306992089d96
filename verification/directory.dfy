/**
 * The server directory `WhoIs` (src/who_is.rs): its construction from the
 * parsed server list, and the domain-suffix search that picks a server.
 */
module Directory {
  import opened Wrappers
  import opened Errors
  import opened Json
  import opened Hosts
  import opened ServerValues

  /** The server list: servers keyed by domain suffix, plus the server for IP addresses. */
  datatype WhoIs = WhoIs(servers: map<string, ServerValue>, ip: ServerValue)

  /** The keys of the members whose value is not null. */
  function NonNullKeys(members: seq<(string, Value)>): set<string> {
    set i | 0 <= i < |members| && !members[i].1.Null? :: members[i].0
  }

  /** Some member with a non-null value is not a server value. */
  predicate HasMalformed(parse: HostParser, members: seq<(string, Value)>) {
    exists i :: 0 <= i < |members| && !members[i].1.Null? && FromValue(parse, members[i].1).Failure?
  }

  lemma NonNullKeysCons(members: seq<(string, Value)>)
    requires |members| > 0
    ensures NonNullKeys(members) ==
      (if members[0].1.Null? then {} else {members[0].0}) + NonNullKeys(members[1..])
  {
    forall key | key in NonNullKeys(members)
      ensures key in (if members[0].1.Null? then {} else {members[0].0}) + NonNullKeys(members[1..])
    {
      var i :| 0 <= i < |members| && !members[i].1.Null? && members[i].0 == key;
      if i > 0 { assert members[1..][i - 1] == members[i]; }
    }
    forall key | key in NonNullKeys(members[1..]) ensures key in NonNullKeys(members) {
      var i :| 0 <= i < |members[1..]| && !members[1..][i].1.Null? && members[1..][i].0 == key;
      assert members[i + 1] == members[1..][i];
    }
  }

  lemma HasMalformedCons(parse: HostParser, members: seq<(string, Value)>)
    requires |members| > 0
    ensures HasMalformed(parse, members) <==>
      (!members[0].1.Null? && FromValue(parse, members[0].1).Failure?) || HasMalformed(parse, members[1..])
  {
    if HasMalformed(parse, members[1..]) {
      var i :| 0 <= i < |members[1..]| && !members[1..][i].1.Null? && FromValue(parse, members[1..][i].1).Failure?;
      assert members[i + 1] == members[1..][i];
    }
    if HasMalformed(parse, members) {
      var i :| 0 <= i < |members| && !members[i].1.Null? && FromValue(parse, members[i].1).Failure?;
      if i > 0 { assert members[1..][i - 1] == members[i]; }
    }
  }

  /**
   * The loop over the remaining members of the server list: null members are
   * skipped, every other one is parsed, and the first malformed one fails the
   * whole construction.
   */
  function ParseServers(parse: HostParser, members: seq<(string, Value)>): (r: Result<map<string, ServerValue>, WhoIsError>)
    requires DistinctKeys(members)
    ensures r.Failure? <==> HasMalformed(parse, members)
    ensures r.Failure? ==> exists i :: 0 <= i < |members| && !members[i].1.Null? && FromValue(parse, members[i].1) == Failure(r.error)
    ensures r.Success? ==> r.value.Keys == NonNullKeys(members)
    ensures r.Success? ==> forall i :: 0 <= i < |members| && !members[i].1.Null? ==>
      FromValue(parse, members[i].1) == Success(r.value[members[i].0])
  {
    if |members| == 0 then Success(map[])
    else
      var (k, v) := members[0];
      assert DistinctKeys(members[1..]);
      NonNullKeysCons(members);
      HasMalformedCons(parse, members);
      assert forall i :: 0 <= i < |members[1..]| ==> members[1..][i] == members[i + 1];
      if v.Null? then
        ParseServers(parse, members[1..])
      else
        var server :- FromValue(parse, v);
        var rest :- ParseServers(parse, members[1..]);
        assert forall i :: 1 <= i < |members| ==> members[i].0 != k;
        Success(rest[k := server])
  }

  /** The server for IP addresses: the `ip` member of the `_` object. */
  function IpServer(parse: HostParser, list: seq<(string, Value)>): (r: Result<ServerValue, WhoIsError>)
    ensures Get(list, "_").None? ==> r == Failure(MapError(NO_UNDERSCORE))
    ensures Get(list, "_").Some? && !Get(list, "_").value.Object? ==> r == Failure(MapError(UNDERSCORE_NOT_OBJECT))
    ensures Get(list, "_").Some? && Get(list, "_").value.Object? ==>
      && (Get(Get(list, "_").value.members, "ip").None? ==> r == Failure(MapError(NO_IP)))
      && (Get(Get(list, "_").value.members, "ip") == Some(Null) ==> r == Failure(MapError(IP_IS_NULL)))
      && var ip := Get(Get(list, "_").value.members, "ip");
      && (ip.Some? && !ip.value.Null? ==> r == FromValue(parse, ip.value))
    ensures r.Success? ==>
      && Get(list, "_").Some? && Get(list, "_").value.Object?
      && var ip := Get(Get(list, "_").value.members, "ip");
      && ip.Some? && !ip.value.Null? && FromValue(parse, ip.value) == Success(r.value)
  {
    match Get(list, "_")
    case None => Failure(MapError(NO_UNDERSCORE))
    case Some(Object(underscore)) =>
      (match Get(underscore, "ip")
       case None => Failure(MapError(NO_IP))
       case Some(Null) => Failure(MapError(IP_IS_NULL))
       case Some(server) => FromValue(parse, server))
    case Some(_) => Failure(MapError(UNDERSCORE_NOT_OBJECT))
  }

  lemma RemoveKeepsOthers(parse: HostParser, list: seq<(string, Value)>, key: string)
    ensures NonNullKeys(Remove(list, key)) == NonNullKeys(list) - {key}
    ensures HasMalformed(parse, Remove(list, key)) ==> HasMalformed(parse, list)
  {
    var rest := Remove(list, key);
    forall k | k in NonNullKeys(list) - {key} ensures k in NonNullKeys(rest) {
      var i :| 0 <= i < |list| && !list[i].1.Null? && list[i].0 == k;
      assert list[i] in rest;
    }
    forall k | k in NonNullKeys(rest) ensures k in NonNullKeys(list) - {key} {
      var i :| 0 <= i < |rest| && !rest[i].1.Null? && rest[i].0 == k;
      assert rest[i] in list;
    }
  }

  /** An entry of the list without `key` that fails to parse is an entry of the list. */
  lemma MalformedSurvivesRemove(parse: HostParser, list: seq<(string, Value)>, key: string, e: WhoIsError)
    requires exists i :: 0 <= i < |Remove(list, key)| && !Remove(list, key)[i].1.Null? && FromValue(parse, Remove(list, key)[i].1) == Failure(e)
    ensures exists i :: 0 <= i < |list| && list[i].0 != key && !list[i].1.Null? && FromValue(parse, list[i].1) == Failure(e)
  {
  }

  /**
   * `WhoIs::from_inner`: the `_` member must be an object whose `ip` member is
   * a non-null server value; every other non-null member becomes a server.
   * The `_` member is examined before any other.
   */
  function FromInner(parse: HostParser, list: seq<(string, Value)>): (r: Result<WhoIs, WhoIsError>)
    requires DistinctKeys(list)
    ensures IpServer(parse, list).Failure? ==> r == Failure(IpServer(parse, list).error)
    ensures r.Success? ==> IpServer(parse, list) == Success(r.value.ip)
    ensures r.Success? ==> r.value.servers.Keys == NonNullKeys(list) - {"_"}
    ensures r.Success? ==> forall i :: 0 <= i < |list| && list[i].0 != "_" && !list[i].1.Null? ==>
      FromValue(parse, list[i].1) == Success(r.value.servers[list[i].0])
    ensures IpServer(parse, list).Success? ==> (r.Failure? <==> HasMalformed(parse, Remove(list, "_")))
    ensures IpServer(parse, list).Success? && r.Failure? ==>
      exists i :: 0 <= i < |list| && list[i].0 != "_" && !list[i].1.Null? && FromValue(parse, list[i].1) == Failure(r.error)
  {
    var ip :- IpServer(parse, list);
    var rest := Remove(list, "_");
    match ParseServers(parse, rest)
    case Failure(e) =>
      MalformedSurvivesRemove(parse, list, "_", e);
      Failure(e)
    case Success(servers) =>
      RemoveKeepsOthers(parse, list, "_");
      assert forall i :: 0 <= i < |list| && list[i].0 != "_" ==> list[i] in rest;
      Success(WhoIs(servers, ip))
  }
}
