/** `WhoIsServerValue`: one WHOIS server as described in the server list (src/who_is_server_value.rs). */
module ServerValues {
  import opened Wrappers
  import opened Errors
  import opened Json
  import opened Hosts

  const DEFAULT_PUNYCODE := true

  /** A server: its host, an optional query template, and the punycode flag. */
  datatype ServerValue = ServerValue(host: WhoIsHost, query: Option<string>, punycode: bool)

  /** A bare host string as a server value, with the default template and flag. */
  function FromString(parse: HostParser, s: string): (r: Result<ServerValue, WhoIsError>)
    ensures r.Success? <==> parse(s).Some?
    ensures r.Success? ==> r.value.host == parse(s).value
    ensures r.Success? ==> r.value.query == None && r.value.punycode == DEFAULT_PUNYCODE
    ensures r.Failure? ==> r.error == MapError(BAD_HOST_STRING)
  {
    match parse(s)
    case Some(host) => Success(ServerValue(host, None, DEFAULT_PUNYCODE))
    case None => Failure(MapError(BAD_HOST_STRING))
  }

  /** The `query` member: absent gives no template, a string is the template. */
  function QueryMember(members: seq<(string, Value)>): Result<Option<string>, WhoIsError> {
    match Get(members, "query")
    case None => Success(None)
    case Some(String(q)) => Success(Some(q))
    case Some(_) => Failure(MapError(OBJECT_BAD_QUERY))
  }

  /** The `punycode` member: absent gives the default, a boolean is taken as it is. */
  function PunycodeMember(members: seq<(string, Value)>): Result<bool, WhoIsError> {
    match Get(members, "punycode")
    case None => Success(DEFAULT_PUNYCODE)
    case Some(Bool(b)) => Success(b)
    case Some(_) => Failure(MapError(OBJECT_BAD_PUNYCODE))
  }

  /** The text of the `host` member, when that member is a string. */
  function HostMember(members: seq<(string, Value)>): Option<string> {
    match Get(members, "host")
    case Some(String(h)) => Some(h)
    case _ => None
  }

  /**
   * The shapes the server list accepts for a server, stated independently of
   * the order in which the parser checks them.
   */
  predicate Acceptable(parse: HostParser, v: Value) {
    match v
    case String(h) => parse(h).Some?
    case Object(m) =>
      && HostMember(m).Some? && parse(HostMember(m).value).Some?
      && (Get(m, "query").None? || Get(m, "query").value.String?)
      && (Get(m, "punycode").None? || Get(m, "punycode").value.Bool?)
    case _ => false
  }

  /** `WhoIsServerValue::from_value`. */
  function FromValue(parse: HostParser, v: Value): (r: Result<ServerValue, WhoIsError>)
    ensures r.Success? <==> Acceptable(parse, v)
    ensures r.Failure? ==> r.error.MapError?
    ensures v.String? ==> r == FromString(parse, v.str)
    ensures !v.String? && !v.Object? ==> r == Failure(MapError(NOT_SERVER_VALUE))
    ensures v.Object? && HostMember(v.members).None? ==> r == Failure(MapError(OBJECT_WITHOUT_HOST))
    ensures v.Object? && HostMember(v.members).Some? ==>
      (parse(HostMember(v.members).value).None? <==> r == Failure(MapError(OBJECT_BAD_HOST)))
    ensures v.Object? && r.Success? ==>
      && r.value.host == parse(HostMember(v.members).value).value
      && r.value.query == (if Get(v.members, "query").None? then None else Some(Get(v.members, "query").value.str))
      && r.value.punycode == (Get(v.members, "punycode").None? || Get(v.members, "punycode").value.b)
  {
    match v
    case Object(m) =>
      (match Get(m, "host")
       case Some(String(h)) =>
         (match parse(h)
          case None => Failure(MapError(OBJECT_BAD_HOST))
          case Some(host) =>
            var query :- QueryMember(m);
            var punycode :- PunycodeMember(m);
            Success(ServerValue(host, query, punycode)))
       case _ => Failure(MapError(OBJECT_WITHOUT_HOST)))
    case String(h) => FromString(parse, h)
    case _ => Failure(MapError(NOT_SERVER_VALUE))
  }

  /**
   * Error precedence inside an object: a bad `query` is reported before a bad
   * `punycode`, and both only once the host is known to be good.
   */
  lemma ObjectErrorOrder(parse: HostParser, m: seq<(string, Value)>)
    requires HostMember(m).Some? && parse(HostMember(m).value).Some?
    ensures QueryMember(m).Failure? ==> FromValue(parse, Object(m)) == Failure(MapError(OBJECT_BAD_QUERY))
    ensures QueryMember(m).Success? && PunycodeMember(m).Failure? ==>
      FromValue(parse, Object(m)) == Failure(MapError(OBJECT_BAD_PUNYCODE))
  {
  }

  /** Members other than `host`, `query` and `punycode` do not affect the result. */
  lemma OtherMembersIgnored(parse: HostParser, m1: seq<(string, Value)>, m2: seq<(string, Value)>)
    requires Get(m1, "host") == Get(m2, "host")
    requires Get(m1, "query") == Get(m2, "query")
    requires Get(m1, "punycode") == Get(m2, "punycode")
    ensures FromValue(parse, Object(m1)) == FromValue(parse, Object(m2))
  {
  }

  /** The object form of a server value, as it would be written in the server list. */
  function Describe(hostText: string, sv: ServerValue): Value {
    Object(
      [("host", String(hostText))]
      + (if sv.query.Some? then [("query", String(sv.query.value))] else [])
      + [("punycode", Bool(sv.punycode))])
  }

  /** The members the object form carries: the host text, the template if there is one, and the flag. */
  lemma DescribedMembers(hostText: string, sv: ServerValue)
    ensures var m := Describe(hostText, sv).members;
      && Get(m, "host") == Some(String(hostText))
      && Get(m, "query") == (if sv.query.Some? then Some(String(sv.query.value)) else None)
      && Get(m, "punycode") == Some(Bool(sv.punycode))
  {
    var m := Describe(hostText, sv).members;
    assert Get(m, "host") == Some(String(hostText));
    if sv.query.Some? {
      assert m[1..][0] == ("query", String(sv.query.value));
      assert m[1..][1..][0] == ("punycode", Bool(sv.punycode));
    } else {
      assert m[1..][0] == ("punycode", Bool(sv.punycode));
    }
  }

  /** Reading back the object form of a server value gives that server value. */
  lemma DescribeRoundTrip(parse: HostParser, hostText: string, sv: ServerValue)
    requires parse(hostText) == Some(sv.host)
    ensures FromValue(parse, Describe(hostText, sv)) == Success(sv)
  {
    DescribedMembers(hostText, sv);
  }

  /**
   * A host string written plainly or as `{"host": …}` gives the same server;
   * the two forms differ only in the message reported for a bad host.
   */
  lemma BareHostEqualsObject(parse: HostParser, h: string)
    ensures FromValue(parse, String(h)).ToOption() == FromValue(parse, Object([("host", String(h))])).ToOption()
    ensures parse(h).None? ==>
      && FromValue(parse, String(h)) == Failure(MapError(BAD_HOST_STRING))
      && FromValue(parse, Object([("host", String(h))])) == Failure(MapError(OBJECT_BAD_HOST))
  {
    var m := [("host", String(h))];
    assert Get(m, "host") == Some(String(h));
    assert Get(m, "query") == None;
    assert Get(m, "punycode") == None;
  }
}
