/**
 * One WHOIS exchange (one hop): the connect address, the query written, and
 * the connect fallback over resolved addresses (src/who_is.rs). Sockets and
 * DNS are not modelled; the network is an oracle the caller supplies.
 */
module Net {
  import opened Wrappers
  import opened Errors
  import opened Hosts
  import opened Text
  import opened ServerValues

  const DEFAULT_WHOIS_HOST_PORT: Uint16 := 43
  const DEFAULT_WHOIS_HOST_QUERY := "$addr\r\n"
  const ADDR_PLACEHOLDER := "$addr"

  /** `std::time::Duration`, in milliseconds. */
  datatype Duration = Duration(millis: nat)

  /** A resolved socket address. */
  datatype SocketAddr = SocketAddr(ip: string, port: Uint16)

  /** What `to_socket_addrs` yields; never empty (on an empty list the source panics). */
  type SocketAddrs = s: seq<SocketAddr> | |s| > 0 witness [SocketAddr("0.0.0.0", 0)]

  /** An open connection, identified only by the network that made it. */
  datatype Stream = Stream(handle: nat)

  /**
   * The network as seen by one lookup:
   * - `resolve`: `to_socket_addrs` on a `host:port` string;
   * - `connectTimeout`: `connect_timeout` to one resolved address;
   * - `connect`: a plain `TcpStream::connect` to a `host:port` string;
   * - `exchange`: write the query, flush, and read until the peer closes.
   */
  datatype Network = Network(
    resolve: string -> Result<SocketAddrs, IoError>,
    connectTimeout: (SocketAddr, Duration) -> Result<Stream, IoError>,
    connect: string -> Result<Stream, IoError>,
    exchange: (Stream, string) -> Result<string, IoError>)

  /** The text of `host` as it appears before `:port`; IPv6 addresses are bracketed. */
  function HostPart(host: Host): string {
    match host
    case IPv4(ip) => ip
    case IPv6(ip) => "[" + ip + "]"
    case Domain(domain) => domain
  }

  /** `format!("{}:{}", host, port)`, the port defaulting to 43. */
  function ConnectAddress(h: WhoIsHost): (addr: string)
    ensures StartsWith(addr, HostPart(h.host))
    ensures h.host.IPv6? ==> addr[0] == '['
  {
    HostPart(h.host) + ":" + DecimalText(h.port.GetOr(DEFAULT_WHOIS_HOST_PORT))
  }

  /** The index just past the last `:` of `s`, or 0 when there is none. */
  function AfterLastColon(s: string): (i: nat)
    ensures i <= |s|
    ensures i > 0 ==> s[i - 1] == ':'
    ensures forall j :: i <= j < |s| ==> s[j] != ':'
  {
    if |s| == 0 then 0
    else if s[|s| - 1] == ':' then |s|
    else AfterLastColon(s[..|s| - 1])
  }

  /**
   * The connect address splits back, at its last `:`, into the host text and
   * the decimal port actually used: the server's port, or 43 without one.
   */
  lemma ConnectAddressSplits(h: WhoIsHost)
    ensures var addr := ConnectAddress(h);
      var i := AfterLastColon(addr);
      && i == |HostPart(h.host)| + 1
      && addr[..i - 1] == HostPart(h.host)
      && AllDigits(addr[i..])
      && DecimalValue(addr[i..]) == (if h.port.Some? then h.port.value else 43)
  {
    var addr := ConnectAddress(h);
    var hp := HostPart(h.host);
    var digits := DecimalText(h.port.GetOr(DEFAULT_WHOIS_HOST_PORT));
    var i := AfterLastColon(addr);
    assert addr[|hp|] == ':';
    forall j | |hp| + 1 <= j < |addr| ensures addr[j] != ':' {
      assert addr[j] == digits[j - |hp| - 1];
    }
    assert i == |hp| + 1;
    assert addr[i..] == digits;
    DecimalRoundTrip(h.port.GetOr(DEFAULT_WHOIS_HOST_PORT));
  }

  /**
   * The bytes written for `text`: the template, or `"$addr\r\n"`, with every
   * `$addr` replaced by the text.
   */
  function FormatQuery(template: Option<string>, text: string): (q: string)
    ensures template.None? ==> q == text + "\r\n"
    ensures template.Some? && !Occurs(template.value, ADDR_PLACEHOLDER) ==> q == template.value
  {
    if template.None? then
      var t := DEFAULT_WHOIS_HOST_QUERY;
      assert StartsWith(t, ADDR_PLACEHOLDER);
      var tail := t[|ADDR_PLACEHOLDER|..];
      assert tail == "\r\n";
      assert Replace(tail, ADDR_PLACEHOLDER, text) == tail;
      Replace(t, ADDR_PLACEHOLDER, text)
    else
      assert !Occurs(template.value, ADDR_PLACEHOLDER) ==>
        Replace(template.value, ADDR_PLACEHOLDER, text) == template.value by {
        if !Occurs(template.value, ADDR_PLACEHOLDER) {
          ReplaceAbsent(template.value, ADDR_PLACEHOLDER, text);
        }
      }
      Replace(template.value, ADDR_PLACEHOLDER, text)
  }

  /**
   * Every `$addr` of a template is filled in: a template cut by `$addr` into
   * parts that do not contain it is sent as those parts joined by the text.
   */
  lemma TemplateFilled(parts: seq<string>, text: string)
    requires |parts| > 0
    requires forall i :: 0 <= i < |parts| ==> !Occurs(parts[i], ADDR_PLACEHOLDER)
    ensures FormatQuery(Some(Join(parts, ADDR_PLACEHOLDER)), text) == Join(parts, text)
  {
    ReplaceJoin(parts, ADDR_PLACEHOLDER, text);
  }

  /** Every one of the first `k` candidates fails to connect. */
  predicate FailsBefore<A, S, E>(candidates: seq<A>, attempt: A -> Result<S, E>, k: nat)
    requires k <= |candidates|
  {
    forall i :: 0 <= i < k ==> attempt(candidates[i]).Failure?
  }

  /**
   * The connect fallback: every candidate but the last is tried in order and
   * the first success is kept; when none of them succeeds, the outcome of the
   * last candidate, success or error, is the outcome.
   */
  function ChooseConnection<A, S, E>(candidates: seq<A>, attempt: A -> Result<S, E>): (r: Result<S, E>)
    requires |candidates| > 0
    ensures FailsBefore(candidates, attempt, |candidates| - 1) ==> r == attempt(candidates[|candidates| - 1])
    ensures forall k :: 0 <= k < |candidates| - 1 && attempt(candidates[k]).Success? && FailsBefore(candidates, attempt, k) ==>
                 r == attempt(candidates[k])
    ensures r.Failure? ==> r == attempt(candidates[|candidates| - 1])
    decreases |candidates|
  {
    if |candidates| == 1 then attempt(candidates[0])
    else if attempt(candidates[0]).Success? then attempt(candidates[0])
    else
      var rest := candidates[1..];
      assert forall i :: 0 <= i < |rest| ==> rest[i] == candidates[i + 1];
      assert forall k :: 1 <= k <= |rest| ==> FailsBefore(candidates, attempt, k) == FailsBefore(rest, attempt, k - 1);
      ChooseConnection(rest, attempt)
  }

  /** One connect attempt with timeout `d`, as the fallback tries it on each resolved address. */
  function AttemptWith(net: Network, d: Duration): SocketAddr -> Result<Stream, IoError> {
    a => net.connectTimeout(a, d)
  }

  /**
   * Opening the connection. With a timeout the address is resolved and the
   * fallback is run over the resolved addresses; without one a single plain
   * connect is made to the address string.
   */
  function Connect(net: Network, addr: string, timeout: Option<Duration>): (r: Result<Stream, WhoIsError>)
    ensures r.Failure? ==> r.error.IOError?
    ensures timeout.None? ==> r == Io(net.connect(addr))
    ensures timeout.Some? && net.resolve(addr).Failure? ==> r == Failure(IOError(net.resolve(addr).error))
    ensures timeout.Some? && net.resolve(addr).Success? ==>
      r == Io(ChooseConnection(net.resolve(addr).value, AttemptWith(net, timeout.value)))
  {
    match timeout
    case None => Io(net.connect(addr))
    case Some(d) =>
      var addrs :- Io(net.resolve(addr));
      Io(ChooseConnection(addrs, AttemptWith(net, d)))
  }

  /** One request: the address connected to and the query written. */
  datatype Request = Request(addr: string, query: string)

  function RequestFor(server: ServerValue, text: string): Request {
    Request(ConnectAddress(server.host), FormatQuery(server.query, text))
  }

  /**
   * One hop: connect to the request's address, write the request's query,
   * read the whole response. Every failure is an I/O error.
   */
  function Hop(net: Network, server: ServerValue, text: string, timeout: Option<Duration>): (r: Result<string, WhoIsError>)
    ensures r.Failure? ==> r.error.IOError?
    ensures Connect(net, RequestFor(server, text).addr, timeout).Failure? ==>
      r == Failure(Connect(net, RequestFor(server, text).addr, timeout).error)
    ensures Connect(net, RequestFor(server, text).addr, timeout).Success? ==>
      r == Io(net.exchange(Connect(net, RequestFor(server, text).addr, timeout).value, RequestFor(server, text).query))
  {
    var req := RequestFor(server, text);
    var stream :- Connect(net, req.addr, timeout);
    Io(net.exchange(stream, req.query))
  }
}
