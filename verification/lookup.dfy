/**
 * `WhoIs::lookup` (src/who_is.rs): pick the server (the override, the IP
 * server, or the longest known domain suffix), then query it and follow
 * referrals. The blocking form is the function `Lookup`; the async form is
 * the method `LookupAsync`, which runs the search loop and the referral loop
 * and returns the same.
 */
module Lookups {
  import opened Wrappers
  import opened Errors
  import opened Hosts
  import opened ServerValues
  import opened Net
  import opened ReferralPattern
  import opened Suffixes
  import opened Directory
  import opened Options
  import opened Referrals

  /**
   * The server a lookup asks first: the override when one is given; otherwise
   * the IP server for an address, and for a domain the server of the longest
   * label suffix the directory knows.
   */
  function SelectServer(dir: WhoIs, options: LookupOptions): (r: Result<ServerValue, WhoIsError>)
    ensures options.server.Some? ==> r == Success(options.server.value)
    ensures options.server.None? && !options.target.host.Domain? ==> r == Success(dir.ip)
    ensures r.Failure? ==> options.server.None? && options.target.host.Domain? && r.error == MapError(NO_SERVER_KNOWN)
    ensures options.server.None? && options.target.host.Domain? ==>
      (r.Failure? <==> forall c :: IsLabelSuffix(c, options.target.host.name) ==> c !in dir.servers)
    ensures options.server.None? && options.target.host.Domain? && SelectKey(dir.servers, options.target.host.name).Some? ==>
      r == Success(dir.servers[SelectKey(dir.servers, options.target.host.name).value])
  {
    match options.server
    case Some(server) => Success(server)
    case None =>
      match options.target.host
      case Domain(name) =>
        LongestSuffixWins(dir.servers, name);
        (match SelectKey(dir.servers, name)
         case Some(key) => Success(dir.servers[key])
         case None => Failure(MapError(NO_SERVER_KNOWN)))
      case _ => Success(dir.ip)
  }

  /** The text put into the query: the domain name itself, or the address as a URI authority. */
  function QueryText(target: Target, authority: Host -> string): string {
    match target.host
    case Domain(name) => name
    case _ => authority(target.host)
  }

  /** The chase of one lookup: hops over the network with the lookup's text and timeout, the referral pattern, and the host validator. */
  function ChaseFor(net: Network, parse: HostParser, text: string, timeout: Option<Duration>): (c: Chase)
    ensures HopsFailWithIo(c)
  {
    Chase((s: ServerValue) => Hop(net, s, text, timeout), ExtractReferral, parse)
  }

  /** `lookup`, blocking form. */
  function Lookup(dir: WhoIs, options: LookupOptions, net: Network, parse: HostParser,
                  authority: Host -> string): (r: Resolution)
    ensures SelectServer(dir, options).Failure? ==> r == Resolution(Failure(SelectServer(dir, options).error), [])
    ensures SelectServer(dir, options).Success? ==>
      && 1 <= |r.requests| <= options.follow + 1
      && r.requests[0] == RequestFor(SelectServer(dir, options).value, QueryText(options.target, authority))
    ensures r.result.Failure? ==> r.result.error.IOError? || r.result.error == MapError(NO_SERVER_KNOWN)
  {
    match SelectServer(dir, options)
    case Failure(e) => Resolution(Failure(e), [])
    case Success(server) =>
      var text := QueryText(options.target, authority);
      var chase := ChaseFor(net, parse, text, options.timeout);
      FollowFailsWithIo(chase, server, text, options.follow);
      Follow(chase, server, text, options.follow)
  }

  /** A lookup with an override server does not depend on the directory at all. */
  lemma OverrideIgnoresDirectory(dir: WhoIs, other: WhoIs, options: LookupOptions, net: Network,
                                 parse: HostParser, authority: Host -> string)
    requires options.server.Some?
    ensures Lookup(dir, options, net, parse, authority) == Lookup(other, options, net, parse, authority)
  {
    assert SelectServer(dir, options) == SelectServer(other, options);
  }

  /** An address without an override is sent, as a URI authority, to the directory's IP server. */
  lemma AddressUsesIpServer(dir: WhoIs, options: LookupOptions, net: Network, parse: HostParser,
                            authority: Host -> string)
    requires options.server.None? && !options.target.host.Domain?
    ensures Lookup(dir, options, net, parse, authority).requests[0] == RequestFor(dir.ip, authority(options.target.host))
  {
  }

  /**
   * A domain without an override goes to the server of its longest label
   * suffix that the directory knows: whatever known label suffix `key` is
   * named, the first request goes to a known label suffix at least as long,
   * and the query carries the domain name.
   */
  lemma DomainUsesLongestSuffix(dir: WhoIs, options: LookupOptions, net: Network, parse: HostParser,
                                authority: Host -> string, key: string)
    requires options.server.None? && options.target.host.Domain?
    requires key in dir.servers && IsLabelSuffix(key, options.target.host.name)
    ensures exists k :: && k in dir.servers && IsLabelSuffix(k, options.target.host.name) && |key| <= |k|
                        && Lookup(dir, options, net, parse, authority).requests[0]
                           == RequestFor(dir.servers[k], options.target.host.name)
  {
    var name := options.target.host.name;
    KnownSuffixOutranked(dir.servers, name, key);
    var k := SelectKey(dir.servers, name).value;
    assert SelectServer(dir, options) == Success(dir.servers[k]);
  }

  /** A domain no label suffix of which is known fails before any request is made. */
  lemma UnknownDomainFails(dir: WhoIs, options: LookupOptions, net: Network, parse: HostParser,
                           authority: Host -> string)
    requires options.server.None? && options.target.host.Domain?
    requires forall c :: IsLabelSuffix(c, options.target.host.name) ==> c !in dir.servers
    ensures Lookup(dir, options, net, parse, authority) == Resolution(Failure(MapError(NO_SERVER_KNOWN)), [])
  {
  }

  /** With the options `from_str` gives, a lookup makes at most three requests: the first and two referrals. */
  lemma DefaultOptionsAtMostThreeRequests(dir: WhoIs, parseTarget: TargetParser, s: string, net: Network,
                                          parse: HostParser, authority: Host -> string)
    requires FromText(parseTarget, s).Success?
    ensures |Lookup(dir, FromText(parseTarget, s).value, net, parse, authority).requests| <= 3
  {
  }

  /** `lookup`, async form: the search loop, then the referral loop. */
  method LookupAsync(dir: WhoIs, options: LookupOptions, net: Network, parse: HostParser,
                     authority: Host -> string)
    returns (result: Result<string, WhoIsError>, requests: seq<Request>)
    ensures result == Lookup(dir, options, net, parse, authority).result
    ensures requests == Lookup(dir, options, net, parse, authority).requests
  {
    var server: ServerValue;
    var text: string;
    match options.target.host {
      case Domain(name) =>
        if options.server.Some? {
          server := options.server.value;
        } else {
          var found := SuffixSearch(dir.servers, name);
          if found.None? {
            return Failure(MapError(NO_SERVER_KNOWN)), [];
          }
          server := found.value;
        }
        text := name;
      case _ =>
        server := options.server.GetOr(dir.ip);
        text := authority(options.target.host);
    }
    result, requests := FollowLoop(ChaseFor(net, parse, text, options.timeout), server, text, options.follow);
  }
}
