/**
 * Referral following (src/who_is.rs): the blocking path recurses once per
 * hop, the async path runs a `while` loop; both stop when the hop budget is
 * spent, when no referral is found, when the referral names the address just
 * used, or when the referred host does not parse.
 */
module Referrals {
  import opened Wrappers
  import opened Errors
  import opened Hosts
  import opened ServerValues
  import opened Net

  /** What a lookup observably does: its outcome and the requests it issued, in order. */
  datatype Resolution = Resolution(result: Result<string, WhoIsError>, requests: seq<Request>)

  /**
   * What the chase is given for one lookup: the outcome of one hop to a server
   * (`Net.Hop` with the lookup's text, network and timeout), the referral
   * pattern (`ReferralPattern.ExtractReferral`), and the host validator.
   */
  datatype Chase = Chase(
    hop: ServerValue -> Result<string, WhoIsError>,
    referral: string -> Option<string>,
    parse: HostParser)

  /**
   * The server a response refers to, when it is to be followed: a referral is
   * found, its captured text is not the address just connected to (compared
   * as text with `host:port`), and it parses as a host.
   */
  function NextServer(c: Chase, response: string, addr: string): (r: Option<ServerValue>)
    ensures r.Some? <==>
      && c.referral(response).Some?
      && c.referral(response).value != addr
      && c.parse(c.referral(response).value).Some?
    ensures r.Some? ==> r.value == ServerValue(c.parse(c.referral(response).value).value, None, DEFAULT_PUNYCODE)
  {
    match c.referral(response)
    case None => None
    case Some(h) => if h == addr then None else FromString(c.parse, h).ToOption()
  }

  /** `lookup_inner`, blocking form: one hop, then the decision on its response. */
  function Follow(c: Chase, server: ServerValue, text: string, follow: Uint16): (r: Resolution)
    ensures 1 <= |r.requests| <= follow + 1
    ensures r.requests[0] == RequestFor(server, text)
    decreases follow, 1
  {
    var request := RequestFor(server, text);
    match c.hop(server)
    case Failure(e) => Resolution(Failure(e), [request])
    case Success(response) =>
      var rest := Continue(c, response, request.addr, text, follow);
      Resolution(rest.result, [request] + rest.requests)
  }

  /** The decision after a hop that answered `response` from `addr`, with `follow` hops left. */
  function Continue(c: Chase, response: string, addr: string, text: string, follow: Uint16): (r: Resolution)
    ensures |r.requests| <= follow
    ensures r.requests == [] ==> r.result == Success(response)
    decreases follow, 0
  {
    if follow == 0 then Resolution(Success(response), [])
    else match NextServer(c, response, addr)
      case None => Resolution(Success(response), [])
      case Some(next) => Follow(c, next, text, follow - 1)
  }

  /**
   * A referred server is read from bare host text and so has no query
   * template: every request after the first sends the default query.
   */
  lemma {:induction false} ReferredQueriesAreDefault(c: Chase, response: string, addr: string, text: string,
                                                     follow: Uint16)
    ensures forall i :: 0 <= i < |Continue(c, response, addr, text, follow).requests| ==>
      Continue(c, response, addr, text, follow).requests[i].query == FormatQuery(None, text)
    decreases follow
  {
    if follow > 0 && NextServer(c, response, addr).Some? {
      var next := NextServer(c, response, addr).value;
      var r := Follow(c, next, text, follow - 1);
      assert next.query == None;
      match c.hop(next)
      case Failure(_) =>
      case Success(answer) =>
        var later := Continue(c, answer, RequestFor(next, text).addr, text, follow - 1);
        ReferredQueriesAreDefault(c, answer, RequestFor(next, text).addr, text, follow - 1);
        assert r.requests == [RequestFor(next, text)] + later.requests;
        forall i | 0 <= i < |r.requests| ensures r.requests[i].query == FormatQuery(None, text) {
          if i > 0 {
            assert r.requests[i] == later.requests[i - 1];
            assert later.requests[i - 1].query == FormatQuery(None, text);
          }
        }
    }
  }

  /** Only the first request uses the server's own query template; the rest send the default query. */
  lemma LaterQueriesAreDefault(c: Chase, server: ServerValue, text: string, follow: Uint16)
    ensures var r := Follow(c, server, text, follow);
      && r.requests[0].query == FormatQuery(server.query, text)
      && forall i :: 1 <= i < |r.requests| ==> r.requests[i].query == FormatQuery(None, text)
  {
    var r := Follow(c, server, text, follow);
    match c.hop(server)
    case Failure(_) =>
    case Success(answer) =>
      var later := Continue(c, answer, RequestFor(server, text).addr, text, follow);
      ReferredQueriesAreDefault(c, answer, RequestFor(server, text).addr, text, follow);
      assert r.requests == [RequestFor(server, text)] + later.requests;
      forall i | 1 <= i < |r.requests| ensures r.requests[i].query == FormatQuery(None, text) {
        assert r.requests[i] == later.requests[i - 1];
        assert later.requests[i - 1].query == FormatQuery(None, text);
      }
  }

  /** Every failed hop fails with an I/O error. */
  ghost predicate HopsFailWithIo(c: Chase) {
    forall s: ServerValue :: c.hop(s).Failure? ==> c.hop(s).error.IOError?
  }

  /** The chase adds no error of its own: when hops fail only with I/O errors, so does the chase. */
  lemma {:induction false} ContinueFailsWithIo(c: Chase, response: string, addr: string, text: string, follow: Uint16)
    requires HopsFailWithIo(c)
    ensures Continue(c, response, addr, text, follow).result.Failure? ==>
      Continue(c, response, addr, text, follow).result.error.IOError?
    decreases follow
  {
    if follow > 0 && NextServer(c, response, addr).Some? {
      var next := NextServer(c, response, addr).value;
      match c.hop(next)
      case Failure(_) =>
      case Success(answer) =>
        ContinueFailsWithIo(c, answer, RequestFor(next, text).addr, text, follow - 1);
    }
  }

  lemma FollowFailsWithIo(c: Chase, server: ServerValue, text: string, follow: Uint16)
    requires HopsFailWithIo(c)
    ensures Follow(c, server, text, follow).result.Failure? ==> Follow(c, server, text, follow).result.error.IOError?
  {
    match c.hop(server)
    case Failure(_) =>
    case Success(answer) =>
      ContinueFailsWithIo(c, answer, RequestFor(server, text).addr, text, follow);
  }

  /** A referred hop that fails ends the lookup with its error. */
  lemma ContinueIntoFailure(c: Chase, response: string, addr: string, text: string, follow: Uint16, next: ServerValue)
    requires follow > 0 && NextServer(c, response, addr) == Some(next)
    requires c.hop(next).Failure?
    ensures Continue(c, response, addr, text, follow) == Resolution(Failure(c.hop(next).error), [RequestFor(next, text)])
  {
  }

  /** A referred hop that answers goes on with the decision on its answer. */
  lemma ContinueIntoAnswer(c: Chase, response: string, addr: string, text: string, follow: Uint16,
                           next: ServerValue, answer: string)
    requires follow > 0 && NextServer(c, response, addr) == Some(next)
    requires c.hop(next) == Success(answer)
    ensures var rest := Continue(c, answer, RequestFor(next, text).addr, text, follow - 1);
      Continue(c, response, addr, text, follow) == Resolution(rest.result, [RequestFor(next, text)] + rest.requests)
  {
  }

  lemma AppendAssociative(a: seq<Request>, b: seq<Request>, c: seq<Request>)
    ensures a + (b + c) == (a + b) + c
  {
  }

  /**
   * `lookup_inner`, async form: the same decisions as a loop that keeps the
   * last response and the address it came from.
   */
  method FollowLoop(c: Chase, server: ServerValue, text: string, follow: Uint16)
    returns (result: Result<string, WhoIsError>, requests: seq<Request>)
    ensures result == Follow(c, server, text, follow).result
    ensures requests == Follow(c, server, text, follow).requests
  {
    ghost var goal := Follow(c, server, text, follow);
    var first := RequestFor(server, text);
    requests := [first];
    var hop := c.hop(server);
    if hop.Failure? {
      return Failure(hop.error), requests;
    }
    var response, addr := hop.value, first.addr;
    var remaining := follow;
    while remaining > 0
      invariant requests + Continue(c, response, addr, text, remaining).requests == goal.requests
      invariant Continue(c, response, addr, text, remaining).result == goal.result
      decreases remaining
    {
      var next := NextServer(c, response, addr);
      if next.None? {
        return Success(response), requests;
      }
      var request := RequestFor(next.value, text);
      var nextHop := c.hop(next.value);
      if nextHop.Failure? {
        ContinueIntoFailure(c, response, addr, text, remaining, next.value);
        return Failure(nextHop.error), requests + [request];
      }
      ContinueIntoAnswer(c, response, addr, text, remaining, next.value, nextHop.value);
      AppendAssociative(requests, [request], Continue(c, nextHop.value, request.addr, text, remaining - 1).requests);
      requests := requests + [request];
      remaining := remaining - 1;
      response, addr := nextHop.value, request.addr;
    }
    return Success(response), requests;
  }

  /** With no hops left, exactly one request is made and its outcome is the lookup's. */
  lemma NoBudgetOneRequest(c: Chase, server: ServerValue, text: string)
    ensures Follow(c, server, text, 0) == Resolution(c.hop(server), [RequestFor(server, text)])
  {
  }

  /**
   * A response that is not to be followed (no referral, a referral to the
   * address just used, or an unparsable host) is the final answer.
   */
  lemma UnfollowedResponseIsFinal(c: Chase, server: ServerValue, text: string, follow: Uint16, response: string)
    requires c.hop(server) == Success(response)
    requires NextServer(c, response, ConnectAddress(server.host)).None?
    ensures Follow(c, server, text, follow) == Resolution(Success(response), [RequestFor(server, text)])
  {
  }

  /** A referral written exactly as the `host:port` address just used stops the chase. */
  lemma SelfReferralStops(c: Chase, server: ServerValue, text: string, follow: Uint16, response: string)
    requires c.hop(server) == Success(response)
    requires c.referral(response) == Some(ConnectAddress(server.host))
    ensures Follow(c, server, text, follow) == Resolution(Success(response), [RequestFor(server, text)])
  {
  }

  /** A referral to be followed spends one hop and continues against the referred server. */
  lemma ReferralFollowed(c: Chase, server: ServerValue, text: string, follow: Uint16, response: string, next: ServerValue)
    requires follow > 0
    requires c.hop(server) == Success(response)
    requires NextServer(c, response, ConnectAddress(server.host)) == Some(next)
    ensures Follow(c, server, text, follow).result == Follow(c, next, text, follow - 1).result
    ensures Follow(c, server, text, follow).requests == [RequestFor(server, text)] + Follow(c, next, text, follow - 1).requests
  {
  }

  /** A failed hop ends the lookup with that hop's error, unchanged. */
  lemma HopErrorPropagates(c: Chase, server: ServerValue, text: string, follow: Uint16)
    requires c.hop(server).Failure?
    ensures Follow(c, server, text, follow) == Resolution(Failure(c.hop(server).error), [RequestFor(server, text)])
  {
  }

  /** Server `s` answers, and its answer refers somewhere else that parses. */
  ghost predicate Refers(c: Chase, s: ServerValue) {
    c.hop(s).Success? && NextServer(c, c.hop(s).value, ConnectAddress(s.host)).Some?
  }

  /** Every server answers, and every answer refers somewhere else that parses. */
  ghost predicate AlwaysRefers(c: Chase) {
    forall s: ServerValue :: Refers(c, s)
  }

  /**
   * The hop budget is the only limit left when every server refers onward:
   * exactly `follow + 1` requests are made and the last answer is returned.
   */
  lemma {:induction false} BudgetExhausted(c: Chase, server: ServerValue, text: string, follow: Uint16)
    requires AlwaysRefers(c)
    ensures |Follow(c, server, text, follow).requests| == follow + 1
    ensures Follow(c, server, text, follow).result.Success?
    decreases follow
  {
    assert Refers(c, server);
    var hop := c.hop(server);
    if follow == 0 {
      NoBudgetOneRequest(c, server, text);
    } else {
      var next := NextServer(c, hop.value, ConnectAddress(server.host)).value;
      BudgetExhausted(c, next, text, follow - 1);
      ReferralFollowed(c, server, text, follow, hop.value, next);
    }
  }

  /**
   * The self-referral guard compares the captured text with `host:port`, so a
   * server on the default port whose answer refers to its own bare host name
   * is asked again and again: the same request is made `follow + 1` times.
   */
  lemma {:induction false} BareSelfReferralRepeats(c: Chase, name: string, text: string, follow: Uint16, response: string)
    requires c.parse(name) == Some(WhoIsHost(Domain(name), None))
    requires c.hop(ServerValue(WhoIsHost(Domain(name), None), None, DEFAULT_PUNYCODE)) == Success(response)
    requires c.referral(response) == Some(name)
    ensures var server := ServerValue(WhoIsHost(Domain(name), None), None, DEFAULT_PUNYCODE);
      var r := Follow(c, server, text, follow);
      && r.result == Success(response)
      && |r.requests| == follow + 1
      && forall i :: 0 <= i < |r.requests| ==> r.requests[i] == RequestFor(server, text)
    decreases follow
  {
    var server := ServerValue(WhoIsHost(Domain(name), None), None, DEFAULT_PUNYCODE);
    var addr := ConnectAddress(server.host);
    assert |addr| > |name|;
    assert NextServer(c, response, addr) == Some(server);
    if follow == 0 {
      NoBudgetOneRequest(c, server, text);
    } else {
      BareSelfReferralRepeats(c, name, text, follow - 1, response);
      ReferralFollowed(c, server, text, follow, response, server);
    }
  }
}
