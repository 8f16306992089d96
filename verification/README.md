# whois-rust resolution engine in Dafny

This project models the core of the `whois-rust` crate, a WHOIS client. It covers:

- **The server directory** `WhoIs`. A map from domain suffixes to server values, plus the server for IP addresses. It is built from an in-memory JSON object (`from_inner`).
- **Server values** `WhoIsServerValue`. Either a bare host string or an object `{host, query?, punycode?}`, read by `from_value` and `from_string`.
- **Lookup options** `WhoIsLookupOptions`. The target, an optional override server, the referral budget `follow` (default 2) and the socket timeout (default 60000 ms).
- **Server selection** in `lookup`. The override wins. Otherwise an IP address goes to the IP server, and a domain goes to the first key found by stripping leading labels down to the catch-all `""`.
- **One hop.**
  - The connect address `host:port` defaults to port 43 and brackets IPv6.
  - The query is the template, or `"$addr\r\n"`, with every `$addr` replaced.
  - Connect fallback: the resolved addresses but the last are tried in order, and the last one's outcome is the fallback.
- **Referral following.** The `RE_SERVER` pattern is a hand-written leftmost-first scanner. The self-referral guard compares the capture with the `host:port` string. The blocking recursion and the async loop are both modelled and proved to return the same result after the same sequence of requests.

Collaborators the model cannot see are parameters:

- **The host validator** `WhoIsHost::parse_str` is a `HostParser`.
- **The target validator** `Target::parse_str` is a `TargetParser`.
- **`Target::to_uri_authority_string`** is a function `Host -> string`.
- **The network** is a `Network` value. Its oracle functions are `resolve`, `connectTimeout`, `connect` and `exchange`.

The referral chase (module `Referrals`) is stated over a `Chase` value. It holds what one hop answers for a server, the referral pattern, and the host validator. `Lookups.ChaseFor` fills it with `Net.Hop` over the lookup's network, text and timeout, and with `ReferralPattern.ExtractReferral`.

A lookup's observable behaviour is a `Resolution`: its final result and the list of `(address, query)` requests it made, in order.

Observations the proofs make explicit:

- **A bare host name is not caught as a self-referral.** The guard compares the captured text with `host:port`. A server on port 43 whose answer names its own bare host is queried again, until the budget runs out (`Referrals.BareSelfReferralRepeats`).
- **Captures keep the carriage return.** The pattern's `.` matches everything except `\n`, so on a CRLF response the capture ends in `\r` (`ReferralPattern.CarriageReturnCaptured`). Whether such a host is then followed depends on the host validator, which is not part of this model.
- **The two forms of a server value report a bad host differently.** A bare string and `{"host": …}` give the same server value. For a bad host the messages differ (`ServerValues.BareHostEqualsObject`).

## Model

| member | source | states |
|---|---|---|
| Errors.Io | src/who_is_error.rs:25-30 | an I/O failure becomes `IOError` carrying the same error; success passes through unchanged |
| Json.Get | src/who_is.rs:69 | a key is absent exactly when no member has it; a found value belongs to a member with that key |
| Json.Remove | src/who_is.rs:66 | the removed key no longer occurs, every other member is kept, and distinct keys stay distinct |
| Text.ReplaceAbsent | src/who_is.rs:150-154 | a text without the placeholder is left unchanged by replacement |
| Text.Replace | src/who_is.rs:150-154 | replacing a pattern by itself changes nothing, and a replacement as long as the pattern keeps the length |
| Text.ReplaceAfterPlain | src/who_is.rs:150-154 | for a pattern whose first character does not recur, such as `$addr`: scanning a text free of the pattern followed by the pattern copies the text, replaces that occurrence and continues after it; no occurrence runs across the boundary |
| Text.ReplaceJoin | src/who_is.rs:150-154 | every occurrence is replaced, for a pattern whose first character does not recur, such as `$addr`: a text cut by the pattern into parts free of it comes back as the same parts joined by the replacement |
| Text.DecimalText | src/who_is.rs:119 | a port is written as a non-empty string of decimal digits |
| Text.DecimalRoundTrip | src/who_is.rs:119 | the decimal text of a number reads back as that number and has no leading zero |
| ServerValues.FromString | src/who_is_server_value.rs:75-90 | succeeds exactly when the host parses, then with no query template and punycode on; otherwise the bad-host-string `MapError` |
| ServerValues.FromValue | src/who_is_server_value.rs:17-72 | succeeds exactly on acceptable values; a string is read as `from_string`; non-string non-object values, a missing host and a bad host each give their own `MapError`; the query and punycode fields take their defaults when absent |
| ServerValues.ObjectErrorOrder | src/who_is_server_value.rs:31-57 | once the host is good, a bad `query` is reported before a bad `punycode` |
| ServerValues.OtherMembersIgnored | src/who_is_server_value.rs:19-63 | two objects that agree on `host`, `query` and `punycode` give the same outcome, whatever else they contain |
| ServerValues.DescribeRoundTrip | src/who_is_server_value.rs:17-63 | the object form of a server value reads back as that server value |
| ServerValues.BareHostEqualsObject | src/who_is_server_value.rs:17-90 | a bare host string and `{"host": …}` give the same server; for a bad host they report different messages |
| Directory.ParseServers | src/who_is.rs:92-99 | fails exactly when some non-null entry is malformed, with that entry's error; on success the keys are exactly the non-null entries' keys and each maps to its entry's parsed value |
| Directory.IpServer | src/who_is.rs:66-90 | a missing `_`, a non-object `_`, a missing `ip` and a null `ip` each fail with their own `MapError`; a non-null `_.ip` gives exactly what parsing it as a server value gives, success or error |
| Directory.RemoveKeepsOthers | src/who_is.rs:66 | removing `_` removes only that key from the non-null keys and adds no malformed entry |
| Directory.FromInner | src/who_is.rs:65-105 | IP-server errors come first; a built directory has the parsed IP server and exactly the non-null keys other than `_`, each parsed from its entry; with a good IP server, construction fails exactly when another non-null entry is malformed, and then with the error of such an entry |
| Suffixes.FirstDot | src/who_is.rs:212 | the position found holds the first `.`; no position means there is no `.` |
| Suffixes.StripLabel | src/who_is.rs:212-219 | one step of the search strictly shortens the candidate, so the loop terminates |
| Suffixes.Candidates | src/who_is.rs:195-220 | the search starts with the whole domain and ends with `""` |
| Suffixes.CandidatesAreLabelSuffixes | src/who_is.rs:195-220 | a string is tried exactly when it is the domain, `""`, or the part after one of its dots |
| Suffixes.CandidatesShrink | src/who_is.rs:212-219 | later candidates are strictly shorter than earlier ones |
| Suffixes.FirstHit | src/who_is.rs:201-210 | the hit is a known key, and every earlier candidate is unknown |
| Suffixes.LongestSuffixWins | src/who_is.rs:194-229 | the search finds nothing exactly when no label suffix is known; otherwise it finds the longest known one (`co.uk` before `uk`, `""` last) |
| Suffixes.SuffixSearch | src/who_is.rs:195-220 | the loop finds a server exactly when the longest-known-suffix choice exists, and it is that key's server |
| Net.ConnectAddress | src/who_is.rs:116-122 | the address starts with the host text; an IPv6 address starts with `[` |
| Net.AfterLastColon | src/who_is.rs:116-122 | the index found follows the last `:` of the address, and no `:` comes after it |
| Net.ConnectAddressSplits | src/who_is.rs:116-122 | split at its last `:`, the address gives back the host text and the port used, 43 when none is given |
| Net.FormatQuery | src/who_is.rs:150-154 | without a template the query is the text followed by CR LF; a template without `$addr` is sent as written |
| Net.TemplateFilled | src/who_is.rs:150-154 | every `$addr` of a template is replaced by the text: a template cut by `$addr` is sent as its parts joined by the text |
| Net.ChooseConnection | src/who_is.rs:129-141 | the first success among all but the last address wins; when they all fail, the last address's outcome, success or error, is the outcome |
| Net.Connect | src/who_is.rs:124-148 | without a timeout a plain connect is made to the address string; with one, a resolution failure is the error, and otherwise the outcome is the fallback over the resolved addresses, each tried with the timeout; every failure is an I/O error |
| Net.Hop | src/who_is.rs:110-160 | the hop connects to the recorded request's address; a connect failure is the hop's error, and otherwise the outcome is the exchange of the recorded query over that connection; every failure is an I/O error |
| ReferralPattern.HeaderEndFrom | src/who_is.rs:32 | a header match means one of the five labels followed by `:` starts there; no match means none does |
| ReferralPattern.SkipLineSpace | src/who_is.rs:32 | skips exactly the maximal run of whitespace other than newline |
| ReferralPattern.LineEnd | src/who_is.rs:32 | the capture stops at the first newline or the end of the text |
| ReferralPattern.CaptureFrom | src/who_is.rs:32 | the capture after a header holds no newline |
| ReferralPattern.CaptureAt | src/who_is.rs:32 | a capture exists exactly where a header matches, and it holds no newline |
| ReferralPattern.SkipSchemeLongest | src/who_is.rs:32 | the optional group skips exactly the longest of `rwhois://`, `whois://` and nothing that the text starts with |
| ReferralPattern.CaptureIsRestOfLine | src/who_is.rs:32 | after a header, the capture is the rest of the line that follows the maximal run of `[^\S\n]` and the longest scheme prefix |
| ReferralPattern.MatchStart | src/who_is.rs:163 | the match is the leftmost position where a header matches |
| ReferralPattern.ExtractReferral | src/who_is.rs:31-33 | no referral exactly when no header occurs anywhere; a referral is a single line, and it is the capture at a header before which no header starts |
| ReferralPattern.ReferralAtLeftmostHeader | src/who_is.rs:163 | the referral is the capture at the leftmost header of the response |
| ReferralPattern.NoLabelNoReferral | src/who_is.rs:32 | a response that never has a label followed by `:` has no referral |
| ReferralPattern.HeadersExclusive | src/who_is.rs:32 | at one position at most one label matches |
| ReferralPattern.HeaderLineReferral | src/who_is.rs:31-33 | a response that starts with `Label: [r]whois://host` followed by a newline refers to `host` |
| ReferralPattern.CarriageReturnCaptured | src/who_is.rs:32 | on a CRLF line the captured host keeps the trailing `\r` |
| Referrals.NextServer | src/who_is.rs:163-167 | a referral is followed exactly when one is found, it differs from the `host:port` just used, and it parses; it is then read as by `from_string` |
| Referrals.Follow | src/who_is.rs:110-176 | at least one and at most `follow + 1` requests, the first to the given server |
| Referrals.Continue | src/who_is.rs:162-175 | at most `follow` more requests; with none made the current response is the answer |
| Referrals.ReferredQueriesAreDefault | src/who_is.rs:167-168 | every request made after a referral sends the default query, since a referred server has no template |
| Referrals.LaterQueriesAreDefault | src/who_is.rs:150-168 | only the first request uses the server's own template; all later ones send the default query |
| Referrals.ContinueFailsWithIo | src/who_is.rs:162-175 | the chase adds no error of its own: when hops fail only with I/O errors, so does what follows a response |
| Referrals.FollowFailsWithIo | src/who_is.rs:110-176 | when hops fail only with I/O errors, so does the whole chase |
| Referrals.ContinueIntoFailure | src/who_is.rs:167-168 | a referred hop that fails ends the chase with its error after one more request |
| Referrals.ContinueIntoAnswer | src/who_is.rs:167-168 | a referred hop that answers adds one request and goes on with its answer and one hop less |
| Referrals.FollowLoop | src/who_is.rs:299-331 | the async loop gives the same result and the same request sequence as the blocking recursion |
| Referrals.NoBudgetOneRequest | src/who_is.rs:162 | with `follow = 0` exactly one request is made and its outcome is final |
| Referrals.UnfollowedResponseIsFinal | src/who_is.rs:162-175 | a response with no referral to follow is returned after a single request |
| Referrals.SelfReferralStops | src/who_is.rs:166 | a referral equal to the `host:port` just used stops the chase |
| Referrals.ReferralFollowed | src/who_is.rs:167-168 | a followed referral adds one request and recurses with one hop less |
| Referrals.HopErrorPropagates | src/who_is.rs:124-160 | an error in a hop is returned unchanged and ends the lookup |
| Referrals.BudgetExhausted | src/who_is.rs:162-168 | when every answer refers onward, exactly `follow + 1` requests are made and the last answer is returned |
| Referrals.BareSelfReferralRepeats | src/who_is.rs:166 | a server on port 43 that refers to its own bare name is asked `follow + 1` times with the same request |
| Options.FromTarget | src/who_is_lookup_options.rs:25-32 | the target is kept, there is no override, `follow` is 2 and the timeout is 60000 ms |
| Options.FromText | src/who_is_lookup_options.rs:36-43 | succeeds exactly when the target parses, then with the default options; otherwise the parser's error as a host error |
| Suffixes.LabelSuffixIsTail | src/who_is.rs:212-219 | every suffix the search can try is the tail of the domain of its own length |
| Suffixes.LongestKnownSuffixSelected | src/who_is.rs:194-229 | the longest label suffix the directory knows is the one the search settles on |
| Suffixes.KnownSuffixOutranked | src/who_is.rs:194-229 | once any label suffix is known the search settles on a known label suffix at least as long |
| Lookups.ChaseFor | src/who_is.rs:110-160 | the hops of a lookup over the network fail only with I/O errors |
| Lookups.SelectServer | src/who_is.rs:180-230 | the override wins; an address without one uses the IP server; a domain fails with the no-server `MapError` exactly when none of its label suffixes is known, and otherwise is sent to the server of the selected (longest known) suffix |
| Lookups.Lookup | src/who_is.rs:179-237 | a selection failure makes no request; otherwise the first request goes to the selected server with the domain name or address text, and at most `follow + 1` requests are made |
| Lookups.OverrideIgnoresDirectory | src/who_is.rs:182-185 | with an override, two different directories give the same lookup |
| Lookups.AddressUsesIpServer | src/who_is.rs:181-193 | an address without an override is sent, as a URI authority, to the IP server |
| Lookups.DomainUsesLongestSuffix | src/who_is.rs:194-234 | a domain without an override is sent, with the domain name as query text, to the server of a known label suffix at least as long as any known label suffix |
| Lookups.UnknownDomainFails | src/who_is.rs:221-227 | a domain with no known label suffix fails with the no-server `MapError` before any request |
| Lookups.DefaultOptionsAtMostThreeRequests | src/who_is_lookup_options.rs:29 | with the default options a lookup makes at most three requests |
| Lookups.LookupAsync | src/who_is.rs:334-392 | the async lookup gives the same result and the same requests as the blocking one |

## Left out

- Reading the server list from a file or JSON text (`from_path`, `from_string` in src/who_is.rs). The model starts from the parsed object. Its members are a sequence in map iteration order with distinct keys.
- serde_json's number representation. Numbers are kept as text, because only their kind matters here.
- Sockets, DNS, reads, writes and flushes. These are the `Network` oracle functions.
- Timeouts. Enforcing them, and failures of `set_read_timeout`/`set_write_timeout`, are folded into the oracle's outcomes. The two hop forms handle timeouts differently, and both are modelled by the one `Net.Hop`. The async form connects to the last resolved address without a timeout, so a slow connect there can succeed where the blocking form's `connect_timeout` fails. It also bounds the write, flush and read together with one timeout, where the blocking form sets a separate socket timeout per operation. So the proved equivalence of the two lookups covers their control flow, not these timeout outcomes.
- An empty list of resolved addresses, on which the source panics. Resolution is stated to return a non-empty list.
- The tokio runtime and futures. Only the control flow of the async loop is modelled.
- The regex engine itself. The single pattern is modelled by a scanner with the same leftmost-first, greedy behaviour. `ReferralPattern.CaptureIsRestOfLine` and `ReferralPattern.ReferralAtLeftmostHeader` state that behaviour without reference to the scanner.
- Host and target validation, and `to_uri_authority_string`, which come from the `validators` crate. They are parameters. src/who_is_host.rs and src/target.rs are not part of this model.
- Punycode conversion. The `punycode` flag is read and stored but never used by a lookup.
- The `Display` and `From` conversions of `WhoIsError`. Foreign error payloads are reduced to text.
- src/lib.rs and tests/test.rs. The first holds documentation and module wiring only; the second holds live-network checks.
