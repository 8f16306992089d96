/**
 * The options of one lookup (src/who_is_lookup_options.rs): the target, an
 * optional server that overrides the directory, the number of referrals to
 * follow, and the socket timeout.
 */
module Options {
  import opened Wrappers
  import opened Errors
  import opened Hosts
  import opened ServerValues
  import opened Net

  const DEFAULT_FOLLOW: Uint16 := 2
  /** The default socket timeout, in milliseconds. */
  const DEFAULT_TIMEOUT: nat := 60000

  datatype LookupOptions = LookupOptions(
    target: Target,
    server: Option<ServerValue>,
    follow: Uint16,
    timeout: Option<Duration>)

  /** Options for `target` with every other field at its default. */
  function FromTarget(target: Target): (o: LookupOptions)
    ensures o.target == target
    ensures o.server.None?
    ensures o.follow == 2
    ensures o.timeout == Some(Duration(60000))
  {
    LookupOptions(target, None, DEFAULT_FOLLOW, Some(Duration(DEFAULT_TIMEOUT)))
  }

  /**
   * `from_str` and `from_string`: the text is validated as a target (no port
   * allowed), a rejection is reported as a host error, and an accepted target
   * gets the default options.
   */
  function FromText(parse: TargetParser, s: string): (r: Result<LookupOptions, WhoIsError>)
    ensures r.Success? <==> parse(s).Success?
    ensures r.Failure? ==> r.error == HostError(parse(s).error)
    ensures r.Success? ==> r.value.target == parse(s).value && r.value.server.None?
    ensures r.Success? ==> r.value.follow == DEFAULT_FOLLOW && r.value.timeout == Some(Duration(DEFAULT_TIMEOUT))
  {
    match parse(s)
    case Failure(e) => Failure(HostError(e))
    case Success(t) => Success(FromTarget(t))
  }
}
