/**
 * Hosts, targets and the 16-bit integers of the source. Validating text into a
 * host or target is done by the `validators` crate, which is not part of this
 * model: it enters as the parser parameters declared here.
 */
module Hosts {
  import opened Wrappers

  /** Rust's `u16`. */
  type Uint16 = x: int | 0 <= x < 0x1_0000

  /**
   * A host as the validator classifies it. Each address variant carries the
   * text its `Display` implementation writes (IPv6 without brackets).
   */
  datatype Host = IPv4(text: string) | IPv6(text: string) | Domain(name: string)

  /** `WhoIsHost`: a host with an optional port. */
  datatype WhoIsHost = WhoIsHost(host: Host, port: Option<Uint16>)

  /** `Target`: a host given without a port. */
  datatype Target = Target(host: Host)

  /** `WhoIsHost::parse_str`: `None` for text the validator rejects. */
  type HostParser = string -> Option<WhoIsHost>

  /** `Target::parse_str`: the validator's error text for rejected input. */
  type TargetParser = string -> Result<Target, string>
}
