/** The error kinds of `WhoIsError` (src/who_is_error.rs). Foreign error payloads are reduced to text. */
module Errors {
  import opened Wrappers

  /** A `std::io::Error`, reduced to a description of its kind. */
  datatype IoError = IoError(kind: string)

  datatype WhoIsError =
    | SerdeJsonError(detail: string)
    | IOError(io: IoError)
    | HostError(detail: string)
    | MapError(message: string)

  /** Converts an I/O outcome into the crate's error type, as `?` does through `From<io::Error>`. */
  function Io<T>(r: Result<T, IoError>): (r': Result<T, WhoIsError>)
    ensures r'.Success? <==> r.Success?
    ensures r.Success? ==> r'.value == r.value
    ensures r.Failure? ==> r'.error == IOError(r.error)
  {
    match r
    case Success(v) => Success(v)
    case Failure(e) => Failure(IOError(e))
  }

  // The static messages carried by `MapError`.
  const NO_UNDERSCORE := "Cannot find `_` in the server list."
  const UNDERSCORE_NOT_OBJECT := "`_` in the server list is not an object."
  const NO_IP := "Cannot find `ip` in the `_` object in the server list."
  const IP_IS_NULL := "`ip` in the `_` object in the server list is null."
  const NO_SERVER_KNOWN := "No whois server is known for this kind of object."
  const OBJECT_WITHOUT_HOST := "The server value is an object, but it has not a host string."
  const OBJECT_BAD_HOST := "The server value is an object, but it has not a correct host string."
  const OBJECT_BAD_QUERY := "The server value is an object, but it has an incorrect query string."
  const OBJECT_BAD_PUNYCODE := "The server value is an object, but it has an incorrect punycode boolean value."
  const NOT_SERVER_VALUE := "The server value is not an object or a host string."
  const BAD_HOST_STRING := "The server value is not a correct host string."
}
