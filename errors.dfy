/** `src/errors.rs`: the error type of the loaders, its `Display` messages, `source` and the
    conversions that build it. The `base` crate declares an enum with the same four variants
    and fields; both are this one datatype, and `BaseErrors` holds the `base` crate's
    constructors and messages. */
module Errors {
  import opened Wrappers

  /** Stands for `std::io::Error`; `message` is what its `Display` prints. */
  datatype IoError = IoError(message: string)

  datatype ConfigError =
    | Io(ioError: IoError)
    | MissingKey(key: string)
    | ParseError(key: string, value: string, err: string)
    | LoadingError(path: string, err: string)

  const MISSING_KEY_PREFIX := "Missing required key '"

  /** `impl Display for ConfigError`. */
  function Display(e: ConfigError): (msg: string)
    ensures e.MissingKey? ==>
      && |msg| == |MISSING_KEY_PREFIX| + |e.key| + 1
      && msg[..|MISSING_KEY_PREFIX|] == MISSING_KEY_PREFIX
      && msg[|MISSING_KEY_PREFIX|..|msg| - 1] == e.key
      && msg[|msg| - 1] == '\''
  {
    match e
    case Io(err) => "I/O error: " + err.message
    case MissingKey(key) => MISSING_KEY_PREFIX + key + "'"
    case ParseError(key, value, err) =>
      "Failed to parse key '" + key + "': value '" + value + "' (" + err + ")"
    case LoadingError(path, err) => "Failed to load file '" + path + "': " + err
  }

  /** The key can be read back from a missing-key message: two such messages are equal
      only when their keys are. */
  lemma MissingKeyMessageInjective(k1: string, k2: string)
    requires Display(MissingKey(k1)) == Display(MissingKey(k2))
    ensures k1 == k2
  {
    var m := Display(MissingKey(k1));
    assert k1 == m[|MISSING_KEY_PREFIX|..|m| - 1] == k2;
  }

  /** The message of each variant. */
  lemma DisplayMessages(k: string, v: string, err: string, path: string, io: IoError)
    ensures Display(Io(io)) == "I/O error: " + io.message
    ensures Display(MissingKey(k)) == "Missing required key '" + k + "'"
    ensures Display(ParseError(k, v, err)) ==
      "Failed to parse key '" + k + "': value '" + v + "' (" + err + ")"
    ensures Display(LoadingError(path, err)) == "Failed to load file '" + path + "': " + err
  {
  }

  /** `impl Error for ConfigError`: only an I/O error has an underlying cause. */
  function Source(e: ConfigError): (r: Option<IoError>)
    ensures r.Some? <==> e.Io?
    ensures e.Io? ==> r == Some(e.ioError)
  {
    match e
    case Io(err) => Some(err)
    case _ => None
  }

  /** `impl From<io::Error> for ConfigError`, used by `?` on a failed read. */
  function FromIoError(err: IoError): (e: ConfigError)
    ensures e.Io? && Source(e) == Some(err)
  {
    Io(err)
  }

  /** `ConfigError::parse_err`. */
  function ParseErr(key: string, value: string, err: string): (e: ConfigError)
    ensures e.ParseError? && e.key == key && e.value == value && e.err == err
  {
    ParseError(key, value, err)
  }
}
