/** `base/src/errors.rs`: the `base` crate's constructors for `ConfigError` and the messages
    its `#[error(...)]` attributes give each variant. */
module BaseErrors {
  import opened Errors

  /** `ConfigError::parse_err`. */
  function ParseErr(key: string, value: string, err: string): (e: ConfigError)
    ensures e.ParseError? && e.key == key && e.value == value && e.err == err
  {
    ParseError(key, value, err)
  }

  /** `ConfigError::missing_key_err`. */
  function MissingKeyErr(key: string): (e: ConfigError)
    ensures e.MissingKey? && e.key == key
  {
    MissingKey(key)
  }

  /** `ConfigError::loading_err`. */
  function LoadingErr(path: string, err: string): (e: ConfigError)
    ensures e.LoadingError? && e.path == path && e.err == err
  {
    LoadingError(path, err)
  }

  /** The characters `{:?}` on a string writes as an escape sequence. */
  predicate NeedsEscape(c: char) {
    c == '\0' || c == '\t' || c == '\r' || c == '\n' || c == '\\' || c == '"'
  }

  /** The escaped form of one character inside a `{:?}`-printed string. */
  function EscapeChar(c: char): string {
    match c
    case '\0' => "\\0"
    case '\t' => "\\t"
    case '\r' => "\\r"
    case '\n' => "\\n"
    case '\\' => "\\\\"
    case '"' => "\\\""
    case _ => [c]
  }

  function EscapeDebug(s: string): string {
    if s == [] then [] else EscapeChar(s[0]) + EscapeDebug(s[1..])
  }

  /** `{:?}` on a string: the escaped text between double quotes. */
  function DebugQuote(s: string): string {
    "\"" + EscapeDebug(s) + "\""
  }

  /** Text without characters that need escaping is printed verbatim by `{:?}`. */
  lemma {:induction false} EscapeDebugPlain(s: string)
    requires forall i :: 0 <= i < |s| ==> !NeedsEscape(s[i])
    ensures EscapeDebug(s) == s
  {
    if s != [] {
      EscapeDebugPlain(s[1..]);
    }
  }

  /** The `#[error(...)]` message of each variant. */
  function Message(e: ConfigError): string {
    match e
    case Io(_) => "Some thing went wrong"
    case MissingKey(key) => "Missing key " + DebugQuote(key) + " or make it optional"
    case ParseError(key, _, err) =>
      "Parsing failed for " + DebugQuote(key) + " due to " + DebugQuote(err)
    case LoadingError(path, err) =>
      "Failed to load the file from " + DebugQuote(path) + " due to " + DebugQuote(err)
  }

  /** The I/O message is one fixed text, whatever error it wraps. */
  lemma IoMessageConstant(a: IoError, b: IoError)
    ensures Message(Io(a)) == Message(Io(b)) == "Some thing went wrong"
  {
  }

  /** For a key needing no escapes the missing-key message quotes the key as it is. */
  lemma MissingKeyMessagePlain(key: string)
    requires forall i :: 0 <= i < |key| ==> !NeedsEscape(key[i])
    ensures Message(MissingKey(key)) == "Missing key " + "\"" + key + "\"" + " or make it optional"
  {
    EscapeDebugPlain(key);
  }

  /** A double quote inside the key is escaped. */
  lemma MissingKeyMessageEscapes()
    ensures Message(MissingKey("a\"b")) == "Missing key \"a\\\"b\" or make it optional"
  {
    assert EscapeDebug("a\"b") == "a\\\"b" by {
      assert EscapeDebug("b") == "b";
      assert EscapeDebug("\"b") == "\\\"" + EscapeDebug("b");
    }
  }
}
