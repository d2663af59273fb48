# nviron: a verified model of the `.env` loader core

nviron loads application settings from `.env` text. A file is read as text. Its lines
become a key/value map: each line is trimmed, blank and `#` lines are skipped, the line
is split at the first `=`, both parts are trimmed, a line with an empty key or no `=` is
dropped, and one pair of matching quotes is stripped from the value. Settings are then
built from that map. The repository has two drafts of this logic:

- the root crate (`src/`), whose `SettingsBuilder` holds `Option` members;
- the `base` crate (`base/`), whose `SettingsBuilder` is made of `Field`s produced by
  `FieldBuilder`s.

This project models both drafts in Dafny and proves what they promise. Modules follow
the source files:

| module | models |
|---|---|
| `Reader` | `src/reader.rs`: `parse_env_contents`, as the source's line loop |
| `Parser` | `base/src/parser.rs`: `parse` and the crate's copy of `parse_env_contents` |
| `Fields` | `base/src/field.rs`: the classes `Field` and `FieldBuilder` |
| `Lib` | `src/lib.rs`: `SettingsBuilder`, the map helpers, `from_hash_map` and `from_file` |
| `BaseLib` | `base/src/lib.rs`: the `Field`-based `SettingsBuilder` and its `from_hash_map` |
| `Errors` | `src/errors.rs`: `ConfigError`, `Display`, `source`, `From<io::Error>`, `parse_err` |
| `BaseErrors` | `base/src/errors.rs`: constructor helpers and the `#[error]` messages |

Four supporting modules:

- `Wrappers`: `Option` and `Result`. `:-` plays the role of Rust's `?`.
- `Text`: the Rust `str` operations the parser uses. `trim` uses Unicode White_Space. `lines` splits after `"\n"` and drops a `"\r"` just before it. `find` supports `splitn(2, '=')`.
- `Convert`: `FromStr` as a conversion `string -> Result<T, string>`. There are two instances:
  - `String`, which never fails;
  - `u64`: an optional `+`, then decimal digits, with a value below 2^64. It reports Rust's three error messages in Rust's scan order.
- `EnvFormat`: the parser's specification. `Entry` says what one line contributes. `ParseEnv` is the left fold of those entries over `lines()`.

Both copies of `parse_env_contents` are proved equal to `ParseEnv`. The properties of the
parser are then lemmas about `ParseEnv`:

- the shape of keys;
- which lines are dropped;
- that the last line wins;
- quote stripping;
- whitespace tolerance;
- a round trip from written entries back to the map.

Each loader's `from_hash_map` is proved equal to a reference function `Loaded`. The
lemmas about `Loaded` state the loader's error order and defaults.

In `Fields`, `Lib` and `BaseLib`, the source's `mut self` setters that return `self` are
methods on classes that update fields in place. `build`, `value` and the helpers are
functions. `from_hash_map` is a method because it allocates builders.

The three map helpers of `base/src/lib.rs:12-48` have the same text as those of
`src/lib.rs:65-101`. The model defines them once, as `Lib.RequiredStr`,
`Lib.RequiredParse` and `Lib.OptionalParse`, and `BaseLib` uses those definitions.

The two crates define `ConfigError` enums with the same variants. The model has one
datatype, `Errors.ConfigError`. `Errors.Display` gives the root crate's messages and
`BaseErrors.Message` gives the `base` crate's.

The two drafts disagree on the `server_env` policy. The root crate defaults an absent
value before building. The `base` crate replaces a failed lookup with `"local"` and then
requires the field. The model keeps each draft's own policy. Both end in `"local"` for an
absent key.

## Model

| member | source | states |
|---|---|---|
| Reader.ParseEnvContents | src/reader.rs:14-50 | the map after the line loop is `ParseEnv(contents)`, the left fold of each line's entry over `lines()`; the loop invariant is that after `n` lines the map is the fold of their entries |
| Reader.FoldPrefixStep | src/reader.rs:17-42 | one more line of the loop is one more `Insert` of that line's entry |
| Parser.ParseEnvContents | base/src/parser.rs:21-57 | the `base` copy of the parser computes `ParseEnv(contents)` too, so it agrees with `src/reader.rs` on every input |
| Parser.Parse | base/src/parser.rs:6-14 | succeeds exactly when the conversion does, with the converted value; a failure is `ParseError` with an empty key, the original input as value and the conversion's message |
| Parser.ParseStringIdentity | base/src/parser.rs:6-14 | with `String` as target, `parse` never fails and returns its input |
| Parser.ParseU64Outcome | base/src/parser.rs:6-14 | with `u64` as target, `parse` succeeds exactly on `u64` texts with their decimal value, and otherwise fails with empty key, the input and `from_str`'s message |
| Parser.ParseEnvCommentAndBlank | base/src/parser.rs:24-49 | a comment line and a blank line before `k=v` contribute nothing: the map is exactly `{k: v}` with quotes stripped |
| Parser.CommentBlankLines | base/src/parser.rs:24 | `lines()` of comment, blank line and assignment, each ended by `"\n"`, is those three lines |
| Parser.ParseEnvCommentAndBlankExample | base/src/parser.rs:24-49 | `# comment\n\nkey=value\n` parses to exactly `{key: value}` |
| Parser.ParseEnvQuoted | base/src/parser.rs:40-49 | the single line `k="w"` parses to exactly `{k: w}`: the quotes go and the inside, spaces included, stays |
| Parser.ParseEnvQuotedExample | base/src/parser.rs:40-49 | `key="hello world"` parses to exactly `{key: hello world}` |
| EnvFormat.StripQuotes | src/reader.rs:35-41 | definition: a value of at least two characters that starts and ends with the same `"` or `'` loses that pair; any other value is kept |
| EnvFormat.Insert | src/reader.rs:42 | definition: one `map.insert` of the loop when the line gave an entry, nothing otherwise |
| EnvFormat.Fold | src/reader.rs:17-47 | definition: the entries inserted in order into an empty map, a left fold of `Insert` |
| EnvFormat.ParseEnv | src/reader.rs:14-50 | definition of `parse_env_contents`: total, the fold of the entries of `lines()`; the loops are proved equal to it and the lemmas below characterise it |
| EnvFormat.Entry | src/reader.rs:18-42 | a line's entry, when it has one, has a key that is non-empty, trimmed, without `=` and not starting with `#` |
| EnvFormat.KeyWellShaped | src/reader.rs:25-32 | the trimmed text before the first `=` of a trimmed non-comment line, when non-empty, has the key shape |
| EnvFormat.Entries | src/reader.rs:17-42 | one entry per line, in line order |
| EnvFormat.EntriesAppend | src/reader.rs:17 | the entries of two runs of lines are the entries of each, concatenated |
| EnvFormat.FoldSnoc | src/reader.rs:42 | one more entry is one more insertion into the map so far |
| EnvFormat.FoldDomain | src/reader.rs:42 | a key is in the folded map exactly when some entry binds it |
| EnvFormat.FoldLastWins | src/reader.rs:42 | the folded map holds, for a key, the value of the last entry binding it |
| EnvFormat.FoldSkip | src/reader.rs:19-32 | an absent entry anywhere in the sequence leaves the map unchanged |
| EnvFormat.ParseEnvKeys | src/reader.rs:18-32 | every key of the result is non-empty, trimmed, free of `=` and does not start with `#` |
| EnvFormat.EntriesDomain | src/reader.rs:17-42 | over any lines, a key is in the map exactly when some line defines it |
| EnvFormat.ParseEnvDomain | src/reader.rs:17-42 | a key is in the parsed map exactly when some line of the text defines it |
| EnvFormat.ParseEnvLastLineWins | src/reader.rs:42 | when several lines define a key, the map holds the value from the last of them |
| EnvFormat.DroppedLines | src/reader.rs:19-46 | a line gives no entry exactly when it is blank or a comment after trimming, has no `=`, or has an empty trimmed key |
| EnvFormat.DroppedLineInText | src/reader.rs:19-46 | inserting or removing, after any text that ends a line, a line followed by its `"\n"` that gives no entry (blank, comment, no `=`, empty key) leaves the parsed map unchanged |
| EnvFormat.DroppedLastLine | src/reader.rs:17-46 | the same for a final line without `"\n"`: adding or removing it at the end of text that ends a line leaves the parsed map unchanged |
| EnvFormat.EntryOfAssignment | src/reader.rs:24-42 | `k=v` with a well-shaped key stores the quote-stripped `v`, later `=` characters in `v` included |
| EnvFormat.EntrySpacing | src/reader.rs:18-42 | whitespace around the line, around the key and around the value does not change the entry |
| EnvFormat.SpacedLineTrim | src/reader.rs:18 | trimming a spaced assignment line removes only the outer whitespace |
| EnvFormat.EntryOfSplit | src/reader.rs:24-42 | a non-skipped line with a non-empty key before its first `=` gives the trimmed key and the trimmed, quote-stripped rest |
| EnvFormat.StripQuotesOfQuoted | src/reader.rs:35-41 | exactly one outer pair of matching `"` or `'` is removed and the inner text is not re-trimmed |
| EnvFormat.StripQuotesUnquoted | src/reader.rs:35-41 | a value shorter than 2 or without a matching pair of quotes at its ends is kept verbatim |
| EnvFormat.StripQuotesExamples | src/reader.rs:35-41 | a lone `"` and the mismatched `"x'` stay as they are; `' a '` keeps its inner spaces; only one layer of `""a""` goes |
| EnvFormat.FoldEntriesAssign | src/reader.rs:42 | lines each giving an entry fold to the map of those entries, a later key overwriting an earlier one |
| EnvFormat.ParseJoined | src/reader.rs:14-50 | text written as such lines, each ended by `"\n"`, parses to the map of their entries |
| EnvFormat.RenderLineEntry | src/reader.rs:33-42 | a written line `k="v"` reads back as the entry `(k, v)` |
| EnvFormat.RenderRoundTrip | src/reader.rs:14-50 | parsing what `Render` writes gives back the map of the written entries |
| Text.IsWhitespace | src/reader.rs:18 | definition: the characters with the Unicode White_Space property, which `char::is_whitespace` and so `trim` use |
| Text.Trim | src/reader.rs:18 | the trim has no whitespace at either end and is no longer than its input |
| Text.TrimSlice | src/reader.rs:18 | every input is whitespace, then its trim, then whitespace: the trim is a slice `s[a..b]` of the input with only whitespace before `a` and after `b` |
| Text.TrimAvoids | src/reader.rs:18 | trimming introduces no character |
| Text.TrimEmpty | src/reader.rs:19 | a trim is empty exactly when the line is all whitespace |
| Text.TrimOfTrimmed | src/reader.rs:18 | text with no whitespace at its ends is its own trim |
| Text.TrimIdempotent | src/reader.rs:25-26 | trimming a trimmed part again changes nothing |
| Text.TrimKeepsFirst | src/reader.rs:19 | a line starting with a non-whitespace character keeps it as the first character of its trim |
| Text.TrimDropsTrailingWhitespace | src/reader.rs:18 | trailing whitespace does not change the trim |
| Text.TrimPaddedLeft | src/reader.rs:18 | leading whitespace does not change the trim |
| Text.TrimPaddedRight | src/reader.rs:18 | whitespace after trimmed text is removed |
| Text.TrimPadded | src/reader.rs:18 | trimmed text padded with whitespace on both sides trims back to itself |
| Text.Find | src/reader.rs:24-26 | the split index is absent exactly when there is no `=`, and otherwise is its first occurrence |
| Text.FindAt | src/reader.rs:24 | an index holding `=` with none before it is the split index |
| Text.FindAppend | src/reader.rs:24 | the first `=` of text containing one is unaffected by what follows |
| Text.TrimDropCarriageReturn | src/reader.rs:17-18 | the `"\r"` that `lines()` drops makes no difference after trimming |
| Text.Lines | src/reader.rs:17 | definition of `str::lines`: split after each `"\n"`, drop a `"\r"` right before it, and keep a final unterminated rest only when it is not empty |
| Text.LinesHaveNoBreaks | src/reader.rs:17 | no line that `lines()` gives contains a `"\n"` |
| Text.LinesAt | src/reader.rs:17 | the text up to the first `"\n"` is the first line, and the rest are the lines after it |
| Text.LinesCons | src/reader.rs:17 | a line followed by `"\n"` is split off as one line |
| Text.LinesAppend | src/reader.rs:17 | text whose first part ends a line splits into the lines of each part |
| Text.LinesOfLine | src/reader.rs:17 | a plain line added with its `"\n"` is one more line |
| Text.LinesOfJoin | src/reader.rs:17 | `lines()` gives back the plain lines `JoinLines` wrote |
| Convert.ValueFrom | src/lib.rs:137 | the value of digits written after the digits of `acc` (Horner's rule); it is at least `acc` |
| Convert.DecimalValue | src/lib.rs:137 | definition: the number a string of decimal digits denotes |
| Convert.IsU64Text | src/lib.rs:137 | definition: the texts `u64::from_str` accepts, an optional `+` then at least one digit, denoting a number below 2^64 |
| Convert.ParseString | base/src/parser.rs:6-14 | the `String` conversion always succeeds with its input |
| Convert.ScanDigits | src/lib.rs:137 | the digit loop succeeds only on digits, with their value, exactly when it fits in `u64`; a non-digit first is an invalid digit, digits that do not fit are an overflow |
| Convert.ParseU64 | src/lib.rs:137 | `u64` parsing succeeds exactly on an optional `+` and digits below 2^64, with their decimal value; empty text and overflow give their own messages |
| Convert.ParseU64Examples | src/lib.rs:137 | `42`, `7` and `+7` parse; empty text, `-7` and `7x` fail with the expected messages |
| Errors.Display | src/errors.rs:21-38 | a missing-key message is the prefix, the key and a closing quote, so the key can be read back |
| Errors.MissingKeyMessageInjective | src/errors.rs:25 | different keys give different missing-key messages |
| Errors.DisplayMessages | src/errors.rs:24-35 | the exact message of each variant |
| Errors.Source | src/errors.rs:40-47 | there is an underlying cause exactly for `Io`, and it is the wrapped error |
| Errors.FromIoError | src/errors.rs:49-53 | an I/O error becomes `Io` with that error as its source |
| Errors.ParseErr | src/errors.rs:56-65 | builds `ParseError` with exactly the given key, value and message |
| BaseErrors.ParseErr | base/src/errors.rs:21-27 | builds `ParseError` with exactly the given three strings |
| BaseErrors.MissingKeyErr | base/src/errors.rs:29-33 | builds `MissingKey` with the given key |
| BaseErrors.LoadingErr | base/src/errors.rs:35-40 | builds `LoadingError` with the given path and message |
| BaseErrors.Message | base/src/errors.rs:4-18 | definition: the `#[error]` message of each variant, with the key, path and error text printed by `{:?}` |
| BaseErrors.DebugQuote | base/src/errors.rs:8-16 | definition: `{:?}` of a string, its escaped text between double quotes |
| BaseErrors.EscapeDebug | base/src/errors.rs:8-16 | definition: each character of the string escaped as `{:?}` escapes it (for the six characters modelled) |
| BaseErrors.EscapeDebugPlain | base/src/errors.rs:8 | `{:?}` leaves text without special characters unchanged |
| BaseErrors.IoMessageConstant | base/src/errors.rs:6-7 | the `Io` message is `Some thing went wrong` whatever error it wraps |
| BaseErrors.MissingKeyMessagePlain | base/src/errors.rs:8-9 | for keys without `\0`, `\t`, `\r`, `\n`, `\\` or `"`, the message is `Missing key "<key>" or make it optional` |
| BaseErrors.MissingKeyMessageEscapes | base/src/errors.rs:8-9 | a `"` inside the key is printed escaped |
| Fields.Field.Default | base/src/field.rs:6-11 | the default field has an empty key and no value, and is required |
| Fields.Field.constructor | base/src/field.rs:14-20 | `Field::new(k, v)` has key `k`, value `v` and is required |
| Fields.Field.WithOptional | base/src/field.rs:22-25 | only the optional flag changes |
| Fields.Field.IsOptional | base/src/field.rs:27-29 | reports the optional flag |
| Fields.Field.Value | base/src/field.rs:31-44 | optional without a value is `Ok(None)`; required without a value is `MissingKey` with the field's own key; a value is converted, a failure being `ParseError` with an empty key and the raw value |
| Fields.SettledNeverMissing | base/src/field.rs:36-43 | a field with a value or marked optional never reports a missing key: any failure of `value` is a conversion error with empty key |
| Fields.FieldBuilder.constructor | base/src/field.rs:54-60 | a new builder has the given key and no value, and is required |
| Fields.FieldBuilder.WithValue | base/src/field.rs:62-65 | only the value changes |
| Fields.FieldBuilder.WithOptional | base/src/field.rs:67-71 | sets the flag and also clears any value |
| Fields.FieldBuilder.Build | base/src/field.rs:73-83 | succeeds exactly when there is a value or the builder is optional, with a fresh field with the same key, value and flag, which never reports a missing key; otherwise `MissingKey` with the builder's key |
| Fields.OptionalAfterValueClears | base/src/field.rs:62-83 | a value given before `with_optional(true)` is lost |
| Fields.ValueAfterOptionalKept | base/src/field.rs:62-83 | a value given after `with_optional(true)` is kept |
| Fields.NewBuilderFails | base/src/field.rs:54-83 | a fresh builder does not build, and reports its key |
| Lib.SettingsBuilder.constructor | src/lib.rs:21-31 | a new builder has nothing set |
| Lib.SettingsBuilder.WithName | src/lib.rs:33-36 | sets `name` and leaves the other members unchanged |
| Lib.SettingsBuilder.WithServerEnv | src/lib.rs:38-41 | sets `server_env` and leaves the other members unchanged |
| Lib.SettingsBuilder.WithVersion | src/lib.rs:43-46 | sets `version` and leaves the other members unchanged |
| Lib.SettingsBuilder.Build | src/lib.rs:49-57 | fails with `MissingKey("name")` exactly when no name is set; otherwise `server_env` defaults to `local` and `version` to 0 |
| Wrappers.Get | src/lib.rs:66 | `HashMap::get`: some value exactly when the key is present, and then the stored value |
| Lib.RequiredStr | src/lib.rs:65-69 | the value when the key is present, `MissingKey(key)` otherwise |
| Lib.RequiredParse | src/lib.rs:72-83 | an absent key is `MissingKey(key)`; a value the conversion rejects is `ParseError` with the key, the raw value and the message; otherwise the converted value |
| Lib.OptionalParse | src/lib.rs:86-101 | an absent key is `Ok(None)`; a present value is converted into `Some`, or is `ParseError` with the key and raw value |
| Lib.RequiredParseString | src/lib.rs:72-83 | with `String` as target, `required_parse` is `required_str` |
| Lib.OptionalAgreesWithRequired | src/lib.rs:72-101 | on a present key, `optional_parse` is `required_parse` wrapped in `Some`; on an absent one, one gives `Ok(None)` and the other `MissingKey` |
| Lib.Loaded | src/lib.rs:130-144 | reference definition of the root loader: `name` missing, then `version` missing, then `version` not a `u64` fail in that order; otherwise the settings with `server_env` defaulting to `local` |
| Lib.FromHashMap | src/lib.rs:130-144 | `from_hash_map` computes `Loaded(m)`: `name` required first, then a `u64` `version`, with `server_env` defaulting to `local` |
| Lib.FromFile | src/lib.rs:116-120 | a read error becomes `Io`; read contents give `from_hash_map(parse_env_contents(contents))` |
| Lib.NameCheckedFirst | src/lib.rs:130-137 | a map without `name` fails on `name`, whatever else is missing |
| Lib.LoadedSucceeds | src/lib.rs:130-144 | loading succeeds exactly when `name` and `version` are present and `version` is a `u64` text, so `build` never fails on this path; the version is its decimal value |
| Lib.LoadedExample | src/lib.rs:153-164 | `{name: venkatesh, version: 42}` loads as `venkatesh`, `local`, `42` |
| Lib.FromFileExample | src/lib.rs:167-178 | `name=venkatesh\nserver_env=local\nversion=7\n` loads as `venkatesh`, `local`, `7` |
| Lib.ExampleFileMap | src/lib.rs:171-172 | that text parses to exactly the three assignments it holds |
| Lib.ParseThreeAssignments | src/lib.rs:171-172 | three assignment lines, each ended by `"\n"`, parse to the map of their three entries |
| BaseLib.SettingsBuilder.constructor | base/src/lib.rs:69-79 | a new builder holds three default fields |
| BaseLib.SettingsBuilder.WithName | base/src/lib.rs:81-84 | replaces only the name field, with the built field; a builder that cannot build fails with `MissingKey` for its key |
| BaseLib.SettingsBuilder.WithServerEnv | base/src/lib.rs:86-92 | replaces only the server environment field, or fails as `with_name` does |
| BaseLib.SettingsBuilder.WithLastName | base/src/lib.rs:94-97 | replaces only the last-name field, or fails as `with_name` does |
| BaseLib.SettingsBuilder.Build | base/src/lib.rs:99-117 | succeeds exactly when name and server environment have values and the last name has one or is optional; a missing required value reports the field's key, a missing optional name or server environment reports `name` or `server_env` |
| BaseLib.NewBuilderFails | base/src/lib.rs:99-103 | building a new settings builder fails with `MissingKey("")`, the default field's empty key |
| BaseLib.Loaded | base/src/lib.rs:123-141 | reference definition of the `base` loader: `MissingKey("name")` without a name; otherwise the name, `server_env` or `local`, and `last_name` if present |
| BaseLib.FromHashMap | base/src/lib.rs:123-141 | `from_hash_map` computes `Loaded(m)`: only `name` is required; `server_env` defaults to `local` and `last_name` to none |
| BaseLib.LoadedFailsOnlyOnName | base/src/lib.rs:124-137 | loading fails exactly when `name` is absent, with `MissingKey("name")` |
| BaseLib.LoadedDefaults | base/src/lib.rs:126-134 | an absent `server_env` gives `local` and an absent `last_name` gives none; present values are kept |
| BaseLib.LoadedIgnoresOtherKeys | base/src/lib.rs:123-141 | keys other than `name`, `server_env` and `last_name` make no difference |
| BaseLib.LoadedExample | base/src/lib.rs:145-156 | `{name: test, version: 42}` loads as `test`, `local`, no last name |

## Left out

- `derive/` is left out. It is a procedural macro over `syn`/`quote` token streams, which are foreign libraries, and it targets a `Field` API that `base/src/field.rs` does not have.
- `src/main.rs` is left out. It is a demo that reads `.env` from disk and prints.
- `read_contents` (`src/reader.rs:5-7`, `base/src/reader.rs`) and `base/src/loader.rs` are left out because they are file I/O. `Lib.FromFile` takes the outcome of the read as its input.
- `std::io::Error` is reduced to its `Display` text, because the model has no operating system.
- `FromStr` for an arbitrary `T` is not modelled. Conversions are functions `string -> Result<T, string>`; only the `String` and `u64` instances exist.
- `HashMap` is a Dafny `map`, so iteration order and `Debug` output are not modelled.
- BaseErrors.Message: `{:?}` escaping covers only `\0`, `\t`, `\r`, `\n`, `\\` and `"`. The `\u{..}` escapes of other control characters are not modelled.
- Rust's builders take `self` by value, so a failed `?` setter drops the whole builder. The model updates one object in place, and a failed setter leaves it unchanged. Nothing reads it afterwards.
- The two `ConfigError` enums are one datatype, because their variants are the same. Each crate's constructors and messages stay in their own modules.
- Quote stripping in the source compares the value's byte length with 2. The model compares the character count. The two agree here, since a value starting and ending with a quote character has at least two characters exactly when it has at least two bytes.
- Parser.ParseEnvContents: the `base` copy of the loop is the same text as `src/reader.rs:14-50`, so it calls `Reader.ParseEnvContents` instead of repeating the loop.
- `Fields.Field.WithOptional(false)` can leave a built field without a value and required. It then reports `MissingKey` from `value`. `Fields.SettledNeverMissing` covers only fields in the state `Build` leaves them.
- Examples over fixed texts are lemmas with a parameter that the precondition pins to that text.
