# chisel command-line entry point, modelled in Dafny

chisel is a TCP/UDP tunnel with two modes, server and client. Its entry point, `main.go`, chooses a mode from the command line and resolves each mode's configuration from flags, environment variables and defaults. It then starts the tunnel engine and shuts it down on a signal.

This project models the deterministic part of that file and proves properties about it:

- **Repeatable flags.** `multiFlag` collects every occurrence of `--tls-domain` into a list and renders the list joined by `", "`. `headerFlags` parses every `--header "Name: Value"` into an HTTP header map. Both are classes whose `Set` methods change their state in place, as the Go methods do.
- **Configuration resolution.** This is the body of `server` and of `client` once flags are parsed.
  - Each setting falls back in a fixed order: flag, then alternate flag, then environment variable, then literal default.
  - `--backend` overrides `--proxy`.
  - `--keygen` is a terminal branch.
  - The `--key` deprecation notice depends on the flag alone.
  - The `KEY_FILE` and `KEY` lookups exclude each other.
  - The client splits its positional arguments into the server and its remotes.
  - `--hostname` sets the `Host` header, and `--sni` overrides the TLS server name.
- **Subcommand dispatch in `main`.** A version flag wins. Otherwise `server` or `client` selects the mode, and anything else shows the help text and exits with status 0.

The parsed flag values and the environment are inputs. The environment is a `map<string, string>`, and a variable that is not set reads as `""`, as `os.Getenv` does. Process exits become outcomes of a sum type:

- `Server.ServerRun` is `GenerateKey` or `Serve`.
- `Client.ClientRun` is `Fatal` or `Connect`.
- `Dispatch.Command` is `Exit` (status 0), `RunServer` or `RunClient`.

Each resolver is an imperative method, `ResolveServer` or `ResolveClient`. It overwrites a local configuration record one step at a time, as the Go code overwrites `config` and the `*host`/`*port` flags. It is proved equal to a declarative function, `ServerSpec` or `ClientSpec`, that states every setting as a precedence chain (`Settings.FirstNonEmpty`). The lemmas state the promised properties about those functions.

Modules:

- `Wrappers`: Option and Result.
- `Strings`: `strings.Index`, `Join` and `TrimSpace`, plus `Split` as the inverse of `Join`.
- `HttpHeader`: `http.Header` with `Add`, `Set` and key canonicalisation.
- `Flags`: the two flag value types.
- `Settings`: the environment and precedence chains.
- `Server`, `Client` and `Dispatch`: the three parts of `main.go` named above.

Header names are stored canonicalised. `http.Header.Add` (main.go:328) canonicalises the name, so `--header "content-type: x"` is stored under `Content-Type` (`HttpHeader.CanonicalKey`).

## Model

| member | source | states |
|---|---|---|
| `Flags.MultiFlag.Set` | main.go:301-304 | always returns nil (`None`); the list becomes the old list with the argument appended, earlier entries unchanged; the rendering gains `", "` and the argument at its end (or is the argument alone if the list was empty) |
| `Flags.MultiFlag.SetAll` | main.go:301-304 | after one `Set` per occurrence, the list is the old list followed by every argument in the order given, one entry per occurrence |
| `Flags.RenderingReadsBack` | main.go:297-299 | a non-empty list none of whose entries holds `", "` is recovered exactly by splitting its rendering at `", "` |
| `Flags.MultiFlag.String` | main.go:297-299 | renders the entries joined by `", "`; an empty list renders as `""`; a non-empty list none of whose entries holds `", "` is recovered exactly by splitting the rendering at `", "` |
| `Strings.Join` | main.go:298 | `strings.Join`: the rendering is as long as all the elements together plus one separator between each neighbouring pair |
| `Strings.JoinEnds` | main.go:298 | a non-empty list's rendering starts with its first element and ends with its last |
| `Strings.JoinAppend` | main.go:298 | joining a list with one more element equals the old rendering, the separator, then that element (the element alone for an empty list) |
| `Strings.SplitJoin` | main.go:298 | splitting a `", "`-joined non-empty list gives back the list, in order, when no entry contains `", "` |
| `Strings.SplitAtFirstSeparator` | main.go:298 | an entry without `", "` followed by `", "` splits off as the first piece of the rendering |
| `Strings.FirstSeparator` | main.go:298 | in `x + ", " + rest` with no `", "` inside `x`, the first `", "` starts right after `x` (a separator cannot straddle an entry's end) |
| `Strings.Index` | main.go:319 | `strings.Index`: returns -1 when the substring does not occur, otherwise a position where it occurs with no occurrence before it |
| `Strings.IndexOfChar` | main.go:319-320 | searching for `":"` returns a negative index exactly when the argument has no colon, and otherwise the position of its first colon |
| `Strings.TrimSpace` | main.go:327 | the result has no white space at either end and is no longer than the input |
| `Strings.TrimSpaceMiddle` | main.go:327 | the trimmed value is the slice of the input that starts where `TrimLeft` stopped, and everything before and after that slice is white space |
| `Strings.TrimSpacePadded` | main.go:327 | trimming undoes padding: a text without white space at its ends, with any white space around it, trims back to exactly that text |
| `Strings.TrimSpaceIdempotent` | main.go:327 | trimming an already trimmed value changes nothing |
| `Flags.ParseHeader` | main.go:318-327 | fails exactly when the argument has no colon, with the source's "Invalid header (...)" message; otherwise the name is the prefix before the first colon, untrimmed and colon-free, and the value is the rest after that colon with white space trimmed |
| `Flags.ParseHeaderFormatted` | main.go:318-327 | round trip of the `Name: Value` format: a colon-free name, a colon, any white space and a trimmed value parse back to that name and value |
| `Flags.HeaderFlags.Set` | main.go:318-330 | without a colon: returns the error and leaves the header map unchanged; with one: returns nil and the map is the old map with the parsed value appended under the canonical name |
| `Flags.ParseHeaders` | main.go:318-330 | `Set` applied to each `--header` argument in turn succeeds exactly when every argument has a colon |
| `Flags.ParseHeadersHeadError` | main.go:320-322 | an argument without a colon at the front rejects the sequence with that argument's message |
| `Flags.ParseHeadersKeepsOrder` | main.go:318-330 | after a sequence of well-formed `--header` arguments, each name holds its earlier values followed by the values given for it, in argument order |
| `Flags.ParseHeadersFirstError` | main.go:320-322 | the first argument without a colon rejects the whole sequence with its own error message |
| `Flags.ParseHeadersStep` | main.go:328 | one well-formed argument adds its value, and only its value, to the name it belongs to |
| `HttpHeader.Add` | main.go:328 | `Header.Add`: the canonical name's values become the old ones plus the new value at the end; every other name is unchanged; the name set gains the canonical name |
| `HttpHeader.Set` | main.go:233 | `Header.Set`: the canonical name's values become exactly the one new value; every other name is unchanged |
| `HttpHeader.CanonicalKey` | main.go:233 | the canonical name has the same length as the name and differs from it only in letter case, position by position |
| `HttpHeader.CanonicalKeyIdempotent` | main.go:328 | canonicalising a header name twice is canonicalising it once |
| `HttpHeader.CanonicalHost` | main.go:233 | the name `Host` is already canonical, so `Set("Host", h)` stores under `Host` |
| `HttpHeader.TitleCase` | main.go:328 | title-casing keeps the length and the positions of the `-` word separators |
| `Settings.Getenv` | main.go:127 | `os.Getenv`: a set variable reads as its value; the result is `""` exactly when the variable is unset or set to `""` |
| `Settings.FirstNonEmpty` | main.go:126-140 | a precedence chain whose last source is a non-empty default never resolves to `""` |
| `Settings.FirstNonEmptyChoice` | main.go:126-148 | a precedence chain resolves to `""` exactly when every source is empty, and otherwise to the first non-empty source, every higher-ranked source being empty |
| `Settings.Chain3` | main.go:126-131 | a three-source chain is the first source if set, else the second if set, else the third |
| `Settings.Chain4` | main.go:132-140 | a four-source chain is the first source if set, else the second, else the third, else the fourth |
| `Server.ServerSpec` | main.go:110-148 | the run generates a key exactly when `--keygen` is non-empty; a served run always has a non-empty host and port |
| `Server.ResolveServer` | main.go:110-148 | the imperative chain of overwrites yields exactly the run that the precedence-chain specification `ServerSpec` describes |
| `Server.HostAndPort` | main.go:126-140 | host is `--host`, else `HOST`, else `0.0.0.0`; port is `--port`, else `-p`, else `PORT`, else `8080`; neither is ever empty |
| `Server.KeyMaterial` | main.go:141-145 | without `--keyfile` the key file comes from `KEY_FILE` and the seed stays as given; with it the file stays as given and only an empty seed is filled from `KEY` |
| `Server.KeyLookupsExclusive` | main.go:141-145 | without `--keyfile` the run does not depend on `KEY`; with it the run does not depend on `KEY_FILE`, so only one lookup affects the result |
| `Server.KeyGenIsTerminal` | main.go:114-119 | the run generates a key exactly when `--keygen` is non-empty; it then uses `--keygen` and the flag-supplied seed, and no environment variable has any effect |
| `Server.BackendOverridesProxy` | main.go:110-112 | a non-empty `--backend` replaces the proxy; an empty one leaves `--proxy` as it is |
| `Server.DeprecationFromFlagOnly` | main.go:121-124 | the deprecation notice is logged exactly when `--key` was given on the command line; a seed taken from `KEY` never triggers it |
| `Server.AuthAndPassThrough` | main.go:146-148 | auth is `--auth`, else `AUTH`; the auth file, keep-alive, socks5, reverse and TLS settings are the flags' own |
| `Server.PortFlagScenario` | main.go:126-140 | `server --port 1234` with no environment resolves host `0.0.0.0` and port `1234` |
| `Server.PortEnvironmentScenario` | main.go:132-140 | with no `--port` or `-p`, `PORT=9999` gives port `9999`, and an unset `PORT` gives `8080` |
| `Server.SpecChains` | main.go:110-148 | each precedence chain of the server specification written out as nested choices, source by source |
| `Server.ServeSpec` | main.go:110-148 | without `--keygen`, the server run is the flags' configuration with proxy, key file, key seed and auth resolved, host and port resolved, and the deprecation notice set by `--key` alone |
| `Client.ClientSpec` | main.go:222-238 | the run is fatal exactly when there are fewer than two positional arguments; a connecting run's server and remotes are the arguments in order, with at least one remote; a non-empty `--sni` is the TLS server name |
| `Client.ResolveClient` | main.go:222-238 | the imperative chain of overwrites yields exactly the run that `ClientSpec` describes |
| `Client.TooFewArguments` | main.go:223-225 | fewer than two positional arguments is fatal, with the message "A server and at least one remote is required", and no configuration is produced |
| `Client.ServerAndRemotes` | main.go:226-227 | otherwise the server is the first positional argument and the remotes are the rest, which is non-empty, and together they are the arguments in order |
| `Client.ClientAuth` | main.go:229-231 | auth is `--auth`, else `AUTH` |
| `Client.HostnameAndSni` | main.go:232-238 | a non-empty `--hostname` makes it the one `Host` header value and headers under other names are untouched; without it the headers are as parsed; the TLS server name is `--sni` if given, else `--hostname`, so `--sni` wins |
| `Dispatch.Select` | main.go:46-66 | `--version` or `-v` always exits 0 showing the version; otherwise `server` or `client` as first argument runs that mode on exactly the remaining arguments; anything else, including no argument, exits 0 showing the help |

## Left out

- Shutdown orchestration (main.go:160-190, 240-281, 284-291) is left out. It is goroutines, `signal.Notify`, channels, `select` and a 10-second `time.After` race: concurrency and wall-clock time.
- Engine construction and lifecycle (`chserver.NewServer`, `chclient.NewClient`, `Start`, `Close`, and the `Debug` field they take) are library code that is not shown. The outcomes `Serve` and `Connect` carry the configuration and the debug flag that would be handed to them.
- `generatePidFile` (main.go:69-74) is left out because it is file I/O and `os.Getpid`. The outcomes carry `writePid` instead.
- `cos.GoStats` is a background task and is left out.
- `ccrypto.GenerateKeyFile` is file I/O. It is represented only by the `GenerateKey(path, seed)` outcome, and its failure, which is `log.Fatal`, is not modelled.
- Logging and printing are not modelled. The deprecation notice becomes the `deprecated` flag of `Serve`.
- The help text and the version string are not modelled: the help text embeds `runtime.Version()`. They become the `HelpText` and `VersionString` outcomes.
- The flag package's own parsing is not modelled: `FlagSet.Parse`, typed duration, int and bool parsing, defaults such as the 25-second keep-alive and the -1 retry count, and the `-help`/`-h` flags. The parsed values are inputs, and durations are passed through as integers.
- What happens to a rejected flag is not modelled. When a `Set` fails (a `--header` without a colon), `FlagSet.Parse` reports the error and calls the mode's `flags.Usage` (main.go:101-104, 214-217). That prints the help text and exits with status 0, so the `log.Fatal` after `Parse` (main.go:105-107, 218-220) is not reached. The model stops at the error that `Set` and `ParseHeaders` return.
- The aliasing between the flag values and the configuration is not modelled. `multiFlag` writes into `config.TLS.Domains` and `headerFlags` into `config.Headers`. Here the collected list and header map enter the flag records as values (`tlsDomains`, `headers`).
- `ParseHeaders` stops at the first rejected argument, which is what the flag package does on the first failing `Set`.
- `headerFlags.String` (main.go:310-316) is left out because its output order follows Go's map iteration order, which is unspecified.
- The nil-map branch of `headerFlags.Set` (main.go:323-325) cannot arise. Maps here are values, and the client always starts from an empty header map.
- `HttpHeader.CanonicalKey` follows the rule `net/textproto.CanonicalMIMEHeaderKey` documents: a name of token characters only is title-cased word by word, and any other name is left unchanged. The Go implementation itself is not part of this model.
- `Strings.TrimSpace` trims the characters of Unicode's White_Space property, which is what `unicode.IsSpace` reports. Go strings are bytes, so the model does not handle invalid UTF-8: strings here are sequences of characters.
- `settings.Env("KEY_FILE")` and `settings.Env("KEY")` are modelled as lookups of exactly those names (the constants `Server.KeyFileVar` and `Server.KeyVar`) in the same environment map. The real variable names, possibly prefixed, are set in code that is not part of this model.
