# pm2-opensearch log forwarding, modelled in Dafny

This project models the event-to-document logic of the pm2-opensearch module. The module is a pm2 add-on that subscribes to the pm2 bus and forwards processes' stdout and stderr lines to OpenSearch. Each forwarded process gets its own index, named after the process. The model covers four pieces of `src/pm2-log-track.js`:

- **Config lists.** `listenApps` and `ignoreApps` come from the `include` and `exclude` settings (module `Filter`, with `Split`/`Join` in `JsString`).
- **Inclusion filter.** `shouldProcess` uses exact list membership, and a literal `*` setting switches branches (`Filter.ShouldProcess`).
- **Line parser.** `parse_data` splits the payload on newlines, drops empty lines, decodes each line as JSON and spreads `extra` over it. One undecodable line fails the whole call (module `Parser`).
- **Bus handlers.** These are the bodies of the `log:out` and `log:err` handlers (module `Handlers`).
  - `log:out` falls back to one raw record for the whole event when parsing throws. It then stamps each record with `stream: 'stdout'` and a converted `time` while pushing it onto the batch, and sends only a non-empty batch.
  - `log:err` trims the payload and sends at most one `stderr` document.

The model leaves out the module's outside world:

- **The bulk send.** A handler does not call `send(index, batch)`. It returns an `Effect`: `NoSend`, `Send(index, batch)`, or `Raised` when an exception escapes the handler before anything is sent.
- **JSON decoding.** It is a parameter `decode: string -> Option<Record>`. `None` stands for a line on which `JSON.parse` throws. Otherwise the result is the set of fields that spreading the decoded value contributes.
- **Date conversion.** `new Date(v).toISOString()` is a parameter `toIso: Option<Value> -> Option<string>`. The argument `None` is `undefined`, and the result `None` is the RangeError thrown for an invalid date. `new Date(msg.at)`, which never throws, is the value `Date(msg.at)`.
- **Records.** JavaScript objects are `map<string, Value>`, and `{...a, ...b}` is `Json.Spread`.

Four behaviours of the code are easy to get wrong, and the model states each one:

- **Matching.** Process names are matched by exact membership in the comma-split lists. There is no glob or wildcard matching: `Filter.NoPatternMatching` shows `app-*` failing to match `app-1`.
- **Parse fallback.** The fallback covers the whole event, not each line. A single undecodable line turns the whole payload into one `{raw, time}` record (`Handlers.WholeEventFallback`).
- **Missing time.** A decoded record's `time` does not fall back to `msg.at`. The conversion sits outside the `try`, so a record whose `time` does not convert makes the handler throw, and nothing of that event is sent. `Handlers.LogOut` states this, and `Handlers.LogOutMissingTime` covers a record with no `time` field.
- **stderr time.** The stderr document's `time` is a Date object, not an ISO string.

## Model

| member | source | states |
|---|---|---|
| `Json.Spread` | src/pm2-log-track.js:42-45 | `{...base, ...over}` has the fields of both, and `over` wins on every shared name. |
| `JsString.Split` | src/pm2-log-track.js:17 | `split(',')` yields at least one piece, and no piece contains the separator. |
| `JsString.JoinSplit` | src/pm2-log-track.js:17 | Joining the split pieces with the separator gives back the original string. |
| `JsString.SplitCount` | src/pm2-log-track.js:19 | The number of pieces is the number of separators plus one. |
| `JsString.SplitJoin` | src/pm2-log-track.js:17 | Converse round trip: separator-free pieces are recovered by splitting their join. |
| `JsString.SplitConcat` | src/pm2-log-track.js:36 | Splitting `x + sep + y` gives the pieces of `x` followed by those of `y`. |
| `JsString.FieldMembership` | src/pm2-log-track.js:72 | A name is in a split list exactly when it is a whole separator-delimited field of the unsplit setting. No prefix or pattern match is involved. |
| `JsString.Trim` | src/pm2-log-track.js:119 | `trim()` returns an infix with only white space around it in the input. The result neither starts nor ends with white space, and it is empty exactly when the input is all white space. |
| `JsString.TrimIdempotent` | src/pm2-log-track.js:119 | Trimming an already trimmed payload changes nothing. |
| `Filter.AppList` | src/pm2-log-track.js:17-19 | An unset setting gives an empty list. A set one gives comma-free pieces that join back to the setting, one more than its commas. |
| `Filter.Listed` | src/pm2-log-track.js:17-19 | A name is in a derived list exactly when it is a whole comma-separated field of the setting. |
| `Filter.ListenApps` | src/pm2-log-track.js:17 | `listenApps` is empty when `include` is unset. Otherwise it joins back to `include`, and it contains exactly the whole comma-separated fields of `include`. |
| `Filter.IgnoreApps` | src/pm2-log-track.js:19 | `ignoreApps` is the same for `exclude`. |
| `Filter.ShouldProcess` | src/pm2-log-track.js:70-79 | The three-way precedence rule, stated as whole-field occurrence in the settings. With `include` `*`, a name is forwarded exactly when it is not a field of `exclude`. Otherwise, with `exclude` `*`, exactly when it is a field of `include`. Otherwise exactly when it is a field of `include` and not of `exclude`. `IncludeAll`, `ExcludeAll` and `IncludeMinusExclude` restate each branch as its own lemma. |
| `Filter.IncludeAll` | src/pm2-log-track.js:71-72 | With `include` `*`, a process is forwarded exactly when its name is not a field of `exclude`, even when `exclude` is `*`. |
| `Filter.ExcludeAll` | src/pm2-log-track.js:73-74 | With `include` not `*` and `exclude` `*`, a process is forwarded exactly when its name is a field of `include`. |
| `Filter.IncludeMinusExclude` | src/pm2-log-track.js:75-77 | Otherwise a process is forwarded exactly when its name is a field of `include` and not of `exclude`. |
| `Filter.NoIncludeNothingForwarded` | src/pm2-log-track.js:73-77 | With `include` unset, no process is forwarded. |
| `Filter.BothWildcards` | src/pm2-log-track.js:71-72 | With both settings `*`, only a process literally named `*` is held back. |
| `Filter.NoPatternMatching` | src/pm2-log-track.js:70-78 | A `*` inside a list is an ordinary character: `app-*` matches `app-*` and never `app-1`. |
| `Parser.NonEmpty` | src/pm2-log-track.js:39 | The filter keeps only non-empty lines, keeps every non-empty line, and is never longer than its input. |
| `Parser.NonEmptyAppend` | src/pm2-log-track.js:39 | Filtering distributes over concatenation, so line order is kept. |
| `Parser.Lines` | src/pm2-log-track.js:36-39 | Every kept line is non-empty and newline-free. There are at most the payload's newline count plus one. |
| `Parser.LinesConcat` | src/pm2-log-track.js:36-39 | The lines of `a + "\n" + b` are the lines of `a` followed by the lines of `b`. |
| `Parser.LinesTrailingNewline` | src/pm2-log-track.js:36-39 | A trailing newline adds no line. |
| `Parser.LinesSingle` | src/pm2-log-track.js:36-39 | A non-empty payload without a newline is exactly one line. |
| `Parser.DecodeAll` | src/pm2-log-track.js:40-46 | Decoding succeeds exactly when every line decodes. It then gives one record per line, in order, each the decoded fields with `extra` spread over them. |
| `Parser.ParseData` | src/pm2-log-track.js:35-47 | `parse_data` succeeds exactly when every non-empty line decodes. It then gives one record per non-empty line, in line order, each the decoded fields with `extra` spread over them. `ParseDataConcat` and `ParseDataRecord` are stated about it. |
| `Parser.DecodeAllAppendSome` | src/pm2-log-track.js:40-46 | Decoding two runs of lines succeeds exactly when decoding each run succeeds. |
| `Parser.DecodeAllAppend` | src/pm2-log-track.js:40-46 | When decoding succeeds, the records of two runs of lines concatenate. |
| `Parser.ParseDataConcat` | src/pm2-log-track.js:35-47 | Parsing `a + "\n" + b` fails exactly when parsing either part fails, and otherwise gives the records of `a` then those of `b`. |
| `Parser.ParseDataRecord` | src/pm2-log-track.js:41-45 | Record `k` comes from the `k`-th non-empty line. Its keys are those of `extra` and of the decoded line, and `extra` wins on shared names. |
| `Handlers.Items` | src/pm2-log-track.js:87-100 | The handler's `data` after the try/catch. When parsing succeeds, it is one record per non-empty line, exactly the decoded fields, since no `extra` is passed. When any line fails, it is one record: `raw` is the whole payload and `time` is `msg.at`. `LogOutFallback` and `LogOutParsed` state the documents built from it. |
| `Handlers.StdoutDocument` | src/pm2-log-track.js:104-108 | A stdout document keeps every record field except `time` and `stream`. It sets `time` to the converted string and `stream` to `stdout`, overriding the record's own fields of those names. |
| `Handlers.StampAll` | src/pm2-log-track.js:103-110 | Stamping succeeds exactly when every record's time converts. It then yields one document per record, in order. |
| `Handlers.PushDocuments` | src/pm2-log-track.js:103-110 | The push loop builds exactly the stamped batch, or stops with no batch when a conversion throws. |
| `Handlers.LogOut` | src/pm2-log-track.js:84-115 | If the filter rejects, or there are no records, nothing is sent. The handler throws exactly when some record's time does not convert. Otherwise one batch goes to `msg.process.name`: one document per record, each with `stream` `stdout` and a converted `time`. |
| `Handlers.HandleLogOut` | src/pm2-log-track.js:85-113 | The imperative handler (parse, try/catch fallback, the push loop, the non-empty check) has exactly the effect `LogOut` describes. |
| `Handlers.LogOutFallback` | src/pm2-log-track.js:88-100 | When parsing throws, the batch is one document whose `raw` is the whole unsplit payload and whose `time` is `msg.at` converted. If `msg.at` does not convert, the handler throws. |
| `Handlers.LogOutParsed` | src/pm2-log-track.js:89-112 | When parsing succeeds, a send carries one document per non-empty line. `LogOut` is `NoSend` (no send and no exception) exactly when the payload has no non-empty line. |
| `Handlers.LogOutMissingTime` | src/pm2-log-track.js:106 | When `undefined` does not convert, a decoded record without a `time` field makes the handler throw, with no fallback to `msg.at` and nothing sent. |
| `Handlers.ExamplePayloadFails` | src/pm2-log-track.js:35-47 | A two-line payload whose second line does not decode fails to parse as a whole. |
| `Handlers.WholeEventFallback` | src/pm2-log-track.js:88-99 | For that payload the handler sends a single raw document for the whole event, not one record per line. |
| `Handlers.LogErr` | src/pm2-log-track.js:117-128 | `log:err` never throws. It sends nothing exactly when the filter rejects or the payload is all white space. Otherwise it sends one document to `msg.process.name`: `raw` is the trimmed payload (non-empty, no surrounding white space, an infix of the payload), `time` is `new Date(msg.at)` and `stream` is `stderr`. |

## Left out

- pm2 bus acquisition, the `reconnect attempt` and `close` handlers and `pm2.disconnectBus` (src/pm2-log-track.js:81-82, 130-137) are process-supervisor I/O and are not modelled.
- The body of `send` is not modelled (src/pm2-log-track.js:49-68). It covers the bulk helper, per-document drops, send statistics and error logging, all asynchronous network I/O. A send is only the returned `Send(index, batch)`.
- `pmx.initModule`, the pino logger and every `logger.*` call, and the OpenSearch client construction are configuration and logging plumbing. The parse-failure diagnostic of `log:out` is not modelled either.
- `JSON.parse` and `Date` parsing and formatting are parameters of the model, not definitions: both are runtime internals.
- Object key order is not modelled, because records are maps.
- Numbers are integers in `Json.Value`. No numeric field is computed with, so floating point does not matter here.
- `msg.data` is always a string in the model. The paths where it is `undefined` are not modelled: `raw?.split` then makes `parse_data` throw, and `msg.data.trim()` throws in `log:err`.
- What the pm2 bus does with an exception escaping a handler (`Effect.Raised`) is outside the model.
- `Handlers.LogOut`: its contract does not restate that non-`time`/`stream` fields are preserved. That property is in `Handlers.StdoutDocument` and `Handlers.StampAll`, which `LogOut` is built from.
