# Annotation action: a verified model of `run`

The action posts one annotation to Axiom's HTTP API. Its `run` function reads
the action inputs, builds an annotation payload, sends one authenticated POST
to `<axiomUrl>/v2/annotations`, and publishes the created annotation's `id`.
When something fails, it reports a failure message instead.

This project models the pure logic inside `run` as total Dafny functions:

- **Input resolution.** An empty input counts as absent, as with JavaScript's `||`.
  Defaults apply to `axiomUrl`, `time` and `url`. `endTime`, `title` and
  `description` become `None` when empty. The required inputs are
  `axiomToken`, `datasets` and `type`, checked in that order.
- **Datasets.** The comma-separated `datasets` input is split with
  JavaScript's `split(',')` semantics, and each piece is trimmed with
  `String.prototype.trim`.
- **Request.** The request goes to base URL + `/v2/annotations`. Its
  `Authorization` header is `Bearer ` + token.
- **Reply.** A non-2xx response becomes the message
  `Failed to send annotation to Axiom[ (Trace ID: T)]: <status text>`. The
  parenthetical appears only for a non-empty `x-axiom-trace-id`. A 2xx JSON
  response yields the body's `id`.
- **One invocation.** `Annotation.Run` returns the list of requests handed to
  the transport together with the outcome. A missing required input ends the
  run with an empty list. Otherwise the list holds exactly one request.

The host environment becomes parameters. The inputs are a `map<string, string>`.
`GITHUB_REPOSITORY` and `GITHUB_RUN_ID` are an `Env` of two `Option<string>`s.
The current time is a string. The HTTP transport is a function from `Request`
to `Reply`.

Files:

- `wrappers.dfy` (module `Wrappers`): `Option` and `Result`.
- `text.dfy` (module `Text`): JavaScript `split` on one character, `join`, and
  `trim`. Each comes with its round-trip and uniqueness lemmas.
- `annotation.dfy` (module `Annotation`): the inputs, the payload, the request,
  the failure message and `Run`.
- `scenarios.dfy` (module `Scenarios`): concrete invocations worked out from
  the model.

Two consequences of the code are worth stating plainly:

- Dataset names can be empty: `","` gives `["", ""]`, `"a,,b"` gives
  `["a", "", "b"]`, and `" "` gives `[""]`. An empty `datasets` input is
  rejected by the required check before it is split.
- An unset `GITHUB_REPOSITORY` or `GITHUB_RUN_ID` is interpolated as the text
  `undefined`, and `Interpolate` renders it the same way.

## Model

| member | source | states |
|---|---|---|
| Text.Split | src/main.ts:17 | `split(',')` yields one more piece than there are commas, and no piece contains a comma |
| Text.CountIsMultiplicity | src/main.ts:17 | the comma count used for the number of pieces is the number of commas in the input |
| Text.JoinSplit | src/main.ts:17 | joining the pieces with commas gives back the input, so splitting keeps every character in its original order |
| Text.SplitJoin | src/main.ts:17 | splitting a comma-join of comma-free pieces gives back exactly those pieces |
| Text.Trim | src/main.ts:18 | the trimmed name has no whitespace at either end and is no longer than the input |
| Text.TrimIsTrimmedAt | src/main.ts:18 | trim removes only the whitespace margins: the result is a middle slice of the input, and everything outside it is whitespace |
| Text.TrimUnique | src/main.ts:18 | any split of the input into whitespace margins around an unpadded middle has `Trim` as its middle |
| Text.TrimIdempotent | src/main.ts:18 | trimming a trimmed name changes nothing |
| Text.TrimUnpadded | src/main.ts:18 | a name with no surrounding whitespace is left as it is |
| Annotation.InputOr | src/main.ts:9 | `getInput(name) \|\| fallback` gives the fallback exactly when the input is empty, and the input verbatim otherwise |
| Annotation.OptionalInput | src/main.ts:20-22 | `getInput(name) \|\| undefined` is absent exactly when the input is empty, and holds the input verbatim otherwise |
| Annotation.Required | src/main.ts:11 | a required input succeeds exactly when it is non-empty, and otherwise fails naming that input |
| Annotation.FirstMissing | src/main.ts:11-26 | the position of the first empty input in the reading order: every earlier input is present and the one at that position is empty |
| Annotation.FirstMissingRequired | src/main.ts:11-26 | the first missing required input is the token, then `datasets`, then `type`, in that order |
| Annotation.TrimEach | src/main.ts:18 | `map(d => d.trim())` keeps the number of pieces and trims each piece in place |
| Annotation.ResolveDatasets | src/main.ts:15-18 | there are (commas + 1) dataset names, each unpadded, and the k-th is the k-th comma-delimited segment trimmed |
| Annotation.DatasetsAreTrimmedSegments | src/main.ts:15-18 | for any comma-free segments joined by commas, the datasets are exactly those segments trimmed, in order |
| Annotation.ResolvePayload | src/main.ts:14-27 | fails exactly when `datasets` or `type` is missing, with `datasets` checked first; otherwise `time` and `url` fall back only when their input is empty, the default url is the run link, the optional fields follow their inputs, and `type` is kept verbatim |
| Annotation.PayloadKeys | src/main.ts:20-22 | the serialised payload always has datasets, time, url and type, and has an optional key exactly when that field is present |
| Annotation.OptionalFieldsFollowInputs | src/main.ts:20-22 | an optional key appears in the JSON body exactly when its input is non-empty |
| Annotation.PayloadIgnoresToken | src/main.ts:14-29 | the payload, which is written to the debug log, does not depend on the token |
| Annotation.Prepare | src/main.ts:9-37 | fails with the first missing required input in the order token, datasets, type; otherwise targets `https://api.axiom.co/v2/annotations` when `axiomUrl` is empty and `axiomUrl + /v2/annotations` otherwise, with `Authorization` = `Bearer ` + token |
| Annotation.FailureMessage | src/main.ts:38-47 | the message starts with `Failed to send annotation to Axiom`, ends with `: ` + status text, and has a parenthetical exactly when the trace id is non-empty |
| Annotation.FailureMessageKeepsTraceId | src/main.ts:39-46 | the trace id can be read back from the message; an absent or empty header leaves no trace |
| Annotation.Conclude | src/main.ts:38-57 | the outcome is Success exactly for an ok response with a decodable body, and then carries the body's id; a non-ok response fails with the formatted message, an undecodable body fails with the decoding error's message, and a transport error fails with its own message |
| Annotation.Run | src/main.ts:7-58 | at most one request is sent; none is sent exactly when a required input is missing, and then the outcome names the first missing one; otherwise the one request sent is the prepared one (target, bearer header, payload) and the outcome concludes the transport's reply to it |
| Annotation.MissingInputSendsNothing | src/main.ts:11-30 | with a required input missing, nothing is sent and the outcome does not depend on the transport |
| Annotation.OkResponsePublishesId | src/main.ts:38-53 | an ok response with a JSON body publishes that body's id, and no failure is reported |
| Scenarios.SpacedDatasets | src/main.ts:15-18 | `x, y ,z` resolves to `[x, y, z]` for comma-free, unpadded names |
| Scenarios.DatasetsExample | src/main.ts:15-18 | `"a, b ,c"` resolves to `["a", "b", "c"]` |
| Scenarios.AdjacentCommasExample | src/main.ts:15-18 | `"a,,b"` resolves to `["a", "", "b"]` |
| Scenarios.EmptyDatasetsExample | src/main.ts:17-18 | splitting and trimming the empty string gives one empty name, `[""]`, as JavaScript's `split` does |
| Scenarios.RunUrlExample | src/main.ts:19-25 | with no `url` or `time` input, repository `org/repo` and run `42` give `https://github.com/org/repo/actions/runs/42`, and the time is the supplied one |
| Scenarios.TraceIdMessageExample | src/main.ts:38-47 | trace id `abc123` and `Bad Request` give `Failed to send annotation to Axiom (Trace ID: abc123): Bad Request` |
| Scenarios.NoTraceIdMessageExample | src/main.ts:38-47 | no trace id gives `Failed to send annotation to Axiom: Bad Request` |
| Scenarios.EmptyTraceIdMessageExample | src/main.ts:38-47 | an empty trace id gives the same message as no trace id |
| Scenarios.SuccessExample | src/main.ts:51-53 | a 2xx response with body id `ann_1` publishes `ann_1` |
| Scenarios.RequestExample | src/main.ts:9-34 | with no `axiomUrl` and token `xaat-1`, the request goes to `https://api.axiom.co/v2/annotations` with `Bearer xaat-1` |
| Scenarios.MissingTokenExample | src/main.ts:11 | without a token nothing is sent and the failure names `axiomToken` |
| Scenarios.MissingTypeExample | src/main.ts:26 | with a token and datasets but no type, nothing is sent and the failure names `type` |

## Left out

- The HTTP transport (`fetch`) is not modelled. It is the `send` parameter of `Run`, and its answer is an abstract `Reply`.
- The request method (`POST`) and the `Content-Type: application/json` header are constants. `Request` does not carry them.
- `JSON.stringify` and `response.json()` are foreign serialisers. The payload is a datatype. `PayloadKeys` states only which keys are written. The body of an ok response is `Json(id)` when decoding it and reading its `id` succeed. It is `NotJson(message)` for every body where either step throws, such as a body that is not JSON or a `null` body. `message` is the thrown error's message.
- The `id` is treated as an opaque string. How `setOutput` renders a numeric or missing id is library behaviour.
- `core.getInput` internals are not modelled. This covers its own trimming of input values, its mapping of input names to environment variables, and the wording of its "required" error. A missing required input is `MissingInput(name)`.
- `core.setSecret`, `core.debug`, `core.info`, `core.setOutput` and `core.setFailed` are logging and environment side effects. The outcome `Result` stands for what is published or reported.
- `new Date().toISOString()` and `process.env` are passed in as parameters. Nothing is proved about ISO-8601 validity.
- The catch block's `instanceof Error` check is left out. Every failure becomes a `Fault`, and the model does not represent throwing a non-`Error` value.
- Header lookup is case-insensitive in `fetch`. The model receives the `x-axiom-trace-id` value already looked up, as `Option<string>`.
- Strings are Dafny `string`s, which are sequences of Unicode scalar values. JavaScript strings are sequences of UTF-16 code units, so a lone surrogate cannot be written in the model. Splitting on `,` and trimming the whitespace set, all of which lies in the Basic Multilingual Plane, give the same pieces under either view for well-formed text.
