/** The pure part of the action's `run`: resolving the named inputs into an
    annotation payload, building the one POST request, and turning the reply
    into either the created annotation's id or a failure message.

    The host environment is a parameter: the named inputs are a map, the two
    run-context variables an `Env`, the current time a string, and the HTTP
    transport a function from request to reply. */
module Annotation {
  import opened Wrappers
  import opened Text

  // ---------------------------------------------------------------------------
  // Inputs and environment

  /** The named inputs the workflow supplies. */
  type Inputs = map<string, string>

  /** `core.getInput(name)`: the supplied value, or "" when the input is not
      supplied at all. */
  function Input(inputs: Inputs, name: string): string {
    if name in inputs then inputs[name] else ""
  }

  /** `core.getInput(name) || fallback`: JavaScript's `||` treats the empty
      string as absent. */
  function InputOr(inputs: Inputs, name: string, fallback: string): (v: string)
    ensures Input(inputs, name) == "" ==> v == fallback
    ensures Input(inputs, name) != "" ==> v == Input(inputs, name)
  {
    var given := Input(inputs, name);
    if given != "" then given else fallback
  }

  /** `core.getInput(name) || undefined`: an optional payload field. */
  function OptionalInput(inputs: Inputs, name: string): (v: Option<string>)
    ensures v.None? <==> Input(inputs, name) == ""
    ensures v.Some? ==> v.value == Input(inputs, name)
  {
    var given := Input(inputs, name);
    if given != "" then Some(given) else None
  }

  /** Why an invocation failed. A missing required input is reported by the
      input library in its own words, so only the input's name is kept; every
      other failure is the message of the error that reached the catch block. */
  datatype Fault = MissingInput(name: string) | Failed(message: string)

  /** `core.getInput(name, { required: true })`: throws when the input is
      empty or not supplied. */
  function Required(inputs: Inputs, name: string): (r: Result<string, Fault>)
    ensures r.Success? <==> Input(inputs, name) != ""
    ensures r.Success? ==> r.value == Input(inputs, name)
    ensures r.Failure? ==> r.error == MissingInput(name)
  {
    var given := Input(inputs, name);
    if given == "" then Failure(MissingInput(name)) else Success(given)
  }

  /** The required inputs, in the order `run` reads them. */
  const RequiredInputs: seq<string> := ["axiomToken", "datasets", "type"]

  /** The position in `names` of the first input that is missing, or `|names|`
      when all of them are supplied. */
  function FirstMissing(inputs: Inputs, names: seq<string>): (k: nat)
    ensures k <= |names|
    ensures forall j :: 0 <= j < k ==> Input(inputs, names[j]) != ""
    ensures k < |names| ==> Input(inputs, names[k]) == ""
  {
    if |names| == 0 then 0
    else if Input(inputs, names[0]) == "" then 0
    else 1 + FirstMissing(inputs, names[1..])
  }

  /** Which required input is missing first, spelled out for the three
      required inputs. */
  lemma FirstMissingRequired(inputs: Inputs)
    ensures FirstMissing(inputs, RequiredInputs) ==
      if Input(inputs, "axiomToken") == "" then 0
      else if Input(inputs, "datasets") == "" then 1
      else if Input(inputs, "type") == "" then 2
      else 3
  {
    assert RequiredInputs[1..] == ["datasets", "type"];
    assert ["datasets", "type"][1..] == ["type"];
    assert ["type"][1..] == [];
    assert FirstMissing(inputs, ["type"]) == if Input(inputs, "type") == "" then 0 else 1;
    assert FirstMissing(inputs, ["datasets", "type"]) ==
      if Input(inputs, "datasets") == "" then 0 else 1 + FirstMissing(inputs, ["type"]);
  }

  /** `process.env.GITHUB_REPOSITORY` and `process.env.GITHUB_RUN_ID`; either
      may be unset. */
  datatype Env = Env(repository: Option<string>, runId: Option<string>)

  /** A value placed in a JavaScript template literal: an unset variable is
      rendered as the text "undefined". */
  function Interpolate(v: Option<string>): string {
    v.GetOr("undefined")
  }

  /** The link to the workflow run that invoked the action. */
  function RunUrl(env: Env): string {
    "https://github.com/" + Interpolate(env.repository) + "/actions/runs/" + Interpolate(env.runId)
  }

  // ---------------------------------------------------------------------------
  // Payload

  /** The annotation sent to the API. `None` fields are left out of the JSON
      body. The `type` field is called `kind` here. */
  datatype Payload = Payload(
    datasets: seq<string>,
    time: string,
    endTime: Option<string>,
    title: Option<string>,
    description: Option<string>,
    url: string,
    kind: string)

  /** The payload fields that are sent only when their input is given. Each
      shares its name with its input. */
  const OptionalFields: set<string> := {"endTime", "title", "description"}

  /** The keys `JSON.stringify` writes for `p`: a field that is `undefined`
      is omitted. */
  function PayloadKeys(p: Payload): (keys: set<string>)
    ensures {"datasets", "time", "url", "type"} <= keys
    ensures keys <= {"datasets", "time", "url", "type"} + OptionalFields
    ensures "endTime" in keys <==> p.endTime.Some?
    ensures "title" in keys <==> p.title.Some?
    ensures "description" in keys <==> p.description.Some?
  {
    {"datasets", "time", "url", "type"}
    + (if p.endTime.Some? then {"endTime"} else {})
    + (if p.title.Some? then {"title"} else {})
    + (if p.description.Some? then {"description"} else {})
  }

  /** `parts.map(d => d.trim())`. */
  function TrimEach(parts: seq<string>): (r: seq<string>)
    ensures |r| == |parts|
    ensures forall k :: 0 <= k < |r| ==> r[k] == Trim(parts[k])
  {
    if |parts| == 0 then [] else [Trim(parts[0])] + TrimEach(parts[1..])
  }

  /** The `datasets` input split on commas, each piece trimmed. */
  function ResolveDatasets(raw: string): (ds: seq<string>)
    ensures |ds| == Count(raw, ',') + 1
    ensures forall k :: 0 <= k < |ds| ==> Unpadded(ds[k])
    ensures forall k :: 0 <= k < |ds| ==> ds[k] == Trim(Split(raw, ',')[k])
  {
    TrimEach(Split(raw, ','))
  }

  /** The dataset names are the comma-delimited segments of the input, in
      order, each with its surrounding whitespace removed: for any way of
      writing the input as comma-free segments joined by commas, the k-th
      dataset is the k-th segment trimmed. */
  lemma DatasetsAreTrimmedSegments(segments: seq<string>)
    requires |segments| > 0
    requires forall k :: 0 <= k < |segments| ==> ',' !in segments[k]
    ensures ResolveDatasets(Join(segments, ',')) == TrimEach(segments)
    ensures forall k :: 0 <= k < |segments| ==>
      ResolveDatasets(Join(segments, ','))[k] == Trim(segments[k])
  {
    SplitJoin(segments, ',');
  }

  /** The payload `run` builds from its inputs. It fails, naming the input,
      when `datasets` or `type` is missing; `datasets` is read first. */
  function ResolvePayload(inputs: Inputs, env: Env, now: string): (r: Result<Payload, Fault>)
    ensures r.Success? <==> Input(inputs, "datasets") != "" && Input(inputs, "type") != ""
    ensures r.Failure? ==> r.error == MissingInput(if Input(inputs, "datasets") == "" then "datasets" else "type")
    ensures r.Success? ==> r.value.datasets == ResolveDatasets(Input(inputs, "datasets"))
    ensures r.Success? ==> r.value.kind == Input(inputs, "type")
    ensures r.Success? ==> r.value.time == (if Input(inputs, "time") == "" then now else Input(inputs, "time"))
    ensures r.Success? ==> r.value.url == (if Input(inputs, "url") == "" then RunUrl(env) else Input(inputs, "url"))
    ensures r.Success? ==>
      && r.value.endTime == OptionalInput(inputs, "endTime")
      && r.value.title == OptionalInput(inputs, "title")
      && r.value.description == OptionalInput(inputs, "description")
  {
    var datasets :- Required(inputs, "datasets");
    var kind :- Required(inputs, "type");
    Success(Payload(
      datasets := ResolveDatasets(datasets),
      time := InputOr(inputs, "time", now),
      endTime := OptionalInput(inputs, "endTime"),
      title := OptionalInput(inputs, "title"),
      description := OptionalInput(inputs, "description"),
      url := InputOr(inputs, "url", RunUrl(env)),
      kind := kind))
  }

  /** An optional field appears in the JSON body exactly when its input is a
      non-empty string; the fields that are always sent always appear. */
  lemma OptionalFieldsFollowInputs(inputs: Inputs, env: Env, now: string)
    requires ResolvePayload(inputs, env, now).Success?
    ensures var keys := PayloadKeys(ResolvePayload(inputs, env, now).value);
      && {"datasets", "time", "url", "type"} <= keys
      && forall name :: name in OptionalFields ==> (name in keys <==> Input(inputs, name) != "")
  {
  }

  /** The token never reaches the payload, whose serialised form is written
      to the debug log: changing the token leaves the payload as it was. */
  lemma PayloadIgnoresToken(inputs: Inputs, env: Env, now: string, token: string)
    ensures ResolvePayload(inputs["axiomToken" := token], env, now) == ResolvePayload(inputs, env, now)
  {
    var inputs' := inputs["axiomToken" := token];
    forall name | name != "axiomToken"
      ensures Input(inputs', name) == Input(inputs, name)
    {
    }
  }

  // ---------------------------------------------------------------------------
  // Request

  const DefaultAxiomUrl := "https://api.axiom.co"
  const AnnotationsPath := "/v2/annotations"
  const BearerPrefix := "Bearer "

  /** The POST request `run` sends. Its method is always POST and its
      `Content-Type` header always `application/json`; the body is the
      serialised payload. */
  datatype Request = Request(target: string, authorization: string, payload: Payload)

  /** Everything `run` does before the network call: resolve the base URL,
      require the token, then build the payload. */
  function Prepare(inputs: Inputs, env: Env, now: string): (r: Result<Request, Fault>)
    ensures var k := FirstMissing(inputs, RequiredInputs);
      && (r.Failure? <==> k < |RequiredInputs|)
      && (r.Failure? ==> r.error == MissingInput(RequiredInputs[k]))
    ensures r.Success? && Input(inputs, "axiomUrl") == "" ==> r.value.target == DefaultAxiomUrl + AnnotationsPath
    ensures r.Success? && Input(inputs, "axiomUrl") != "" ==> r.value.target == Input(inputs, "axiomUrl") + AnnotationsPath
    ensures r.Success? ==> r.value.authorization == BearerPrefix + Input(inputs, "axiomToken")
    ensures r.Success? ==>
      var payload := ResolvePayload(inputs, env, now);
      payload.Success? && r.value.payload == payload.value
  {
    FirstMissingRequired(inputs);
    var axiomUrl := InputOr(inputs, "axiomUrl", DefaultAxiomUrl);
    var token :- Required(inputs, "axiomToken");
    var payload :- ResolvePayload(inputs, env, now);
    Success(Request(axiomUrl + AnnotationsPath, BearerPrefix + token, payload))
  }

  // ---------------------------------------------------------------------------
  // Reply

  /** The body of a response, as `run` reads it. `Json(id)` is a body that
      decodes and whose `id` can be read (`None` when it has no `id`).
      `NotJson(message)` is any body on which `response.json()` or the
      `.id` access throws: one that is not JSON, or that decodes to `null`;
      `message` is the thrown error's message. */
  datatype Body = Json(id: Option<string>) | NotJson(message: string)

  /** What `fetch` resolves to: the `ok` flag (a 2xx status), the status
      text, the `x-axiom-trace-id` header (`None` when the header is absent)
      and the body. */
  datatype Response = Response(ok: bool, statusText: string, traceId: Option<string>, body: Body)

  /** What the transport gives back for a request: a response, or the error
      `fetch` rejects with. */
  datatype Reply = Delivered(response: Response) | TransportError(message: string)

  const FailurePrefix := "Failed to send annotation to Axiom"
  const TraceIdOpen := " (Trace ID: "

  /** A trace id is reported only when the header is present and non-empty
      (JavaScript truthiness). */
  predicate HasTraceId(traceId: Option<string>) {
    traceId.Some? && traceId.value != ""
  }

  /** The message of the error thrown for a non-2xx response. */
  function FailureMessage(traceId: Option<string>, statusText: string): (m: string)
    ensures |m| > |FailurePrefix| + 1 + |statusText|
    ensures m[..|FailurePrefix|] == FailurePrefix
    ensures m[|m| - |statusText| - 2..] == ": " + statusText
    ensures HasTraceId(traceId) <==> m[|FailurePrefix|] == ' '
    ensures !HasTraceId(traceId) ==> |m| == |FailurePrefix| + 2 + |statusText|
  {
    var detail := if HasTraceId(traceId) then TraceIdOpen + traceId.value + ")" else "";
    FailurePrefix + detail + ": " + statusText
  }

  /** Reads the trace id back out of a failure message whose status text is
      known. */
  function TraceIdOf(m: string, statusText: string): Option<string> {
    var lo := |FailurePrefix|;
    var hi := |m| - |statusText| - 2;
    if lo + |TraceIdOpen| + 1 <= hi && m[lo..lo + |TraceIdOpen|] == TraceIdOpen && m[hi - 1] == ')'
    then Some(m[lo + |TraceIdOpen|..hi - 1])
    else None
  }

  /** The failure message loses nothing about the trace id: it can be read
      back, and the message carries one exactly when the header held a
      non-empty value. */
  lemma FailureMessageKeepsTraceId(traceId: Option<string>, statusText: string)
    ensures TraceIdOf(FailureMessage(traceId, statusText), statusText)
      == (if HasTraceId(traceId) then traceId else None)
  {
    var m := FailureMessage(traceId, statusText);
    var lo := |FailurePrefix|;
    if HasTraceId(traceId) {
      var t := traceId.value;
      assert m == FailurePrefix + TraceIdOpen + t + ")" + ": " + statusText;
      var hi := |m| - |statusText| - 2;
      assert hi == lo + |TraceIdOpen| + |t| + 1;
      assert m[lo..lo + |TraceIdOpen|] == TraceIdOpen;
      assert m[hi - 1] == ')';
      assert m[lo + |TraceIdOpen|..hi - 1] == t;
    } else {
      assert |m| - |statusText| - 2 == lo;
    }
  }

  /** What `run` ends with once the request has been sent: the annotation's
      id (absent when the body has none), or the failure. */
  function Conclude(reply: Reply): (r: Result<Option<string>, Fault>)
    ensures r.Success? <==> reply.Delivered? && reply.response.ok && reply.response.body.Json?
    ensures r.Success? ==> r.value == reply.response.body.id
    ensures reply.Delivered? && !reply.response.ok ==>
      r == Failure(Failed(FailureMessage(reply.response.traceId, reply.response.statusText)))
    ensures reply.Delivered? && reply.response.ok && reply.response.body.NotJson? ==>
      r == Failure(Failed(reply.response.body.message))
    ensures reply.TransportError? ==> r == Failure(Failed(reply.message))
  {
    match reply
    case TransportError(message) => Failure(Failed(message))
    case Delivered(response) =>
      if !response.ok then
        Failure(Failed(FailureMessage(response.traceId, response.statusText)))
      else
        match response.body
        case Json(id) => Success(id)
        case NotJson(message) => Failure(Failed(message))
  }

  // ---------------------------------------------------------------------------
  // One invocation

  /** The requests handed to the transport, and the outcome. */
  datatype Invocation = Invocation(sent: seq<Request>, outcome: Result<Option<string>, Fault>)

  /** `run`: prepare the request, send it if it could be built, conclude. */
  function Run(inputs: Inputs, env: Env, now: string, send: Request -> Reply): (inv: Invocation)
    ensures |inv.sent| <= 1
    ensures |inv.sent| == 0 <==> FirstMissing(inputs, RequiredInputs) < |RequiredInputs|
    ensures |inv.sent| == 0 ==>
      inv.outcome == Failure(MissingInput(RequiredInputs[FirstMissing(inputs, RequiredInputs)]))
    ensures |inv.sent| == 1 ==>
      && Prepare(inputs, env, now).Success?
      && inv.sent[0] == Prepare(inputs, env, now).value
      && inv.outcome == Conclude(send(inv.sent[0]))
    ensures inv.outcome.Success? ==> |inv.sent| == 1
  {
    match Prepare(inputs, env, now)
    case Failure(fault) => Invocation([], Failure(fault))
    case Success(request) => Invocation([request], Conclude(send(request)))
  }

  /** A missing required input stops the invocation before the transport is
      used: whatever the transport would do, the outcome is the same. */
  lemma MissingInputSendsNothing(inputs: Inputs, env: Env, now: string, send: Request -> Reply, send': Request -> Reply)
    requires Input(inputs, "axiomToken") == "" || Input(inputs, "datasets") == "" || Input(inputs, "type") == ""
    ensures Run(inputs, env, now, send) == Run(inputs, env, now, send')
    ensures Run(inputs, env, now, send).sent == []
    ensures Run(inputs, env, now, send).outcome.Failure?
  {
    assert RequiredInputs[0] == "axiomToken" && RequiredInputs[1] == "datasets" && RequiredInputs[2] == "type";
  }

  /** An ok response with a JSON body publishes that body's id, and no
      failure message is produced. */
  lemma OkResponsePublishesId(inputs: Inputs, env: Env, now: string, send: Request -> Reply)
    requires Prepare(inputs, env, now).Success?
    requires var reply := send(Prepare(inputs, env, now).value);
      reply.Delivered? && reply.response.ok && reply.response.body.Json?
    ensures var inv := Run(inputs, env, now, send);
      inv.outcome == Success(send(inv.sent[0]).response.body.id)
  {
  }
}
