/** Concrete invocations of the action, each worked out from the model. */
module Scenarios {
  import opened Wrappers
  import opened Text
  import opened Annotation

  /** One space either side of an unpadded name is trimmed away. */
  lemma TrimSpaced(y: string)
    requires Unpadded(y)
    ensures Trim(" " + y + " ") == y
  {
    var padded := " " + y + " ";
    assert padded[1..1 + |y|] == y;
    assert padded[0] == ' ' && padded[|padded| - 1] == ' ';
    assert TrimmedAt(padded, 1, 1 + |y|);
    TrimUnique(padded, 1, 1 + |y|);
  }

  /** Joining three pieces puts a separator between each pair. */
  lemma JoinThree(a: string, b: string, c: string, sep: char)
    ensures Join([a, b, c], sep) == a + ([sep] + (b + ([sep] + c)))
  {
    assert [a, b, c][1..] == [b, c];
    assert [b, c][1..] == [c];
    assert Join([b, c], sep) == b + ([sep] + c);
  }

  /** The datasets of a three-piece input are its three pieces, trimmed. */
  lemma ThreeDatasets(a: string, b: string, c: string)
    requires ',' !in a && ',' !in b && ',' !in c
    ensures ResolveDatasets(a + ([','] + (b + ([','] + c)))) == [Trim(a), Trim(b), Trim(c)]
  {
    JoinThree(a, b, c, ',');
    DatasetsAreTrimmedSegments([a, b, c]);
    TrimEachThree(a, b, c);
  }

  /** Trimming three pieces one by one. */
  lemma TrimEachThree(a: string, b: string, c: string)
    ensures TrimEach([a, b, c]) == [Trim(a), Trim(b), Trim(c)]
  {
    var trimmed := TrimEach([a, b, c]);
    assert trimmed[0] == Trim(a) && trimmed[1] == Trim(b) && trimmed[2] == Trim(c);
  }

  /** Spaces around names are dropped and the order is kept: for names
      `x`, `y`, `z` without commas or surrounding whitespace, the input
      `x, y ,z` resolves to `[x, y, z]`. */
  lemma SpacedDatasets(x: string, y: string, z: string)
    requires ',' !in x && ',' !in y && ',' !in z
    requires Unpadded(x) && Unpadded(y) && Unpadded(z)
    ensures ResolveDatasets(x + ([','] + ((" " + y + " ") + ([','] + z)))) == [x, y, z]
  {
    ThreeDatasets(x, " " + y + " ", z);
    TrimUnpadded(x);
    TrimSpaced(y);
    TrimUnpadded(z);
  }

  /** The instance "a, b ,c": it resolves to a, b and c. */
  lemma DatasetsExample()
    ensures ResolveDatasets("a, b ,c") == ["a", "b", "c"]
  {
    SpacedDatasets("a", "b", "c");
    SpacedLiteral();
  }

  /** The input "a, b ,c" spelled as its pieces. */
  lemma SpacedLiteral()
    ensures "a" + ([','] + ((" " + "b" + " ") + ([','] + "c"))) == "a, b ,c"
  {
  }

  /** Splitting keeps empty pieces: two adjacent commas give an empty name
      between them. */
  lemma AdjacentCommas(x: string, z: string)
    requires ',' !in x && ',' !in z
    requires Unpadded(x) && Unpadded(z)
    ensures ResolveDatasets(x + ([','] + ("" + ([','] + z)))) == [x, "", z]
  {
    ThreeDatasets(x, "", z);
    TrimUnpadded(x);
    TrimUnpadded("");
    TrimUnpadded(z);
  }

  /** The instance "a,,b". */
  lemma AdjacentCommasExample()
    ensures ResolveDatasets("a,,b") == ["a", "", "b"]
  {
    AdjacentCommas("a", "b");
    AdjacentLiteral();
  }

  /** The input "a,,b" spelled as its pieces. */
  lemma AdjacentLiteral()
    ensures "a" + ([','] + ("" + ([','] + "b"))) == "a,,b"
  {
  }

  /** Splitting the empty string gives one empty name, as JavaScript's
      `split` does. An empty `datasets` input never gets this far: the
      required check rejects it first. */
  lemma EmptyDatasetsExample()
    ensures ResolveDatasets("") == [""]
  {
    TrimUnpadded("");
  }

  /** Without a `url` input the payload links to the workflow run. */
  lemma RunUrlExample(now: string)
    ensures var inputs := map["datasets" := "prod", "type" := "deploy"];
      var payload := ResolvePayload(inputs, Env(Some("org/repo"), Some("42")), now);
      && payload.Success?
      && payload.value.url == "https://github.com/org/repo/actions/runs/42"
      && payload.value.time == now
      && payload.value.title == None
  {
    RunUrlLiteral();
  }

  /** The failure message for a rejected request that carries a trace id. */
  lemma TraceIdMessageExample()
    ensures FailureMessage(Some("abc123"), "Bad Request")
      == "Failed to send annotation to Axiom (Trace ID: abc123): Bad Request"
  {
    assert FailureMessage(Some("abc123"), "Bad Request")
      == FailurePrefix + (TraceIdOpen + "abc123" + ")") + ": " + "Bad Request";
    TraceIdMessageLiteral();
  }

  /** The message with trace id "abc123" spelled out. */
  lemma TraceIdMessageLiteral()
    ensures FailurePrefix + (TraceIdOpen + "abc123" + ")") + ": " + "Bad Request"
      == "Failed to send annotation to Axiom (Trace ID: abc123): Bad Request"
  {
  }

  /** Without the trace id header the message has no parenthetical. */
  lemma NoTraceIdMessageExample()
    ensures FailureMessage(None, "Bad Request")
      == "Failed to send annotation to Axiom: Bad Request"
  {
  }

  /** An empty trace id header counts as no header. */
  lemma EmptyTraceIdMessageExample()
    ensures FailureMessage(Some(""), "Bad Request")
      == "Failed to send annotation to Axiom: Bad Request"
  {
  }

  /** A 2xx response whose body is `{"id":"ann_1"}` publishes `ann_1`. */
  lemma SuccessExample(inputs: Inputs, env: Env, now: string)
    requires Input(inputs, "axiomToken") != ""
    requires Input(inputs, "datasets") != "" && Input(inputs, "type") != ""
    ensures Run(inputs, env, now, _ => Delivered(Response(true, "OK", None, Json(Some("ann_1"))))).outcome
      == Success(Some("ann_1"))
  {
    FirstMissingRequired(inputs);
  }

  /** With no `axiomUrl` input and the token "xaat-1", the request goes to
      the production endpoint with the token as bearer credential. */
  lemma RequestExample(inputs: Inputs, env: Env, now: string)
    requires Input(inputs, "axiomUrl") == "" && Input(inputs, "axiomToken") == "xaat-1"
    requires Input(inputs, "datasets") != "" && Input(inputs, "type") != ""
    ensures Prepare(inputs, env, now).Success?
    ensures Prepare(inputs, env, now).value.target == "https://api.axiom.co/v2/annotations"
    ensures Prepare(inputs, env, now).value.authorization == "Bearer xaat-1"
  {
    FirstMissingRequired(inputs);
    RequestLiterals();
  }

  /** The default endpoint and the bearer credential spelled out. */
  lemma RequestLiterals()
    ensures DefaultAxiomUrl + AnnotationsPath == "https://api.axiom.co/v2/annotations"
    ensures BearerPrefix + "xaat-1" == "Bearer xaat-1"
  {
  }

  /** The run link for repository "org/repo" and run 42 spelled out. */
  lemma RunUrlLiteral()
    ensures RunUrl(Env(Some("org/repo"), Some("42"))) == "https://github.com/org/repo/actions/runs/42"
  {
  }

  /** Without a token nothing is sent, whatever `type` holds. */
  lemma MissingTokenExample(env: Env, now: string, send: Request -> Reply)
    ensures var inv := Run(map["datasets" := "prod"], env, now, send);
      inv.sent == [] && inv.outcome == Failure(MissingInput("axiomToken"))
  {
    FirstMissingRequired(map["datasets" := "prod"]);
  }

  /** With a token and datasets but no type, nothing is sent either. */
  lemma MissingTypeExample(env: Env, now: string, send: Request -> Reply)
    ensures var inv := Run(map["axiomToken" := "xaat-1", "datasets" := "prod"], env, now, send);
      inv.sent == [] && inv.outcome == Failure(MissingInput("type"))
  {
    FirstMissingRequired(map["axiomToken" := "xaat-1", "datasets" := "prod"]);
  }
}
