/**
 * Usage accounting of the Bedrock endpoint
 * (src/providers/bedrock/trulens/providers/bedrock/endpoint.py): the
 * callbacks read a response (status code, token-count headers, per-chunk
 * invocation metrics) and bump four counters of their `cost` object.
 *
 * A response is a decoded JSON-like value. A header string is represented
 * by the natural number it parses to, and a chunk's `bytes` by the document
 * `json.loads(bytes.decode())` gives. The base-class handlers that each
 * handler calls first do not touch these four counters.
 */
module Bedrock {

  /** A decoded response value. `Stream` is an iterable that is not a `Sequence` (an event stream). */
  datatype Json =
    | Null
    | Nat(n: nat)
    | Str(s: string)
    | Dict(m: map<string, Json>)
    | List(items: seq<Json>)
    | Stream(items: seq<Json>)

  /** `d.get(k)`: `None` when the key is missing. */
  function Get(d: map<string, Json>, k: string): Json
  {
    if k in d then d[k] else Null
  }

  const OutputTokenHeader: string := "x-amzn-bedrock-output-token-count"
  const InputTokenHeader: string := "x-amzn-bedrock-input-token-count"
  const MetricsKey: string := "amazon-bedrock-invocationMetrics"
  const InvokeModel: string := "invoke_model"
  const InvokeModelWithResponseStream: string := "invoke_model_with_response_stream"

  /** The four counters of a `cost` object that the Bedrock handlers update. */
  datatype Counters = Counters(nTokens: nat, nPromptTokens: nat, nCompletionTokens: nat, nSuccessfulRequests: nat)

  /** The conservation invariant: every token counted is a prompt or a completion token. */
  predicate Balanced(c: Counters)
  {
    c.nTokens == c.nPromptTokens + c.nCompletionTokens
  }

  /** No counter of `c` exceeds the same counter of `d`. */
  predicate NoDecrease(c: Counters, d: Counters)
  {
    c.nTokens <= d.nTokens && c.nPromptTokens <= d.nPromptTokens &&
    c.nCompletionTokens <= d.nCompletionTokens && c.nSuccessfulRequests <= d.nSuccessfulRequests
  }

  /** The counters after a handler, and whether it raised (`AttributeError`, `TypeError`, `ValueError`). */
  datatype Outcome = Outcome(cost: Counters, raised: bool)

  /** What a present count adds: its value; an absent one adds 0. */
  function CountOf(v: Json): nat
  {
    if v.Nat? then v.n else 0
  }

  /** `int(v)` fails on a value that is present but not a number. */
  predicate BadCount(v: Json)
  {
    !v.Null? && !v.Nat?
  }

  /**
   * The two blocks `if output_tokens is not None: ... += int(output_tokens)`
   * and `if input_tokens is not None: ... += int(input_tokens)`, in this order.
   */
  function AddTokens(c: Counters, output: Json, input: Json): Outcome
  {
    if BadCount(output) then Outcome(c, true)
    else
      var out := CountOf(output);
      var c1 := c.(nCompletionTokens := c.nCompletionTokens + out, nTokens := c.nTokens + out);
      if BadCount(input) then Outcome(c1, true)
      else
        var inp := CountOf(input);
        Outcome(c1.(nPromptTokens := c1.nPromptTokens + inp, nTokens := c1.nTokens + inp), false)
  }

  /** The metadata dictionary of a response whose status is 200. */
  predicate Status200(response: Json)
  {
    && response.Dict?
    && Get(response.m, "ResponseMetadata").Dict?
    && Get(Get(response.m, "ResponseMetadata").m, "HTTPStatusCode") == Nat(200)
  }

  /** `on_endpoint_generation` / `handle_generation` */
  function Generation(c: Counters, response: Json): Outcome
  {
    if response.Null? then Outcome(c, false)
    else if !response.Dict? then Outcome(c, true)
    else
      var metadata := Get(response.m, "ResponseMetadata");
      if metadata.Null? then Outcome(c, false)
      else if !metadata.Dict? then Outcome(c, true)
      else if Get(metadata.m, "HTTPStatusCode") != Nat(200) then Outcome(c, false)
      else
        var headers := Get(metadata.m, "HTTPHeaders");
        var o :=
          if headers.Null? then Outcome(c, false)
          else if !headers.Dict? then Outcome(c, true)
          else AddTokens(c, Get(headers.m, OutputTokenHeader), Get(headers.m, InputTokenHeader));
        if o.raised then o
        else Outcome(o.cost.(nSuccessfulRequests := o.cost.nSuccessfulRequests + 1), false)
  }

  /** `on_endpoint_generation_chunk` / `handle_generation_chunk` */
  function Chunk(c: Counters, response: Json): Outcome
  {
    if !response.Dict? then Outcome(c, true)
    else
      var chunk := Get(response.m, "chunk");
      if chunk.Null? then Outcome(c, false)
      else if !chunk.Dict? then Outcome(c, true)
      else
        var data := Get(chunk.m, "bytes");
        if data.Null? then Outcome(c, false)
        else if !data.Dict? then Outcome(c, true)
        else
          var metrics := Get(data.m, MetricsKey);
          if metrics.Null? then Outcome(c, false)
          else if !metrics.Dict? then Outcome(c, true)
          else AddTokens(c, Get(metrics.m, "outputTokenCount"), Get(metrics.m, "inputTokenCount"))
  }

  // ---------------------------------------------------------------------
  // Properties of one handler call

  /** `n_successful_requests` grows by exactly one iff the status is 200 and the handler completes. */
  lemma GenerationCountsSuccess(c: Counters, response: Json)
    ensures var o := Generation(c, response);
      o.cost.nSuccessfulRequests == c.nSuccessfulRequests + (if Status200(response) && !o.raised then 1 else 0)
  {
  }

  /** With status 200 the token headers drive the token counters; an absent header adds 0. */
  lemma GenerationCountsHeaderTokens(c: Counters, response: Json)
    requires Status200(response)
    requires !Generation(c, response).raised
    ensures var o := Generation(c, response);
      var headers := Get(Get(response.m, "ResponseMetadata").m, "HTTPHeaders");
      var out := if headers.Dict? then CountOf(Get(headers.m, OutputTokenHeader)) else 0;
      var inp := if headers.Dict? then CountOf(Get(headers.m, InputTokenHeader)) else 0;
      && o.cost.nCompletionTokens == c.nCompletionTokens + out
      && o.cost.nPromptTokens == c.nPromptTokens + inp
      && o.cost.nTokens == c.nTokens + out + inp
  {
  }

  /** A `None` response, a missing `ResponseMetadata` or a status other than 200 changes nothing. */
  lemma GenerationIgnoresFailedResponses(c: Counters, response: Json)
    requires
      || response.Null?
      || (response.Dict? && Get(response.m, "ResponseMetadata").Null?)
      || (response.Dict? && Get(response.m, "ResponseMetadata").Dict? &&
          Get(Get(response.m, "ResponseMetadata").m, "HTTPStatusCode") != Nat(200))
    ensures Generation(c, response) == Outcome(c, false)
  {
  }

  /** A chunk without `chunk`, `bytes` or invocation metrics changes nothing. */
  lemma ChunkWithoutMetricsChangesNothing(c: Counters, response: Json)
    requires response.Dict?
    requires
      || Get(response.m, "chunk").Null?
      || (Get(response.m, "chunk").Dict? && Get(Get(response.m, "chunk").m, "bytes").Null?)
      || (Get(response.m, "chunk").Dict? && Get(Get(response.m, "chunk").m, "bytes").Dict? &&
          Get(Get(Get(response.m, "chunk").m, "bytes").m, MetricsKey).Null?)
    ensures Chunk(c, response) == Outcome(c, false)
  {
  }

  /** A chunk with metrics adds its token counts and never counts a request. */
  lemma ChunkCountsMetricTokens(c: Counters, response: Json, metrics: map<string, Json>)
    requires response.Dict? && Get(response.m, "chunk").Dict?
    requires Get(Get(response.m, "chunk").m, "bytes").Dict?
    requires Get(Get(Get(response.m, "chunk").m, "bytes").m, MetricsKey) == Dict(metrics)
    requires !Chunk(c, response).raised
    ensures var o := Chunk(c, response);
      && o.cost.nCompletionTokens == c.nCompletionTokens + CountOf(Get(metrics, "outputTokenCount"))
      && o.cost.nPromptTokens == c.nPromptTokens + CountOf(Get(metrics, "inputTokenCount"))
      && o.cost.nTokens == c.nTokens + CountOf(Get(metrics, "outputTokenCount")) + CountOf(Get(metrics, "inputTokenCount"))
      && o.cost.nSuccessfulRequests == c.nSuccessfulRequests
  {
  }

  /** Whatever happens, even a raise half way, the token invariant is kept and no counter decreases. */
  lemma HandlersKeepBalance(c: Counters, response: Json)
    requires Balanced(c)
    ensures Balanced(Generation(c, response).cost) && NoDecrease(c, Generation(c, response).cost)
    ensures Balanced(Chunk(c, response).cost) && NoDecrease(c, Chunk(c, response).cost)
    ensures Chunk(c, response).cost.nSuccessfulRequests == c.nSuccessfulRequests
  {
    GenerationKeepsBalance(c, response);
    ChunkKeepsBalance(c, response);
  }

  /** Both token blocks keep the invariant, leave the request count alone and decrease nothing. */
  lemma AddTokensKeepsBalance(c: Counters, output: Json, input: Json)
    requires Balanced(c)
    ensures var o := AddTokens(c, output, input);
      Balanced(o.cost) && NoDecrease(c, o.cost) && o.cost.nSuccessfulRequests == c.nSuccessfulRequests
  {
  }

  lemma GenerationKeepsBalance(c: Counters, response: Json)
    requires Balanced(c)
    ensures Balanced(Generation(c, response).cost) && NoDecrease(c, Generation(c, response).cost)
  {
    if response.Dict? {
      var metadata := Get(response.m, "ResponseMetadata");
      if metadata.Dict? {
        var headers := Get(metadata.m, "HTTPHeaders");
        if headers.Dict? {
          AddTokensKeepsBalance(c, Get(headers.m, OutputTokenHeader), Get(headers.m, InputTokenHeader));
        }
      }
    }
  }

  lemma ChunkKeepsBalance(c: Counters, response: Json)
    requires Balanced(c)
    ensures Balanced(Chunk(c, response).cost) && NoDecrease(c, Chunk(c, response).cost)
    ensures Chunk(c, response).cost.nSuccessfulRequests == c.nSuccessfulRequests
  {
    if response.Dict? {
      var chunk := Get(response.m, "chunk");
      if chunk.Dict? {
        var data := Get(chunk.m, "bytes");
        if data.Dict? {
          var metrics := Get(data.m, MetricsKey);
          if metrics.Dict? {
            AddTokensKeepsBalance(c, Get(metrics.m, "outputTokenCount"), Get(metrics.m, "inputTokenCount"));
          }
        }
      }
    }
  }

  // ---------------------------------------------------------------------
  // Sequences of handler calls

  /** One handler invocation. */
  datatype Step = GenerationStep(response: Json) | ChunkStep(chunk: Json)

  function Apply(c: Counters, s: Step): Outcome
  {
    match s
    case GenerationStep(r) => Generation(c, r)
    case ChunkStep(r) => Chunk(c, r)
  }

  /** Run the handlers one after another; a raise ends the run. */
  function Run(c: Counters, steps: seq<Step>): Outcome
    decreases |steps|
  {
    if |steps| == 0 then Outcome(c, false)
    else
      var o := Apply(c, steps[0]);
      if o.raised then o else Run(o.cost, steps[1..])
  }

  function ChunkSteps(chunks: seq<Json>): (r: seq<Step>)
    ensures |r| == |chunks|
    ensures forall i :: 0 <= i < |chunks| ==> r[i] == ChunkStep(chunks[i])
  {
    if |chunks| == 0 then [] else [ChunkStep(chunks[0])] + ChunkSteps(chunks[1..])
  }

  /** Any run of handlers keeps the token invariant and never decreases a counter. */
  lemma {:induction false} RunKeepsBalance(c: Counters, steps: seq<Step>)
    requires Balanced(c)
    ensures Balanced(Run(c, steps).cost) && NoDecrease(c, Run(c, steps).cost)
    decreases |steps|
  {
    if |steps| > 0 {
      match steps[0] {
        case GenerationStep(r) => HandlersKeepBalance(c, r);
        case ChunkStep(r) => HandlersKeepBalance(c, r);
      }
      var o := Apply(c, steps[0]);
      if !o.raised {
        RunKeepsBalance(o.cost, steps[1..]);
      }
    }
  }

  /** Runs compose: a run of `a + b` is a run of `a`, then, if it did not raise, one of `b`. */
  lemma {:induction false} RunAppend(c: Counters, a: seq<Step>, b: seq<Step>)
    ensures Run(c, a + b) == if Run(c, a).raised then Run(c, a) else Run(Run(c, a).cost, b)
    decreases |a|
  {
    if |a| == 0 {
      assert a + b == b;
    } else {
      assert (a + b)[0] == a[0];
      assert (a + b)[1..] == a[1..] + b;
      var o := Apply(c, a[0]);
      if !o.raised {
        RunAppend(o.cost, a[1..], b);
      }
    }
  }

  // ---------------------------------------------------------------------
  // The stream body

  /** The elements iterating over `body` yields. */
  function Elements(body: Json): seq<Json>
  {
    match body
    case List(items) => items
    case Stream(items) => items
    // a string iterates over its one-character strings
    case Str(s) => seq(|s|, i requires 0 <= i < |s| => Str([s[i]]))
    // a dictionary iterates over its keys; each is a string, on which a chunk handler raises at once,
    // so which key comes first makes no difference to the counters
    case Dict(m) => seq(|m.Keys|, i => Str(""))
    case _ => []
  }

  /** `isinstance(body, Sequence)` */
  predicate IsSequence(body: Json)
  {
    body.List? || body.Str?
  }

  /** `isinstance(body, Iterable)` */
  predicate IsIterable(body: Json)
  {
    body.List? || body.Stream? || body.Str? || body.Dict?
  }

  /**
   * `WrapperBedrockCallback.on_endpoint_response` for the wrapped function
   * named `funcName`. The stream variant reads `response.get("body")`, which
   * raises for a response that is not a dictionary.
   */
  function OnEndpointResponseSpec(c: Counters, funcName: string, response: Json): Outcome
  {
    if funcName == InvokeModel then Generation(c, response)
    else if funcName == InvokeModelWithResponseStream then
      var o := Generation(c, response);
      if o.raised then o
      else if !response.Dict? then Outcome(o.cost, true)
      else
        var body := Get(response.m, "body");
        if IsSequence(body) then Run(o.cost, ChunkSteps(Elements(body)))
        else o
    else Outcome(c, false)
  }

  /** `on_endpoint_response` runs exactly the generation handler and, for a stream with a `Sequence` body, each chunk in order. */
  lemma OnEndpointResponseDispatch(c: Counters, funcName: string, response: Json)
    ensures funcName == InvokeModel ==>
      OnEndpointResponseSpec(c, funcName, response) == Run(c, [GenerationStep(response)])
    ensures funcName == InvokeModelWithResponseStream && response.Dict? && IsSequence(Get(response.m, "body")) ==>
      OnEndpointResponseSpec(c, funcName, response) ==
        Run(c, [GenerationStep(response)] + ChunkSteps(Elements(Get(response.m, "body"))))
    ensures funcName == InvokeModelWithResponseStream && response.Dict? && !IsSequence(Get(response.m, "body")) ==>
      OnEndpointResponseSpec(c, funcName, response) == Run(c, [GenerationStep(response)])
    ensures funcName == InvokeModelWithResponseStream && !response.Dict? ==>
      OnEndpointResponseSpec(c, funcName, response) == Outcome(Run(c, [GenerationStep(response)]).cost, true)
    ensures funcName != InvokeModel && funcName != InvokeModelWithResponseStream ==>
      OnEndpointResponseSpec(c, funcName, response) == Outcome(c, false)
  {
    var g := [GenerationStep(response)];
    assert Run(c, g) == (var o := Generation(c, response); if o.raised then o else Run(o.cost, []));
    if funcName == InvokeModelWithResponseStream && response.Dict? && IsSequence(Get(response.m, "body")) {
      RunAppend(c, g, ChunkSteps(Elements(Get(response.m, "body"))));
    }
  }

  // ---------------------------------------------------------------------
  // Two callbacks

  /**
   * The cost objects `handle_wrapped_call` updates: the global callback's
   * alone, or also a distinct per-call callback's, or a per-call callback
   * that shares the global cost object.
   */
  datatype Targets = One(global: Counters) | Two(global: Counters, local: Counters) | Shared(both: Counters)

  /** `self.global_callback.h(...)` then, when there is one, `callback.h(...)`. */
  function ApplyBoth(t: Targets, s: Step): (Targets, bool)
  {
    match t
    case One(g) =>
      var o := Apply(g, s); (One(o.cost), o.raised)
    case Two(g, l) =>
      var o := Apply(g, s);
      if o.raised then (Two(o.cost, l), true)
      else var p := Apply(l, s); (Two(o.cost, p.cost), p.raised)
    case Shared(x) =>
      var o := Apply(x, s);
      if o.raised then (Shared(o.cost), true)
      else var p := Apply(o.cost, s); (Shared(p.cost), p.raised)
  }

  function RunBoth(t: Targets, steps: seq<Step>): (Targets, bool)
    decreases |steps|
  {
    if |steps| == 0 then (t, false)
    else
      var (t1, raised) := ApplyBoth(t, steps[0]);
      if raised then (t1, true) else RunBoth(t1, steps[1..])
  }

  /** `BedrockEndpoint.handle_wrapped_call`; chunks are processed when `body` is `Iterable`. */
  function HandleWrappedCallSpec(t: Targets, funcName: string, response: Json): (Targets, bool)
  {
    if funcName == InvokeModel then ApplyBoth(t, GenerationStep(response))
    else if funcName == InvokeModelWithResponseStream then
      var (t1, raised) := ApplyBoth(t, GenerationStep(response));
      if raised then (t1, true)
      else if !response.Dict? then (t1, true)
      else
        var body := Get(response.m, "body");
        if IsIterable(body) then RunBoth(t1, ChunkSteps(Elements(body)))
        else (t1, false)
    else (t, false)
  }

  /**
   * With two distinct cost objects and no raise, each receives exactly the
   * same handler sequence as it would alone.
   */
  lemma {:induction false} RunBothIsRunOfEach(g: Counters, l: Counters, steps: seq<Step>)
    requires !RunBoth(Two(g, l), steps).1
    ensures RunBoth(Two(g, l), steps).0 == Two(Run(g, steps).cost, Run(l, steps).cost)
    ensures !Run(g, steps).raised && !Run(l, steps).raised
    decreases |steps|
  {
    if |steps| > 0 {
      var o := Apply(g, steps[0]);
      var p := Apply(l, steps[0]);
      assert !o.raised && !p.raised;
      RunBothIsRunOfEach(o.cost, p.cost, steps[1..]);
    }
  }

  /** The global callback's counters alone follow the plain handler sequence. */
  lemma {:induction false} RunBothGlobalAlone(g: Counters, steps: seq<Step>)
    ensures RunBoth(One(g), steps) == (One(Run(g, steps).cost), Run(g, steps).raised)
    decreases |steps|
  {
    if |steps| > 0 {
      var o := Apply(g, steps[0]);
      if !o.raised {
        RunBothGlobalAlone(o.cost, steps[1..]);
      }
    }
  }

  /** Runs of both callbacks compose like runs of one. */
  lemma {:induction false} RunBothAppend(t: Targets, a: seq<Step>, b: seq<Step>)
    ensures RunBoth(t, a + b) == if RunBoth(t, a).1 then RunBoth(t, a) else RunBoth(RunBoth(t, a).0, b)
    decreases |a|
  {
    if |a| == 0 {
      assert a + b == b;
    } else {
      assert (a + b)[0] == a[0];
      assert (a + b)[1..] == a[1..] + b;
      var (t1, raised) := ApplyBoth(t, a[0]);
      if !raised {
        RunBothAppend(t1, a[1..], b);
      }
    }
  }

  /**
   * The handler sequence `handle_wrapped_call` runs for the function named
   * `funcName`: the generation handler for `invoke_model`; for the stream
   * variant, with a dictionary response, also one chunk handler per element
   * of an `Iterable` body; nothing for any other name.
   */
  function WrappedCallSteps(funcName: string, response: Json): seq<Step>
  {
    if funcName == InvokeModel then [GenerationStep(response)]
    else if funcName == InvokeModelWithResponseStream then
      if response.Dict? && IsIterable(Get(response.m, "body"))
      then [GenerationStep(response)] + ChunkSteps(Elements(Get(response.m, "body")))
      else [GenerationStep(response)]
    else []
  }

  /**
   * `handle_wrapped_call` runs exactly `WrappedCallSteps` on its targets,
   * except that the stream variant with a response that is not a dictionary
   * raises at `response.get("body")` after the generation handlers.
   */
  lemma HandleWrappedCallDispatch(t: Targets, funcName: string, response: Json)
    ensures !(funcName == InvokeModelWithResponseStream && !response.Dict?) ==>
      HandleWrappedCallSpec(t, funcName, response) == RunBoth(t, WrappedCallSteps(funcName, response))
    ensures funcName == InvokeModelWithResponseStream && !response.Dict? ==>
      HandleWrappedCallSpec(t, funcName, response) == (RunBoth(t, [GenerationStep(response)]).0, true)
    ensures funcName != InvokeModel && funcName != InvokeModelWithResponseStream ==>
      HandleWrappedCallSpec(t, funcName, response) == (t, false)
  {
    var g := [GenerationStep(response)];
    assert RunBoth(t, g) == (var (t1, raised) := ApplyBoth(t, GenerationStep(response)); if raised then (t1, true) else RunBoth(t1, []));
    if funcName == InvokeModelWithResponseStream && response.Dict? && IsIterable(Get(response.m, "body")) {
      RunBothAppend(t, g, ChunkSteps(Elements(Get(response.m, "body"))));
    }
  }

  /**
   * With two distinct cost objects and no raise, the global and the per-call
   * counters each end as the same handler sequence alone leaves them.
   */
  lemma WrappedCallUpdatesEach(g: Counters, l: Counters, funcName: string, response: Json)
    requires !HandleWrappedCallSpec(Two(g, l), funcName, response).1
    ensures var steps := WrappedCallSteps(funcName, response);
      && HandleWrappedCallSpec(Two(g, l), funcName, response).0 == Two(Run(g, steps).cost, Run(l, steps).cost)
      && !Run(g, steps).raised && !Run(l, steps).raised
  {
    HandleWrappedCallDispatch(Two(g, l), funcName, response);
    RunBothIsRunOfEach(g, l, WrappedCallSteps(funcName, response));
  }

  /**
   * Without a per-call callback, the global counters follow the handler
   * sequence; the call raises iff a handler does or the stream response is
   * not a dictionary.
   */
  lemma WrappedCallUpdatesGlobal(g: Counters, funcName: string, response: Json)
    ensures var steps := WrappedCallSteps(funcName, response);
      HandleWrappedCallSpec(One(g), funcName, response) ==
        (One(Run(g, steps).cost), Run(g, steps).raised || (funcName == InvokeModelWithResponseStream && !response.Dict?))
  {
    HandleWrappedCallDispatch(One(g), funcName, response);
    RunBothGlobalAlone(g, WrappedCallSteps(funcName, response));
  }

  /** Every step twice in a row: what one cost object shared by both callbacks receives. */
  function Doubled(steps: seq<Step>): (r: seq<Step>)
    ensures |r| == 2 * |steps|
    decreases |steps|
  {
    if |steps| == 0 then [] else [steps[0], steps[0]] + Doubled(steps[1..])
  }

  /** A cost object shared by both callbacks receives each handler twice, one right after the other. */
  lemma {:induction false} RunBothShared(x: Counters, steps: seq<Step>)
    ensures RunBoth(Shared(x), steps) == (Shared(Run(x, Doubled(steps)).cost), Run(x, Doubled(steps)).raised)
    decreases |steps|
  {
    if |steps| > 0 {
      var d := Doubled(steps);
      assert d[0] == steps[0] && d[1..][0] == steps[0] && d[1..][1..] == Doubled(steps[1..]);
      var o := Apply(x, steps[0]);
      if !o.raised {
        var p := Apply(o.cost, steps[0]);
        if !p.raised {
          RunBothShared(p.cost, steps[1..]);
        }
      }
    }
  }

  /** With a shared cost object, `handle_wrapped_call` applies every handler of its sequence twice. */
  lemma WrappedCallUpdatesSharedTwice(x: Counters, funcName: string, response: Json)
    ensures var steps := Doubled(WrappedCallSteps(funcName, response));
      HandleWrappedCallSpec(Shared(x), funcName, response) ==
        (Shared(Run(x, steps).cost), Run(x, steps).raised || (funcName == InvokeModelWithResponseStream && !response.Dict?))
  {
    HandleWrappedCallDispatch(Shared(x), funcName, response);
    RunBothShared(x, WrappedCallSteps(funcName, response));
  }

  // ---------------------------------------------------------------------
  // The objects

  /** The `cost` object of a callback (only the four counters the Bedrock handlers touch). */
  class Cost {
    var nTokens: nat
    var nPromptTokens: nat
    var nCompletionTokens: nat
    var nSuccessfulRequests: nat

    function Value(): Counters
      reads this
    {
      Counters(nTokens, nPromptTokens, nCompletionTokens, nSuccessfulRequests)
    }

    constructor ()
      ensures Value() == Counters(0, 0, 0, 0)
    {
      nTokens, nPromptTokens, nCompletionTokens, nSuccessfulRequests := 0, 0, 0, 0;
    }

    /** The two `+= int(...)` blocks for the output and then the input count. */
    method AddTokenCounts(output: Json, input: Json) returns (raised: bool)
      modifies this
      ensures Outcome(Value(), raised) == AddTokens(old(Value()), output, input)
    {
      if !output.Null? {
        if !output.Nat? { return true; }
        nCompletionTokens := nCompletionTokens + output.n;
        nTokens := nTokens + output.n;
      }
      if !input.Null? {
        if !input.Nat? { return true; }
        nPromptTokens := nPromptTokens + input.n;
        nTokens := nTokens + input.n;
      }
      return false;
    }

    /** The body shared by `on_endpoint_generation` and `handle_generation`. */
    method CountGeneration(response: Json) returns (raised: bool)
      modifies this
      ensures Outcome(Value(), raised) == Generation(old(Value()), response)
    {
      var wasSuccess := false;
      if !response.Null? {
        if !response.Dict? { return true; }
        var metadata := Get(response.m, "ResponseMetadata");
        if !metadata.Null? {
          if !metadata.Dict? { return true; }
          var status := Get(metadata.m, "HTTPStatusCode");
          if status == Nat(200) {
            wasSuccess := true;
            var headers := Get(metadata.m, "HTTPHeaders");
            if !headers.Null? {
              if !headers.Dict? { return true; }
              raised := AddTokenCounts(Get(headers.m, OutputTokenHeader), Get(headers.m, InputTokenHeader));
              if raised { return; }
            }
          }
        }
      }
      if wasSuccess {
        nSuccessfulRequests := nSuccessfulRequests + 1;
      }
      return false;
    }

    /** The body shared by `on_endpoint_generation_chunk` and `handle_generation_chunk`. */
    method CountGenerationChunk(response: Json) returns (raised: bool)
      modifies this
      ensures Outcome(Value(), raised) == Chunk(old(Value()), response)
    {
      if !response.Dict? { return true; }
      var chunk := Get(response.m, "chunk");
      if chunk.Null? { return false; }
      if !chunk.Dict? { return true; }
      var data := Get(chunk.m, "bytes");
      if data.Null? { return false; }
      if !data.Dict? { return true; }
      var metrics := Get(data.m, MetricsKey);
      if metrics.Null? { return false; }
      if !metrics.Dict? { return true; }
      raised := AddTokenCounts(Get(metrics.m, "outputTokenCount"), Get(metrics.m, "inputTokenCount"));
    }

    /** Run a handler for each chunk in order, stopping at a raise. */
    method CountChunks(chunks: seq<Json>) returns (raised: bool)
      modifies this
      ensures Outcome(Value(), raised) == Run(old(Value()), ChunkSteps(chunks))
    {
      ghost var start := Value();
      var i := 0;
      while i < |chunks|
        invariant 0 <= i <= |chunks|
        invariant Run(start, ChunkSteps(chunks)) == Run(Value(), ChunkSteps(chunks[i..]))
      {
        assert ChunkSteps(chunks[i..])[0] == ChunkStep(chunks[i]);
        assert ChunkSteps(chunks[i..])[1..] == ChunkSteps(chunks[i + 1..]);
        raised := CountGenerationChunk(chunks[i]);
        if raised { return; }
        i := i + 1;
      }
      return false;
    }
  }

  /** `WrapperBedrockCallback`: a callback for one call of the wrapped function `funcName`. */
  class WrapperBedrockCallback {
    const funcName: string
    const cost: Cost

    constructor (funcName: string, cost: Cost)
      ensures this.funcName == funcName && this.cost == cost
    {
      this.funcName := funcName;
      this.cost := cost;
    }

    method OnEndpointGeneration(response: Json) returns (raised: bool)
      modifies cost
      ensures Outcome(cost.Value(), raised) == Generation(old(cost.Value()), response)
    {
      raised := cost.CountGeneration(response);
    }

    method OnEndpointGenerationChunk(response: Json) returns (raised: bool)
      modifies cost
      ensures Outcome(cost.Value(), raised) == Chunk(old(cost.Value()), response)
    {
      raised := cost.CountGenerationChunk(response);
    }

    /** `on_endpoint_response`: dispatch on the name of the wrapped function. */
    method OnEndpointResponse(response: Json) returns (raised: bool)
      modifies cost
      ensures Outcome(cost.Value(), raised) == OnEndpointResponseSpec(old(cost.Value()), funcName, response)
    {
      if funcName == InvokeModel {
        raised := OnEndpointGeneration(response);
      } else if funcName == InvokeModelWithResponseStream {
        raised := OnEndpointGeneration(response);
        if raised { return; }
        if !response.Dict? { return true; }
        var body := Get(response.m, "body");
        if !body.Null? && IsSequence(body) {
          raised := cost.CountChunks(Elements(body));
        }
      } else {
        raised := false;
      }
    }
  }

  /** `BedrockCallback`: the callback kept by the endpoint and passed per call. */
  class BedrockCallback {
    const cost: Cost

    constructor (cost: Cost)
      ensures this.cost == cost
    {
      this.cost := cost;
    }

    method HandleGeneration(response: Json) returns (raised: bool)
      modifies cost
      ensures Outcome(cost.Value(), raised) == Generation(old(cost.Value()), response)
    {
      raised := cost.CountGeneration(response);
    }

    method HandleGenerationChunk(response: Json) returns (raised: bool)
      modifies cost
      ensures Outcome(cost.Value(), raised) == Chunk(old(cost.Value()), response)
    {
      raised := cost.CountGenerationChunk(response);
    }
  }

  /** `BedrockEndpoint`, reduced to its global callback. */
  class BedrockEndpoint {
    const globalCallback: BedrockCallback

    constructor (globalCallback: BedrockCallback)
      ensures this.globalCallback == globalCallback
    {
      this.globalCallback := globalCallback;
    }

    /** The handler for one step, on the global callback and then on `callback`. */
    method HandleBoth(s: Step, callback: BedrockCallback?) returns (raised: bool)
      modifies globalCallback.cost, if callback == null then {} else {callback.cost}
      ensures (CurrentTargets(callback), raised) == ApplyBoth(old(CurrentTargets(callback)), s)
    {
      match s
      case GenerationStep(r) =>
        raised := globalCallback.HandleGeneration(r);
        if raised || callback == null { return; }
        raised := callback.HandleGeneration(r);
      case ChunkStep(r) =>
        raised := globalCallback.HandleGenerationChunk(r);
        if raised || callback == null { return; }
        raised := callback.HandleGenerationChunk(r);
    }

    /** The chunk handlers for each element of the body in order, on both callbacks, stopping at a raise. */
    method HandleChunks(chunks: seq<Json>, callback: BedrockCallback?) returns (raised: bool)
      modifies globalCallback.cost, if callback == null then {} else {callback.cost}
      ensures (CurrentTargets(callback), raised) == RunBoth(old(CurrentTargets(callback)), ChunkSteps(chunks))
    {
      ghost var t0 := CurrentTargets(callback);
      var i := 0;
      while i < |chunks|
        invariant 0 <= i <= |chunks|
        invariant RunBoth(t0, ChunkSteps(chunks)) == RunBoth(CurrentTargets(callback), ChunkSteps(chunks[i..]))
      {
        assert ChunkSteps(chunks[i..])[0] == ChunkStep(chunks[i]);
        assert ChunkSteps(chunks[i..])[1..] == ChunkSteps(chunks[i + 1..]);
        raised := HandleBoth(ChunkStep(chunks[i]), callback);
        if raised { return; }
        i := i + 1;
      }
      return false;
    }

    /** `handle_wrapped_call` for a call of the function named `funcName`. */
    method HandleWrappedCall(funcName: string, response: Json, callback: BedrockCallback?) returns (raised: bool)
      modifies globalCallback.cost, if callback == null then {} else {callback.cost}
      ensures callback == null ==>
        (One(globalCallback.cost.Value()), raised) ==
          HandleWrappedCallSpec(One(old(globalCallback.cost.Value())), funcName, response)
      ensures callback != null && callback.cost != globalCallback.cost ==>
        (Two(globalCallback.cost.Value(), callback.cost.Value()), raised) ==
          HandleWrappedCallSpec(Two(old(globalCallback.cost.Value()), old(callback.cost.Value())), funcName, response)
      ensures callback != null && callback.cost == globalCallback.cost ==>
        (Shared(globalCallback.cost.Value()), raised) ==
          HandleWrappedCallSpec(Shared(old(globalCallback.cost.Value())), funcName, response)
    {
      ghost var t0 := CurrentTargets(callback);
      if funcName == InvokeModel {
        raised := HandleBoth(GenerationStep(response), callback);
      } else if funcName == InvokeModelWithResponseStream {
        raised := HandleBoth(GenerationStep(response), callback);
        if !raised {
          if !response.Dict? {
            raised := true;
          } else {
            var body := Get(response.m, "body");
            if !body.Null? && IsIterable(body) {
              raised := HandleChunks(Elements(body), callback);
            }
          }
        }
      } else {
        raised := false;
      }
      assert (CurrentTargets(callback), raised) == HandleWrappedCallSpec(t0, funcName, response);
    }

    /** The counters of the targeted cost objects, as a `Targets` value. */
    ghost function CurrentTargets(callback: BedrockCallback?): Targets
      reads globalCallback, globalCallback.cost, callback, if callback == null then {} else {callback.cost}
    {
      if callback == null then One(globalCallback.cost.Value())
      else if callback.cost == globalCallback.cost then Shared(globalCallback.cost.Value())
      else Two(globalCallback.cost.Value(), callback.cost.Value())
    }
  }
}
