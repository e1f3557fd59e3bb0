/**
 * Benchmark score collection
 * (src/benchmark/trulens/benchmark/benchmark_frameworks/tru_benchmark_experiment.py):
 * one task per expected chunk (or per expected response) of each
 * ground-truth row, each task's feedback output normalised, results
 * gathered per row and emitted in row order as scores and meta-scores.
 *
 * Tasks run one after another in submission order. Python values are the
 * `PyVal` universe below; the feedback function is a parameter that either
 * returns a value or raises. Scores are opaque payloads.
 */
module Benchmark {
  import opened Wrappers

  /** The Python values that reach this code. A dictionary keeps its insertion order. */
  datatype PyVal =
    | PyNone
    | PyFloat(f: real)
    | PyInt(i: int)
    | PyStr(s: string)
    | PyTuple(elems: seq<PyVal>)
    | PyList(elems: seq<PyVal>)
    | PyDict(entries: seq<(string, PyVal)>)

  datatype PyError = ValueError | IndexError | TypeError | KeyError | FeedbackRaised

  /** What the feedback function does with its arguments. */
  datatype FnResult = Returned(value: PyVal) | Raised

  /** `BenchmarkParams` */
  datatype BenchmarkParams = BenchmarkParams(temperature: real, criteria: Option<string>, outputSpace: Option<string>)

  function OptionalStr(o: Option<string>): PyVal
  {
    match o
    case None => PyNone
    case Some(s) => PyStr(s)
  }

  /** `benchmark_params.model_dump()` */
  function ParamsDict(p: BenchmarkParams): PyVal
  {
    PyDict([("temperature", PyFloat(p.temperature)), ("criteria", OptionalStr(p.criteria)),
            ("output_space", OptionalStr(p.outputSpace))])
  }

  /** `iter(v)`: lists and tuples yield their elements, strings their characters, dictionaries their keys. */
  function Iterate(v: PyVal): Result<seq<PyVal>, PyError>
  {
    match v
    case PyList(e) => Success(e)
    case PyTuple(e) => Success(e)
    case PyStr(s) => Success(seq(|s|, i requires 0 <= i < |s| => PyStr([s[i]])))
    case PyDict(entries) => Success(seq(|entries|, i requires 0 <= i < |entries| => PyStr(entries[i].0)))
    case _ => Failure(TypeError)
  }

  /** The value stored under `key` in a dictionary's entries. */
  function Lookup(entries: seq<(string, PyVal)>, key: string): (r: Option<PyVal>)
    ensures r.None? <==> forall k :: 0 <= k < |entries| ==> entries[k].0 != key
    ensures r.Some? ==> exists k :: 0 <= k < |entries| && entries[k] == (key, r.value)
  {
    if |entries| == 0 then None
    else if entries[0].0 == key then Some(entries[0].1)
    else
      var r := Lookup(entries[1..], key);
      assert r.Some? ==> entries[1..][0] == entries[1];
      r
  }

  /** `v[key]` with a string key: only a dictionary can be indexed by a string. */
  function Subscript(v: PyVal, key: string): Result<PyVal, PyError>
  {
    if !v.PyDict? then Failure(TypeError)
    else match Lookup(v.entries, key)
      case None => Failure(KeyError)
      case Some(x) => Success(x)
  }

  /** `score, metadata = v` */
  function Unpack2(v: PyVal): Result<(PyVal, PyVal), PyError>
  {
    match Iterate(v)
    case Failure(e) => Failure(e)
    case Success(xs) => if |xs| == 2 then Success((xs[0], xs[1])) else Failure(ValueError)
  }

  // ---------------------------------------------------------------------
  // One task

  /** The check and the rewrite of a feedback output (lines 150-160). */
  function Normalise(ret: PyVal): Result<PyVal, PyError>
  {
    if !ret.PyTuple? && !ret.PyFloat? then Failure(ValueError)
    else if ret.PyFloat? then Success(ret)
    else if |ret.elems| < 2 then Failure(IndexError)
    else if !ret.elems[1].PyDict? then Success(ret)
    else if |ret.elems[1].entries| == 0 then Failure(IndexError)
    else
      var entries := ret.elems[1].entries;
      Success(PyTuple([ret.elems[0], entries[|entries| - 1].1]))
  }

  lemma NormaliseOutcomes(ret: PyVal)
    ensures Normalise(ret) == Failure(ValueError) <==> !ret.PyFloat? && !ret.PyTuple?
    ensures ret.PyFloat? ==> Normalise(ret) == Success(ret)
    ensures ret.PyTuple? && |ret.elems| >= 2 && !ret.elems[1].PyDict? ==> Normalise(ret) == Success(ret)
    ensures ret.PyTuple? && |ret.elems| >= 2 && ret.elems[1].PyDict? && |ret.elems[1].entries| > 0 ==>
      Normalise(ret) == Success(PyTuple([ret.elems[0], ret.elems[1].entries[|ret.elems[1].entries| - 1].1]))
    ensures ret.PyTuple? && (|ret.elems| < 2 || (ret.elems[1].PyDict? && |ret.elems[1].entries| == 0)) ==>
      Normalise(ret) == Failure(IndexError)
    ensures Normalise(ret).Success? ==> Normalise(ret).value.PyFloat? || Normalise(ret).value.PyTuple?
    ensures Normalise(ret).Success? && Normalise(ret).value.PyTuple? ==> |Normalise(ret).value.elems| >= 2
  {
  }

  /** A `(score, {"...": meta})` output is normalised to `(score, meta)`, and a float passes through. */
  lemma NormaliseExamples()
    ensures Normalise(PyTuple([PyFloat(0.5), PyDict([("confidence_score", PyFloat(0.8))])])) ==
      Success(PyTuple([PyFloat(0.5), PyFloat(0.8)]))
    ensures Normalise(PyFloat(0.7)) == Success(PyFloat(0.7))
    ensures Normalise(PyInt(1)) == Failure(ValueError)
  {
  }

  /** `run_score_generation_on_single_row` on the already-extended argument list. */
  function SingleRow(fn: seq<PyVal> -> FnResult, extendedArgs: seq<PyVal>): Result<PyVal, PyError>
  {
    match fn(extendedArgs)
    case Raised => Failure(FeedbackRaised)
    case Returned(v) => Normalise(v)
  }

  // ---------------------------------------------------------------------
  // Submission

  /** A pandas row, by column name. */
  type Row = map<string, PyVal>

  /** A submitted task: the row it belongs to and the arguments of the feedback function. */
  datatype Task = Task(index: nat, args: seq<PyVal>)

  /** The tasks for the chunks of row `index`: `[row["query"], chunk["text"]]` for each chunk. */
  function ChunkTasks(index: nat, row: Row, chunks: seq<PyVal>): (r: Result<seq<Task>, PyError>)
    ensures r.Success? ==> |r.value| == |chunks|
    ensures r.Success? ==> forall k :: 0 <= k < |chunks| ==>
      "query" in row && Subscript(chunks[k], "text").Success? &&
      r.value[k] == Task(index, [row["query"], Subscript(chunks[k], "text").value])
    ensures r.Failure? <==> |chunks| > 0 && ("query" !in row || exists k :: 0 <= k < |chunks| && Subscript(chunks[k], "text").Failure?)
    decreases |chunks|
  {
    if |chunks| == 0 then Success([])
    else if "query" !in row then Failure(KeyError)
    else
      match Subscript(chunks[0], "text")
      case Failure(e) => Failure(e)
      case Success(text) =>
        var rest := ChunkTasks(index, row, chunks[1..]);
        assert forall k :: 1 <= k < |chunks| ==> chunks[1..][k - 1] == chunks[k];
        if rest.Failure? then
          var k :| 0 <= k < |chunks[1..]| && Subscript(chunks[1..][k], "text").Failure?;
          assert Subscript(chunks[k + 1], "text").Failure?;
          rest
        else
          Success([Task(index, [row["query"], text])] + rest.value)
  }

  /** The tasks one row submits (lines 188-202). */
  function RowTasks(index: nat, row: Row): Result<seq<Task>, PyError>
  {
    if "expected_chunks" in row then
      match Iterate(row["expected_chunks"])
      case Failure(e) => Failure(e)
      case Success(chunks) => ChunkTasks(index, row, chunks)
    else if "expected_response" in row then
      if "query" !in row then Failure(KeyError)
      else Success([Task(index, [row["query"], row["expected_response"]])])
    else Success([])
  }

  /** `expected_chunks` wins over `expected_response`; a row with neither submits nothing. */
  lemma RowTasksCases(index: nat, row: Row)
    ensures "expected_chunks" in row && Iterate(row["expected_chunks"]).Success? ==>
      RowTasks(index, row) == ChunkTasks(index, row, Iterate(row["expected_chunks"]).value)
    ensures "expected_chunks" !in row && "expected_response" in row && "query" in row ==>
      RowTasks(index, row) == Success([Task(index, [row["query"], row["expected_response"]])])
    ensures "expected_chunks" !in row && "expected_response" !in row ==> RowTasks(index, row) == Success([])
    ensures RowTasks(index, row).Success? ==> forall k :: 0 <= k < |RowTasks(index, row).value| ==>
      RowTasks(index, row).value[k].index == index
  {
  }

  /** The submission loop from row `index` on, after `acc` was submitted. */
  function SubmitFrom(rows: seq<Row>, index: nat, acc: seq<Task>): Result<seq<Task>, PyError>
    requires index <= |rows|
    decreases |rows| - index
  {
    if index == |rows| then Success(acc)
    else
      match RowTasks(index, rows[index])
      case Failure(e) => Failure(e)
      case Success(ts) => SubmitFrom(rows, index + 1, acc + ts)
  }

  predicate TasksInRowOrder(ts: seq<Task>, bound: nat)
  {
    && (forall k :: 0 <= k < |ts| ==> ts[k].index < bound)
    && (forall k, l :: 0 <= k < l < |ts| ==> ts[k].index <= ts[l].index)
  }

  /** Tasks are submitted row by row: their row indices never decrease and stay below the number of rows. */
  lemma {:induction false} SubmitInRowOrder(rows: seq<Row>, index: nat, acc: seq<Task>)
    requires index <= |rows|
    requires TasksInRowOrder(acc, index)
    requires SubmitFrom(rows, index, acc).Success?
    ensures acc <= SubmitFrom(rows, index, acc).value
    ensures TasksInRowOrder(SubmitFrom(rows, index, acc).value, |rows|)
    decreases |rows| - index
  {
    if index < |rows| {
      RowTasksCases(index, rows[index]);
      var ts := RowTasks(index, rows[index]).value;
      var next := acc + ts;
      assert forall k :: |acc| <= k < |next| ==> next[k] == ts[k - |acc|];
      SubmitInRowOrder(rows, index + 1, next);
    }
  }

  // ---------------------------------------------------------------------
  // Gathering the results per row

  /** How a task's result is added to its row's list: `extend` (as written) or `append`. */
  datatype Accumulate = Extend | Append

  /**
   * What one task adds to its row's list. `extend` splices a normalised
   * tuple's elements; on a float it raises `TypeError`, which the handler
   * catches after `setdefault` has created the row's list.
   */
  function Contribution(mode: Accumulate, v: PyVal): seq<PyVal>
  {
    match mode
    case Extend => if v.PyTuple? then v.elems else []
    case Append => [v]
  }

  /** `index_to_results` after processing `tasks`, in order, starting from `acc`. */
  function GatherFrom(fn: seq<PyVal> -> FnResult, params: BenchmarkParams, mode: Accumulate,
                      tasks: seq<Task>, acc: map<nat, seq<PyVal>>): map<nat, seq<PyVal>>
    decreases |tasks|
  {
    if |tasks| == 0 then acc
    else
      var t := tasks[0];
      match SingleRow(fn, t.args + [ParamsDict(params)])
      case Failure(_) => GatherFrom(fn, params, mode, tasks[1..], acc)
      case Success(v) =>
        var prior := if t.index in acc then acc[t.index] else [];
        GatherFrom(fn, params, mode, tasks[1..], acc[t.index := prior + Contribution(mode, v)])
  }

  predicate Succeeds(fn: seq<PyVal> -> FnResult, params: BenchmarkParams, t: Task)
  {
    SingleRow(fn, t.args + [ParamsDict(params)]).Success?
  }

  /** What task `t` adds to the list of row `index`. */
  function Here(fn: seq<PyVal> -> FnResult, params: BenchmarkParams, mode: Accumulate, t: Task, index: nat): seq<PyVal>
  {
    if t.index == index && Succeeds(fn, params, t)
    then Contribution(mode, SingleRow(fn, t.args + [ParamsDict(params)]).value) else []
  }

  /** Reference: the contributions of the successful tasks of row `index`, in task order. */
  function RowResults(fn: seq<PyVal> -> FnResult, params: BenchmarkParams, mode: Accumulate,
                      tasks: seq<Task>, index: nat): seq<PyVal>
    decreases |tasks|
  {
    if |tasks| == 0 then []
    else Here(fn, params, mode, tasks[0], index) + RowResults(fn, params, mode, tasks[1..], index)
  }

  /** Some task of row `index` succeeds. */
  predicate RowSucceeds(fn: seq<PyVal> -> FnResult, params: BenchmarkParams, tasks: seq<Task>, index: nat)
    decreases |tasks|
  {
    |tasks| > 0 && ((tasks[0].index == index && Succeeds(fn, params, tasks[0])) || RowSucceeds(fn, params, tasks[1..], index))
  }

  lemma {:induction false} RowSucceedsIsSome(fn: seq<PyVal> -> FnResult, params: BenchmarkParams, tasks: seq<Task>, index: nat)
    ensures RowSucceeds(fn, params, tasks, index) <==>
      exists k :: 0 <= k < |tasks| && tasks[k].index == index && Succeeds(fn, params, tasks[k])
    decreases |tasks|
  {
    if |tasks| > 0 {
      RowSucceedsIsSome(fn, params, tasks[1..], index);
      assert forall k :: 1 <= k < |tasks| ==> tasks[1..][k - 1] == tasks[k];
      if RowSucceeds(fn, params, tasks[1..], index) {
        var k :| 0 <= k < |tasks[1..]| && tasks[1..][k].index == index && Succeeds(fn, params, tasks[1..][k]);
        assert tasks[k + 1].index == index && Succeeds(fn, params, tasks[k + 1]);
      }
    }
  }

  /** The map after one more task. */
  function GatherStep(fn: seq<PyVal> -> FnResult, params: BenchmarkParams, mode: Accumulate,
                      t: Task, acc: map<nat, seq<PyVal>>): map<nat, seq<PyVal>>
  {
    match SingleRow(fn, t.args + [ParamsDict(params)])
    case Failure(_) => acc
    case Success(v) => acc[t.index := (if t.index in acc then acc[t.index] else []) + Contribution(mode, v)]
  }

  lemma GatherFromStep(fn: seq<PyVal> -> FnResult, params: BenchmarkParams, mode: Accumulate,
                       tasks: seq<Task>, acc: map<nat, seq<PyVal>>)
    requires |tasks| > 0
    ensures GatherFrom(fn, params, mode, tasks, acc) == GatherFrom(fn, params, mode, tasks[1..], GatherStep(fn, params, mode, tasks[0], acc))
  {
  }

  /** One task adds its row's key when it succeeds, and appends its contribution to that row only. */
  lemma GatherStepAt(fn: seq<PyVal> -> FnResult, params: BenchmarkParams, mode: Accumulate,
                     t: Task, acc: map<nat, seq<PyVal>>, index: nat)
    ensures var next := GatherStep(fn, params, mode, t, acc);
      && (index in next <==> index in acc || (t.index == index && Succeeds(fn, params, t)))
      && (index in next ==> next[index] == (if index in acc then acc[index] else []) + Here(fn, params, mode, t, index))
  {
    var next := GatherStep(fn, params, mode, t, acc);
    if !Succeeds(fn, params, t) || t.index != index {
      if index in acc {
        assert acc[index] + [] == acc[index];
      }
    }
  }

  lemma {:induction false} GatherKeys(fn: seq<PyVal> -> FnResult, params: BenchmarkParams, mode: Accumulate,
                                      tasks: seq<Task>, acc: map<nat, seq<PyVal>>, index: nat)
    ensures index in GatherFrom(fn, params, mode, tasks, acc) <==> index in acc || RowSucceeds(fn, params, tasks, index)
    decreases |tasks|
  {
    if |tasks| > 0 {
      GatherFromStep(fn, params, mode, tasks, acc);
      GatherStepAt(fn, params, mode, tasks[0], acc, index);
      GatherKeys(fn, params, mode, tasks[1..], GatherStep(fn, params, mode, tasks[0], acc), index);
    }
  }

  lemma {:induction false} GatherValues(fn: seq<PyVal> -> FnResult, params: BenchmarkParams, mode: Accumulate,
                                        tasks: seq<Task>, acc: map<nat, seq<PyVal>>, index: nat)
    requires index in GatherFrom(fn, params, mode, tasks, acc)
    ensures GatherFrom(fn, params, mode, tasks, acc)[index] ==
      (if index in acc then acc[index] else []) + RowResults(fn, params, mode, tasks, index)
    decreases |tasks|
  {
    if |tasks| == 0 {
      assert acc[index] + [] == acc[index];
    } else {
      var next := GatherStep(fn, params, mode, tasks[0], acc);
      GatherFromStep(fn, params, mode, tasks, acc);
      GatherValues(fn, params, mode, tasks[1..], next, index);
      GatherStepAt(fn, params, mode, tasks[0], acc, index);
      Regroup(GatherFrom(fn, params, mode, tasks, acc)[index], index in next, if index in next then next[index] else [],
              if index in acc then acc[index] else [], Here(fn, params, mode, tasks[0], index),
              RowResults(fn, params, mode, tasks[1..], index));
    }
  }

  /** The list after a task, regrouped as the list before it followed by that task's and the later tasks' parts. */
  lemma Regroup<T>(v: seq<T>, present: bool, next: seq<T>, prior: seq<T>, here: seq<T>, later: seq<T>)
    requires v == next + later
    requires present ==> next == prior + here
    requires !present ==> next == [] && prior == [] && here == []
    ensures v == prior + (here + later)
  {
    assert (prior + here) + later == prior + (here + later);
    if !present {
      assert [] + later == later;
    }
  }

  /**
   * A row has a list iff one of its tasks succeeded, and the list holds the
   * contributions of exactly its successful tasks in order: a failing task
   * is dropped and nothing else is lost.
   */
  lemma GatherIsPerRowResults(fn: seq<PyVal> -> FnResult, params: BenchmarkParams, mode: Accumulate,
                              tasks: seq<Task>, acc: map<nat, seq<PyVal>>, index: nat)
    ensures index in GatherFrom(fn, params, mode, tasks, acc) <==>
      index in acc || exists k :: 0 <= k < |tasks| && tasks[k].index == index && Succeeds(fn, params, tasks[k])
    ensures index in GatherFrom(fn, params, mode, tasks, acc) ==>
      GatherFrom(fn, params, mode, tasks, acc)[index] ==
        (if index in acc then acc[index] else []) + RowResults(fn, params, mode, tasks, index)
  {
    GatherKeys(fn, params, mode, tasks, acc, index);
    RowSucceedsIsSome(fn, params, tasks, index);
    if index in GatherFrom(fn, params, mode, tasks, acc) {
      GatherValues(fn, params, mode, tasks, acc, index);
    }
  }

  // ---------------------------------------------------------------------
  // Emitting the results in row order

  /** `for ret in ret_lst`: a float is a score; anything else is unpacked into a score and its metadata. */
  function SplitInto(rets: seq<PyVal>, scores: seq<PyVal>, meta: seq<PyVal>): Result<(seq<PyVal>, seq<PyVal>), PyError>
    decreases |rets|
  {
    if |rets| == 0 then Success((scores, meta))
    else if rets[0].PyFloat? then SplitInto(rets[1..], scores + [rets[0]], meta)
    else
      match Unpack2(rets[0])
      case Failure(e) => Failure(e)
      case Success(p) => SplitInto(rets[1..], scores + [p.0], meta + [p.1])
  }

  function CountNonFloats(rets: seq<PyVal>): nat
    decreases |rets|
  {
    if |rets| == 0 then 0 else (if rets[0].PyFloat? then 0 else 1) + CountNonFloats(rets[1..])
  }

  /** Each element yields one score, each non-float one meta-score; an all-float list is copied to the scores. */
  lemma {:induction false} SplitIntoCounts(rets: seq<PyVal>, scores: seq<PyVal>, meta: seq<PyVal>)
    requires SplitInto(rets, scores, meta).Success?
    ensures |SplitInto(rets, scores, meta).value.0| == |scores| + |rets|
    ensures |SplitInto(rets, scores, meta).value.1| == |meta| + CountNonFloats(rets)
    ensures scores <= SplitInto(rets, scores, meta).value.0 && meta <= SplitInto(rets, scores, meta).value.1
    ensures (forall k :: 0 <= k < |rets| ==> rets[k].PyFloat?) ==> SplitInto(rets, scores, meta).value == (scores + rets, meta)
    decreases |rets|
  {
    if |rets| > 0 {
      assert forall k :: 1 <= k < |rets| ==> rets[1..][k - 1] == rets[k];
      if rets[0].PyFloat? {
        SplitIntoCounts(rets[1..], scores + [rets[0]], meta);
        if forall k :: 0 <= k < |rets| ==> rets[k].PyFloat? {
          assert forall k :: 0 <= k < |rets[1..]| ==> rets[1..][k].PyFloat?;
          assert rets == [rets[0]] + rets[1..];
          assert scores + [rets[0]] + rets[1..] == scores + rets;
        }
      } else {
        var p := Unpack2(rets[0]).value;
        SplitIntoCounts(rets[1..], scores + [p.0], meta + [p.1]);
      }
    } else {
      assert scores + rets == scores;
    }
  }

  /** Splitting a concatenation is splitting the first part and continuing with the second. */
  lemma {:induction false} SplitIntoAppend(a: seq<PyVal>, b: seq<PyVal>, scores: seq<PyVal>, meta: seq<PyVal>)
    ensures SplitInto(a + b, scores, meta) ==
      match SplitInto(a, scores, meta)
      case Failure(e) => Failure(e)
      case Success(p) => SplitInto(b, p.0, p.1)
    decreases |a|
  {
    if |a| == 0 {
      assert a + b == b;
    } else {
      assert (a + b)[0] == a[0];
      assert (a + b)[1..] == a[1..] + b;
      if a[0].PyFloat? {
        SplitIntoAppend(a[1..], b, scores + [a[0]], meta);
      } else if Unpack2(a[0]).Success? {
        var p := Unpack2(a[0]).value;
        SplitIntoAppend(a[1..], b, scores + [p.0], meta + [p.1]);
      }
    }
  }

  /** The output loop over row indices `index .. n-1` (lines 215-225). */
  function AssembleFrom(results: map<nat, seq<PyVal>>, index: nat, n: nat, scores: seq<PyVal>, meta: seq<PyVal>)
    : Result<(seq<PyVal>, seq<PyVal>), PyError>
    decreases n - index
  {
    if index >= n then Success((scores, meta))
    else if index in results then
      match SplitInto(results[index], scores, meta)
      case Failure(e) => Failure(e)
      case Success(p) => AssembleFrom(results, index + 1, n, p.0, p.1)
    else AssembleFrom(results, index + 1, n, scores, meta)
  }

  /** Reference: the lists of rows `index .. n-1` in increasing row order; a row without a list adds nothing. */
  function InRowOrder(results: map<nat, seq<PyVal>>, index: nat, n: nat): seq<PyVal>
    decreases n - index
  {
    if index >= n then []
    else (if index in results then results[index] else []) + InRowOrder(results, index + 1, n)
  }

  /** The emitted scores and meta-scores are those of the row lists concatenated in row order. */
  lemma {:induction false} AssembleFollowsRowOrder(results: map<nat, seq<PyVal>>, index: nat, n: nat,
                                                   scores: seq<PyVal>, meta: seq<PyVal>)
    ensures AssembleFrom(results, index, n, scores, meta) == SplitInto(InRowOrder(results, index, n), scores, meta)
    decreases n - index
  {
    if index < n {
      var here := if index in results then results[index] else [];
      SplitIntoAppend(here, InRowOrder(results, index + 1, n), scores, meta);
      if index in results {
        if SplitInto(here, scores, meta).Success? {
          var p := SplitInto(here, scores, meta).value;
          AssembleFollowsRowOrder(results, index + 1, n, p.0, p.1);
        }
      } else {
        assert here + InRowOrder(results, index + 1, n) == InRowOrder(results, index + 1, n);
        AssembleFollowsRowOrder(results, index + 1, n, scores, meta);
      }
    }
  }

  /** The value `__call__` returns. */
  datatype Output = Scores(scores: seq<PyVal>) | ScoresWithMeta(scores: seq<PyVal>, metaScores: seq<PyVal>)

  /** Lines 227-230: the pair is returned iff there is metadata. */
  function Package(scores: seq<PyVal>, meta: seq<PyVal>): (r: Output)
    ensures r.ScoresWithMeta? <==> |meta| > 0
    ensures r.scores == scores && (r.ScoresWithMeta? ==> r.metaScores == meta)
  {
    if |meta| > 0 then ScoresWithMeta(scores, meta) else Scores(scores)
  }

  /** `TruBenchmarkExperiment.__call__`, with `mode` saying how a task's result joins its row's list. */
  function Collect(fn: seq<PyVal> -> FnResult, params: BenchmarkParams, mode: Accumulate, rows: seq<Row>)
    : Result<Output, PyError>
  {
    match SubmitFrom(rows, 0, [])
    case Failure(e) => Failure(e)
    case Success(tasks) =>
      match AssembleFrom(GatherFrom(fn, params, mode, tasks, map[]), 0, |rows|, [], [])
      case Failure(e) => Failure(e)
      case Success(p) => Success(Package(p.0, p.1))
  }

  /** With `append`, each row's list has exactly one element per successful task of that row. */
  lemma AppendKeepsEveryResult(fn: seq<PyVal> -> FnResult, params: BenchmarkParams, tasks: seq<Task>, index: nat)
    ensures index in GatherFrom(fn, params, Append, tasks, map[]) ==>
      |GatherFrom(fn, params, Append, tasks, map[])[index]| == CountSucceeded(fn, params, tasks, index)
  {
    GatherIsPerRowResults(fn, params, Append, tasks, map[], index);
    AppendRowResultsCount(fn, params, tasks, index);
  }

  function CountSucceeded(fn: seq<PyVal> -> FnResult, params: BenchmarkParams, tasks: seq<Task>, index: nat): nat
    decreases |tasks|
  {
    if |tasks| == 0 then 0
    else
      var here := if tasks[0].index == index && Succeeds(fn, params, tasks[0]) then 1 else 0;
      here + CountSucceeded(fn, params, tasks[1..], index)
  }

  lemma {:induction false} AppendRowResultsCount(fn: seq<PyVal> -> FnResult, params: BenchmarkParams, tasks: seq<Task>, index: nat)
    ensures |RowResults(fn, params, Append, tasks, index)| == CountSucceeded(fn, params, tasks, index)
    decreases |tasks|
  {
    if |tasks| > 0 {
      AppendRowResultsCount(fn, params, tasks[1..], index);
    }
  }

  /** The number of successful tasks whose row lies in `lo .. hi-1`. */
  function CountSucceededIn(fn: seq<PyVal> -> FnResult, params: BenchmarkParams, tasks: seq<Task>, lo: nat, hi: nat): nat
    decreases |tasks|
  {
    if |tasks| == 0 then 0
    else
      var here := if lo <= tasks[0].index < hi && Succeeds(fn, params, tasks[0]) then 1 else 0;
      here + CountSucceededIn(fn, params, tasks[1..], lo, hi)
  }

  /** The per-row counts of rows `index .. n-1`, added up. */
  function CountRows(fn: seq<PyVal> -> FnResult, params: BenchmarkParams, tasks: seq<Task>, index: nat, n: nat): nat
    decreases n - index
  {
    if index >= n then 0 else CountSucceeded(fn, params, tasks, index) + CountRows(fn, params, tasks, index + 1, n)
  }

  lemma {:induction false} CountSucceededInSplit(fn: seq<PyVal> -> FnResult, params: BenchmarkParams, tasks: seq<Task>, lo: nat, hi: nat)
    requires lo < hi
    ensures CountSucceededIn(fn, params, tasks, lo, hi) ==
      CountSucceeded(fn, params, tasks, lo) + CountSucceededIn(fn, params, tasks, lo + 1, hi)
    decreases |tasks|
  {
    if |tasks| > 0 {
      CountSucceededInSplit(fn, params, tasks[1..], lo, hi);
    }
  }

  lemma {:induction false} CountRowsIsCountIn(fn: seq<PyVal> -> FnResult, params: BenchmarkParams, tasks: seq<Task>, index: nat, n: nat)
    ensures CountRows(fn, params, tasks, index, n) == CountSucceededIn(fn, params, tasks, index, n)
    decreases n - index
  {
    if index < n {
      CountSucceededInSplit(fn, params, tasks, index, n);
      CountRowsIsCountIn(fn, params, tasks, index + 1, n);
    } else {
      CountInEmpty(fn, params, tasks, index, n);
    }
  }

  lemma {:induction false} CountInEmpty(fn: seq<PyVal> -> FnResult, params: BenchmarkParams, tasks: seq<Task>, lo: nat, hi: nat)
    requires hi <= lo
    ensures CountSucceededIn(fn, params, tasks, lo, hi) == 0
    decreases |tasks|
  {
    if |tasks| > 0 {
      CountInEmpty(fn, params, tasks[1..], lo, hi);
    }
  }

  /** A row without a list has no successful task. */
  lemma {:induction false} CountSucceededPositive(fn: seq<PyVal> -> FnResult, params: BenchmarkParams, tasks: seq<Task>, index: nat)
    ensures CountSucceeded(fn, params, tasks, index) > 0 <==> RowSucceeds(fn, params, tasks, index)
    decreases |tasks|
  {
    if |tasks| > 0 {
      CountSucceededPositive(fn, params, tasks[1..], index);
    }
  }

  /** The number of successful tasks. */
  function CountAllSucceeded(fn: seq<PyVal> -> FnResult, params: BenchmarkParams, tasks: seq<Task>): nat
    decreases |tasks|
  {
    if |tasks| == 0 then 0
    else (if Succeeds(fn, params, tasks[0]) then 1 else 0) + CountAllSucceeded(fn, params, tasks[1..])
  }

  lemma {:induction false} CountInAll(fn: seq<PyVal> -> FnResult, params: BenchmarkParams, tasks: seq<Task>, n: nat)
    requires forall k :: 0 <= k < |tasks| ==> tasks[k].index < n
    ensures CountSucceededIn(fn, params, tasks, 0, n) == CountAllSucceeded(fn, params, tasks)
    decreases |tasks|
  {
    if |tasks| > 0 {
      assert forall k :: 0 <= k < |tasks[1..]| ==> tasks[1..][k] == tasks[k + 1];
      CountInAll(fn, params, tasks[1..], n);
    }
  }

  /** With `append`, the row lists of rows `index .. n-1` together hold one element per successful task of those rows. */
  lemma {:induction false} AppendRowOrderLength(fn: seq<PyVal> -> FnResult, params: BenchmarkParams, tasks: seq<Task>, index: nat, n: nat)
    ensures |InRowOrder(GatherFrom(fn, params, Append, tasks, map[]), index, n)| == CountRows(fn, params, tasks, index, n)
    decreases n - index
  {
    if index < n {
      var results := GatherFrom(fn, params, Append, tasks, map[]);
      AppendRowOrderLength(fn, params, tasks, index + 1, n);
      GatherKeys(fn, params, Append, tasks, map[], index);
      if index in results {
        AppendKeepsEveryResult(fn, params, tasks, index);
      } else {
        CountSucceededPositive(fn, params, tasks, index);
      }
    }
  }

  /**
   * With `append`, `__call__` returns one score per successful task over
   * all rows: no result is lost and none is split.
   */
  lemma AppendScoresEverySuccess(fn: seq<PyVal> -> FnResult, params: BenchmarkParams, rows: seq<Row>)
    requires Collect(fn, params, Append, rows).Success?
    ensures SubmitFrom(rows, 0, []).Success?
    ensures |Collect(fn, params, Append, rows).value.scores| == CountAllSucceeded(fn, params, SubmitFrom(rows, 0, []).value)
  {
    var tasks := SubmitFrom(rows, 0, []).value;
    var results := GatherFrom(fn, params, Append, tasks, map[]);
    SubmitInRowOrder(rows, 0, []);
    AssembleFollowsRowOrder(results, 0, |rows|, [], []);
    SplitIntoCounts(InRowOrder(results, 0, |rows|), [], []);
    AppendRowOrderLength(fn, params, tasks, 0, |rows|);
    CountRowsIsCountIn(fn, params, tasks, 0, |rows|);
    CountInAll(fn, params, tasks, |rows|);
  }

  // ---------------------------------------------------------------------
  // Line 209: `extend` where `append` is meant

  /** A feedback function that always returns `v`. */
  function Constant(v: PyVal): seq<PyVal> -> FnResult
  {
    args => Returned(v)
  }

  const OneResponseRow: Row := map["query" := PyStr("q"), "expected_response" := PyStr("a")]
  const DefaultParams: BenchmarkParams := BenchmarkParams(0.0, None, None)

  const OneResponseTask := Task(0, [PyStr("q"), PyStr("a")])

  /** The one-row benchmark submits one task, and its output is the assembly of that task's gathered list. */
  lemma CollectOneResponseRow(fn: seq<PyVal> -> FnResult, mode: Accumulate)
    ensures SubmitFrom([OneResponseRow], 0, []) == Success([OneResponseTask])
    ensures Collect(fn, DefaultParams, mode, [OneResponseRow]) ==
      match AssembleFrom(GatherFrom(fn, DefaultParams, mode, [OneResponseTask], map[]), 0, 1, [], [])
      case Failure(e) => Failure(e)
      case Success(p) => Success(Package(p.0, p.1))
  {
    var task := OneResponseTask;
    assert RowTasks(0, OneResponseRow) == Success([task]);
    assert SubmitFrom([OneResponseRow], 1, [task]) == Success([task]);
    assert [] + [task] == [task];
  }

  /** Gathering the single task whose feedback function returns `v`. */
  lemma GatherOneTask(v: PyVal, r: PyVal, mode: Accumulate)
    requires SingleRow(Constant(v), OneResponseTask.args + [ParamsDict(DefaultParams)]) == Success(r)
    ensures GatherFrom(Constant(v), DefaultParams, mode, [OneResponseTask], map[]) == map[0 := Contribution(mode, r)]
  {
    assert [OneResponseTask][1..] == [];
    assert [] + Contribution(mode, r) == Contribution(mode, r);
  }

  const ScoreWithMeta := PyTuple([PyFloat(0.5), PyDict([("confidence", PyFloat(0.8))])])
  const NormalScoreWithMeta := PyTuple([PyFloat(0.5), PyFloat(0.8)])

  lemma ScoreWithMetaRow()
    ensures SingleRow(Constant(ScoreWithMeta), OneResponseTask.args + [ParamsDict(DefaultParams)]) == Success(NormalScoreWithMeta)
  {
    assert Normalise(ScoreWithMeta) == Success(NormalScoreWithMeta);
  }

  /** As written, a float result is lost. */
  lemma ExtendLosesFloat()
    ensures Collect(Constant(PyFloat(0.7)), DefaultParams, Extend, [OneResponseRow]) == Success(Scores([]))
  {
    CollectOneResponseRow(Constant(PyFloat(0.7)), Extend);
    assert SingleRow(Constant(PyFloat(0.7)), OneResponseTask.args + [ParamsDict(DefaultParams)]) == Success(PyFloat(0.7));
    GatherOneTask(PyFloat(0.7), PyFloat(0.7), Extend);
    assert AssembleFrom(map[0 := []], 0, 1, [], []) == Success(([], []));
  }

  /** As written, a `(score, {"meta": m})` result becomes two scores. */
  lemma ExtendSplicesTuple()
    ensures Collect(Constant(ScoreWithMeta), DefaultParams, Extend, [OneResponseRow]) ==
      Success(Scores([PyFloat(0.5), PyFloat(0.8)]))
  {
    CollectOneResponseRow(Constant(ScoreWithMeta), Extend);
    ScoreWithMetaRow();
    GatherOneTask(ScoreWithMeta, NormalScoreWithMeta, Extend);
    var spliced := [PyFloat(0.5), PyFloat(0.8)];
    assert Contribution(Extend, NormalScoreWithMeta) == spliced;
    assert spliced[1..] == [PyFloat(0.8)];
    assert [PyFloat(0.8)][1..] == [];
    assert [PyFloat(0.5)] + [PyFloat(0.8)] == spliced;
    assert [] + [PyFloat(0.5)] == [PyFloat(0.5)];
    assert SplitInto([PyFloat(0.8)], [PyFloat(0.5)], []) == Success((spliced, []));
    assert SplitInto(spliced, [], []) == Success((spliced, []));
    assert AssembleFrom(map[0 := spliced], 0, 1, [], []) == Success((spliced, []));
  }

  /** As written, a float result is lost and a `(score, {"meta": m})` result becomes two scores. */
  lemma ExtendLosesResults()
    ensures Collect(Constant(PyFloat(0.7)), DefaultParams, Extend, [OneResponseRow]) == Success(Scores([]))
    ensures Collect(Constant(PyTuple([PyFloat(0.5), PyDict([("confidence", PyFloat(0.8))])])),
                    DefaultParams, Extend, [OneResponseRow]) ==
      Success(Scores([PyFloat(0.5), PyFloat(0.8)]))
  {
    ExtendLosesFloat();
    ExtendSplicesTuple();
  }

  /** With `append`, the float is one score. */
  lemma AppendKeepsFloat()
    ensures Collect(Constant(PyFloat(0.7)), DefaultParams, Append, [OneResponseRow]) == Success(Scores([PyFloat(0.7)]))
  {
    CollectOneResponseRow(Constant(PyFloat(0.7)), Append);
    assert SingleRow(Constant(PyFloat(0.7)), OneResponseTask.args + [ParamsDict(DefaultParams)]) == Success(PyFloat(0.7));
    GatherOneTask(PyFloat(0.7), PyFloat(0.7), Append);
    assert [PyFloat(0.7)][1..] == [];
    assert [] + [PyFloat(0.7)] == [PyFloat(0.7)];
    assert SplitInto([PyFloat(0.7)], [], []) == Success(([PyFloat(0.7)], []));
    assert AssembleFrom(map[0 := [PyFloat(0.7)]], 0, 1, [], []) == Success(([PyFloat(0.7)], []));
  }

  /** With `append`, the tuple is one score with its metadata. */
  lemma AppendKeepsTuple()
    ensures Collect(Constant(ScoreWithMeta), DefaultParams, Append, [OneResponseRow]) ==
      Success(ScoresWithMeta([PyFloat(0.5)], [PyFloat(0.8)]))
  {
    var normal := NormalScoreWithMeta;
    CollectOneResponseRow(Constant(ScoreWithMeta), Append);
    ScoreWithMetaRow();
    GatherOneTask(ScoreWithMeta, normal, Append);
    assert Unpack2(normal) == Success((PyFloat(0.5), PyFloat(0.8)));
    assert [normal][1..] == [];
    assert [] + [PyFloat(0.5)] == [PyFloat(0.5)];
    assert [] + [PyFloat(0.8)] == [PyFloat(0.8)];
    assert SplitInto([normal], [], []) == Success(([PyFloat(0.5)], [PyFloat(0.8)]));
    assert AssembleFrom(map[0 := [normal]], 0, 1, [], []) == Success(([PyFloat(0.5)], [PyFloat(0.8)]));
  }

  /** With `append`, the float is one score and the tuple one score with its metadata. */
  lemma AppendKeepsResults()
    ensures Collect(Constant(PyFloat(0.7)), DefaultParams, Append, [OneResponseRow]) == Success(Scores([PyFloat(0.7)]))
    ensures Collect(Constant(PyTuple([PyFloat(0.5), PyDict([("confidence", PyFloat(0.8))])])),
                    DefaultParams, Append, [OneResponseRow]) ==
      Success(ScoresWithMeta([PyFloat(0.5)], [PyFloat(0.8)]))
  {
    AppendKeepsFloat();
    AppendKeepsTuple();
  }

  // ---------------------------------------------------------------------
  // The objects

  /** The Python list passed as `feedback_args`. */
  class ArgList {
    var items: seq<PyVal>

    constructor (items: seq<PyVal>)
      ensures this.items == items
    {
      this.items := items;
    }

    method Append(v: PyVal)
      modifies this
      ensures items == old(items) + [v]
    {
      items := items + [v];
    }
  }

  class TruBenchmarkExperiment {
    const feedbackFn: seq<PyVal> -> FnResult
    const benchmarkParams: BenchmarkParams

    constructor (feedbackFn: seq<PyVal> -> FnResult, benchmarkParams: BenchmarkParams)
      ensures this.feedbackFn == feedbackFn && this.benchmarkParams == benchmarkParams
    {
      this.feedbackFn := feedbackFn;
      this.benchmarkParams := benchmarkParams;
    }

    /** `run_score_generation_on_single_row`: extends the caller's list, then calls and normalises. */
    method RunScoreGenerationOnSingleRow(fn: seq<PyVal> -> FnResult, feedbackArgs: ArgList)
      returns (r: Result<PyVal, PyError>)
      modifies feedbackArgs
      ensures feedbackArgs.items == old(feedbackArgs.items) + [ParamsDict(benchmarkParams)]
      ensures r == SingleRow(fn, feedbackArgs.items)
    {
      feedbackArgs.Append(ParamsDict(benchmarkParams));
      var ret := fn(feedbackArgs.items);
      if ret.Raised? {
        return Failure(FeedbackRaised);
      }
      var v := ret.value;
      if !v.PyTuple? && !v.PyFloat? {
        return Failure(ValueError);
      }
      if v.PyTuple? {
        if |v.elems| < 2 {
          return Failure(IndexError);
        }
        if v.elems[1].PyDict? {
          var entries := v.elems[1].entries;
          if |entries| == 0 {
            return Failure(IndexError);
          }
          v := PyTuple([v.elems[0], entries[|entries| - 1].1]);
        }
      }
      return Success(v);
    }

    /** The inner loop of the submission (lines 189-195): one task per expected chunk of row `index`. */
    static method SubmitChunks(index: nat, row: Row, chunks: seq<PyVal>) returns (r: Result<seq<Task>, PyError>)
      ensures r == ChunkTasks(index, row, chunks)
    {
      var tasks: seq<Task> := [];
      var j := 0;
      assert chunks[0..] == chunks;
      ghost var all := ChunkTasks(index, row, chunks);
      assert all.Success? ==> [] + all.value == all.value;
      while j < |chunks|
        invariant 0 <= j <= |chunks|
        invariant ChunkTasks(index, row, chunks) ==
          match ChunkTasks(index, row, chunks[j..])
          case Failure(e) => Failure(e)
          case Success(ts) => Success(tasks + ts)
      {
        assert chunks[j..][0] == chunks[j];
        assert chunks[j..][1..] == chunks[j + 1..];
        if "query" !in row {
          return Failure(KeyError);
        }
        var text := Subscript(chunks[j], "text");
        if text.Failure? {
          return Failure(text.error);
        }
        var task := Task(index, [row["query"], text.value]);
        ghost var rest := ChunkTasks(index, row, chunks[j + 1..]);
        assert rest.Success? ==> tasks + ([task] + rest.value) == (tasks + [task]) + rest.value;
        tasks := tasks + [task];
        j := j + 1;
      }
      assert chunks[j..] == [];
      assert tasks + [] == tasks;
      return Success(tasks);
    }

    /** The submission loop of `__call__` (lines 187-202). */
    method SubmitTasks(groundTruth: seq<Row>) returns (r: Result<seq<Task>, PyError>)
      ensures r == SubmitFrom(groundTruth, 0, [])
    {
      var tasks: seq<Task> := [];
      var index := 0;
      while index < |groundTruth|
        invariant 0 <= index <= |groundTruth|
        invariant SubmitFrom(groundTruth, 0, []) == SubmitFrom(groundTruth, index, tasks)
      {
        var row := groundTruth[index];
        var rowTasks: seq<Task>;
        if "expected_chunks" in row {
          var chunks := Iterate(row["expected_chunks"]);
          if chunks.Failure? {
            return Failure(chunks.error);
          }
          var submitted := SubmitChunks(index, row, chunks.value);
          if submitted.Failure? {
            return Failure(submitted.error);
          }
          rowTasks := submitted.value;
        } else if "expected_response" in row {
          if "query" !in row {
            return Failure(KeyError);
          }
          rowTasks := [Task(index, [row["query"], row["expected_response"]])];
        } else {
          rowTasks := [];
        }
        assert RowTasks(index, row) == Success(rowTasks);
        tasks := tasks + rowTasks;
        index := index + 1;
      }
      return Success(tasks);
    }

    /** The loop over completed tasks (lines 205-212), in submission order. */
    method GatherResults(tasks: seq<Task>) returns (indexToResults: map<nat, seq<PyVal>>)
      ensures indexToResults == GatherFrom(feedbackFn, benchmarkParams, Extend, tasks, map[])
    {
      indexToResults := map[];
      var k := 0;
      while k < |tasks|
        invariant 0 <= k <= |tasks|
        invariant GatherFrom(feedbackFn, benchmarkParams, Extend, tasks, map[]) ==
          GatherFrom(feedbackFn, benchmarkParams, Extend, tasks[k..], indexToResults)
      {
        assert tasks[k..][0] == tasks[k];
        assert tasks[k..][1..] == tasks[k + 1..];
        var args := new ArgList(tasks[k].args);
        var retLst := RunScoreGenerationOnSingleRow(feedbackFn, args);
        if retLst.Success? {
          // `setdefault` creates the list before `extend` runs
          var prior := if tasks[k].index in indexToResults then indexToResults[tasks[k].index] else [];
          ghost var next := indexToResults[tasks[k].index := prior + Contribution(Extend, retLst.value)];
          indexToResults := indexToResults[tasks[k].index := prior];
          if retLst.value.PyTuple? {
            indexToResults := indexToResults[tasks[k].index := prior + retLst.value.elems];
          } else {
            assert prior + [] == prior;
          }
          assert indexToResults == next;
        }
        k := k + 1;
      }
      assert tasks[k..] == [];
    }

    /** The output loop (lines 215-225). */
    static method Emit(indexToResults: map<nat, seq<PyVal>>, n: nat) returns (r: Result<(seq<PyVal>, seq<PyVal>), PyError>)
      ensures r == AssembleFrom(indexToResults, 0, n, [], [])
    {
      var scores: seq<PyVal> := [];
      var metaScores: seq<PyVal> := [];
      var i := 0;
      while i < n
        invariant 0 <= i <= n
        invariant AssembleFrom(indexToResults, 0, n, [], []) == AssembleFrom(indexToResults, i, n, scores, metaScores)
      {
        if i in indexToResults {
          var retLst := indexToResults[i];
          var j := 0;
          while j < |retLst|
            invariant 0 <= j <= |retLst|
            invariant AssembleFrom(indexToResults, 0, n, [], []) ==
              match SplitInto(retLst[j..], scores, metaScores)
              case Failure(e) => Failure(e)
              case Success(p) => AssembleFrom(indexToResults, i + 1, n, p.0, p.1)
          {
            assert retLst[j..][0] == retLst[j];
            assert retLst[j..][1..] == retLst[j + 1..];
            var ret := retLst[j];
            var score;
            if ret.PyFloat? {
              score := ret;
            } else {
              var pair := Unpack2(ret);
              if pair.Failure? {
                return Failure(pair.error);
              }
              score := pair.value.0;
              metaScores := metaScores + [pair.value.1];
            }
            scores := scores + [score];
            j := j + 1;
          }
          assert retLst[j..] == [];
        }
        i := i + 1;
      }
      return Success((scores, metaScores));
    }

    /** `__call__`, with the tasks run in submission order. */
    method Call(groundTruth: seq<Row>) returns (r: Result<Output, PyError>)
      ensures r == Collect(feedbackFn, benchmarkParams, Extend, groundTruth)
    {
      var tasks := SubmitTasks(groundTruth);
      if tasks.Failure? {
        return Failure(tasks.error);
      }
      var indexToResults := GatherResults(tasks.value);
      var emitted := Emit(indexToResults, |groundTruth|);
      if emitted.Failure? {
        return Failure(emitted.error);
      }
      return Success(Package(emitted.value.0, emitted.value.1));
    }
  }
}
