/** The upload page (`Home`): choose a data file (uploaded at once), run the price
    prediction on the uploaded data, then run the bid optimization on the
    predictions. Six state hooks: `file`, `uploading`, `result`, `predictions`,
    `optimizing`, `optimization`.

    The first half is a pure account of the page: a `Snapshot` of the six hooks,
    one function per handler run to completion, and `Replay` of a sequence of
    handler runs from the first render, with the invariant and the dependency
    ("lineage") lemmas over every such sequence. The second half is the component
    itself, a class whose handlers are split at their `await` as in the
    analysis dashboard and are proved to agree with the pure functions. */
module HomePage {
  import opened JsonValue

  /** The `File` picked in the file input. */
  datatype SelectedFile = SelectedFile(name: string)

  datatype Snapshot = Snapshot(
    file: Option<SelectedFile>,
    uploading: bool,
    result: Option<Json>,
    predictions: Option<Json>,
    optimizing: bool,
    optimization: Option<Json>)

  /** The first render: every hook null or false. */
  const Initial: Snapshot := Snapshot(None, false, None, None, false, None)

  /** The fixed configuration `handlePredict` sends. */
  const PredictionHours: int := 24
  const PredictionModels: seq<string> := ["rf", "xgb", "ensemble"]

  /** The fixed cost parameters `handleOptimize` sends. */
  const CostGeneration: int := 400
  const CostUpward: int := 50
  const CostDownward: int := 30

  datatype Request =
      // POST /api/upload, multipart form with the file
    | UploadRequest(upload: SelectedFile)
      // POST /api/predict with body { data: result.data, config }
    | PredictRequest(data: Option<Json>, predictionHours: int, models: seq<string>)
      // POST /api/optimize with body { predictions: predictions.predictions, config: { cost_params } }
    | OptimizeRequest(predictions: Option<Json>, costG: int, costUp: int, costDn: int)

  /** What a handler did when it was called: refused (returned early), or sent a request. */
  datatype Reply = Refused | Sent(request: Request)

  /** The early-return guard of `handlePredict`: an upload result is there. */
  predicate CanPredict(s: Snapshot)
  {
    s.result.Some?
  }

  /** The early-return guard of `handleOptimize`: predictions are there. */
  predicate CanOptimize(s: Snapshot)
  {
    s.predictions.Some?
  }

  // ---- enable conditions of the controls ----

  /** The file input is enabled unless an upload is running. */
  function FileInputEnabled(s: Snapshot): (enabled: bool)
    ensures s.uploading ==> !enabled
    ensures !s.uploading ==> enabled
  {
    !s.uploading
  }

  /** The prediction button also demands `result.validation.valid`, which the handler
      itself never checks: an enabled button means the handler will not refuse. */
  function PredictButtonEnabled(s: Snapshot): (enabled: bool)
    ensures enabled ==> CanPredict(s)
    ensures enabled ==> Truthy(Get(Get(s.result, "validation"), "valid"))
    ensures CanPredict(s) && Truthy(Get(Get(s.result, "validation"), "valid")) ==> enabled
  {
    s.result.Some? && Truthy(Get(Get(s.result, "validation"), "valid"))
  }

  /** The optimization button: predictions there and no optimization running. */
  function OptimizeButtonEnabled(s: Snapshot): (enabled: bool)
    ensures enabled ==> CanOptimize(s)
    ensures s.optimizing ==> !enabled
    ensures CanOptimize(s) && !s.optimizing ==> enabled
  {
    s.predictions.Some? && !s.optimizing
  }

  // ---- the handlers, each run to completion ----

  /** `handleFileUpload`: without a selected file nothing changes; otherwise the file is
      recorded, every downstream result is cleared, and after the request `uploading`
      is down and `result` holds the response body on success, null on failure. */
  function Upload(s: Snapshot, selected: Option<SelectedFile>, outcome: Outcome): (r: Snapshot)
    ensures selected.None? ==> r == s
    ensures selected.Some? ==>
      && r.file == selected && !r.uploading && r.optimizing == s.optimizing
      && r.predictions.None? && r.optimization.None?
      && (outcome.Ok? ==> r.result == Some(outcome.body))
      && (outcome.Err? ==> r.result.None?)
  {
    if selected.None? then s
    else s.(file := selected, uploading := false, result := Latest(None, outcome),
            predictions := None, optimization := None)
  }

  /** `handlePredict`: refused without an upload result; otherwise the predictions are
      replaced on success and kept on failure. No busy flag is involved. */
  function Predict(s: Snapshot, outcome: Outcome): (r: Snapshot)
    ensures !CanPredict(s) || outcome.Err? ==> r == s
    ensures CanPredict(s) && outcome.Ok? ==>
      r.predictions == Some(outcome.body) && r.(predictions := s.predictions) == s
  {
    if !CanPredict(s) then s
    else s.(predictions := Latest(s.predictions, outcome))
  }

  /** `handleOptimize`: refused without predictions; otherwise `optimizing` is down
      afterwards whatever the outcome and the optimization is replaced only on success. */
  function Optimize(s: Snapshot, outcome: Outcome): (r: Snapshot)
    ensures !CanOptimize(s) ==> r == s
    ensures CanOptimize(s) ==>
      && !r.optimizing
      && (outcome.Ok? ==> r.optimization == Some(outcome.body))
      && (outcome.Err? ==> r.optimization == s.optimization)
      && r.(optimizing := s.optimizing, optimization := s.optimization) == s
  {
    if !CanOptimize(s) then s
    else s.(optimizing := false, optimization := Latest(s.optimization, outcome))
  }

  // ---- sequences of handler runs ----

  /** One user action, with how its request settles. */
  datatype Event =
    | ChooseFile(selected: Option<SelectedFile>, outcome: Outcome)
    | ClickPredict(outcome: Outcome)
    | ClickOptimize(outcome: Outcome)

  function Step(s: Snapshot, e: Event): Snapshot
  {
    match e
    case ChooseFile(selected, outcome) => Upload(s, selected, outcome)
    case ClickPredict(outcome) => Predict(s, outcome)
    case ClickOptimize(outcome) => Optimize(s, outcome)
  }

  /** The page after running the actions of `t` one after another from the first render. */
  function Replay(t: seq<Event>): Snapshot
  {
    if |t| == 0 then Initial else Step(Replay(t[..|t| - 1]), t[|t| - 1])
  }

  /** An action that starts an upload (a file was selected). */
  predicate StartsUpload(e: Event)
  {
    e.ChooseFile? && e.selected.Some?
  }

  /** The position of the last upload start in `t`, or -1 if there is none. */
  function LastUpload(t: seq<Event>): (k: int)
    ensures -1 <= k < |t|
    ensures k >= 0 ==> StartsUpload(t[k])
    ensures forall i :: k < i < |t| ==> !StartsUpload(t[i])
  {
    if |t| == 0 then -1
    else if StartsUpload(t[|t| - 1]) then |t| - 1
    else LastUpload(t[..|t| - 1])
  }

  /** The page at rest: no busy flag up, and every result has the results it was
      computed from. */
  ghost predicate Consistent(s: Snapshot)
  {
    && !s.uploading && !s.optimizing
    && (s.optimization.Some? ==> s.predictions.Some?)
    && (s.predictions.Some? ==> s.result.Some?)
  }

  lemma StepConsistent(s: Snapshot, e: Event)
    requires Consistent(s)
    ensures Consistent(Step(s, e))
  {
  }

  /** Whatever the user does, one handler at a time: optimization present implies
      predictions present implies an upload result present, and no busy flag is left up. */
  lemma {:induction false} ReplayConsistent(t: seq<Event>)
    ensures Consistent(Replay(t))
  {
    if |t| > 0 {
      ReplayConsistent(t[..|t| - 1]);
      StepConsistent(Replay(t[..|t| - 1]), t[|t| - 1]);
    }
  }

  /** Action `i` of `t` is a prediction that the handler accepted and that succeeded. */
  ghost predicate PredictAccepted(t: seq<Event>, i: int)
    requires 0 <= i < |t|
  {
    t[i].ClickPredict? && t[i].outcome.Ok? && CanPredict(Replay(t[..i]))
  }

  /** Action `j` of `t` is an optimization that the handler accepted and that succeeded. */
  ghost predicate OptimizeAccepted(t: seq<Event>, j: int)
    requires 0 <= j < |t|
  {
    t[j].ClickOptimize? && t[j].outcome.Ok? && CanOptimize(Replay(t[..j]))
  }

  lemma AcceptedInPrefix(t: seq<Event>, m: int, i: int)
    requires 0 <= i < m <= |t|
    ensures PredictAccepted(t[..m], i) == PredictAccepted(t, i)
    ensures OptimizeAccepted(t[..m], i) == OptimizeAccepted(t, i)
  {
    assert t[..m][..i] == t[..i];
  }

  /** An upload result is present exactly when the last upload started succeeded. */
  lemma {:induction false} ResultLineage(t: seq<Event>)
    ensures Replay(t).result.Some? <==> LastUpload(t) >= 0 && t[LastUpload(t)].outcome.Ok?
    ensures Replay(t).result.Some? ==> Replay(t).result.value == t[LastUpload(t)].outcome.body
  {
    if |t| > 0 {
      var p := t[..|t| - 1];
      ResultLineage(p);
      if !StartsUpload(t[|t| - 1]) {
        var k := LastUpload(p);
        assert LastUpload(t) == k;
        if k >= 0 {
          assert t[k] == p[k];
        }
      }
    }
  }

  /** At rest the file input is always enabled. */
  lemma FileInputAtRest(t: seq<Event>)
    ensures FileInputEnabled(Replay(t))
  {
    ReplayConsistent(t);
  }

  /** At rest the prediction button is enabled exactly when the last upload started
      succeeded with a body whose `validation.valid` is truthy. */
  lemma PredictButtonAtRest(t: seq<Event>)
    ensures PredictButtonEnabled(Replay(t)) <==>
      && LastUpload(t) >= 0
      && t[LastUpload(t)].outcome.Ok?
      && Truthy(Get(Get(Some(t[LastUpload(t)].outcome.body), "validation"), "valid"))
  {
    ResultLineage(t);
  }

  /** Predictions are present exactly when a prediction was accepted and succeeded
      after the last upload started. */
  lemma {:induction false} PredictionsLineage(t: seq<Event>)
    ensures Replay(t).predictions.Some? <==>
      exists i :: LastUpload(t) < i < |t| && PredictAccepted(t, i)
  {
    if |t| == 0 {
      return;
    }
    var n := |t|;
    var p := t[..n - 1];
    var e := t[n - 1];
    PredictionsLineage(p);
    forall i | 0 <= i < n - 1
      ensures PredictAccepted(t, i) == PredictAccepted(p, i)
    {
      AcceptedInPrefix(t, n - 1, i);
    }
    if StartsUpload(e) {
      assert Replay(t).predictions.None?;
    } else if e.ClickPredict? && e.outcome.Ok? && CanPredict(Replay(p)) {
      assert PredictAccepted(t, n - 1);
    } else {
      assert Replay(t).predictions == Replay(p).predictions;
      assert !PredictAccepted(t, n - 1);
      if Replay(t).predictions.Some? {
        var i :| LastUpload(p) < i < |p| && PredictAccepted(p, i);
        assert PredictAccepted(t, i);
      }
      if i :| LastUpload(t) < i < |t| && PredictAccepted(t, i) {
        assert PredictAccepted(p, i);
      }
    }
  }

  /** An optimization is present exactly when an optimization was accepted and
      succeeded after the last upload started. */
  lemma {:induction false} OptimizationLineage(t: seq<Event>)
    ensures Replay(t).optimization.Some? <==>
      exists j :: LastUpload(t) < j < |t| && OptimizeAccepted(t, j)
  {
    if |t| == 0 {
      return;
    }
    var n := |t|;
    var p := t[..n - 1];
    var e := t[n - 1];
    OptimizationLineage(p);
    forall j | 0 <= j < n - 1
      ensures OptimizeAccepted(t, j) == OptimizeAccepted(p, j)
    {
      AcceptedInPrefix(t, n - 1, j);
    }
    if StartsUpload(e) {
      assert Replay(t).optimization.None?;
    } else if e.ClickOptimize? && e.outcome.Ok? && CanOptimize(Replay(p)) {
      assert OptimizeAccepted(t, n - 1);
    } else {
      assert Replay(t).optimization == Replay(p).optimization;
      assert !OptimizeAccepted(t, n - 1);
      if Replay(t).optimization.Some? {
        var j :| LastUpload(p) < j < |p| && OptimizeAccepted(p, j);
        assert OptimizeAccepted(t, j);
      }
      if j :| LastUpload(t) < j < |t| && OptimizeAccepted(t, j) {
        assert OptimizeAccepted(p, j);
      }
    }
  }

  /** At rest the optimization button is enabled exactly when a prediction was accepted
      and succeeded after the last upload started. */
  lemma OptimizeButtonAtRest(t: seq<Event>)
    ensures OptimizeButtonEnabled(Replay(t)) <==>
      exists i :: LastUpload(t) < i < |t| && PredictAccepted(t, i)
  {
    ReplayConsistent(t);
    PredictionsLineage(t);
  }

  /** For example, a prediction that succeeds with a `null` body is kept here as a
      present value, so the optimization results stay paired with it; in the component
      `predictions` becomes null again while `optimizationResults` survives. */
  lemma NullPredictionBody()
    ensures
      var s := Replay([ChooseFile(Some(SelectedFile("a.csv")), Ok(Object(map[]))),
                       ClickPredict(Ok(Object(map[]))), ClickOptimize(Ok(Object(map[]))),
                       ClickPredict(Ok(Null))]);
      s.predictions == Some(Null) && s.optimization.Some?
  {
    var t := [ChooseFile(Some(SelectedFile("a.csv")), Ok(Object(map[]))),
              ClickPredict(Ok(Object(map[]))), ClickOptimize(Ok(Object(map[]))),
              ClickPredict(Ok(Null))];
    assert t[..3][..2][..1][..0] == [];
    var uploaded := Replay(t[..3][..2][..1]);
    assert uploaded.result == Some(Object(map[]));
    var predicted := Replay(t[..3][..2]);
    assert predicted.predictions == Some(Object(map[]));
    var optimized := Replay(t[..3]);
    assert optimized.optimization.Some?;
  }

  /** An optimization is only ever sent after a prediction that succeeded with no upload
      started in between. */
  lemma OptimizeNeedsPrediction(t: seq<Event>, j: int)
    requires 0 <= j < |t| && OptimizeAccepted(t, j)
    ensures exists i :: LastUpload(t[..j]) < i < j && PredictAccepted(t, i)
  {
    PredictionsLineage(t[..j]);
    var i :| LastUpload(t[..j]) < i < j && PredictAccepted(t[..j], i);
    AcceptedInPrefix(t, j, i);
  }

  /** The prediction button is stricter than the handler: with an upload whose dataset
      did not validate, the button is disabled, yet the handler accepts and stores the
      predictions. */
  lemma HandlerIgnoresValidation(body: Json)
    ensures var s := Initial.(result := Some(Object(map["validation" := Object(map["valid" := Bool(false)])])));
      && !PredictButtonEnabled(s)
      && Predict(s, Ok(body)).predictions == Some(body)
  {
  }

  // ---- the component ----

  /** The handler whose continuation is pending. */
  datatype Call = UploadCall | PredictCall | OptimizeCall

  class Home {
    var file: Option<SelectedFile>
    var uploading: bool
    var result: Option<Json>
    var predictions: Option<Json>
    var optimizing: bool
    var optimization: Option<Json>

    ghost var inFlight: Option<Call>

    function State(): Snapshot
      reads this
    {
      Snapshot(file, uploading, result, predictions, optimizing, optimization)
    }

    /** The dependency chain of results holds at every moment; each busy flag is up
        exactly while its own request is outstanding; an upload in flight has already
        cleared the old result; a pending prediction or optimization had its guard met. */
    ghost predicate Valid()
      reads this
    {
      && (optimization.Some? ==> predictions.Some?)
      && (predictions.Some? ==> result.Some?)
      && (uploading <==> inFlight == Some(UploadCall))
      && (optimizing <==> inFlight == Some(OptimizeCall))
      && (inFlight == Some(UploadCall) ==> file.Some? && result.None?)
      && (inFlight == Some(PredictCall) ==> CanPredict(State()))
      && (inFlight == Some(OptimizeCall) ==> CanOptimize(State()))
    }

    constructor ()
      ensures Valid() && inFlight.None?
      ensures State() == Initial
    {
      file, uploading, result := None, false, None;
      predictions, optimizing, optimization := None, false, None;
      inFlight := None;
    }

    // ---- handleFileUpload ----

    /** Up to the `await`: nothing without a file; otherwise record it, raise
        `uploading` (which disables the file input) and clear every result. */
    method BeginFileUpload(selected: Option<SelectedFile>) returns (reply: Reply)
      requires Valid() && inFlight.None?
      modifies this
      ensures Valid()
      ensures selected.None? ==> reply == Refused && inFlight.None? && State() == old(State())
      ensures selected.Some? ==>
        && reply == Sent(UploadRequest(selected.value))
        && inFlight == Some(UploadCall)
        && !FileInputEnabled(State())
        && State() == old(State()).(file := selected, uploading := true,
             result := None, predictions := None, optimization := None)
    {
      if selected.None? {
        reply := Refused;
        return;
      }
      file := selected;
      uploading := true;
      result := None;
      predictions := None;
      optimization := None;
      reply := Sent(UploadRequest(selected.value));
      inFlight := Some(UploadCall);
    }

    method FinishFileUpload(outcome: Outcome)
      requires Valid() && inFlight == Some(UploadCall)
      modifies this
      ensures Valid() && inFlight.None?
      ensures State() == old(State()).(uploading := false, result := Latest(None, outcome))
    {
      if outcome.Ok? {
        result := Some(outcome.body);
      }
      uploading := false;
      inFlight := None;
    }

    method HandleFileUpload(selected: Option<SelectedFile>, outcome: Outcome) returns (reply: Reply)
      requires Valid() && inFlight.None?
      modifies this
      ensures Valid() && inFlight.None? && Consistent(State())
      ensures reply == if selected.None? then Refused else Sent(UploadRequest(selected.value))
      ensures State() == Upload(old(State()), selected, outcome)
    {
      reply := BeginFileUpload(selected);
      if reply.Sent? {
        FinishFileUpload(outcome);
      }
    }

    // ---- handlePredict ----

    /** Up to the `await`: refused without an upload result; otherwise the request is
        sent with the uploaded data and the fixed configuration, and no state changes. */
    method BeginPredict() returns (reply: Reply)
      requires Valid() && inFlight.None?
      modifies this
      ensures Valid() && State() == old(State())
      ensures !CanPredict(old(State())) ==> reply == Refused && inFlight.None?
      ensures CanPredict(old(State())) ==>
        && reply == Sent(PredictRequest(Get(old(result), "data"), PredictionHours, PredictionModels))
        && inFlight == Some(PredictCall)
    {
      if result.None? {
        reply := Refused;
        return;
      }
      reply := Sent(PredictRequest(Get(result, "data"), PredictionHours, PredictionModels));
      inFlight := Some(PredictCall);
    }

    method FinishPredict(outcome: Outcome)
      requires Valid() && inFlight == Some(PredictCall)
      modifies this
      ensures Valid() && inFlight.None?
      ensures State() == old(State()).(predictions := Latest(old(predictions), outcome))
    {
      if outcome.Ok? {
        predictions := Some(outcome.body);
      }
      inFlight := None;
    }

    method HandlePredict(outcome: Outcome) returns (reply: Reply)
      requires Valid() && inFlight.None?
      modifies this
      ensures Valid() && inFlight.None?
      ensures reply == if !CanPredict(old(State())) then Refused
                       else Sent(PredictRequest(Get(old(result), "data"), PredictionHours, PredictionModels))
      ensures State() == Predict(old(State()), outcome)
    {
      reply := BeginPredict();
      if reply.Sent? {
        FinishPredict(outcome);
      }
    }

    // ---- handleOptimize ----

    /** Up to the `await`: refused without predictions; otherwise `optimizing` goes up
        (which disables the button) and the request carries `predictions.predictions`
        and the fixed cost parameters. */
    method BeginOptimize() returns (reply: Reply)
      requires Valid() && inFlight.None?
      modifies this
      ensures Valid()
      ensures !CanOptimize(old(State())) ==> reply == Refused && inFlight.None? && State() == old(State())
      ensures CanOptimize(old(State())) ==>
        && reply == Sent(OptimizeRequest(Get(old(predictions), "predictions"),
                                         CostGeneration, CostUpward, CostDownward))
        && inFlight == Some(OptimizeCall)
        && !OptimizeButtonEnabled(State())
        && State() == old(State()).(optimizing := true)
    {
      if predictions.None? {
        reply := Refused;
        return;
      }
      optimizing := true;
      reply := Sent(OptimizeRequest(Get(predictions, "predictions"),
                                    CostGeneration, CostUpward, CostDownward));
      inFlight := Some(OptimizeCall);
    }

    method FinishOptimize(outcome: Outcome)
      requires Valid() && inFlight == Some(OptimizeCall)
      modifies this
      ensures Valid() && inFlight.None?
      ensures State() == old(State()).(optimizing := false,
        optimization := Latest(old(optimization), outcome))
    {
      if outcome.Ok? {
        optimization := Some(outcome.body);
      }
      optimizing := false;
      inFlight := None;
    }

    method HandleOptimize(outcome: Outcome) returns (reply: Reply)
      requires Valid() && inFlight.None?
      modifies this
      ensures Valid() && inFlight.None?
      ensures reply == if !CanOptimize(old(State())) then Refused
                       else Sent(OptimizeRequest(Get(old(predictions), "predictions"),
                                                 CostGeneration, CostUpward, CostDownward))
      ensures State() == Optimize(old(State()), outcome)
    {
      reply := BeginOptimize();
      if reply.Sent? {
        FinishOptimize(outcome);
      }
    }
  }
}
