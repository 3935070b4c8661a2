/** The analysis dashboard (`PowerMarketDashboard`): four tabs, each of whose buttons
    selects the tab and runs its handler against the analytics service (database
    status, historical prices, price prediction, bid optimization); the optimization
    handler refuses without cached predictions. One `loading` flag
    covers every request; each result is cached until a later request of the same
    kind succeeds.

    Every async handler is split at its `await`: `Begin…` is what runs when the
    handler is called (guard, `setLoading(true)`, the request it sends), `Finish…` is
    the continuation once the request settles (the result on success, then the
    `finally`), and the handler itself runs both. The ghost field `inFlight` is the
    request whose continuation is pending. */
module DashboardPage {
  import opened JsonValue

  datatype Tab = DatabaseTab | HistoricalTab | PredictionTab | OptimizationTab

  datatype PredictionConfig = PredictionConfig(
    predictionDate: string, predictionHours: int, models: seq<string>, confidenceLevel: real)

  datatype HistoricalConfig = HistoricalConfig(timeRange: string, includePredictions: bool)

  datatype OptimizationConfig = OptimizationConfig(
    generationCost: int, upwardCost: int, downwardCost: int)

  const InitialPredictionConfig: PredictionConfig :=
    PredictionConfig("2024-05-02", 96,
      ["random_forest", "xgboost", "gradient_boosting", "linear_regression"], 0.95)

  const InitialHistoricalConfig: HistoricalConfig := HistoricalConfig("1d", false)

  const InitialOptimizationConfig: OptimizationConfig := OptimizationConfig(375, 530, 310)

  /** The requests the dashboard sends. */
  datatype Request =
    | StatusRequest
      // GET /api/historical-prices with its two query parameters as strings
    | HistoryRequest(timeRange: string, includePredictions: string)
      // POST /api/predict with body { config }
    | PredictRequest(config: PredictionConfig)
      // POST /api/optimize with body { predictions, config }
    | OptimizeRequest(predictions: Json, costs: OptimizationConfig)

  /** What a handler did when it was called: refused (the alert), or sent a request. */
  datatype Reply = Refused | Sent(request: Request)

  /** The guard of `runOptimization`: `predictionResults?.predictions` is truthy. */
  predicate HasPredictions(predictionResults: Option<Json>)
  {
    Truthy(Get(predictionResults, "predictions"))
  }

  /** `Boolean.prototype.toString` */
  function BoolText(b: bool): string
  {
    if b then "true" else "false"
  }

  /** All state hooks of the component, as one value. */
  datatype View = View(
    activeTab: Tab,
    loading: bool,
    databaseStatus: Option<Json>,
    historicalData: Option<Json>,
    predictionResults: Option<Json>,
    optimizationResults: Option<Json>,
    predictionConfig: PredictionConfig,
    historicalConfig: HistoricalConfig,
    optimizationConfig: OptimizationConfig)

  class PowerMarketDashboard {
    var activeTab: Tab
    var loading: bool
    var databaseStatus: Option<Json>
    var historicalData: Option<Json>
    var predictionResults: Option<Json>
    var optimizationResults: Option<Json>
    var predictionConfig: PredictionConfig
    var historicalConfig: HistoricalConfig
    var optimizationConfig: OptimizationConfig

    ghost var inFlight: Option<Request>

    function Current(): View
      reads this
    {
      View(activeTab, loading, databaseStatus, historicalData, predictionResults,
           optimizationResults, predictionConfig, historicalConfig, optimizationConfig)
    }

    /** `loading` is up exactly while a request is outstanding; an optimization in
        flight carries the cached predictions, which are still there; an optimization
        result only ever exists next to a prediction result. */
    ghost predicate Valid()
      reads this
    {
      && (loading <==> inFlight.Some?)
      && (inFlight.Some? && inFlight.value.OptimizeRequest? ==>
            HasPredictions(predictionResults)
            && inFlight.value.predictions == Get(predictionResults, "predictions").value)
      && (optimizationResults.Some? ==> predictionResults.Some?)
    }

    /** The first render: the database tab, nothing loaded, the default configurations. */
    constructor ()
      ensures Valid() && inFlight.None?
      ensures Current() == View(DatabaseTab, false, None, None, None, None,
        InitialPredictionConfig, InitialHistoricalConfig, InitialOptimizationConfig)
    {
      activeTab := DatabaseTab;
      loading := false;
      databaseStatus, historicalData := None, None;
      predictionResults, optimizationResults := None, None;
      predictionConfig := InitialPredictionConfig;
      historicalConfig := InitialHistoricalConfig;
      optimizationConfig := InitialOptimizationConfig;
      inFlight := None;
    }

    // ---- fetchDatabaseStatus ----

    method BeginFetchDatabaseStatus() returns (reply: Reply)
      requires Valid() && inFlight.None?
      modifies this
      ensures Valid() && inFlight == Some(StatusRequest)
      ensures reply == Sent(StatusRequest)
      ensures Current() == old(Current()).(loading := true)
    {
      loading := true;
      reply := Sent(StatusRequest);
      inFlight := Some(reply.request);
    }

    method FinishFetchDatabaseStatus(outcome: Outcome)
      requires Valid() && inFlight == Some(StatusRequest)
      modifies this
      ensures Valid() && inFlight.None?
      ensures Current() == old(Current()).(loading := false,
        databaseStatus := Latest(old(databaseStatus), outcome))
    {
      if outcome.Ok? {
        databaseStatus := Some(outcome.body);
      }
      loading := false;
      inFlight := None;
    }

    method FetchDatabaseStatus(outcome: Outcome) returns (reply: Reply)
      requires Valid() && inFlight.None?
      modifies this
      ensures Valid() && inFlight.None? && !loading
      ensures reply == Sent(StatusRequest)
      ensures Current() == old(Current()).(databaseStatus := Latest(old(databaseStatus), outcome))
    {
      reply := BeginFetchDatabaseStatus();
      FinishFetchDatabaseStatus(outcome);
    }

    // ---- fetchHistoricalData ----

    method BeginFetchHistoricalData() returns (reply: Reply)
      requires Valid() && inFlight.None?
      modifies this
      ensures reply == Sent(HistoryRequest(historicalConfig.timeRange,
                                           BoolText(historicalConfig.includePredictions)))
      ensures Valid() && inFlight == Some(reply.request)
      ensures Current() == old(Current()).(loading := true)
    {
      loading := true;
      reply := Sent(HistoryRequest(historicalConfig.timeRange,
                                   BoolText(historicalConfig.includePredictions)));
      inFlight := Some(reply.request);
    }

    method FinishFetchHistoricalData(outcome: Outcome)
      requires Valid() && inFlight.Some? && inFlight.value.HistoryRequest?
      modifies this
      ensures Valid() && inFlight.None?
      ensures Current() == old(Current()).(loading := false,
        historicalData := Latest(old(historicalData), outcome))
    {
      if outcome.Ok? {
        historicalData := Some(outcome.body);
      }
      loading := false;
      inFlight := None;
    }

    method FetchHistoricalData(outcome: Outcome) returns (reply: Reply)
      requires Valid() && inFlight.None?
      modifies this
      ensures Valid() && inFlight.None? && !loading
      ensures reply == Sent(HistoryRequest(historicalConfig.timeRange,
                                           BoolText(historicalConfig.includePredictions)))
      ensures Current() == old(Current()).(historicalData := Latest(old(historicalData), outcome))
    {
      reply := BeginFetchHistoricalData();
      FinishFetchHistoricalData(outcome);
    }

    // ---- runPrediction: no precondition; the optimization result is left alone ----

    method BeginRunPrediction() returns (reply: Reply)
      requires Valid() && inFlight.None?
      modifies this
      ensures reply == Sent(PredictRequest(predictionConfig))
      ensures Valid() && inFlight == Some(reply.request)
      ensures Current() == old(Current()).(loading := true)
    {
      loading := true;
      reply := Sent(PredictRequest(predictionConfig));
      inFlight := Some(reply.request);
    }

    method FinishRunPrediction(outcome: Outcome)
      requires Valid() && inFlight.Some? && inFlight.value.PredictRequest?
      modifies this
      ensures Valid() && inFlight.None?
      ensures Current() == old(Current()).(loading := false,
        predictionResults := Latest(old(predictionResults), outcome))
    {
      if outcome.Ok? {
        predictionResults := Some(outcome.body);
      }
      loading := false;
      inFlight := None;
    }

    method RunPrediction(outcome: Outcome) returns (reply: Reply)
      requires Valid() && inFlight.None?
      modifies this
      ensures Valid() && inFlight.None? && !loading
      ensures reply == Sent(PredictRequest(predictionConfig))
      ensures Current() == old(Current()).(predictionResults := Latest(old(predictionResults), outcome))
    {
      reply := BeginRunPrediction();
      FinishRunPrediction(outcome);
    }

    // ---- runOptimization: refused without cached predictions ----

    method BeginRunOptimization() returns (reply: Reply)
      requires Valid() && inFlight.None?
      modifies this
      ensures Valid()
      ensures !HasPredictions(old(predictionResults)) ==>
        reply == Refused && inFlight.None? && Current() == old(Current())
      ensures HasPredictions(old(predictionResults)) ==>
        && reply == Sent(OptimizeRequest(Get(old(predictionResults), "predictions").value, optimizationConfig))
        && inFlight == Some(reply.request)
        && Current() == old(Current()).(loading := true)
    {
      if !HasPredictions(predictionResults) {
        reply := Refused;
        return;
      }
      loading := true;
      reply := Sent(OptimizeRequest(Get(predictionResults, "predictions").value, optimizationConfig));
      inFlight := Some(reply.request);
    }

    method FinishRunOptimization(outcome: Outcome)
      requires Valid() && inFlight.Some? && inFlight.value.OptimizeRequest?
      modifies this
      ensures Valid() && inFlight.None?
      ensures Current() == old(Current()).(loading := false,
        optimizationResults := Latest(old(optimizationResults), outcome))
    {
      if outcome.Ok? {
        optimizationResults := Some(outcome.body);
      }
      loading := false;
      inFlight := None;
    }

    method RunOptimization(outcome: Outcome) returns (reply: Reply)
      requires Valid() && inFlight.None?
      modifies this
      ensures Valid() && inFlight.None? && !loading
      ensures !HasPredictions(old(predictionResults)) ==> reply == Refused && Current() == old(Current())
      ensures HasPredictions(old(predictionResults)) ==>
        && reply == Sent(OptimizeRequest(Get(old(predictionResults), "predictions").value, optimizationConfig))
        && Current() == old(Current()).(optimizationResults := Latest(old(optimizationResults), outcome))
    {
      reply := BeginRunOptimization();
      if reply.Sent? {
        FinishRunOptimization(outcome);
      }
    }

    // ---- the tab buttons: select the tab, then run its action ----

    method ClickTab(tab: Tab, outcome: Outcome) returns (reply: Reply)
      requires Valid() && inFlight.None?
      modifies this
      ensures Valid() && inFlight.None? && !loading && activeTab == tab
      ensures tab == DatabaseTab ==>
        && reply == Sent(StatusRequest)
        && Current() == old(Current()).(activeTab := tab,
             databaseStatus := Latest(old(databaseStatus), outcome))
      ensures tab == HistoricalTab ==>
        && reply == Sent(HistoryRequest(historicalConfig.timeRange,
                                        BoolText(historicalConfig.includePredictions)))
        && Current() == old(Current()).(activeTab := tab,
             historicalData := Latest(old(historicalData), outcome))
      ensures tab == PredictionTab ==>
        && reply == Sent(PredictRequest(predictionConfig))
        && Current() == old(Current()).(activeTab := tab,
             predictionResults := Latest(old(predictionResults), outcome))
      ensures tab == OptimizationTab && !HasPredictions(old(predictionResults)) ==>
        reply == Refused && Current() == old(Current()).(activeTab := tab)
      ensures tab == OptimizationTab && HasPredictions(old(predictionResults)) ==>
        && reply == Sent(OptimizeRequest(Get(old(predictionResults), "predictions").value, optimizationConfig))
        && Current() == old(Current()).(activeTab := tab,
             optimizationResults := Latest(old(optimizationResults), outcome))
    {
      activeTab := tab;
      match tab {
        case DatabaseTab => reply := FetchDatabaseStatus(outcome);
        case HistoricalTab => reply := FetchHistoricalData(outcome);
        case PredictionTab => reply := RunPrediction(outcome);
        case OptimizationTab => reply := RunOptimization(outcome);
      }
    }
  }
}
