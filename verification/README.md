# Power-market dashboards: workflow controller and CSV text, in Dafny

The front end of the power-market service has two React dashboards. Both drive the
same three-stage workflow against the remote analytics service:

1. upload a dataset;
2. predict prices from it;
3. optimize a bid from the predictions.

- `pages/index.js`, the analysis dashboard (`PowerMarketDashboard`), has four tabs:
  database status, historical prices, prediction and optimization. Every tab button
  selects its tab and runs its handler; the optimization handler refuses without
  cached predictions. One `loading` flag covers all requests.
  Its `exportToCSV` writes a table as CSV text.
- `index.js`, the upload page (`Home`), has a file input, a prediction button and an
  optimization button. It keeps the busy flags `uploading` and `optimizing` and the
  results `result`, `predictions` and `optimization`. Its `downloadCSV` writes the
  predictions as a CSV data URI.

This project models the state those handlers keep and the text those two CSV
builders produce, and proves what the code promises about them.

Files:

- `json.dfy` (module `JsonValue`): parsed JSON bodies and JavaScript truthiness.
  It also has optional member access (`a?.b`), the outcome of an awaited request
  (`Ok(body)` or `Err` for anything thrown), and `Latest`, the rule that a cached
  result changes only on success.
- `strings.dfy` (module `Strings`): `Join` (as `Array.prototype.join`) and `Split`
  (as `String.prototype.split`). It proves that `Split` undoes `Join` when no part
  holds the separator. `Split` only states what a reader of the CSV text sees.
- `csv.dfy` (module `Csv`): `exportToCSV` and `downloadCSV` as pure functions from
  records to text, with their layout lemmas.
- `dashboard.dfy` (module `DashboardPage`): the class `PowerMarketDashboard`, whose
  fields are the component's state hooks.
- `home.dfy` (module `HomePage`): first a pure snapshot of the six hooks, one
  function per handler and the replay of any sequence of handler runs, with the
  invariant and dependency lemmas; then the class `Home`, proved to agree with
  those functions.

How the handlers are modelled:

- Every async handler is split at its `await`. `Begin…` is the part that runs when
  it is called: the guard, the busy flag going up and the request that is sent.
  `Finish…` is the continuation once the request settles: the result on success,
  then the `finally`. The handler itself (`FetchDatabaseStatus`, `HandleOptimize`, …)
  runs both.
- The outcome of the request is a parameter in place of the `fetch` or `axios`
  call. The request that was sent is returned as a `Reply` (`Sent(request)`).
  An early return is `Refused`.
- A ghost field `inFlight` stands for the continuation that is pending. Each
  class's `Valid()` ties the busy flags to it: `loading`, `uploading` and
  `optimizing` are up exactly while their request is outstanding.
- A CSV record is a sequence of (key, value) pairs in the object's key iteration
  order. Each value is the text JavaScript would print for it.

The handlers have no validation gate, no busy rejection and no failed states, and the CSV builders do no escaping; the model follows the code:

- Validation is not a hard gate. `handlePredict` accepts any upload result; only
  the button checks `result.validation.valid` (`HomePage.HandlerIgnoresValidation`).
- There is no busy rejection. Neither component refuses a call while another is
  outstanding. The upload page only disables its file input and its optimization
  button. The model runs one handler at a time (see Left out).
- The CSV builders do no quoting or escaping (`Csv.ValuesAreNotEscaped`).
  `exportToCSV` pads a missing key with an empty field and drops keys that only
  later rows have. It does not reject mismatched rows.
- There are no `*Failed` states. A failed request only keeps the previous result;
  a failed upload leaves `result` null.

## Model

| member | source | states |
|---|---|---|
| `Csv.ExportToCsv` | pages/index.js:111-118 | No text at all exactly when `data` is null/undefined or empty; otherwise the text starts with the first record's keys joined by commas |
| `Csv.Field` | pages/index.js:117 | `row[header]` as joined: the empty string when the row lacks the key, otherwise a value the row holds under that key |
| `Csv.FieldAt` | pages/index.js:117 | In a record (unique keys), looking up one of its own keys yields that key's value |
| `Csv.ExportLayout` | pages/index.js:114-118 | With no comma or newline in the first record's keys or in the fields looked up by them (later-only keys may hold anything): exactly `data.length + 1` lines, no trailing newline. Line 1 is the first record's keys in its order. Line i+1 is record i looked up by those headers: one field per header, a missing key gives an empty field, later-only keys are dropped |
| `Csv.ValuesAreNotEscaped` | pages/index.js:117 | For example, a value holding a comma is written unquoted and reads back as two fields under a one-column header |
| `Csv.DownloadCsv` | index.js:97-100 | The text always starts with the data-URI prefix `data:text/csv;charset=utf-8,` |
| `Csv.DownloadLayout` | index.js:97-100 | The text is the data-URI prefix, then the first row's keys, then each row's own values in its own key order, one line per row (`data.length + 1` lines when neither the first row's keys nor any value holds a comma or newline; keys of later rows may hold anything) |
| `Csv.DownloadAgreesWithExport` | index.js:97-100 | When every row has the first row's keys in the same order, `downloadCSV` is the prefix followed by exactly the `exportToCSV` text |
| `Csv.DownloadFollowsRowOrder` | index.js:100 | For example, a row whose keys come in another order puts its values under the wrong headers in `downloadCSV`, where `exportToCSV` looks them up by header |
| `DashboardPage.PowerMarketDashboard.constructor` | pages/index.js:8-34 | The first render: database tab, not loading, no results, the default prediction, historical and optimization configurations |
| `DashboardPage.PowerMarketDashboard.BeginFetchDatabaseStatus` | pages/index.js:37-40 | Raises `loading` and sends the status request; nothing else changes |
| `DashboardPage.PowerMarketDashboard.FinishFetchDatabaseStatus` | pages/index.js:41-47 | `databaseStatus` is replaced on success and kept on failure; `loading` comes down either way |
| `DashboardPage.PowerMarketDashboard.FetchDatabaseStatus` | pages/index.js:37-48 | The whole handler: the status request is sent; only `databaseStatus` may change, on success; `loading` is down afterwards |
| `DashboardPage.PowerMarketDashboard.BeginFetchHistoricalData` | pages/index.js:50-58 | Raises `loading` and sends the historical query with the current time range and `includePredictions` as text |
| `DashboardPage.PowerMarketDashboard.FinishFetchHistoricalData` | pages/index.js:59-65 | `historicalData` is replaced on success and kept on failure; `loading` comes down either way |
| `DashboardPage.PowerMarketDashboard.FetchHistoricalData` | pages/index.js:50-66 | The whole handler: only `historicalData` may change, on success; `loading` is down afterwards |
| `DashboardPage.PowerMarketDashboard.BeginRunPrediction` | pages/index.js:68-75 | No precondition: raises `loading` and sends the current prediction configuration |
| `DashboardPage.PowerMarketDashboard.FinishRunPrediction` | pages/index.js:76-82 | `predictionResults` is replaced on success and kept on failure; `optimizationResults` is not touched; `loading` comes down |
| `DashboardPage.PowerMarketDashboard.RunPrediction` | pages/index.js:68-83 | The whole handler: only `predictionResults` may change, on success; `loading` is down afterwards |
| `DashboardPage.PowerMarketDashboard.BeginRunOptimization` | pages/index.js:85-100 | Without truthy `predictionResults?.predictions`: refused, no request, no state change. Otherwise `loading` goes up and the request carries the cached predictions and the current optimization configuration |
| `DashboardPage.PowerMarketDashboard.FinishRunOptimization` | pages/index.js:101-107 | `optimizationResults` is replaced on success and kept on failure; `loading` comes down; an optimization result always sits next to a prediction result (a successful body is stored as present, see Left out) |
| `DashboardPage.PowerMarketDashboard.RunOptimization` | pages/index.js:85-108 | The whole handler: refused with no change, or sends the request; only `optimizationResults` may change, on success |
| `DashboardPage.PowerMarketDashboard.ClickTab` | pages/index.js:271-282 | The clicked tab becomes active even when its action is refused, then that tab's action runs with its own effects |
| `HomePage.FileInputEnabled` | index.js:157 | The file input is disabled exactly while `uploading` is up |
| `HomePage.FileInputAtRest` | index.js:157 | After any sequence of handler runs the file input is enabled |
| `HomePage.PredictButtonEnabled` | index.js:222 | The prediction button is enabled exactly when an upload result is there and its `validation.valid` is truthy |
| `HomePage.PredictButtonAtRest` | index.js:222 | After any sequence of handler runs the prediction button is enabled exactly when the last upload started succeeded with a body whose `validation.valid` is truthy |
| `HomePage.OptimizeButtonEnabled` | index.js:335 | The optimization button is enabled exactly when predictions are there and `optimizing` is down |
| `HomePage.OptimizeButtonAtRest` | index.js:335 | After any sequence of handler runs the optimization button is enabled exactly when an accepted prediction succeeded after the last upload started |
| `HomePage.Upload` | index.js:14-42 | No file selected: nothing changes. Otherwise the file is recorded and predictions and optimization are cleared. Afterwards `uploading` is down and `result` is the body on success, null on failure |
| `HomePage.Predict` | index.js:44-65 | Refused with no change without an upload result; predictions replaced on success, kept on failure; nothing else changes |
| `HomePage.Optimize` | index.js:67-95 | Refused with no change without predictions; otherwise `optimizing` ends down and the optimization is replaced only on success |
| `HomePage.LastUpload` | index.js:14-22 | Position of the last action that started an upload; no later action starts one |
| `HomePage.ReplayConsistent` | index.js:18-22 | For any sequence of handler runs, with every successful body stored as present: optimization present implies predictions present, which implies an upload result present; no busy flag is left up |
| `HomePage.ResultLineage` | index.js:18-41 | An upload result is present exactly when the last upload started succeeded |
| `HomePage.PredictionsLineage` | index.js:20-21 | Predictions are present exactly when an accepted prediction succeeded after the last upload started |
| `HomePage.OptimizationLineage` | index.js:22 | An optimization is present exactly when an accepted optimization succeeded after the last upload started |
| `HomePage.OptimizeNeedsPrediction` | index.js:68-71 | An accepted optimization was preceded by a successful prediction with no upload started in between |
| `HomePage.NullPredictionBody` | index.js:59-64 | For example, after upload, prediction and optimization succeed, a prediction that succeeds with a `null` body is stored as present and the optimization stays |
| `HomePage.HandlerIgnoresValidation` | index.js:45-48 | For example, with an upload whose dataset did not validate, the button is disabled but the handler still accepts and stores predictions |
| `HomePage.Home.constructor` | index.js:5-10 | The first render: no file, no results, no busy flag |
| `HomePage.Home.BeginFileUpload` | index.js:14-32 | No file: refused, nothing changes. Otherwise records the file, raises `uploading` (which disables the file input), clears result, predictions and optimization, and sends the file |
| `HomePage.Home.FinishFileUpload` | index.js:34-41 | `result` becomes the body on success and stays null on failure; `uploading` comes down either way |
| `HomePage.Home.HandleFileUpload` | index.js:14-42 | The whole handler agrees with `Upload` and leaves the page consistent |
| `HomePage.Home.BeginPredict` | index.js:44-57 | Refused without an upload result. Otherwise sends `result.data` with 24 hours and the models rf, xgb and ensemble. No state changes; no busy flag |
| `HomePage.Home.FinishPredict` | index.js:59-64 | `predictions` is replaced on success and kept on failure; nothing else changes |
| `HomePage.Home.HandlePredict` | index.js:44-65 | The whole handler agrees with `Predict` |
| `HomePage.Home.BeginOptimize` | index.js:67-85 | Refused without predictions. Otherwise raises `optimizing` (which disables the button) and sends `predictions.predictions` with costs 400, 50 and 30 |
| `HomePage.Home.FinishOptimize` | index.js:87-94 | `optimization` is replaced on success and kept on failure; `optimizing` comes down either way |
| `HomePage.Home.HandleOptimize` | index.js:67-95 | The whole handler agrees with `Optimize` |

## Left out

- Rendering is not modelled: JSX, styles, tab highlighting, the loading indicator, table slicing and the blocks shown for each result.
- The I/O and DOM calls are not modelled: `fetch`, `axios`, `FormData`, `Blob`, `URL.createObjectURL`, `encodeURI`, the link element and its click. Each request is the `Request` value a handler returns, and its settlement is the `Outcome` parameter.
- `alert` and `console` messages are not modelled. A refusal is the `Refused` reply.
- The HTTP layer is not modelled. `fetch` resolving on non-2xx statuses, and so storing an error body as a result, is not distinguished; an outcome is a parsed body or a throw.
- Falsy response bodies are not modelled. A successful body is always stored as present, even a JSON `null` that JavaScript would treat as absent in a later `!result` test.
- Overlapping handlers are not modelled. Every `Begin…` requires that no continuation is pending, so for example an upload cannot start while a prediction is in flight. The source does not prevent this; it is concurrency.
- The configuration inputs are not modelled (`onChange` with `parseFloat`/`parseInt`). The configurations keep their initial values, and the handlers send whatever the fields hold.
- Floating point is not modelled: `toFixed`, the average-price `reduce`, and `weight * 100`. JSON numbers are integers; the prediction confidence level is the real 0.95.
- Date formatting and the `process.env` base URL are not modelled.
- `HomePage.ReplayConsistent`: holds only because a successful body is stored as present. In the component, upload, prediction and optimization succeeding and then a prediction that succeeds with a `null` body leaves `predictions` null while `optimization` is still set (`HomePage.NullPredictionBody` shows the model's side of that trace). The same holds for `HomePage.Home.Valid` and for `DashboardPage.PowerMarketDashboard.Valid` (a `null` body stored by `setPredictionResults` at pages/index.js:76-77, next to the optimization result set earlier at pages/index.js:102).
- `Csv.Field`: a key the row lacks but that names an inherited object property (for example `constructor` or `toString`) reads as that property's printed text in JavaScript, not as the empty string; the model gives the empty string.
- `Csv.DownloadCsv`: an empty `data` makes `downloadCSV` throw a TypeError at `Object.keys(data[0])` (index.js:99). The download button reaches it: a prediction body with an empty `predictions.predictions` still renders the block (index.js:237, 255) and its button (index.js:306). The model requires at least one row and does not model that throw.
- `HomePage.PredictButtonEnabled`: a result whose `validation` is missing or null would make the render throw; the model treats the button as disabled.
- The conversion of a JSON array of objects into CSV records is not modelled. The CSV builders take records with their key order given, and each value as the text JavaScript would print. That includes `null` and `undefined`, which print as the empty string, and integer-like keys, which JavaScript lists first.
- The filename argument of both CSV builders is not modelled, since it only names the download.
