# nestjs-mindsdb, modelled in Dafny

This project models the core of `nestjs-mindsdb`. That is a NestJS service in front of a remote
MindsDB server. It keeps a table of model definitions (`IModel`) and offers these operations:

- **create** a model: check that it does not exist, create its derived view when missing, then
  train it;
- **predict** with it: strip `undefined` request properties, build the query options, and send a
  single or a batch query;
- **finetune** (adjust) and **retrain** it;
- **remove** it;
- **retrain on a schedule**: a scheduler decides whether each model is behind its cadence,
  retrains the ones that are, and registers one `retrain-<name>` cron job per model.

The model is split into one module per concern:

| module | file | models |
|---|---|---|
| `Wrappers` | `wrappers.dfy` | `Option` (JavaScript `undefined`/`null` as `??` sees them) and `Result` (a value or a thrown error) |
| `JsString`, `SqlString`, `IsoDate` | `js_string.dfy`, `sql_string.dfy`, `iso_date.dfy` | the library behaviour the core relies on: `String.prototype.replace` with a string pattern and its `$` patterns, `indexOf`, `startsWith`, the decimal text of an integral Number, `mysql.escape` for strings and numbers, and `Date.prototype.toISOString` |
| `MindsdbModels` | `mindsdb_models.dfy` | `src/mindsdb.models.ts`: `IModel` and the option records as datatypes, and `queryReplacer` with its inner fold, `getPredictOptions` and `getAdjustOptions` as functions |
| `Dto` | `dto.dfy` | the predict request as a class whose properties can be absent, `undefined`, `null` or set, so that `predict` can delete them in place |
| `RetrainJob` | `retrain_job.dfy` | `src/retrain-job.service.ts`: `shouldRunNow` as a function over millisecond time values; the cron registry and `RetrainJobService` as classes, with their loops |
| `Service` | `mindsdb_service.dfy` | `src/mindsdb.service.ts`: the remote MindsDB client as a class holding the remote models, the views and a log of every request; `MindsdbService` as a class with its mutable `project` |
| `Fixtures` | `fixtures.dfy` | the two definitions of `src/models.ts`, and the outcomes the repository's tests expect of them |

Each method of a class states its new state as a function of the old one:

- the registry after a resync is `RegisterAll` of the cleared registry;
- the client after a request is `CreateSpec`, `PredictSpec`, `FinetuneSpec`, `RetrainSpec` or
  `RemoveSpec` of the client before it.

Lemmas then state what the source promises about those functions.

Some facts about the code that the model keeps:

- Each template key is replaced at its first occurrence only (`String.prototype.replace` with a
  string pattern).
- The escaped value is itself a replacement pattern, so `$` sequences in it are expanded.
- Escaping does not keep string values out of the SQL text. A string value holding a later key
  carries that key into its quotes, and the later value then closes them
  (`MindsdbModels.ValueCarriesLaterKey`). A value `` $` `` copies the template's own text into the
  literal (`MindsdbModels.ValueExpandsAsPattern`).
- The project is `NODE_ENV`, or "mindsdb" when it is unset.
- The predict test passes its record as a third argument, which `getPredictOptions` ignores, so
  the test's request is the string `'ss'`.

## Model

| member | source | states |
|---|---|---|
| `Dto.Prop.AsOption` | src/mindsdb.models.ts:52 | `??` sees a value exactly when the property holds one: absent, `undefined` and `null` all give way |
| `Dto.Prop.DropUndefined` | src/mindsdb.service.ts:107-108 | deleting an `undefined` property leaves no `undefined`, leaves every other property as it was, and does not change what `??` reads |
| `Dto.PredictProps.Keys` | src/mindsdb.service.ts:106 | `Object.keys(query)` lists exactly the properties on the object, `undefined` ones included |
| `Dto.PredictProps.DeleteIfUndefined` | src/mindsdb.service.ts:107-109 | one visit removes the key if and only if it held `undefined`, touches no other key, and does not change the request as `getPredictOptions` reads it |
| `Dto.DeleteUndefinedAtFields` | src/mindsdb.service.ts:106-110 | visiting keys in any order, with repeats, strips `undefined` from exactly the visited properties |
| `Dto.VisitingAllKeysStrips` | src/mindsdb.service.ts:106-110 | visiting every key on the object strips every `undefined`, keeps a property if and only if it was there and not `undefined`, and leaves the options request unchanged |
| `Dto.PredictMindsdbDto.constructor` | src/dto/predict-mindsdb.dto.ts:4-25 | a request with the five optional properties `join`, `where`, `limit`, `params`, `version` |
| `Dto.PredictMindsdbDto.Delete` | src/mindsdb.service.ts:108 | `delete query[key]` makes that one property absent and nothing else changes |
| `Dto.PredictMindsdbDto.DeleteIfUndefined` | src/mindsdb.service.ts:107-109 | the object afterwards is `DeleteIfUndefined` of the object before |
| `Dto.PredictMindsdbDto.DeleteUndefined` | src/mindsdb.service.ts:106-110 | the loop over `Object.keys` leaves the object with exactly its non-`undefined` properties (loop invariant: the keys visited so far are stripped) |
| `JsString.IndexOf` | src/mindsdb.models.ts:68-69 | `indexOf` finds an occurrence with none before it, and nothing only when the key occurs nowhere |
| `JsString.IndexOfIsFirst` | src/mindsdb.models.ts:68-69 | `indexOf` returns `i` if and only if `i` is the first occurrence |
| `JsString.Substitution` | src/mindsdb.models.ts:68-75 | a replacement text without `$` is inserted as it is |
| `JsString.Replace` | src/mindsdb.models.ts:68-75 | `replace` with a key that occurs nowhere returns the text unchanged |
| `JsString.ReplaceFirstOccurrence` | src/mindsdb.models.ts:68-75 | `replace` rewrites only the first occurrence, keeping the text around it, and inserts a `$`-free replacement verbatim |
| `JsString.ConcatStartsWith` | src/retrain-job.service.ts:65 | every `retrain-<name>` key starts with `retrain-` |
| `JsString.NatText` | src/mindsdb.models.ts:70-74 | the decimal text of a Number is non-empty, all digits, with no leading zero |
| `JsString.NatTextRoundTrip` | src/mindsdb.models.ts:70-74 | the digits read back as the number they were written from |
| `JsString.IntTextRoundTrip` | src/mindsdb.models.ts:70-74 | an integral Number's text is a sign and digits, and reads back as the Number |
| `SqlString.EscapeChar` | src/mindsdb.models.ts:70-74 | a special character becomes a two-character backslash pair; every other character stays as it is |
| `SqlString.EscapeBody` | src/mindsdb.models.ts:70-74 | a string with no special character is escaped to itself |
| `SqlString.EscapeBodyRoundTrip` | src/mindsdb.models.ts:70-74 | escaping loses nothing: SQL reads the literal back as the original string |
| `SqlString.EscapeBodyHasNoBareQuote` | src/mindsdb.models.ts:70-74 | an escaped string literal contains no unescaped single quote |
| `SqlString.Escape` | src/mindsdb.models.ts:70-74 | a string becomes one quoted literal with no unescaped quote inside, which SQL reads back as the string; a number becomes an optional sign and digits, which read back as the number |
| `SqlString.EscapeNumber` | src/mindsdb.models.ts:70-74 | a number is written unquoted as its decimal text, which reads back as the number |
| `SqlString.EscapePlainText` | src/mindsdb.models.ts:70-74 | a string with no special character is written as itself between single quotes |
| `IsoDate.YearOfEraInCycle` | src/mindsdb.models.ts:71-73 | the year-of-era formula puts each day of a four-year cycle in its own year |
| `IsoDate.YearOfEraBounds` | src/mindsdb.models.ts:71-73 | every day of a 400-year era falls in one of its years, at most 365 days after that year starts |
| `IsoDate.CivilFromDays` | src/mindsdb.models.ts:71-73 | the date of a day number is a valid Gregorian date: a month 1..12 and a day within that month's length, February 29 only in a leap year |
| `IsoDate.DaysInMonth` | src/mindsdb.models.ts:71-73 | a month has 28 to 31 days, and 29 exactly in February of a Gregorian leap year |
| `IsoDate.LastDayOfYearIsLeapDay` | src/mindsdb.models.ts:71-73 | in the 400-year cycle, a 366th day in a (March-based) year falls in a year whose next calendar year is a leap year |
| `IsoDate.LeapYearPeriod` | src/mindsdb.models.ts:71-73 | the leap-year rule repeats every 400 years |
| `IsoDate.DivisionUnique` | src/mindsdb.models.ts:71-73 | Euclidean division has exactly one remainder, the basis of moving dates by whole 400-year eras |
| `IsoDate.CivilRoundTrip` | src/mindsdb.models.ts:71-73 | converting a day number to a date and back gives the day number, so the valid date found names that day |
| `IsoDate.PartsOf` | src/mindsdb.models.ts:71-73 | the fields `toISOString` writes are in range: a valid Gregorian date, hour below 24, minute and second below 60, millisecond below 1000 |
| `IsoDate.PartsRoundTrip` | src/mindsdb.models.ts:71-73 | the fields identify the instant: the time value is recovered from them |
| `IsoDate.Pad` | src/mindsdb.models.ts:71-73 | a padded field is all digits and at least as wide as asked |
| `IsoDate.NatTextFits` | src/mindsdb.models.ts:71-73 | a number below 10^w has at most w digits |
| `IsoDate.PadWidth` | src/mindsdb.models.ts:71-73 | every field is padded to exactly its width |
| `IsoDate.IsoStringLayout` | src/mindsdb.models.ts:71-73 | for years 0..9999, `toISOString` text is 24 characters in the layout `YYYY-MM-DDTHH:mm:ss.sssZ` |
| `IsoDate.YearText` | src/mindsdb.models.ts:71-73 | the year is written in at least four characters, each a digit or the sign of an expanded year |
| `IsoDate.ToIsoString` | src/mindsdb.models.ts:71-73 | the ISO text has at least 24 characters, ends in `Z`, and holds only digits, the year sign and the separators, so `mysql.escape` has nothing to escape in it |
| `MindsdbModels.RenderValue` | src/mindsdb.models.ts:70-74 | a string parameter is one quoted literal that SQL reads back as the string; a number is an optional sign and digits that read back as the number; a date is its ISO text between single quotes |
| `MindsdbModels.RenderNumber` | src/mindsdb.models.ts:70-74 | a number parameter is written as its bare decimal text, with no `$` in it |
| `MindsdbModels.RenderDate` | src/mindsdb.models.ts:71-73 | the quoted ISO text of a date holds no `$`, so `replace` inserts it as it is |
| `MindsdbModels.Substitute` | src/mindsdb.models.ts:65-77 | an empty parameter record leaves the template as it is |
| `MindsdbModels.SubstituteAppend` | src/mindsdb.models.ts:66-76 | the fold goes over the keys in order: substituting two records in turn is substituting their concatenation |
| `MindsdbModels.SubstituteLastKey` | src/mindsdb.models.ts:66-76 | each key acts on the text as every earlier key left it, and replaces only its own first occurrence there |
| `MindsdbModels.AbsentKeysKeepTemplate` | src/mindsdb.models.ts:66-76 | keys that occur nowhere in the template leave it unchanged |
| `MindsdbModels.SingleKeyFirstOccurrence` | src/mindsdb.models.ts:66-76 | one number or date key becomes its rendered value at its first occurrence, and the rest of the text is kept |
| `MindsdbModels.ValueCarriesLaterKey` | src/mindsdb.models.ts:66-76 | escaping does not keep a string value out of the SQL text: a value holding a later key carries that key into its quotes, the later string value is put there, and its text ends up outside any quotes, between two empty literals |
| `MindsdbModels.ValueExpandsAsPattern` | src/mindsdb.models.ts:68-75 | the escaped value is a `replace` pattern: a string value `` $` `` becomes the template's text before the key, quotes included, copied into the literal |
| `MindsdbModels.SubstituteWhere` | src/mindsdb.models.ts:79-82 | a string template is substituted as a whole; a list is mapped element by element, keeping its length and order |
| `MindsdbModels.QueryReplacer` | src/mindsdb.models.ts:61-83 | with a parameter record it substitutes and keeps the template's shape; without one it throws a TypeError, unless the template is an empty list |
| `MindsdbModels.EmptyParamsKeepTemplate` | src/mindsdb.models.ts:61-83 | an empty parameter record returns the template unchanged, string or list |
| `MindsdbModels.SubstitutionRequested` | src/mindsdb.models.ts:54 | `query.where ?? query.params` is truthy only when one of them is set; an empty `where` string is falsy and, not being nullish, keeps the parameters from being looked at |
| `MindsdbModels.GetPredictOptions` | src/mindsdb.models.ts:47-59 | `join` and `limit` are the request's, falling back to the definition's. `where` is the definition's template, substituted when `query.where ?? query.params` is truthy. It fails exactly when substitution is asked for without parameters, on any template but an empty list (a single empty string fails too) |
| `MindsdbModels.CallerWhereIgnored` | src/mindsdb.models.ts:53-56 | the caller's own `where` never reaches the output: any two truthy `where` values give the same options |
| `MindsdbModels.GetAdjustOptions` | src/mindsdb.models.ts:40-45 | each field is the request's when set, the definition's otherwise. A TypeError is thrown exactly when a field is missing and the definition has no adjust options |
| `MindsdbModels.AdjustRequestWins` | src/mindsdb.models.ts:40-45 | a request that sets both fields is sent as it is: `using` is replaced whole, never merged |
| `RetrainJob.DefaultSchedule` | src/retrain-job.service.ts:19-24 | the table has exactly the four cadences, with monthly `0 4 1 * *`, weekly `0 4 * * 0`, daily `0 4 * * *` and hourly `0 * * * *` |
| `RetrainJob.StepUnit` | src/retrain-job.service.ts:99 | the step unit is the cadence name less its last two characters |
| `RetrainJob.StepUnits` | src/retrain-job.service.ts:99 | the units are `month`, `week`, `dai` and `hour` |
| `RetrainJob.SubtractOne` | src/retrain-job.service.ts:99 | stepping back by a unit other than a month or a week moves back by at least one millisecond and at most one hour |
| `RetrainJob.DueThreshold` | src/retrain-job.service.ts:92-101 | for the daily and hourly cadences the latest due last-run time lies before the next fire time, read in the zone, less the 20-minute buffer |
| `RetrainJob.ShouldRunNow` | src/retrain-job.service.ts:71-106 | no last run gives false before anything else is checked. A cadence whose expression is missing or does not parse throws "Invalid cron expression". Otherwise the result is true if and only if the last run is not after the next fire time, read in the zone, one period earlier, less 20 minutes |
| `RetrainJob.ShouldRunNowMonotone` | src/retrain-job.service.ts:99-105 | being due is monotone: an earlier last run is due whenever a later one is, and a later one is not due whenever an earlier one is not |
| `RetrainJob.DailyStepsOneMillisecond` | src/retrain-job.service.ts:99-101 | the daily cadence steps back one millisecond, not one day, because dayjs does not know the unit `dai` |
| `RetrainJob.HourlyStepsOneHour` | src/retrain-job.service.ts:99-101 | the hourly cadence steps back exactly one hour before the 20-minute buffer |
| `RetrainJob.LaterThanNextFireNotDue` | src/retrain-job.service.ts:92-105 | a sufficient condition for not being due: a last run after the next fire time read in the zone is never due (when month and week steps go backwards) |
| `RetrainJob.MonthlyAheadNotDue` | src/retrain-job.service.ts:92-105 | the test's "one month ahead" case: for a monthly expression, a last run less than 28 days before the zoned next fire time is not due, when a calendar month step goes back at least 28 days |
| `RetrainJob.SchedulerRegistry.constructor` | src/retrain-job.service.ts:19 | the registry starts empty |
| `RetrainJob.SchedulerRegistry.AddCronJob` | src/retrain-job.service.ts:123 | a job is added under a free name; a taken name is refused and the registry is unchanged |
| `RetrainJob.SchedulerRegistry.DeleteCronJob` | src/retrain-job.service.ts:66 | deleting a registered name removes that entry only |
| `RetrainJob.JobKey` | src/retrain-job.service.ts:123 | every retrain job key starts with `retrain-` |
| `RetrainJob.WithoutRetrainJobs` | src/retrain-job.service.ts:61-69 | exactly the entries whose name does not start with `retrain-` are kept, with their jobs unchanged |
| `RetrainJob.RegisterRun` | src/retrain-job.service.ts:51-56 | processing one model keeps every registered entry and adds at most its own `retrain-<name>` job, and only when the model has a cadence whose expression parses |
| `RetrainJob.RegisterAll` | src/retrain-job.service.ts:33-57 | the registry after every model is processed in order; what it holds is stated by `RegisterAllKeys` and `RegisterAllFirstWins` |
| `RetrainJob.Due` | src/retrain-job.service.ts:34-43 | a model is retrained at once when it has a cadence and `shouldRunNow` returns true for it |
| `RetrainJob.CatchUps` | src/retrain-job.service.ts:33-50 | the names of the models retrained at once, in order; what it holds is stated by `CatchUpsAreDue` |
| `RetrainJob.CatchUpsAreDue` | src/retrain-job.service.ts:33-50 | no model triggers more than one retrain, and a name is retrained at once exactly when some model of that name is due |
| `RetrainJob.RegisterAllKeys` | src/retrain-job.service.ts:33-57 | registering adds exactly the `retrain-` keys of the models with a cadence whose expression parses, and keeps every existing entry |
| `RetrainJob.RegisterAllFirstWins` | src/retrain-job.service.ts:51-56 | a model's job holds the table's expression for its cadence, the zone and its name, and the first model registered under a name wins |
| `RetrainJob.ResyncIdempotent` | src/retrain-job.service.ts:32-57 | a resync clears what the previous resync registered: the registry apart from retrain jobs is the same after any number of resyncs |
| `RetrainJob.RetrainJobService.constructor` | src/retrain-job.service.ts:15-24 | the service starts with the default schedule table |
| `RetrainJob.RetrainJobService.ClearRetrainJobs` | src/retrain-job.service.ts:61-69 | the loop deletes exactly the `retrain-` jobs and keeps the rest (loop invariant over the names still to visit) |
| `RetrainJob.RetrainJobService.ScheduleRetrainTask` | src/retrain-job.service.ts:108-128 | a job is registered under `retrain-<name>`, with zone "UTC" by default. Nothing is registered when the expression does not parse or the name is taken |
| `RetrainJob.RetrainJobService.ScheduleModelUpdates` | src/retrain-job.service.ts:26-59 | the registry becomes `RegisterAll` of the cleared registry, using the override table when given and "UTC" when no zone is given. The models retrained at once are exactly the due ones, in order, and their jobs are registered whatever the retrain does |
| `Service.Logged` | src/mindsdb.service.ts:62 | a request that changes nothing remote is appended to the log and leaves models and views unchanged |
| `Service.TrainingPayload` | src/mindsdb.service.ts:84-87 | the payload always has an integration: the definition's own when it names one, the project otherwise. Every other option is the definition's |
| `Service.ViewStep` | src/mindsdb.service.ts:67-79 | the view step of `create` keeps the models and every earlier request, and touches no other project's views |
| `Service.CreateSpec` | src/mindsdb.service.ts:60-89 | `create` first looks the model up, after every earlier request; its outcomes are stated by the `Create…` lemmas |
| `Service.CreateRefusesExisting` | src/mindsdb.service.ts:61-65 | `create` of a model that exists fails with "Model … already exists", after only the lookup |
| `Service.CreateTrainsDefinition` | src/mindsdb.service.ts:66-88 | a successful `create` trains the definition's model under the project with the merged payload, and keeps every other model and every earlier request |
| `Service.CreateMakesMissingView` | src/mindsdb.service.ts:67-79 | the view is created, under `view.name ?? model.name`, exactly when no view of the project has the definition's view name |
| `Service.UnnamedViewAlwaysCreated` | src/mindsdb.service.ts:69-77 | a view without a name matches no existing view, so `create` always creates it |
| `Service.CreateTwiceRefused` | src/mindsdb.service.ts:61-88 | creating the same model twice fails the second time |
| `Service.UsesBatch` | src/mindsdb.service.ts:111 | a join that reaches the options always selects the batch query; with no join in the request or the definition, the single query is used |
| `Service.PredictSpec` | src/mindsdb.service.ts:99-118 | `predict` looks the model up, then sends one query built by `getPredictOptions`; its outcomes are stated by `PredictSendsOptions` and `PredictErrorOrder` |
| `Service.PredictSendsOptions` | src/mindsdb.service.ts:99-118 | a prediction sends `getPredictOptions` of the definition and the request: a batch query exactly when a join is set, a single query otherwise. A failed prediction sends nothing after the lookup |
| `Service.PredictErrorOrder` | src/mindsdb.service.ts:100-116 | a missing definition is reported before a missing remote model, and a missing remote model before missing parameters |
| `Service.FinetuneSpec` | src/mindsdb.service.ts:120-127 | `finetune` looks the model up, then sends one adjust request; its outcomes are stated by `FinetuneIntegration` |
| `Service.FinetuneIntegration` | src/mindsdb.service.ts:120-127 | an adjustment goes to `modelDef.integration ?? project`, and fails when the remote model or the definition is missing |
| `Service.RetrainSpec` | src/mindsdb.service.ts:129-137 | `retrain` sends one retrain request for a defined model; its outcomes are stated by `RetrainSendsTarget` |
| `Service.RetrainSendsTarget` | src/mindsdb.service.ts:129-137 | a retrain sends the caller's request unchanged, with the definition's target column and the project. An undefined model sends nothing |
| `Service.RemoveSpec` | src/mindsdb.service.ts:139-141 | `remove` sends one delete request and the model is gone from the project afterwards |
| `Service.RemoveThenCreate` | src/mindsdb.service.ts:139-141 | after `remove`, `create` of the same name is no longer refused as existing |
| `Service.Remote.constructor` | src/mindsdb.service.ts:44-46 | the client starts with the given models and views and an empty log |
| `Service.Remote.GetModel` | src/mindsdb.service.ts:101-105 | the lookup answers whether the model exists and is logged |
| `Service.Remote.GetAllViews` | src/mindsdb.service.ts:69 | the project's view names are returned and the request is logged |
| `Service.Remote.CreateView` | src/mindsdb.service.ts:73-77 | the view is appended to the project's views and the request is logged |
| `Service.Remote.TrainModel` | src/mindsdb.service.ts:80-88 | the model exists afterwards and the request is logged |
| `Service.Remote.DeleteModel` | src/mindsdb.service.ts:140 | the model no longer exists and the request is logged |
| `Service.Remote.Send` | src/mindsdb.service.ts:111-117 | a query, adjustment or retrain is logged and changes nothing else |
| `Service.MindsdbService.constructor` | src/mindsdb.service.ts:23-28 | the project is `NODE_ENV`, or "mindsdb" when it is unset |
| `Service.MindsdbService.SetProject` | src/mindsdb.service.ts:52-54 | the setter replaces the project |
| `Service.MindsdbService.Create` | src/mindsdb.service.ts:60-89 | the client afterwards and the result are `CreateSpec` of the client before |
| `Service.MindsdbService.Predict` | src/mindsdb.service.ts:99-118 | the request loses exactly its `undefined` properties. The client afterwards and the result are `PredictSpec` of the client before and of the request as it was |
| `Service.MindsdbService.Finetune` | src/mindsdb.service.ts:120-127 | the client afterwards and the result are `FinetuneSpec` of the client before |
| `Service.MindsdbService.Retrain` | src/mindsdb.service.ts:129-137 | the client afterwards and the result are `RetrainSpec` of the client before |
| `Service.MindsdbService.Remove` | src/mindsdb.service.ts:139-141 | the client afterwards and the delete request are `RemoveSpec` of the client before |
| `Fixtures.NewYearIsoString` | src/mindsdb.models.spec.ts:32-35 | `new Date('2022-01-01')` is written as `2022-01-01T00:00:00.000Z` |
| `Fixtures.FirstOfTwoKeys` | src/mindsdb.models.ts:65-77 | with two `$` keys, a condition holding only the first key gets the first value and keeps it |
| `Fixtures.SecondOfTwoKeys` | src/mindsdb.models.ts:65-77 | a longer first key leaves a condition holding only the second key untouched, and the second key gets its value |
| `Fixtures.FirstConditionSubstituted` | src/models.ts:13 | `t.customerId = $CUSTOMER_ID$` becomes `t.customerId = 1123213` |
| `Fixtures.SecondConditionSubstituted` | src/models.ts:13 | `t.date > $DATE$` becomes `t.date > '<ISO text>'` |
| `Fixtures.PredictTestIntended` | src/mindsdb.models.spec.ts:29-35 | with the test's record as the request, `balance_auto`'s conditions become `t.customerId = 1123213` and `t.date > '<ISO text of the date>'` |
| `Fixtures.PredictTestAsWritten` | src/mindsdb.models.spec.ts:29 | with the string `'ss'` as the request, as the test is written, the template comes back unsubstituted |
| `Fixtures.CreateBalanceGluon` | src/models.ts:31-61 | creating `balance_gluon` in an empty project makes four requests (lookup, list views, create its view, train with the project as integration) and returns the model |

## Left out

- Numbers in parameters are integers. Fractions, `NaN`, infinities and exponent notation in
  `String(n)` are not modelled.
- `Date` parameters are valid dates. An invalid `Date` (whose `toISOString` throws) is not modelled.
- Parameter records are sequences in `Object.keys` order. JavaScript lists integer-like keys
  first, and that ordering rule is not modelled.
- Parameter values are strings, numbers and dates. Other values `mysql.escape` accepts (booleans,
  arrays, objects, `null`) are not modelled.
- `sendAt` (next fire time) and `dayjs(...).tz(zone, true)` (reading a time in a zone) are
  function parameters of the model. So are dayjs month and week arithmetic. Time-zone validity is
  not checked.
- The clock is not modelled. The scheduler test compares against "now", so only its
  "one month ahead" case is stated, as `RetrainJob.MonthlyAheadNotDue`, under the hypothesis that
  dayjs's month step goes back at least 28 days.
- LaterThanNextFireNotDue: only a sufficient condition. It needs the last run after the zoned next
  fire time, which a run one month after now misses for some hours each month (the next fire can
  be up to a month away, and reading it in a zone moves it by hours). `MonthlyAheadNotDue` covers
  those hours for monthly expressions.
- RetrainJob.RetrainJobService.ScheduleModelUpdates: an invalid expression in the table makes
  `shouldRunNow` throw "Invalid cron expression" inside the non-awaited `forEach(async …)`
  callback. In Node 15 and later such an unhandled rejection ends the process by default. The
  model skips that model and carries on with the others.
- RetrainJob.RetrainJobService.ScheduleRetrainTask: `new CronJob` on an expression that does not
  parse, and `addCronJob` on a taken name, throw inside the same non-awaited callback, with the
  same unhandled rejection. On a taken name the job was already built with `start` set, so it keeps
  firing outside the registry where `clearRetrainJobs` cannot stop it. The model returns normally
  with nothing registered in both cases, and does not model the stray job.
- Timers, `job.start()`, firing, and the non-awaited `forEach(async …)` are not modelled. Models
  are processed one after another, so when two models share a name, the first in sequence wins.
- A failing catch-up retrain changes nothing in the model, since the source catches it. The
  triggered function itself is not modelled; `ScheduleModelUpdates` returns the names it is
  called with.
- The remote client's own failures and the answers it sends are not modelled. It records
  requests and holds models and views. Model versions are not distinguished.
- `findAll`, `findOne`, `onModuleInit` and the client connection are not part of this model.
  Neither are the controller, the module wiring and logging.
- `getFinetuneOptions` is imported by the service but not defined in `src/mindsdb.models.ts`. The
  model does not invent it: the adjust request records the definition and the caller's request
  unchanged.
- `src/dto/adjust-mindsdb.dto.ts` is not part of this model, so the adjust request is the pair
  (`select`, `using`) that `getAdjustOptions` reads.
- `src/dto/retrain-mindsdb.dto.ts` is not part of this model, so a retrain request is an opaque
  JSON value that is passed on unchanged.
- `Service.TrainingPayload`: a `trainingOptions` that sets `integration` explicitly to
  `undefined` would override the project in the spread. Optional properties are `Option`s here,
  so that case is not modelled.
