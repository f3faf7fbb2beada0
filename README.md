# Weather page and to-do list, modelled in Dafny

This project models the logic of two small front-end apps.

- **The weather page (React).** The `useWeather` hook searches a city. It checks the API key, requests the current weather and then the five-day forecast, and reduces the 3-hourly forecast list to daily summaries. The page component keeps a favorites list and offers a retry. The error panel classifies a message by its words. The search form trims and submits its text. A table of canned weather data is looked up by normalised city name.
- **The to-do list page (plain JavaScript).** It keeps an in-memory list of tasks plus the id of the task being edited. It handles submit (add or edit), delete, the completion checkbox and the Edit button.

Each source file keeps its own form in the model:
- The hook, the to-do page and the search form change state step by step. They are classes: `UseWeather.WeatherHook`, `Todo.TodoApp` and `SearchBar.SearchBar`.
- Each state-changing method is proved against a specification function of the old state: `AfterSearch`, `AfterSubmit`, `Deleted`, `Checked` and `Submit`. The properties of those functions are lemmas.
- The forecast reduction and `getMostCommon` loop over arrays and objects. `Forecast.ProcessForecastData` and `Forecast.MostCommon` are methods whose loops live in `Forecast.GroupByDate`, `Forecast.SummarizeFirst`, `Forecast.Tally` and `Forecast.ReduceKeys`, each with its loop invariants. The two methods are proved equal to the functions `Aggregate` and `ModalOf`.
- The favorites handlers, the error panel and the canned data only compute values. They are functions and lemmas.

Modules:
- `Wrappers`: `Option`.
- `Text`: JavaScript `trim` over the full white-space set, ASCII case mapping, `includes`, decimal strings.
- `Seqs`: counting, first-seen distinct values, first index.
- `WeatherModel`: the two displayed records.
- `Forecast`, `UseWeather`, `App`, `ErrorDisplay`, `SearchBar`, `MockWeather`: the weather page.
- `Todo`: the to-do page.

Inputs the programs draw from the outside world are parameters:
- the environment's API key (`Option<string>`);
- the outcome of each `fetch`: an exception message, or an HTTP status and a parsed body;
- the function from a timestamp to its `toDateString` key;
- the fresh task id and the creation time;
- the random draws of the canned-data generator;
- the values of the form fields.

Temperatures are whole degrees. Wind speed is in tenths of a metre per second.

`getMostCommon` breaks ties the way its `reduce` is written (useWeather.ts:210): the accumulator is replaced when a later key's count is at least as large, so among equally frequent values the one seen first latest wins. A description of the function as "the first value to reach the maximum" does not match this code; the model follows the code.

## Model

| member | source | states |
|---|---|---|
| UseWeather.WeatherHook.constructor | 02-react-modern-frontend/src/hooks/useWeather.ts:49-53 | the hook starts with no card, an empty forecast, not loading, no error and no current city |
| UseWeather.WeatherHook.SearchCity | 02-react-modern-frontend/src/hooks/useWeather.ts:55-124 | `searchCity` leaves the hook in the state `AfterSearch` gives for the state before the call |
| UseWeather.WeatherHook.FetchForecast | 02-react-modern-frontend/src/hooks/useWeather.ts:126-149 | `fetchForecast` sets only `forecast`: the summaries of a good reply, or `[]` when the request throws, is not ok, or an entry has no condition |
| UseWeather.SearchSettles | 02-react-modern-frontend/src/hooks/useWeather.ts:61-123 | every search ends with `loading` false |
| UseWeather.MissingKeyStopsSearch | 02-react-modern-frontend/src/hooks/useWeather.ts:61-67 | a missing, empty or placeholder key sets the configuration message, clears the card and keeps the forecast and current city as they were |
| UseWeather.WeatherFailureClears | 02-react-modern-frontend/src/hooks/useWeather.ts:77-123 | a thrown request, a non-ok status or a reply without a condition clears card and forecast and shows that error's message |
| UseWeather.CardIffSuccess | 02-react-modern-frontend/src/hooks/useWeather.ts:94-107 | the card is set exactly when the key is usable and the current request succeeds with a condition; it is then the reply's snapshot and no error shows |
| UseWeather.ForecastFailureSwallowed | 02-react-modern-frontend/src/hooks/useWeather.ts:126-149 | a failing forecast request empties the forecast but keeps the card and the empty error |
| UseWeather.SearchConsistent | 02-react-modern-frontend/src/hooks/useWeather.ts:69-123 | after a search with a usable key, a forecast only shows beside a card, and a card never shows beside an error |
| UseWeather.ForecastFromReply | 02-react-modern-frontend/src/hooks/useWeather.ts:136-203 | a good forecast reply yields one day per distinct date of its entries, at most five, each high temperature coming from an entry of that date |
| UseWeather.FailureMessageFacts | 02-react-modern-frontend/src/hooks/useWeather.ts:80-88 | the 404 message names the city, the 401 message is the fixed invalid-key text, and any other failure names its status code |
| UseWeather.NotFoundNamesCity | 02-react-modern-frontend/src/hooks/useWeather.ts:82 | the 404 message contains the searched city |
| UseWeather.StatusMessageContainsCode | 02-react-modern-frontend/src/hooks/useWeather.ts:86 | the generic failure message contains the decimal status code |
| UseWeather.StatusMessageNamesStatus | 02-react-modern-frontend/src/hooks/useWeather.ts:86 | the status code can be read back from the generic message at its position |
| Forecast.ProcessForecastData | 02-react-modern-frontend/src/hooks/useWeather.ts:151-203 | `processForecastData` returns `Aggregate` of the samples: group by date key, then summarise the first five keys |
| Forecast.GroupByDate | 02-react-modern-frontend/src/hooks/useWeather.ts:152-171 | the grouping pass gives the keys in first-seen order and, under each key, the temperatures, descriptions and icons of exactly that key's samples in list order |
| Forecast.SummarizeFirst | 02-react-modern-frontend/src/hooks/useWeather.ts:174-200 | the mapping pass gives one summary per key for the first `n` keys, in order |
| Forecast.SummarizeDay | 02-react-modern-frontend/src/hooks/useWeather.ts:176-199 | one day's entry is the maximum and minimum temperature and the most common description and icon |
| Forecast.GroupedSummaries | 02-react-modern-frontend/src/hooks/useWeather.ts:174-202 | summarising the grouped buckets in insertion order, capped at five, equals `Aggregate` |
| Forecast.MostCommon | 02-react-modern-frontend/src/hooks/useWeather.ts:205-211 | `getMostCommon` returns `ModalOf` of the array |
| Forecast.Tally | 02-react-modern-frontend/src/hooks/useWeather.ts:206-209 | the counting pass gives each distinct value with its number of occurrences, keys in first-seen order |
| Forecast.ModalIsMostCommon | 02-react-modern-frontend/src/hooks/useWeather.ts:205-211 | the result occurs in the array, no value occurs more often, and among equally frequent values it is the one whose first occurrence is latest |
| Forecast.ReduceKeys | 02-react-modern-frontend/src/hooks/useWeather.ts:210 | the `reduce` over the tallied keys ends on the key `ReduceIndex` names |
| Forecast.ReduceIndexUnique | 02-react-modern-frontend/src/hooks/useWeather.ts:210 | only one key has a largest count with every later key strictly less frequent, and the reduction ends on it |
| Forecast.ModalBeats | 02-react-modern-frontend/src/hooks/useWeather.ts:205-211 | no value is more frequent than the result, and a value tied with it first occurs no later |
| Forecast.TallyStep | 02-react-modern-frontend/src/hooks/useWeather.ts:207-209 | counting one more item appends it to the keys if new and raises only its own count |
| Forecast.ReduceIndex | 02-react-modern-frontend/src/hooks/useWeather.ts:210 | the `reduce` keeps the later key unless the earlier is strictly more frequent, so it ends on the last key of maximal count |
| Forecast.ReduceIndexSnoc | 02-react-modern-frontend/src/hooks/useWeather.ts:210 | one more reduction step keeps the accumulator unless the new key is at least as frequent |
| Forecast.Max | 02-react-modern-frontend/src/hooks/useWeather.ts:181 | `Math.max` of a non-empty array is an element that bounds all others |
| Forecast.Min | 02-react-modern-frontend/src/hooks/useWeather.ts:182 | `Math.min` of a non-empty array is an element bounded by all others |
| Forecast.BucketOf | 02-react-modern-frontend/src/hooks/useWeather.ts:159-170 | each bucket's three arrays have as many entries as the key has samples |
| Forecast.SampleInBucket | 02-react-modern-frontend/src/hooks/useWeather.ts:155-170 | each sample's temperature, description and icon are pushed into its own date's bucket |
| Forecast.BucketEntrySource | 02-react-modern-frontend/src/hooks/useWeather.ts:155-170 | every bucket entry comes, in all three arrays at the same position, from one sample with the bucket's key |
| Forecast.ShownKeys | 02-react-modern-frontend/src/hooks/useWeather.ts:174-175 | at most five date keys are shown |
| Forecast.AggregateLength | 02-react-modern-frontend/src/hooks/useWeather.ts:174-175 | the result has min(number of distinct dates, 5) entries |
| Forecast.AggregateAt | 02-react-modern-frontend/src/hooks/useWeather.ts:176-199 | entry `j` is the summary of the bucket of the `j`-th shown key |
| Forecast.AggregateEmpty | 02-react-modern-frontend/src/hooks/useWeather.ts:151-203 | an empty list gives no days |
| Forecast.AggregateKeys | 02-react-modern-frontend/src/hooks/useWeather.ts:174-175 | the days carry the first five distinct date keys in first-seen order |
| Forecast.AggregateInFirstSeenOrder | 02-react-modern-frontend/src/hooks/useWeather.ts:174-176 | every day's key comes from the list, and no key appears twice |
| Forecast.AggregateCoversFewDates | 02-react-modern-frontend/src/hooks/useWeather.ts:174-175 | with at most five distinct dates, every sample's date has its day |
| Forecast.BucketsPartitionSamples | 02-react-modern-frontend/src/hooks/useWeather.ts:155-171 | the buckets together hold every sample exactly once |
| Forecast.AggregateTemperatureRange | 02-react-modern-frontend/src/hooks/useWeather.ts:181-182 | each day's high and low bound every temperature of that date and are both attained |
| Forecast.SingleSampleDay | 02-react-modern-frontend/src/hooks/useWeather.ts:181-182 | a day with one sample has its high equal to its low |
| Forecast.AggregateConditions | 02-react-modern-frontend/src/hooks/useWeather.ts:185-186 | each day's description and icon are the most common among that date's samples |
| Forecast.DateKeysSnoc | 02-react-modern-frontend/src/hooks/useWeather.ts:155-157 | the date keys of a longer list extend those of the shorter |
| UseWeather.Samples | 02-react-modern-frontend/src/hooks/useWeather.ts:155-170 | one sample per forecast entry |
| Todo.TodoApp.constructor | 01-web-fundamentals/js/script.js:5-6 | the page starts with no tasks, not editing |
| Todo.TodoApp.Submit | 01-web-fundamentals/js/script.js:152-180 | the submit handler leaves the state `AfterSubmit` gives for the state before it |
| Todo.TodoApp.Delete | 01-web-fundamentals/js/script.js:140-146 | the Delete handler removes the first task with the id, if any; edit mode is untouched |
| Todo.TodoApp.SetCompleted | 01-web-fundamentals/js/script.js:125-128 | the checkbox handler sets `completed` of that task and nothing else |
| Todo.TodoApp.EditClick | 01-web-fundamentals/js/script.js:130-138 | the Edit handler enters edit mode for that task's id and fills the form with its title and details |
| Todo.TodoApp.FindIndex | 01-web-fundamentals/js/script.js:164 | `findIndex` returns the first position holding the id, or -1 |
| Seqs.FindIndex | 01-web-fundamentals/js/script.js:164 | `findIndex` on a projected list: the first position of the element, or -1 exactly when it does not occur; `Todo.IndexOfId` and `App.FindKey` are both defined through it |
| Todo.IndexOfId | 01-web-fundamentals/js/script.js:164 | the first position holding the id; -1 exactly when no task has it |
| Todo.BlankTitleRejected | 01-web-fundamentals/js/script.js:155-161 | a title blank after trimming changes nothing |
| Todo.SubmitAddsAtFront | 01-web-fundamentals/js/script.js:172-175 | outside edit mode a new, uncompleted task with the trimmed title and details is put in front; the rest keep their order |
| Todo.SubmitEditsTarget | 01-web-fundamentals/js/script.js:163-171 | in edit mode the target's title and details become the trimmed values, everything else stays, and edit mode ends |
| Todo.EditedAt | 01-web-fundamentals/js/script.js:164-168 | the edit writes title and details of the first task with the id and touches nothing else |
| Todo.SubmitEditsNothing | 01-web-fundamentals/js/script.js:163-171 | in edit mode with the target deleted, the list is unchanged, the typed text is dropped, and edit mode ends |
| Todo.EditKeepsIds | 01-web-fundamentals/js/script.js:166-167 | editing leaves every id in place |
| Todo.SubmitKeepsIdsUnique | 01-web-fundamentals/js/script.js:152-180 | with a fresh id, submitting keeps ids unique |
| Todo.DeleteRemovesFirst | 01-web-fundamentals/js/script.js:141-144 | deleting removes exactly the first task with the id and keeps the others in order; an unknown id changes nothing |
| Todo.DeleteTakesOneTask | 01-web-fundamentals/js/script.js:141-144 | deleting takes exactly one task, the first with the id, out of the list and keeps every other |
| Todo.DeleteLeavesNoId | 01-web-fundamentals/js/script.js:140-146 | with unique ids, no task with the deleted id remains and ids stay unique |
| Todo.CheckboxAssigns | 01-web-fundamentals/js/script.js:125-128 | the checkbox sets `completed` to its value, leaves the other fields and tasks alone, and repeating it changes nothing more |
| App.FindKey | 02-react-modern-frontend/src/App.tsx:34-36 | the first favorite whose joined `city-country` string equals the key, or -1 exactly when none does |
| App.ToggleAppendsAbsent | 02-react-modern-frontend/src/App.tsx:43-48 | a pair whose key is absent is appended at the end |
| App.ToggleRemovesFirstMatch | 02-react-modern-frontend/src/App.tsx:38-42 | a pair whose key is present removes only the first entry with that key |
| App.ToggleKeyCollision | 02-react-modern-frontend/src/App.tsx:33-36 | matching compares joined strings, so a different pair with the same joined key is removed in its place |
| App.KeyInjective | 02-react-modern-frontend/src/App.tsx:33-35 | when neither country has a hyphen, equal keys mean equal pairs |
| App.ToggleTwiceRestores | 02-react-modern-frontend/src/App.tsx:32-49 | toggling an absent pair twice restores the list |
| App.ToggleTwicePresent | 02-react-modern-frontend/src/App.tsx:38-47 | with unique keys, toggling a present pair twice moves it to the end and keeps the same entries |
| App.ToggleTwiceCollision | 02-react-modern-frontend/src/App.tsx:38-47 | with two pairs sharing a key, the double toggle replaces the stored pair by the toggled one |
| App.ToggleKeepsKeysUnique | 02-react-modern-frontend/src/App.tsx:32-49 | toggling keeps keys unique and flips whether the pair's key is present |
| App.RemoveCity | 02-react-modern-frontend/src/App.tsx:55-57 | the kept favorites are exactly those whose city differs |
| App.RemoveCityConcat | 02-react-modern-frontend/src/App.tsx:56 | removal works entry by entry and keeps order |
| App.RemoveCityIdempotent | 02-react-modern-frontend/src/App.tsx:56 | removing a city twice is removing it once |
| App.RemoveCityKeepsUnique | 02-react-modern-frontend/src/App.tsx:56 | removing a city keeps the favorite keys unique |
| App.SomeSamePlace | 02-react-modern-frontend/src/App.tsx:62 | true exactly when some favorite has the card's city and country |
| App.IsCityFavoriteIff | 02-react-modern-frontend/src/App.tsx:61-63 | the flag is false without a card and otherwise exact field-by-field membership, which implies a key match |
| App.RetryOnlyWithCity | 02-react-modern-frontend/src/App.tsx:26-76 | the error panel offers a retry exactly when there is a current city, and the retry searches that city |
| App.FailedSearchOffersRetry | 02-react-modern-frontend/src/App.tsx:74-76 | a failed search for a non-empty city shows the error panel with its message and a retry of that city |
| App.SuccessfulSearchShowsContent | 02-react-modern-frontend/src/App.tsx:72-87 | a successful search shows the card and forecast, not the spinner or an error |
| ErrorDisplay.RenderPrecedence | 02-react-modern-frontend/src/components/ErrorDisplay.tsx:10-17 | the icon and title follow not-found, then API-key, then generic |
| ErrorDisplay.HintsIndependent | 02-react-modern-frontend/src/components/ErrorDisplay.tsx:20-27 | each hint appears exactly when its phrase does; both can appear |
| ErrorDisplay.RetryButtonIffCallback | 02-react-modern-frontend/src/components/ErrorDisplay.tsx:28-33 | the retry button is shown exactly when a callback is passed |
| ErrorDisplay.ClassificationIgnoresCase | 02-react-modern-frontend/src/components/ErrorDisplay.tsx:10-11 | classification does not depend on letter case |
| ErrorDisplay.NotFoundMessageClassified | 02-react-modern-frontend/src/components/ErrorDisplay.tsx:10-17 | the 404 message shows the not-found panel whatever the city |
| ErrorDisplay.InvalidKeyMessageClassified | 02-react-modern-frontend/src/components/ErrorDisplay.tsx:10-26 | the 401 message shows the API-key panel with only the restart hint |
| ErrorDisplay.ConfigMessageClassified | 02-react-modern-frontend/src/components/ErrorDisplay.tsx:10-26 | the missing-key message shows the API-key panel with only the restart hint |
| ErrorDisplay.StatusMessageClassified | 02-react-modern-frontend/src/components/ErrorDisplay.tsx:10-26 | any other failing status shows the generic panel with no hint |
| ErrorDisplay.NoConditionMessageClassified | 02-react-modern-frontend/src/components/ErrorDisplay.tsx:10-26 | the error raised by a reply without conditions shows the generic panel with no hint |
| SearchBar.SearchBar.constructor | 02-react-modern-frontend/src/components/SearchBar.tsx:9 | the field starts empty |
| SearchBar.SearchBar.HandleSubmit | 02-react-modern-frontend/src/components/SearchBar.tsx:11-17 | `handleSubmit` returns what `onSearch` receives, if anything, and leaves the text `Submit` gives |
| SearchBar.SearchBar.HandleChange | 02-react-modern-frontend/src/components/SearchBar.tsx:19-21 | `handleChange` sets the text to the input's value as it is |
| SearchBar.BlankSubmitKeepsText | 02-react-modern-frontend/src/components/SearchBar.tsx:13-16 | blank text calls nothing and stays; any other text is searched once and the field is cleared |
| SearchBar.SearchedTextIsClean | 02-react-modern-frontend/src/components/SearchBar.tsx:14 | `onSearch` receives non-empty text with no white space at either end |
| SearchBar.SubmitIgnoresPadding | 02-react-modern-frontend/src/components/SearchBar.tsx:13-14 | white space around the text does not change what is searched |
| SearchBar.SearchedTextWasTyped | 02-react-modern-frontend/src/components/SearchBar.tsx:14 | the searched text occurs in what was typed |
| Text.Trim | 02-react-modern-frontend/src/components/SearchBar.tsx:13 | `trim` leaves no white space at either end |
| Text.TrimEmptyIff | 02-react-modern-frontend/src/components/SearchBar.tsx:13 | the trim is empty exactly when the text is all white space |
| Text.TrimIgnoresPadding | 02-react-modern-frontend/src/components/SearchBar.tsx:13 | white space around a string does not change its trim |
| Text.TrimIdempotent | 02-react-modern-frontend/src/components/SearchBar.tsx:14 | trimming twice is trimming once |
| Text.LowerCommutesWithTrim | 02-react-modern-frontend/src/data/mockWeatherData.ts:152 | lower-casing and trimming commute |
| MockWeather.TableWellKeyed | 02-react-modern-frontend/src/data/mockWeatherData.ts:4-147 | every key is lower-case, trimmed, and the lower-cased city of its entry |
| MockWeather.TableHumidityInRange | 02-react-modern-frontend/src/data/mockWeatherData.ts:4-147 | every entry's humidity lies in 0..100 |
| MockWeather.LookupIgnoresCaseAndPadding | 02-react-modern-frontend/src/data/mockWeatherData.ts:151-154 | the lookup does not depend on outer white space or letter case |
| MockWeather.LookupFindsEntryCity | 02-react-modern-frontend/src/data/mockWeatherData.ts:4-154 | looking up an entry's city finds that entry |
| MockWeather.LookupResult | 02-react-modern-frontend/src/data/mockWeatherData.ts:151-154 | a result is a table entry filed under the normalised name; any other name gives nothing |
| MockWeather.CapitalizeFirst | 02-react-modern-frontend/src/data/mockWeatherData.ts:175 | capitalising keeps the length |
| MockWeather.CapitalizeFirstFacts | 02-react-modern-frontend/src/data/mockWeatherData.ts:175 | only the first character changes, to upper case; an empty name stays empty; capitalising is idempotent and invisible after lower-casing |
| MockWeather.RandomWeatherFacts | 02-react-modern-frontend/src/data/mockWeatherData.ts:157-184 | generated weather has country XX; description, icon and humidity from one condition row; temperature in -5..34; feels-like 3 below to 2 above; wind 0..10 m/s; the city is the name up to letter case |
| MockWeather.RandomTemperatureCoversRange | 02-react-modern-frontend/src/data/mockWeatherData.ts:171-178 | every temperature in -5..34 and every feels-like offset in -3..2 can be drawn |

## Left out

- Network and platform calls are left out: `fetch`, `response.json()`, URL building with `encodeURIComponent`, `console` logging and `import.meta.env`. The API key and each request's outcome are parameters.
- The exception thrown when `response.json()` fails is not modelled separately. It is one more `Thrown` outcome.
- A reply body is assumed well-shaped, except that its `weather` array may be empty. The model covers that case: `weather[0].description` throws a `TypeError`, whose engine message is the constant `NoConditionMessage`.
- The generic `'Something went wrong!'` message is not modelled. It is only reached when something other than an `Error` is thrown, and nothing in the hook does that.
- Clock and locale are not modelled: `Date`, `toDateString`, `toLocaleDateString` and `Intl.DateTimeFormat`. The date key is a function parameter, and the weekday and month-day labels of a forecast day are replaced by its date key.
- Object key order is approximated. Date keys and forecast strings are treated as ordinary keys in insertion order. JavaScript would move integer-like keys to the front, which `toDateString` keys and the API's descriptions and icons never are.
- Forecast.MostCommon: does not model value names inherited from `Object.prototype` in the `counts` object of `getMostCommon` (useWeather.ts:206-209). In JavaScript `counts[item] || 0` reads an inherited member for names such as `constructor` or `toString`, so the count becomes a string and the `>` test at line 210 compares NaN. An assignment to `__proto__` creates no own key, so `Object.keys` can be empty and `reduce` throws. The model counts every value as an own key. The weather API's descriptions and icon codes never take these names.
- Prototype properties are not modelled. A table lookup of `constructor` or `__proto__` would find an inherited value in JavaScript; the model finds no entry.
- Numbers are integers. Temperatures and feels-like are whole degrees; wind speed is in tenths. The display rounding and the float draws of `Math.random` are not modelled.
- `MockWeather.RandomWeatherData` takes the random draws as parameters: the condition index, the two integer draws and the wind speed already rounded to tenths.
- Case mapping is ASCII only. Full Unicode `toLowerCase`/`toUpperCase` (for example `ß` to `SS`) and `charAt` on a surrogate pair are not modelled.
- UseWeather.SearchSettles: does not model the throw from `encodeURIComponent(city)` (useWeather.ts:74). It runs before the `try`, so a city holding a lone surrogate makes `searchCity` reject with `loading` still true and `error` empty. Model strings are sequences of characters and cannot hold a lone surrogate.
- Overlapping async searches are not modelled. Each `searchCity` call is one atomic transition from the state before it to the state after it settles. No modelled transition leaves `loading` true, so the spinner branch of `App.MainPanel` is reached only from a state given to it directly.
- Rendering is not modelled: DOM building in `renderTasks`/`renderTaskItem`, focus, button labels and CSS classes, and React markup. `Header`, `WeatherDisplay`, `ForecastDisplay`, `LoadingSpinner` and `FavoriteCities` are not part of this model.
- `useLocalStorage` is not part of this model. The favorites list is a plain value.
- Tasks are modelled as values, not shared objects. The checkbox and Edit handlers act on the task at a position of the list as last rendered. The model does not capture a handler that still holds a task object after that task was deleted.
- The form's field values and `form.reset()` are not state of the model. The submit handler takes the field values as parameters, and the Edit handler returns the values it would put in the fields.
- Task ids come from `Date.now()` and `Math.random()` and are parameters. Keeping ids unique is proved under the assumption that the new id is fresh.
- The `String(value || '')` conversion is not modelled: form field values are always strings.
