# BMI engine and calculation log

A Dafny model of the core of a small BMI calculator. The server (server.js) holds a
`BMICalculator` with four formulas and lookups: BMI, ideal weight, category, health-risk
text and suggestion. It appends one line per calculation to `bmi_data.txt`, answers
`POST /api/calculate-bmi` after validating the body, and answers `GET /api/bmi-history`
with the log's lines, newest first. The React page (src/App.tsx) repeats the same formulas
and keeps a newest-first `results` list that "Calculate" prepends to and "Clear" empties.

Numbers are exact `real`s, not IEEE doubles. The files:

- `engine.dfy` (module `Engine`): the `BMICalculator` static methods, the four categories
  and their half-open BMI bands, and the facts about them: monotonicity, the thresholds,
  the three lookups agreeing, the ideal weight having BMI 22.
- `js_text.dfy` (module `JsText`): the JavaScript operations the history route chains:
  `trim`, `split('\n')`, `filter(line => line.length > 0)` and the in-place `reverse`.
  It also holds their round trips.
- `log_store.dfy` (module `LogStore`): the log file as a class `Log` holding `present`
  (the file exists) and `content`. `SaveDataToFile` is the append. `History` is what the
  read route returns. The ghost list `entries` records the appended lines, and `Valid`
  ties it to the content.
- `server.dfy` (module `Server`): the two routes. The request body's fields are `Missing`
  or a `Number`. The file system's answers (write succeeded or failed, read failed) are
  parameters.
- `client.dfy` (module `Client`): the page's functions, its input guard on `parseFloat`
  results (a number or NaN), and a class `App` holding `isMetric`, `results` and
  `showSuggestions`.

The central round trip: a log built by `SaveDataToFile` reads back, through
trim/split/filter/reverse, as exactly the appended lines, newest first
(`LogStore.Log.HistoryIsNewestFirst`). One append therefore puts its line at the head of the
history and leaves the rest unchanged (`LogStore.Log.SaveDataToFile`). For arbitrary file
content this does not hold. `"a\n \n"` followed by the line `L` reads back as
`[L, " ", a]`, because the whitespace-only line survives the filter. So the model keeps the
file to lines that start and end with a visible character and contain no newline
(`WellFormedLine`).

Three points where the model follows the code's behaviour as written:

- The fourth category is named "Obesity" on both server and page.
- The route sends BMI and ideal weight rounded to one decimal but picks the category from
  the unrounded BMI. So 150 lbs at 65 in is sent as 25.0 with "Normal weight"
  (`Server.RoundedBmiCrossesThreshold`).
- A non-numeric weight such as `"abc"` passes the guard (`NaN <= 0` is false). It then
  throws while the log line is formatted, so the route answers 500 for it.

## Model

| member | source | states |
|---|---|---|
| `Engine.Parse` | server.js:45-55 | the four category names are exactly the texts `getBMICategory` returns, one per category; any other text names none |
| `Engine.CalculateBMI` | server.js:16-28 | metric: BMI times the square of height/100 is the weight; imperial: BMI times height squared is 703 times the weight; positive weight gives a positive BMI |
| `Engine.HeightInMeters` | server.js:31-40 | a positive height in either unit is a positive length in metres |
| `Engine.IdealWeightPositive` | server.js:30-43 | every positive height has a positive ideal weight |
| `Engine.GetBMICategory` | server.js:45-55 | the name returned is that of a category exactly when the BMI lies in its half-open band |
| `Engine.GetHealthRisks` | server.js:57-67 | the text returned is a category's risk text exactly when the BMI lies in that category's band |
| `Engine.GetSuggestion` | server.js:69-79 | the text returned is a category's suggestion exactly when the BMI lies in that category's band |
| `Engine.TextsDistinct` | server.js:57-79 | the four risk texts are pairwise different, and so are the four suggestions |
| `Engine.BandsPartition` | server.js:45-55 | every BMI lies in exactly one band, so the lookup is total and unambiguous |
| `Engine.CategoryMonotone` | server.js:45-55 | a larger BMI never gets a lower-ranked category |
| `Engine.ThresholdsBelongUpward` | server.js:45-55 | 18.5, 25 and 30 fall into the upper category; 18.49, 24.99 and 29.99 into the lower |
| `Engine.LookupsAgree` | server.js:45-79 | risk text and suggestion are those of the category `getBMICategory` picks for the same BMI |
| `Engine.TextsFollowCategory` | server.js:45-79 | two BMIs get the same risk text, and the same suggestion, exactly when they get the same category |
| `Engine.BmiIncreasesWithWeight` | server.js:16-28 | at a fixed positive height, more weight gives a strictly higher BMI, in both unit systems |
| `Engine.BmiDecreasesWithHeight` | server.js:16-28 | at a fixed positive weight, a greater height gives a strictly lower BMI, in both unit systems |
| `Engine.IdealWeightIncreases` | server.js:30-43 | the ideal weight grows strictly with height and takes no weight argument |
| `Engine.IdealWeightHasBmi22` | server.js:16-43 | in metric units the ideal weight is exactly the weight whose BMI at that height is 22 |
| `Engine.IdealWeightIsMetric` | server.js:30-43 | an imperial height gives the ideal weight, in kilograms, of the same height in centimetres |
| `Engine.WorkedValues` | server.js:16-55 | 180 cm gives 71.28 kg; 175 cm gives 67.375 kg; 70 kg at 175 cm is normal weight; 150 lbs at 65 in lies strictly between 24.95 and 25, so normal weight |
| `JsText.Trim` | server.js:146 | the result is no longer than the input and has no whitespace at either end |
| `JsText.TrimIsMiddle` | server.js:146 | the result is a slice of the input, and only whitespace was dropped before and after it |
| `JsText.TrimStart` | server.js:146 | the result is a suffix of the input, does not start with whitespace, and only whitespace was dropped |
| `JsText.TrimEnd` | server.js:146 | the result is a prefix of the input, does not end with whitespace, and only whitespace was dropped |
| `JsText.Split` | server.js:146 | splitting on newline gives at least one piece and no piece holds a newline |
| `JsText.JoinSplit` | server.js:146 | joining the pieces with newlines gives back the text that was split |
| `JsText.SplitNoNewline` | server.js:146 | a text without newline splits into itself alone |
| `JsText.SplitAtNewline` | server.js:146 | the pieces of `a + "\n" + b` are the pieces of `a` followed by those of `b` |
| `JsText.SplitJoinLines` | server.js:146 | splitting undoes joining for newline-free pieces |
| `JsText.NonEmpty` | server.js:146 | the filter keeps exactly the non-empty elements and nothing else |
| `JsText.NonEmptyAppend` | server.js:146 | filtering a concatenation filters each part and concatenates the results, so order and duplicates are kept |
| `JsText.NonEmptySingle` | server.js:146 | a single element is kept when it is non-empty and dropped when it is empty |
| `JsText.NonEmptyKeepsNonEmpty` | server.js:146 | the filter leaves a list without empty elements unchanged |
| `JsText.Reversed` | server.js:149 | the reversal has the same length and elements, the last element first |
| `JsText.ReversedSnoc` | server.js:149 | reversing a list with one more element at its end puts that element in front of the old reversal |
| `JsText.ReverseInPlace` | server.js:149 | reversing the array in place leaves the reversal of its old contents |
| `LogStore.LogLine` | server.js:82-87 | the appended line starts with the timestamp and ends with the rendered BMI |
| `LogStore.LogLineWellFormed` | server.js:82-87 | with newline-free renderings, a timestamp that starts and a BMI that ends with a visible character, the line reads back unchanged |
| `LogStore.Lines` | server.js:146 | the lines read from any content are non-empty and newline-free |
| `LogStore.RenderSnoc` | server.js:87-90 | appending a line adds it and its newline at the end of the content |
| `LogStore.TrimRender` | server.js:146 | trimming a non-empty log of well-formed lines removes exactly the final newline |
| `LogStore.LinesOfRender` | server.js:87-146 | a log of well-formed lines reads back as exactly those lines, in file order |
| `LogStore.WhitespaceOnlyHasNoLines` | server.js:146 | an empty or whitespace-only log reads back as no lines |
| `LogStore.Append` | server.js:87-149 | appending a well-formed line keeps the log well-formed, and reading back puts that line first, the earlier lines newest first after it |
| `LogStore.HistoryOf` | server.js:144-156 | what is read back from any file, present or not, is made of non-empty, newline-free lines; nothing for an absent file |
| `LogStore.AppendedHistory` | server.js:87-156 | appending a well-formed line to a file written by appends, whether it existed or not, puts that line at the head of the history and keeps the old history after it |
| `LogStore.Log.constructor` | server.js:144 | the initial state has no file and an empty history |
| `LogStore.Log.History` | server.js:144-156 | the history of any file is made of non-empty, newline-free lines; none for an absent file |
| `LogStore.Log.HistoryIsNewestFirst` | server.js:87-156 | the history of a log written by appends is the appended lines in reverse order |
| `LogStore.Log.AppendLine` | server.js:87-90 | the file exists afterwards, its content grows by the line and a newline, and the history gains the line at its head with the old history after it |
| `LogStore.Log.SaveDataToFile` | server.js:81-95 | success exactly when the write succeeds, with the two messages; a successful write appends the line and puts it at the head of the history; a failed one changes nothing |
| `Server.Validate` | server.js:104-109 | a measurement comes out exactly when weight and height are both present and positive |
| `Server.RoundTenth` | server.js:124-126 | the result is a whole number of tenths within 0.05 of the value, ties rounded up |
| `Server.Assess` | server.js:112-131 | the response carries BMI and ideal weight rounded to a tenth; the category is the band of the unrounded BMI; risks and suggestion are that category's texts; the save result is passed through |
| `Server.RoundedBmiCrossesThreshold` | server.js:112-126 | 150 lbs at 65 in is sent as BMI 25.0 with the category "Normal weight" |
| `Server.CalculateBmi` | server.js:99-139 | rejected with the fixed message exactly when validation fails, and then the log is untouched; otherwise the data is the assessment, the save result reports the write with its message (saved with the file name, or failed with the error's reason), and a successful write puts the new line at the head of the history |
| `Server.BmiHistory` | server.js:142-163 | absent file gives an empty history, a failed read the 500 message, otherwise the file's non-empty lines reversed, which is the log's history |
| `Client.CalculateBMI` | src/App.tsx:39-47 | the same value as the server's `calculateBMI` for every positive height |
| `Client.CalculateIdealWeight` | src/App.tsx:49-52 | the same value as the server's `calculateIdealWeight` for every height |
| `Client.GetBMICategory` | src/App.tsx:54-59 | the same name as the server's `getBMICategory` for every BMI |
| `Client.GetHealthRisks` | src/App.tsx:81-91 | the same text as the server's `getHealthRisks` for every BMI |
| `Client.GetSuggestions` | src/App.tsx:93-103 | the same text as the server's `getSuggestion` for every BMI |
| `Client.GetBMICategoryColor` | src/App.tsx:61-69 | the grey default exactly for texts that are not one of the four category names |
| `Client.GetBMICategoryBg` | src/App.tsx:71-79 | the grey default exactly for texts that are not one of the four category names |
| `Client.StylesDistinguishCategories` | src/App.tsx:61-79 | the four category names get four different colours and four different backgrounds |
| `Client.StylesAgree` | src/App.tsx:61-79 | two texts get the same colour exactly when they get the same background, exactly when they name the same category or both none |
| `Client.ComputedCategoryIsStyled` | src/App.tsx:54-79 | no computed category is shown in the grey default |
| `Client.IsValidInput` | src/App.tsx:109-112 | the inputs pass exactly when both parsed to positive numbers; NaN, 0 and negatives are refused |
| `Client.NewResult` | src/App.tsx:114-126 | the entry records the inputs and unit flag unchanged, the BMI of the shared formula, the category of its band and the ideal weight of the height alone |
| `Client.PrependKeepsNewestFirst` | src/App.tsx:128 | putting an entry no older than the first one at the front keeps the list ordered newest first |
| `Client.App.constructor` | src/App.tsx:15-20 | metric units, no results, no suggestions shown |
| `Client.App.LatestResult` | src/App.tsx:137 | there is a latest result exactly when the list is non-empty; it is one of its entries, and no entry has a later timestamp when the list is newest first |
| `Client.App.SetUnits` | src/App.tsx:165-175 | the unit buttons change the unit flag and nothing else |
| `Client.App.HandleCalculate` | src/App.tsx:105-130 | invalid input alerts and changes nothing; valid input puts the new entry in front of the old list, shows the suggestions, makes the entry the latest result and keeps the list newest first when the clock has not gone back |
| `Client.App.ClearHistory` | src/App.tsx:132-135 | the list is empty afterwards; units and the suggestions flag are kept |

## Left out

- Express plumbing (CORS, static files, JSON body parsing, `app.listen`) and the React
  rendering, effects and `showHistory` toggle: framework and UI wiring.
- `localStorage` loading and saving of `results` (src/App.tsx:22-37, 134): browser I/O.
  A list loaded from storage is not checked against the formulas.
- public/script.js is not part of this model. Its only logic is a category-to-class
  switch like the page's.
- The file system: whether `fs.appendFileSync` succeeds and whether `fs.readFileSync`
  throws are parameters (`WriteOutcome`, `readFails`). A failed append is taken to write
  nothing; a partial write is not modelled.
- Concurrent requests appending to or reading the log: each request runs to completion.
- `toFixed(2)` and `new Date().toISOString()` in the log line: the four rendered texts are
  an input (`Rendered`). `LogStore.Log.SaveDataToFile` requires them `Plausible`: no
  newline, and a visible character at the start of the timestamp and the end of the BMI.
  Real renderings have this form; the model does not derive it.
- `toFixed(1)` on IEEE doubles: `Server.RoundTenth` rounds the exact value, ties up. A
  double just below a tie can round differently.
- Floating point in general: NaN, infinities and rounding of the formulas are absent;
  every quantity is an exact real. `Engine.CalculateBMI` and `Client.CalculateBMI`
  require a positive height, which both callers guarantee.
- Non-numeric request fields (strings, booleans) and a non-boolean `isMetric`: the body's
  fields are absent or numbers, and `isMetric` a boolean. The 500 answer of the calculate
  route (server.js:133-138) is therefore unreachable in the model.
- `parseFloat` of the page's input text: `HandleCalculate` takes the parsed numbers.
- The page's timestamp is a clock reading passed to `HandleCalculate`, not a `Date`.
- Client.App.HandleCalculate: newest-first order is guaranteed only when the clock
  reading is no earlier than the first entry's; the page itself does not check this.
- LogStore.Log.SaveDataToFile: the head-of-history property is stated for a log written
  only by appends, as `Valid` records. Foreign content can break it, as the
  counterexample above shows.
