/** The two routes of server.js: `POST /api/calculate-bmi` (validation, the engine,
    the log append and the response) and `GET /api/bmi-history` (reading the log back). */
module Server {
  import opened Engine
  import opened LogStore
  import opened JsText

  /** A weight or height field of the request body: absent or null, or a JSON number. */
  datatype Field = Missing | Number(value: real)

  /** A measurement that passed validation. */
  datatype Measurement = Measurement(weight: real, height: real, isMetric: bool)

  /** The `data` object of a successful calculation. */
  datatype BmiData = BmiData(
    bmi: real, category: string, idealWeight: real,
    healthRisks: string, suggestion: string, saveResult: SaveResult)

  /** The answer of the calculate route: 400 with a message, or 200 with the data. */
  datatype CalculateResponse = Rejected(message: string) | Calculated(data: BmiData)

  /** The answer of the history route: 200 with the lines, or 500 with a message. */
  datatype HistoryResponse = HistoryOk(history: seq<string>) | HistoryFailed(message: string)

  const InvalidInputMessage := "Please provide valid weight and height values."
  const HistoryErrorMessage := "Error reading BMI history."

  /** `!x` in JavaScript: absent, null and 0 are falsy. */
  predicate Falsy(f: Field) {
    f.Missing? || f.value == 0.0
  }

  /** `x <= 0` on a number (absent fields are already caught as falsy). */
  predicate AtMostZero(f: Field) {
    f.Number? && f.value <= 0.0
  }

  /** The route's guard `!weight || !height || weight <= 0 || height <= 0`:
      a measurement comes out exactly when both fields are positive numbers. */
  function Validate(weight: Field, height: Field, isMetric: bool): (m: Option<Measurement>)
    ensures m.Some? <==> weight.Number? && height.Number? && weight.value > 0.0 && height.value > 0.0
    ensures m.Some? ==> m.value == Measurement(weight.value, height.value, isMetric)
  {
    if Falsy(weight) || Falsy(height) || AtMostZero(weight) || AtMostZero(height) then None
    else Some(Measurement(weight.value, height.value, isMetric))
  }

  /** `parseFloat(x.toFixed(1))` on an exact value: the nearest tenth, ties going up. */
  function RoundTenth(x: real): (r: real)
    ensures x - 0.05 < r <= x + 0.05
    ensures (r * 10.0).Floor as real == r * 10.0
  {
    ((x * 10.0 + 0.5).Floor as real) / 10.0
  }

  /** The five engine calls of the route, with the outcome of the log write. BMI and
      ideal weight are sent rounded to one decimal; the category and the two texts are
      chosen from the unrounded BMI. */
  function Assess(m: Measurement, saveResult: SaveResult): (data: BmiData)
    requires m.weight > 0.0 && m.height > 0.0
    ensures data.bmi == RoundTenth(CalculateBMI(m.weight, m.height, m.isMetric))
    ensures data.idealWeight == RoundTenth(CalculateIdealWeight(m.height, m.isMetric))
    ensures Parse(data.category).Some? && InBand(CalculateBMI(m.weight, m.height, m.isMetric), Parse(data.category).value)
    ensures data.healthRisks == Risk(Parse(data.category).value)
    ensures data.suggestion == Advice(Parse(data.category).value)
    ensures data.saveResult == saveResult
  {
    var bmi := CalculateBMI(m.weight, m.height, m.isMetric);
    LookupsAgree(bmi);
    BmiData(
      RoundTenth(bmi), GetBMICategory(bmi), RoundTenth(CalculateIdealWeight(m.height, m.isMetric)),
      GetHealthRisks(bmi), GetSuggestion(bmi), saveResult)
  }

  /** 150 lbs at 65 in is sent as BMI 25.0 with the category "Normal weight": the
      category is chosen before rounding. */
  lemma RoundedBmiCrossesThreshold(saveResult: SaveResult)
    ensures Assess(Measurement(150.0, 65.0, false), saveResult).bmi == 25.0
    ensures Assess(Measurement(150.0, 65.0, false), saveResult).category == "Normal weight"
  {
    WorkedValues();
  }

  /** `POST /api/calculate-bmi`. Invalid input is answered with 400 before anything is
      computed or logged; otherwise the result is computed, one line is appended to the
      log, and the answer is 200 whether or not the append succeeded. */
  method CalculateBmi(log: Log, weight: Field, height: Field, isMetric: bool, text: Rendered, outcome: WriteOutcome)
    returns (response: CalculateResponse)
    requires log.Valid() && text.Plausible()
    modifies log
    ensures log.Valid()
    ensures response.Rejected? <==> Validate(weight, height, isMetric).None?
    ensures response.Rejected? ==> response.message == InvalidInputMessage && unchanged(log)
    ensures response.Calculated? ==>
      && response.data == Assess(Validate(weight, height, isMetric).value, response.data.saveResult)
      && response.data.saveResult.success == outcome.Written?
      && response.data.saveResult.message
           == (if outcome.Written? then SavedPrefix + FileName else FailedPrefix + outcome.reason)
      && (outcome.WriteFailed? ==> unchanged(log))
      && log.History() == (if outcome.Written? then [LogLine(text, isMetric)] else []) + old(log.History())
  {
    var m := Validate(weight, height, isMetric);
    if m.None? {
      response := Rejected(InvalidInputMessage);
      return;
    }
    var saveResult := log.SaveDataToFile(text, isMetric, outcome);
    response := Calculated(Assess(m.value, saveResult));
  }

  /** `GET /api/bmi-history`: no file gives an empty history; a file that cannot be read
      gives 500; otherwise its non-empty lines, reversed in place so the newest is first. */
  method BmiHistory(log: Log, readFails: bool) returns (response: HistoryResponse)
    ensures !log.present ==> response == HistoryOk([])
    ensures log.present && readFails ==> response == HistoryFailed(HistoryErrorMessage)
    ensures log.present && !readFails ==> response == HistoryOk(Reversed(Lines(log.content)))
    ensures response.HistoryOk? ==> response.history == log.History()
  {
    if !log.present {
      return HistoryOk([]);
    }
    if readFails {
      return HistoryFailed(HistoryErrorMessage);
    }
    var lines := Lines(log.content);
    var a := new string[|lines|](i requires 0 <= i < |lines| => lines[i]);
    assert a[..] == lines;
    ReverseInPlace(a);
    response := HistoryOk(a[..]);
  }
}
