/** The calculator page of src/App.tsx: its own copies of the BMI functions, the two
    category styling lookups, and the `results` list that "Calculate" and "Clear"
    update. Numbers are exact reals; `parseFloat` gives a number or NaN. */
module Client {
  import opened Engine

  /** A JavaScript number as `parseFloat` produces it: NaN or a finite value. */
  datatype JsNumber = NaN | Num(value: real)

  /** One entry of `results`; `timestamp` is the clock reading, in milliseconds. */
  datatype BmiResult = BmiResult(
    weight: real, height: real, bmi: real, category: string,
    idealWeight: real, isMetric: bool, timestamp: int)

  const AlertMessage := "Please enter valid weight and height values."

  const DefaultColor := "text-gray-600"
  const DefaultBg := "bg-gray-50 border-gray-200"

  /** The page's `calculateBMI`: the same value as the server's. */
  function CalculateBMI(weight: real, height: real, isMetric: bool): (bmi: real)
    requires height > 0.0
    ensures bmi == Engine.CalculateBMI(weight, height, isMetric)
  {
    if isMetric then
      Quotient(weight, height / 100.0);
      weight / ((height / 100.0) * (height / 100.0))
    else
      Quotient(weight * 703.0, height);
      (weight * 703.0) / (height * height)
  }

  /** The page's `calculateIdealWeight`: the same value as the server's. */
  function CalculateIdealWeight(height: real, isMetric: bool): (ideal: real)
    ensures ideal == Engine.CalculateIdealWeight(height, isMetric)
  {
    var heightInMeters := if isMetric then height / 100.0 else height * 0.0254;
    22.0 * (heightInMeters * heightInMeters)
  }

  /** The page's `getBMICategory`: the same name as the server's. */
  function GetBMICategory(bmi: real): (name: string)
    ensures name == Engine.GetBMICategory(bmi)
  {
    if bmi < 18.5 then "Underweight"
    else if bmi < 25.0 then "Normal weight"
    else if bmi < 30.0 then "Overweight"
    else "Obesity"
  }

  /** The page's `getHealthRisks`: the same text as the server's. */
  function GetHealthRisks(bmi: real): (text: string)
    ensures text == Engine.GetHealthRisks(bmi)
  {
    if bmi < 18.5 then UnderweightRisk
    else if bmi < 25.0 then NormalWeightRisk
    else if bmi < 30.0 then OverweightRisk
    else ObesityRisk
  }

  /** The page's `getSuggestions`: the same text as the server's `getSuggestion`. */
  function GetSuggestions(bmi: real): (text: string)
    ensures text == Engine.GetSuggestion(bmi)
  {
    if bmi < 18.5 then UnderweightAdvice
    else if bmi < 25.0 then NormalWeightAdvice
    else if bmi < 30.0 then OverweightAdvice
    else ObesityAdvice
  }

  /** The text colour class of a category name; any other text gets grey. */
  function GetBMICategoryColor(category: string): (color: string)
    ensures color == DefaultColor <==> Parse(category).None?
  {
    if category == "Underweight" then "text-blue-600"
    else if category == "Normal weight" then "text-green-600"
    else if category == "Overweight" then "text-yellow-600"
    else if category == "Obesity" then "text-red-600"
    else DefaultColor
  }

  /** The background and border classes of a category name; any other text gets grey. */
  function GetBMICategoryBg(category: string): (bg: string)
    ensures bg == DefaultBg <==> Parse(category).None?
  {
    if category == "Underweight" then "bg-blue-50 border-blue-200"
    else if category == "Normal weight" then "bg-green-50 border-green-200"
    else if category == "Overweight" then "bg-yellow-50 border-yellow-200"
    else if category == "Obesity" then "bg-red-50 border-red-200"
    else DefaultBg
  }

  /** The styling tells the four categories apart. */
  lemma StylesDistinguishCategories(c: Category, d: Category)
    ensures GetBMICategoryColor(Name(c)) == GetBMICategoryColor(Name(d)) ==> c == d
    ensures GetBMICategoryBg(Name(c)) == GetBMICategoryBg(Name(d)) ==> c == d
  {
  }

  /** The text colour and the background group category names in the same way. */
  lemma StylesAgree(a: string, b: string)
    ensures GetBMICategoryColor(a) == GetBMICategoryColor(b) <==> GetBMICategoryBg(a) == GetBMICategoryBg(b)
    ensures GetBMICategoryColor(a) == GetBMICategoryColor(b) <==> Parse(a) == Parse(b)
  {
  }

  /** A computed category is never shown in the default grey. */
  lemma ComputedCategoryIsStyled(bmi: real)
    ensures GetBMICategoryColor(GetBMICategory(bmi)) != DefaultColor
    ensures GetBMICategoryBg(GetBMICategory(bmi)) != DefaultBg
  {
    LookupsAgree(bmi);
  }

  /** `!x` in JavaScript on a parsed number: NaN and 0 are falsy. */
  predicate Falsy(x: JsNumber) {
    x.NaN? || x.value == 0.0
  }

  /** `x <= 0` on a parsed number: false for NaN. */
  predicate AtMostZero(x: JsNumber) {
    x.Num? && x.value <= 0.0
  }

  /** The guard of `handleCalculate`: inputs pass exactly when both parsed to positive numbers. */
  function IsValidInput(weight: JsNumber, height: JsNumber): (ok: bool)
    ensures ok <==> weight.Num? && height.Num? && weight.value > 0.0 && height.value > 0.0
  {
    !(Falsy(weight) || Falsy(height) || AtMostZero(weight) || AtMostZero(height))
  }

  /** An entry as the page computes it from its inputs, the unit setting and the clock. */
  predicate Consistent(r: BmiResult) {
    && r.weight > 0.0 && r.height > 0.0
    && r.bmi == Engine.CalculateBMI(r.weight, r.height, r.isMetric)
    && r.category == Engine.GetBMICategory(r.bmi)
    && r.idealWeight == Engine.CalculateIdealWeight(r.height, r.isMetric)
  }

  /** The `newResult` record of `handleCalculate`. */
  function NewResult(weight: real, height: real, isMetric: bool, now: int): (r: BmiResult)
    requires weight > 0.0 && height > 0.0
    ensures Consistent(r)
    ensures r.weight == weight && r.height == height && r.isMetric == isMetric && r.timestamp == now
    ensures r.bmi > 0.0 && r.idealWeight > 0.0
    ensures Parse(r.category).Some? && InBand(r.bmi, Parse(r.category).value)
  {
    var bmi := CalculateBMI(weight, height, isMetric);
    LookupsAgree(bmi);
    IdealWeightPositive(height, isMetric);
    BmiResult(weight, height, bmi, GetBMICategory(bmi), CalculateIdealWeight(height, isMetric), isMetric, now)
  }

  /** The list is ordered newest first. */
  predicate NewestFirst(results: seq<BmiResult>) {
    forall i, j :: 0 <= i < j < |results| ==> results[i].timestamp >= results[j].timestamp
  }

  /** Putting an entry no older than the current first one at the front keeps the list newest first. */
  lemma PrependKeepsNewestFirst(entry: BmiResult, results: seq<BmiResult>)
    requires NewestFirst(results)
    requires results == [] || entry.timestamp >= results[0].timestamp
    ensures NewestFirst([entry] + results)
  {
    var s := [entry] + results;
    forall i, j | 0 <= i < j < |s| ensures s[i].timestamp >= s[j].timestamp {
      if i == 0 {
        assert s[j] == results[j - 1];
        assert results[0].timestamp >= results[j - 1].timestamp;
      } else {
        assert s[i] == results[i - 1] && s[j] == results[j - 1];
      }
    }
  }

  /** The page state `handleCalculate` and `clearHistory` change. */
  class App {
    var isMetric: bool
    var results: seq<BmiResult>
    var showSuggestions: bool

    /** Every entry is one the page computed. */
    ghost predicate Valid()
      reads this
    {
      forall r :: r in results ==> Consistent(r)
    }

    /** The initial state: metric units, no results, no suggestions shown. */
    constructor ()
      ensures Valid() && isMetric && results == [] && !showSuggestions
    {
      isMetric := true;
      results := [];
      showSuggestions := false;
    }

    /** `latestResult`: the first entry, if there is one. */
    function LatestResult(): (latest: Option<BmiResult>)
      reads this
      ensures latest.Some? <==> results != []
      ensures latest.Some? ==> latest.value in results
      ensures latest.Some? && NewestFirst(results) ==>
        forall r :: r in results ==> r.timestamp <= latest.value.timestamp
    {
      if results == [] then None else Some(results[0])
    }

    /** The unit buttons. */
    method SetUnits(metric: bool)
      modifies this
      ensures isMetric == metric && results == old(results) && showSuggestions == old(showSuggestions)
    {
      isMetric := metric;
    }

    /** `handleCalculate` on the parsed inputs: an alert and no change for invalid input,
        otherwise a new entry at the front of the list and the suggestions shown. */
    method HandleCalculate(weightNum: JsNumber, heightNum: JsNumber, now: int) returns (alert: Option<string>)
      requires Valid()
      modifies this
      ensures Valid()
      ensures alert.Some? <==> !IsValidInput(weightNum, heightNum)
      ensures alert.Some? ==> alert.value == AlertMessage && unchanged(this)
      ensures alert.None? ==>
        && results == [NewResult(weightNum.value, heightNum.value, isMetric, now)] + old(results)
        && isMetric == old(isMetric) && showSuggestions
        && LatestResult() == Some(NewResult(weightNum.value, heightNum.value, isMetric, now))
      ensures alert.None? && NewestFirst(old(results)) && (old(results) == [] || now >= old(results[0].timestamp))
        ==> NewestFirst(results)
    {
      if !IsValidInput(weightNum, heightNum) {
        return Some(AlertMessage);
      }
      var newResult := NewResult(weightNum.value, heightNum.value, isMetric, now);
      if NewestFirst(results) && (results == [] || now >= results[0].timestamp) {
        PrependKeepsNewestFirst(newResult, results);
      }
      results := [newResult] + results;
      showSuggestions := true;
      alert := None;
    }

    /** `clearHistory`: the list is emptied; units and the suggestions flag stay. */
    method ClearHistory()
      modifies this
      ensures Valid() && results == []
      ensures isMetric == old(isMetric) && showSuggestions == old(showSuggestions)
    {
      results := [];
    }
  }
}
