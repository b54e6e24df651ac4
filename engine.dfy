/** The BMI engine of server.js: the static methods of `BMICalculator`.
    Numbers are exact reals. */
module Engine {

  /** The four categories, in increasing order of BMI. */
  datatype Category = Underweight | NormalWeight | Overweight | Obesity

  /** Position of a category on the BMI scale. */
  function Rank(c: Category): nat {
    match c
    case Underweight => 0
    case NormalWeight => 1
    case Overweight => 2
    case Obesity => 3
  }

  /** Reference definition of the thresholds: the half-open band of BMI values
      each category covers, closed at its lower end. */
  predicate InBand(bmi: real, c: Category) {
    match c
    case Underweight => bmi < 18.5
    case NormalWeight => 18.5 <= bmi < 25.0
    case Overweight => 25.0 <= bmi < 30.0
    case Obesity => 30.0 <= bmi
  }

  /** The text the server and the client show for each category. */
  function Name(c: Category): string {
    match c
    case Underweight => "Underweight"
    case NormalWeight => "Normal weight"
    case Overweight => "Overweight"
    case Obesity => "Obesity"
  }

  /** The category a shown name stands for; any other text stands for none. */
  function Parse(name: string): (c: Option<Category>)
    ensures forall k :: c == Some(k) <==> name == Name(k)
  {
    if name == "Underweight" then Some(Underweight)
    else if name == "Normal weight" then Some(NormalWeight)
    else if name == "Overweight" then Some(Overweight)
    else if name == "Obesity" then Some(Obesity)
    else None
  }

  datatype Option<T> = None | Some(value: T)

  // The user-facing texts, shared word for word by server.js and src/App.tsx.
  const UnderweightRisk := "Your BMI indicates that you are underweight. Health risks may include malnutrition and weakened immune system."
  const NormalWeightRisk := "Your BMI indicates that you are within a healthy weight range. Keep up the good work!"
  const OverweightRisk := "Your BMI indicates that you are overweight. Health risks may include high blood pressure, heart disease, and type 2 diabetes."
  const ObesityRisk := "Your BMI indicates that you are obese. Health risks may include coronary artery disease, stroke, and sleep apnea."
  const UnderweightAdvice := "Consider consulting with a healthcare professional to ensure you are getting adequate nutrition."
  const NormalWeightAdvice := "Continue maintaining a balanced diet and regular exercise routine to stay within a healthy weight range."
  const OverweightAdvice := "Focus on adopting healthier eating habits and increasing physical activity to manage your weight."
  const ObesityAdvice := "It's important to seek medical advice and develop a comprehensive plan to address your weight and overall health."

  /** The health-risk text of each category. */
  function Risk(c: Category): string {
    match c
    case Underweight => UnderweightRisk
    case NormalWeight => NormalWeightRisk
    case Overweight => OverweightRisk
    case Obesity => ObesityRisk
  }

  /** The suggestion text of each category. */
  function Advice(c: Category): string {
    match c
    case Underweight => UnderweightAdvice
    case NormalWeight => NormalWeightAdvice
    case Overweight => OverweightAdvice
    case Obesity => ObesityAdvice
  }

  /** Height in metres: centimetres divided by 100, inches times 0.0254. */
  function HeightInMeters(height: real, isMetric: bool): (m: real)
    ensures height > 0.0 ==> m > 0.0
  {
    if isMetric then height / 100.0 else height * 0.0254
  }

  /** `calculateBMI`: kilograms per square metre, or 703 times pounds per square inch
      (`Math.pow(x, 2)` is `x * x`). Its callers validate that height is positive. */
  function CalculateBMI(weight: real, height: real, isMetric: bool): (bmi: real)
    requires height > 0.0
    ensures isMetric ==> bmi * ((height / 100.0) * (height / 100.0)) == weight
    ensures !isMetric ==> bmi * (height * height) == 703.0 * weight
    ensures weight > 0.0 ==> bmi > 0.0
  {
    if isMetric then
      Quotient(weight, height / 100.0);
      weight / ((height / 100.0) * (height / 100.0))
    else
      Quotient(weight * 703.0, height);
      (weight * 703.0) / (height * height)
  }

  /** `calculateIdealWeight`: 22 times the square of the height in metres, in
      kilograms whatever the unit of the height. It takes no weight. */
  function CalculateIdealWeight(height: real, isMetric: bool): real
  {
    var m := HeightInMeters(height, isMetric);
    22.0 * (m * m)
  }

  /** A positive height has a positive ideal weight. */
  lemma IdealWeightPositive(height: real, isMetric: bool)
    requires height > 0.0
    ensures CalculateIdealWeight(height, isMetric) > 0.0
  {
    Quotient(1.0, HeightInMeters(height, isMetric));
  }

  /** `getBMICategory` */
  function GetBMICategory(bmi: real): (name: string)
    ensures forall c :: name == Name(c) <==> InBand(bmi, c)
  {
    if bmi < 18.5 then "Underweight"
    else if bmi < 25.0 then "Normal weight"
    else if bmi < 30.0 then "Overweight"
    else "Obesity"
  }

  /** `getHealthRisks` */
  function GetHealthRisks(bmi: real): (text: string)
    ensures forall c :: text == Risk(c) <==> InBand(bmi, c)
  {
    if bmi < 18.5 then UnderweightRisk
    else if bmi < 25.0 then NormalWeightRisk
    else if bmi < 30.0 then OverweightRisk
    else ObesityRisk
  }

  /** `getSuggestion` */
  function GetSuggestion(bmi: real): (text: string)
    ensures forall c :: text == Advice(c) <==> InBand(bmi, c)
  {
    if bmi < 18.5 then UnderweightAdvice
    else if bmi < 25.0 then NormalWeightAdvice
    else if bmi < 30.0 then OverweightAdvice
    else ObesityAdvice
  }

  /** The four risk texts are pairwise different, and so are the four suggestions. */
  lemma TextsDistinct(c: Category, d: Category)
    ensures Risk(c) == Risk(d) ==> c == d
    ensures Advice(c) == Advice(d) ==> c == d
  {
  }

  /** The bands cover every BMI and do not overlap. */
  lemma BandsPartition(bmi: real)
    ensures exists c :: InBand(bmi, c)
    ensures forall c, d :: InBand(bmi, c) && InBand(bmi, d) ==> c == d
  {
    assert InBand(bmi, Underweight) || InBand(bmi, NormalWeight) || InBand(bmi, Overweight) || InBand(bmi, Obesity);
  }

  /** A higher BMI never gets a lower category. */
  lemma CategoryMonotone(bmi1: real, bmi2: real)
    requires bmi1 <= bmi2
    ensures Parse(GetBMICategory(bmi1)).Some? && Parse(GetBMICategory(bmi2)).Some?
    ensures Rank(Parse(GetBMICategory(bmi1)).value) <= Rank(Parse(GetBMICategory(bmi2)).value)
  {
  }

  /** The exact thresholds fall into the upper category. */
  lemma ThresholdsBelongUpward()
    ensures GetBMICategory(18.49) == "Underweight" && GetBMICategory(18.5) == "Normal weight"
    ensures GetBMICategory(24.99) == "Normal weight" && GetBMICategory(25.0) == "Overweight"
    ensures GetBMICategory(29.99) == "Overweight" && GetBMICategory(30.0) == "Obesity"
  {
  }

  /** The risk text and the suggestion are picked from the same bucket as the category. */
  lemma LookupsAgree(bmi: real)
    ensures Parse(GetBMICategory(bmi)).Some?
    ensures GetHealthRisks(bmi) == Risk(Parse(GetBMICategory(bmi)).value)
    ensures GetSuggestion(bmi) == Advice(Parse(GetBMICategory(bmi)).value)
  {
    BandsPartition(bmi);
  }

  /** Risk text and suggestion depend on the category alone, and tell the four categories apart. */
  lemma TextsFollowCategory(bmi1: real, bmi2: real)
    ensures GetHealthRisks(bmi1) == GetHealthRisks(bmi2) <==> GetBMICategory(bmi1) == GetBMICategory(bmi2)
    ensures GetSuggestion(bmi1) == GetSuggestion(bmi2) <==> GetBMICategory(bmi1) == GetBMICategory(bmi2)
  {
    BandsPartition(bmi1);
    BandsPartition(bmi2);
  }

  /** More weight at the same height gives a higher BMI. */
  lemma BmiIncreasesWithWeight(weight1: real, weight2: real, height: real, isMetric: bool)
    requires height > 0.0 && weight1 < weight2
    ensures CalculateBMI(weight1, height, isMetric) < CalculateBMI(weight2, height, isMetric)
  {
    var m := if isMetric then height / 100.0 else height;
    LessByPositive(CalculateBMI(weight1, height, isMetric), CalculateBMI(weight2, height, isMetric), m);
  }

  /** The same positive weight at a greater height gives a lower BMI. */
  lemma BmiDecreasesWithHeight(weight: real, height1: real, height2: real, isMetric: bool)
    requires weight > 0.0 && 0.0 < height1 < height2
    ensures CalculateBMI(weight, height1, isMetric) > CalculateBMI(weight, height2, isMetric)
  {
    var bmi1, bmi2 := CalculateBMI(weight, height1, isMetric), CalculateBMI(weight, height2, isMetric);
    var m1 := if isMetric then height1 / 100.0 else height1;
    var m2 := if isMetric then height2 / 100.0 else height2;
    ScaleSquares(bmi2, m1, m2);
    LessByPositive(bmi2, bmi1, m1);
  }

  /** The ideal weight grows strictly with height. */
  lemma IdealWeightIncreases(height1: real, height2: real, isMetric: bool)
    requires 0.0 < height1 < height2
    ensures CalculateIdealWeight(height1, isMetric) < CalculateIdealWeight(height2, isMetric)
  {
    SquareIncreases(HeightInMeters(height1, isMetric), HeightInMeters(height2, isMetric));
  }

  /** In metric units the ideal weight is exactly the weight whose BMI is 22. */
  lemma IdealWeightHasBmi22(height: real)
    requires height > 0.0
    ensures CalculateBMI(CalculateIdealWeight(height, true), height, true) == 22.0
  {
    IdealWeightPositive(height, true);
    EqualByPositive(CalculateBMI(CalculateIdealWeight(height, true), height, true), 22.0, height / 100.0);
  }

  /** In imperial units the ideal weight is still in kilograms: that of the same height in centimetres. */
  lemma IdealWeightIsMetric(height: real)
    ensures CalculateIdealWeight(height, false) == CalculateIdealWeight(height * 2.54, true)
  {
    assert HeightInMeters(height, false) == HeightInMeters(height * 2.54, true);
  }

  /** Worked values: 180 cm gives 71.28 kg; 70 kg at 175 cm is normal weight with ideal
      67.375 kg; 150 lbs at 65 in is just below 25, so normal weight although it displays as 25.0. */
  lemma WorkedValues()
    ensures CalculateIdealWeight(180.0, true) == 71.28
    ensures CalculateIdealWeight(175.0, true) == 67.375
    ensures GetBMICategory(CalculateBMI(70.0, 175.0, true)) == "Normal weight"
    ensures 24.95 < CalculateBMI(150.0, 65.0, false) < 25.0
    ensures GetBMICategory(CalculateBMI(150.0, 65.0, false)) == "Normal weight"
  {
  }

  // Facts of real arithmetic. Their arguments are kept linear at every call:
  // the solver relates products reliably only when they appear as written.

  lemma Quotient(w: real, m: real)
    requires m > 0.0
    ensures m * m > 0.0
    ensures (w / (m * m)) * (m * m) == w
    ensures w > 0.0 ==> w / (m * m) > 0.0
  {
    assert m * m > 0.0;
  }

  lemma SquareIncreases(x: real, y: real)
    requires 0.0 < x < y
    ensures 0.0 < x * x < y * y
  {
  }

  lemma ScaleSquares(b: real, x: real, y: real)
    requires b > 0.0 && 0.0 < x < y
    ensures b * (x * x) < b * (y * y)
  {
    SquareIncreases(x, y);
  }

  lemma LessByPositive(a: real, b: real, m: real)
    requires m > 0.0 && a * (m * m) < b * (m * m)
    ensures a < b
  {
    assert m * m > 0.0;
  }

  lemma EqualByPositive(a: real, b: real, m: real)
    requires m > 0.0 && a * (m * m) == b * (m * m)
    ensures a == b
  {
    assert m * m > 0.0;
  }
}
