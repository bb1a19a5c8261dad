/** The health-metrics calculator behind the quiz results page: body-mass index
    and its band, the ideal-weight range, the Mifflin-St Jeor basal metabolic
    rate scaled by an activity multiplier, and the daily water need. Lengths are
    in centimetres, weights in kilograms, water in litres. */
module HealthMetrics {
  import Wrappers
  import opened JsNum

  /** The four BMI bands the results page names. */
  datatype BmiCategory = Underweight | HealthyWeight | Overweight | Obese {
    /** The label stored with the quiz and shown to the user. */
    function Name(): (s: string)
      ensures s != []
    {
      match this
      case Underweight => "Underweight"
      case HealthyWeight => "Healthy Weight"
      case Overweight => "Overweight"
      case Obese => "Obese"
    }

    /** Position of the band on the BMI scale, lightest first. */
    function Rank(): (k: nat)
      ensures k < 4
    {
      match this
      case Underweight => 0
      case HealthyWeight => 1
      case Overweight => 2
      case Obese => 3
    }
  }

  /** The band of a BMI value: below 18.5, below 25, below 30, and the rest. */
  function CategoryOf(bmi: real): (c: BmiCategory)
    ensures c == Underweight <==> bmi < 18.5
    ensures c == HealthyWeight <==> 18.5 <= bmi < 25.0
    ensures c == Overweight <==> 25.0 <= bmi < 30.0
    ensures c == Obese <==> 30.0 <= bmi
  {
    if bmi < 18.5 then Underweight
    else if bmi >= 18.5 && bmi < 25.0 then HealthyWeight
    else if bmi >= 25.0 && bmi < 30.0 then Overweight
    else Obese
  }

  /** A heavier BMI never falls in a lighter band. */
  lemma CategoryMonotone(x: real, y: real)
    requires x <= y
    ensures CategoryOf(x).Rank() <= CategoryOf(y).Rank()
  {
  }

  /** Distinct bands carry distinct names. */
  lemma CategoryNamesDistinct(c: BmiCategory, d: BmiCategory)
    ensures c.Name() == d.Name() <==> c == d
  {
  }

  /** Body-mass index: weight over the square of the height in metres. */
  function Bmi(heightCm: real, weightKg: real): (bmi: real)
    requires heightCm != 0.0
    ensures bmi * ((heightCm / 100.0) * (heightCm / 100.0)) == weightKg
    ensures weightKg > 0.0 ==> bmi > 0.0
  {
    var hm := heightCm / 100.0;
    assert hm * hm > 0.0 by {
      if hm < 0.0 { assert hm * hm == (-hm) * (-hm); }
    }
    weightKg / (hm * hm)
  }

  /** The weights whose BMI lies in 18.5 .. 24.9, each rounded to whole kilograms. */
  function IdealWeightRange(heightCm: real): (range: (int, int))
    ensures range.0 <= range.1
    ensures var m := heightCm / 100.0;
      range.0 as real - 0.5 <= 18.5 * m * m < range.0 as real + 0.5
      && range.1 as real - 0.5 <= 24.9 * m * m < range.1 as real + 0.5
  {
    var m := heightCm / 100.0;
    RoundMonotone(18.5 * m * m, 24.9 * m * m);
    (Round(18.5 * m * m), Round(24.9 * m * m))
  }

  /** The unscaled Mifflin-St Jeor rate: the male formula adds 5, every other
      gender value, `"other"` and `"prefer_not_to_say"` included, subtracts 161. */
  function BaseBmr(heightCm: real, weightKg: real, age: real, gender: string): (b: real)
    ensures gender == "male" ==> b - (10.0 * weightKg + 6.25 * heightCm - 5.0 * age) == 5.0
    ensures gender != "male" ==> b - (10.0 * weightKg + 6.25 * heightCm - 5.0 * age) == -161.0
  {
    var core := 10.0 * weightKg + 6.25 * heightCm - 5.0 * age;
    if gender == "male" then core + 5.0 else core - 161.0
  }

  /** Any two non-male gender values give the same rate, 166 below the male one. */
  lemma BaseBmrGenderGap(heightCm: real, weightKg: real, age: real, gender: string)
    requires gender != "male"
    ensures BaseBmr(heightCm, weightKg, age, "male") - BaseBmr(heightCm, weightKg, age, gender) == 166.0
  {
  }

  /** The levels of the activity-multiplier table. */
  const TableLevels: set<string> := {"sedentary", "light", "moderate", "active", "very_active"}

  /** The property names every JavaScript object inherits from
      `Object.prototype`. Looked up in the table, each gives a function or an
      object: a truthy value that is not a number. */
  const InheritedKeys: set<string> := {
    "constructor", "hasOwnProperty", "isPrototypeOf", "propertyIsEnumerable",
    "toLocaleString", "toString", "valueOf", "__proto__",
    "__defineGetter__", "__defineSetter__", "__lookupGetter__", "__lookupSetter__"}

  /** `activityMultipliers[level] || 1.2`: the table's multiplier, 1.2 for a
      level the table lacks, and NaN (as the product with it will be) for an
      inherited property name. */
  function ActivityMultiplier(level: string): (f: Num)
    ensures f.NaN? <==> level in InheritedKeys
    ensures f.Finite? ==> 1.2 <= f.v <= 1.9
    ensures level !in TableLevels && level !in InheritedKeys ==> f == Finite(1.2)
  {
    if level == "sedentary" then Finite(1.2)
    else if level == "light" then Finite(1.375)
    else if level == "moderate" then Finite(1.55)
    else if level == "active" then Finite(1.725)
    else if level == "very_active" then Finite(1.9)
    else if level in InheritedKeys then NaN
    else Finite(1.2)
  }

  /** A more active level of the table never gets a smaller multiplier. */
  lemma ActivityMultiplierOrdered()
    ensures ActivityMultiplier("sedentary").v < ActivityMultiplier("light").v
            < ActivityMultiplier("moderate").v < ActivityMultiplier("active").v
            < ActivityMultiplier("very_active").v
  {
  }

  /** The quiz's days-per-week answer read as an activity level; any other answer,
      a missing one included, is `"moderate"`. */
  function ActivityLevelFromDays(days: Wrappers.Option<string>): (level: string)
    ensures level in {"sedentary", "light", "moderate", "active"}
    ensures level != "very_active"
    ensures days.Some? && days.value == "0-1" ==> level == "sedentary"
    ensures days.Some? && days.value == "2-3" ==> level == "light"
    ensures days.Some? && days.value == "6-7" ==> level == "active"
    ensures days.None? || days.value !in {"0-1", "2-3", "6-7"} ==> level == "moderate"
  {
    match days
    case Some(a) =>
      if a == "" then "moderate"
      else if a == "0-1" then "sedentary"
      else if a == "2-3" then "light"
      else if a == "4-5" then "moderate"
      else if a == "6-7" then "active"
      else "moderate"
    case None => "moderate"
  }

  /** The metrics the results page shows; `bmr` is NaN when the age was not a
      number. */
  datatype Metrics = Metrics(
    bmi: real,
    category: BmiCategory,
    idealMin: int,
    idealMax: int,
    bmr: Num,
    waterNeeded: real)

  /** The daily water need, 0.033 litres per kilogram, to one decimal place. */
  function WaterNeeded(weightKg: real): (litres: real)
    ensures (10.0 * litres).Floor as real == 10.0 * litres
    ensures weightKg >= 0.0 ==> litres - 0.05 <= weightKg * 0.033 < litres + 0.05
    ensures -0.05 <= litres - weightKg * 0.033 <= 0.05
  {
    ToFixed1(weightKg * 0.033)
  }

  /** The rate scaled by the activity multiplier and rounded to an integer; an
      age that is not a number, or a multiplier that is not one, makes it NaN. */
  function ScaledBmr(heightCm: real, weightKg: real, age: Num, gender: string, level: string): (r: Num)
    ensures r.NaN? <==> age.NaN? || level in InheritedKeys
    ensures r.Finite? ==>
      var x := BaseBmr(heightCm, weightKg, age.v, gender) * ActivityMultiplier(level).v;
      r.v == r.v.Floor as real && x - 0.5 < r.v <= x + 0.5
  {
    match (age, ActivityMultiplier(level))
    case (Finite(a), Finite(f)) =>
      var x := BaseBmr(heightCm, weightKg, a, gender) * f;
      var n := Round(x);
      assert (n as real).Floor == n;
      Finite(n as real)
    case _ => NaN
  }

  /** `calculateHealthMetrics`. The band is taken from the unrounded BMI; the
      shown BMI is rounded to one decimal. The rate is rounded after scaling; the
      source rounds it a second time, which leaves an integer unchanged. */
  function Calculate(heightCm: real, weightKg: real, age: Num, gender: string, level: string): (m: Metrics)
    requires heightCm != 0.0
    ensures m.category == CategoryOf(Bmi(heightCm, weightKg))
    ensures m.bmi == ToFixed1(Bmi(heightCm, weightKg))
    ensures -0.05 <= m.bmi - Bmi(heightCm, weightKg) <= 0.05
    ensures (m.idealMin, m.idealMax) == IdealWeightRange(heightCm) && m.idealMin <= m.idealMax
    ensures m.bmr == ScaledBmr(heightCm, weightKg, age, gender, level)
    ensures m.waterNeeded == WaterNeeded(weightKg)
  {
    var b := Bmi(heightCm, weightKg);
    var range := IdealWeightRange(heightCm);
    Metrics(ToFixed1(b), CategoryOf(b), range.0, range.1,
            ScaledBmr(heightCm, weightKg, age, gender, level), WaterNeeded(weightKg))
  }

  /** `Round` of a value known to lie within half a unit of the integer `n`. */
  lemma RoundIs(x: real, n: int)
    requires n as real - 0.5 <= x < n as real + 0.5
    ensures Round(x) == n
  {
  }

  /** A 170 cm, 70 kg, 30-year-old man of moderate activity: BMI 24.2 in the
      healthy band, an ideal weight of 53 to 72 kg, a rate of 2507 and 2.3 litres
      of water a day. */
  lemma WorkedExample()
    ensures Calculate(170.0, 70.0, Finite(30.0), "male", "moderate")
      == Metrics(24.2, HealthyWeight, 53, 72, Finite(2507.0), 2.3)
  {
    var b := Bmi(170.0, 70.0);
    assert b == 70.0 / 2.89;
    assert 242.1 <= 10.0 * b < 242.5;
    RoundIs(10.0 * b, 242);
    RoundIs(18.5 * 1.7 * 1.7, 53);
    RoundIs(24.9 * 1.7 * 1.7, 72);
    assert BaseBmr(170.0, 70.0, 30.0, "male") == 1617.5;
    RoundIs(1617.5 * 1.55, 2507);
    RoundIs(10.0 * (70.0 * 0.033), 23);
  }
}
