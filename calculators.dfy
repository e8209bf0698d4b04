/** The BMI and BMR/TDEE calculators of the site's front page
    (assets/js/main.js): form reading with metric or imperial units, the
    WHO adult BMI categories and the Mifflin-St Jeor equation. */
module Calculators {
  import opened Wrappers
  import opened JsMath
  import BodyData

  /** JavaScript truthiness of a `parseFloat` result: NaN (None) and 0 are
      falsy. */
  predicate Truthy(v: Option<real>) { v.Some? && v.value != 0.0 }

  datatype Units = Metric | Imperial

  /** The height and weight fields of a calculator, each already passed
      through `parseFloat` (None for NaN). */
  datatype BodyForm = BodyForm(units: Units, heightCm: Option<real>, weightKg: Option<real>,
                               feet: Option<real>, inches: Option<real>, pounds: Option<real>)

  const MissingBody: string := "Enter height and weight"
  const MissingAge: string := "Enter your age"

  /** The form's height in centimetres and weight in kilograms, or None
      when the form is rejected: a falsy metric height or weight, or, in
      imperial units, feet and inches both falsy or falsy pounds. Missing
      feet or inches count as 0. */
  function Measure(f: BodyForm): (r: Option<(real, real)>)
    ensures r.None? <==> if f.units == Metric then !Truthy(f.heightCm) || !Truthy(f.weightKg)
                         else (!Truthy(f.feet) && !Truthy(f.inches)) || !Truthy(f.pounds)
    ensures r.Some? ==> r.value.1 != 0.0
    ensures r.Some? && f.units == Metric ==> r.value.0 != 0.0
    ensures r.Some? && f.units == Metric ==> r.value == (f.heightCm.value, f.weightKg.value)
    ensures r.Some? && f.units == Imperial ==>
              r.value == ((BodyData.OrZero(f.feet) * 12.0 + BodyData.OrZero(f.inches)) * BodyData.CmPerInch,
                          f.pounds.value * BodyData.KgPerPound)
  {
    match f.units
    case Metric =>
      if !Truthy(f.heightCm) || !Truthy(f.weightKg) then None
      else Some((f.heightCm.value, f.weightKg.value))
    case Imperial =>
      if (!Truthy(f.feet) && !Truthy(f.inches)) || !Truthy(f.pounds) then None
      else
        var inches := BodyData.OrZero(f.feet) * 12.0 + BodyData.OrZero(f.inches);
        Some((inches * BodyData.CmPerInch, f.pounds.value * BodyData.KgPerPound))
  }

  /** The metric form that states the same body as an imperial one. */
  function AsMetric(f: BodyForm): BodyForm {
    var inches := BodyData.OrZero(f.feet) * 12.0 + BodyData.OrZero(f.inches);
    BodyForm(Metric, Some(inches * BodyData.CmPerInch), Some(f.pounds.GetOr(0.0) * BodyData.KgPerPound),
             None, None, None)
  }

  /** An accepted imperial form and its metric conversion (2.54 cm per
      inch, 0.45359237 kg per pound) measure the same body, provided the
      converted height is not zero (the metric form rejects that). */
  lemma UnitsAgree(f: BodyForm)
    requires f.units == Imperial && Measure(f).Some? && Measure(f).value.0 != 0.0
    ensures Measure(AsMetric(f)) == Measure(f)
  {
  }

  // ---------------------------------------------------------------------
  // BMI

  datatype BmiCategory = Underweight | Normal | Overweight | Obese

  /** WHO adult thresholds 18.5, 25 and 30, read as the source's `<` chain:
      a NaN BMI fails every comparison and lands in the last branch. */
  function Category(bmi: JsNumber): (c: BmiCategory)
    ensures c == Underweight <==> bmi.Below(18.5)
    ensures c == Normal <==> !bmi.Below(18.5) && bmi.Below(25.0)
    ensures c == Overweight <==> !bmi.Below(25.0) && bmi.Below(30.0)
    ensures c == Obese <==> !bmi.Below(30.0)
  {
    if bmi.Below(18.5) then Underweight
    else if bmi.Below(25.0) then Normal
    else if bmi.Below(30.0) then Overweight
    else Obese
  }

  function Rank(c: BmiCategory): nat {
    match c
    case Underweight => 0
    case Normal => 1
    case Overweight => 2
    case Obese => 3
  }

  /** A higher BMI never falls into a lower category. */
  lemma CategoryMonotone(b1: real, b2: real)
    requires b1 <= b2
    ensures Rank(Category(Finite(b1))) <= Rank(Category(Finite(b2)))
  {
  }

  datatype BmiOutcome = BmiMessage(text: string) | BmiReading(bmi: JsNumber, category: BmiCategory)

  /** `calcBMI`: the form's message when it is rejected, otherwise weight
      over height squared (height in metres) and its category. A metric
      height is never zero, so a metric BMI is a finite number. */
  function CalcBMI(f: BodyForm): (r: BmiOutcome)
    ensures r.BmiMessage? <==> Measure(f).None?
    ensures r.BmiMessage? ==> r.text == MissingBody
    ensures r.BmiReading? ==> r.category == Category(r.bmi) && r.bmi != NaN
    ensures r.BmiReading? ==>
              var m := Measure(f).value.0 / 100.0;
              (m != 0.0 <==> r.bmi.Finite?) && (r.bmi.Finite? ==> r.bmi.v * (m * m) == Measure(f).value.1)
    ensures r.BmiReading? && f.units == Metric ==> r.bmi.Finite?
  {
    match Measure(f)
    case None => BmiMessage(MissingBody)
    case Some((heightCm, weightKg)) =>
      var heightM := heightCm / 100.0;
      var bmi := Divide(weightKg, heightM * heightM);
      BmiReading(bmi, Category(bmi))
  }

  /** Entering a body in imperial units gives the same BMI as entering
      its conversion in metric units. */
  lemma BmiUnitsAgree(f: BodyForm)
    requires f.units == Imperial && Measure(f).Some? && Measure(f).value.0 != 0.0
    ensures CalcBMI(AsMetric(f)) == CalcBMI(f)
  {
    UnitsAgree(f);
  }

  // ---------------------------------------------------------------------
  // BMR and TDEE

  /** The BMR calculator: sex, age, activity factor and the body fields. */
  datatype BmrForm = BmrForm(sex: string, age: Option<real>, activity: Option<real>, body: BodyForm)

  datatype BmrOutcome = BmrMessage(text: string) | BmrReading(bmr: real, tdee: Option<real>)

  /** The Mifflin-St Jeor constant: +5 for "male", -161 for anything else. */
  function SexOffset(sex: string): real {
    if sex == "male" then 5.0 else -161.0
  }

  /** The Mifflin-St Jeor resting energy estimate, in kcal per day. */
  function MifflinStJeor(weightKg: real, heightCm: real, age: real, sex: string): real {
    10.0 * weightKg + 6.25 * heightCm - 5.0 * age + SexOffset(sex)
  }

  /** `calcBMR`: a falsy age is reported first, then a rejected body;
      otherwise the BMR, and the TDEE as BMR times the activity factor
      (NaN, here None, when the factor is not a number). */
  function CalcBMR(f: BmrForm): (r: BmrOutcome)
    ensures r.BmrMessage? <==> !Truthy(f.age) || Measure(f.body).None?
    ensures r.BmrMessage? ==> r.text == if !Truthy(f.age) then MissingAge else MissingBody
    ensures r.BmrReading? ==>
              r.bmr == MifflinStJeor(Measure(f.body).value.1, Measure(f.body).value.0, f.age.value, f.sex)
    ensures r.BmrReading? ==> (r.tdee.Some? <==> f.activity.Some?)
    ensures r.BmrReading? && r.tdee.Some? ==> r.tdee.value == r.bmr * f.activity.value
  {
    if !Truthy(f.age) then BmrMessage(MissingAge)
    else match Measure(f.body)
      case None => BmrMessage(MissingBody)
      case Some((heightCm, weightKg)) =>
        var bmr := 10.0 * weightKg + 6.25 * heightCm - 5.0 * f.age.value + SexOffset(f.sex);
        BmrReading(bmr, if f.activity.Some? then Some(bmr * f.activity.value) else None)
  }

  /** For the same body and age, the "male" estimate is 166 kcal above any
      other. */
  lemma SexGap(f: BmrForm, other: string)
    requires other != "male" && CalcBMR(f).BmrReading?
    ensures CalcBMR(f.(sex := "male")).bmr - CalcBMR(f.(sex := other)).bmr == 166.0
  {
  }

  /** Every year of age lowers the estimate by 5 kcal, and every kilogram
      raises it by 10. */
  lemma AgeAndWeightSteps(w: real, h: real, a: real, sex: string)
    ensures MifflinStJeor(w, h, a + 1.0, sex) == MifflinStJeor(w, h, a, sex) - 5.0
    ensures MifflinStJeor(w + 1.0, h, a, sex) == MifflinStJeor(w, h, a, sex) + 10.0
  {
  }

  /** The BMR calculator, like the BMI one, does not depend on the unit
      system the body was entered in. */
  lemma BmrUnitsAgree(f: BmrForm)
    requires f.body.units == Imperial && Measure(f.body).Some? && Measure(f.body).value.0 != 0.0
    ensures CalcBMR(f.(body := AsMetric(f.body))) == CalcBMR(f)
  {
    UnitsAgree(f.body);
    var g := f.(body := AsMetric(f.body));
    assert Measure(g.body) == Measure(f.body);
    assert g.age == f.age && g.sex == f.sex && g.activity == f.activity;
    if Truthy(f.age) {
      var r1, r2 := CalcBMR(g), CalcBMR(f);
      assert r1.BmrReading? && r2.BmrReading?;
      assert r1.bmr == r2.bmr;
      if f.activity.Some? {
        assert r1.tdee.value == r2.tdee.value;
      }
    }
  }
}
