/** The body-data side of the Body Scan (identical in scan.js and
    scan-fallback.js): reading the height/weight/age form in either unit
    system, BMI, and the BMI-based body-fat estimate. */
module BodyData {
  import opened Wrappers
  import opened JsMath
  import opened Text

  /** The scan form as `Number(field.value)` sees it: `None` stands for a
      field whose value is missing or not a number (NaN). */
  datatype ScanForm = ScanForm(sex: string, age: Option<real>, isMetric: bool,
                               heightCm: Option<real>, weightKg: Option<real>,
                               feet: Option<real>, inches: Option<real>, pounds: Option<real>)

  datatype ScanInputs = ScanInputs(sex: string, age: Option<real>,
                                   heightM: Option<real>, weightKg: Option<real>)

  const CmPerInch: real := 2.54
  const KgPerPound: real := 0.45359237

  /** `Number(v) || 0`: NaN and 0 both become 0. */
  function OrZero(v: Option<real>): real {
    v.GetOr(0.0)
  }

  /** `getScanInputs`: metres and kilograms from either unit system. A
      non-positive metric value or a zero imperial height is left out. */
  function GetScanInputs(f: ScanForm): (r: ScanInputs)
    ensures r.sex == (if f.sex == "" then "male" else f.sex)
    ensures r.age.Some? <==> OrZero(f.age) != 0.0
    ensures r.age.Some? ==> r.age.value == OrZero(f.age)
    ensures f.isMetric ==> (r.heightM.Some? <==> OrZero(f.heightCm) > 0.0)
    ensures f.isMetric && r.heightM.Some? ==> r.heightM.value * 100.0 == OrZero(f.heightCm) && r.heightM.value > 0.0
    ensures f.isMetric ==> (r.weightKg.Some? <==> OrZero(f.weightKg) > 0.0)
    ensures f.isMetric && r.weightKg.Some? ==> r.weightKg.value == OrZero(f.weightKg)
    ensures !f.isMetric ==> (r.heightM.Some? <==> OrZero(f.feet) != 0.0 || OrZero(f.inches) != 0.0)
    ensures !f.isMetric && r.heightM.Some? ==>
              r.heightM.value * 100.0 == (OrZero(f.feet) * 12.0 + OrZero(f.inches)) * CmPerInch
    ensures !f.isMetric ==> (r.weightKg.Some? <==> OrZero(f.pounds) > 0.0)
    ensures !f.isMetric && r.weightKg.Some? ==>
              (r.weightKg.value == OrZero(f.pounds) * KgPerPound && r.weightKg.value > 0.0)
  {
    var sex := if f.sex == "" then "male" else f.sex;
    var age := if OrZero(f.age) != 0.0 then Some(OrZero(f.age)) else None;
    if f.isMetric then
      var cm := OrZero(f.heightCm);
      var kg := OrZero(f.weightKg);
      ScanInputs(sex, age, if cm > 0.0 then Some(cm / 100.0) else None, if kg > 0.0 then Some(kg) else None)
    else
      var ft := OrZero(f.feet);
      var inch := OrZero(f.inches);
      var lb := OrZero(f.pounds);
      ScanInputs(sex, age,
                 if ft != 0.0 || inch != 0.0 then Some(((ft * 12.0) + inch) * CmPerInch / 100.0) else None,
                 if lb > 0.0 then Some(lb * KgPerPound) else None)
  }

  /** The same stature entered in centimetres or in feet and inches gives
      the same height in metres. */
  lemma UnitSystemsAgreeOnHeight(metric: ScanForm, imperial: ScanForm)
    requires metric.isMetric && !imperial.isMetric
    requires OrZero(metric.heightCm) == (OrZero(imperial.feet) * 12.0 + OrZero(imperial.inches)) * CmPerInch
    requires OrZero(metric.heightCm) > 0.0
    ensures GetScanInputs(metric).heightM == GetScanInputs(imperial).heightM
  {
  }

  /** `computeBMI`: weight over height squared; null when either value is
      missing or zero. */
  function ComputeBMI(heightM: Option<real>, weightKg: Option<real>): (bmi: Option<real>)
    ensures bmi.Some? <==> heightM.Some? && heightM.value != 0.0 && weightKg.Some? && weightKg.value != 0.0
    ensures bmi.Some? ==> bmi.value * heightM.value * heightM.value == weightKg.value
    ensures bmi.Some? && weightKg.value > 0.0 ==> bmi.value > 0.0
  {
    if heightM.None? || heightM.value == 0.0 || weightKg.None? || weightKg.value == 0.0 then None
    else
      var h := heightM.value;
      assert h * h > 0.0;
      Some(weightKg.value / (h * h))
  }

  const DefaultAge: real := 30.0
  const MinBodyFat: int := 3
  const MaxBodyFat: int := 60

  /** The unclamped estimate 1.2 BMI + 0.23 age - 10.8 [male] - 5.4. */
  function BodyFatRaw(bmi: real, sex: string, age: Option<real>): real {
    var sexBin := if sex == "male" then 1.0 else 0.0;
    var useAge := age.GetOr(DefaultAge);
    1.2 * bmi + 0.23 * useAge - 10.8 * sexBin - 5.4
  }

  /** `bodyFatFromInputs` as a number: null for a non-finite BMI, otherwise
      the rounded estimate clamped to [3, 60]. */
  function BodyFatPercent(bmi: Option<real>, sex: string, age: Option<real>): (r: Option<int>)
    ensures r.Some? <==> bmi.Some?
    ensures r.Some? ==> MinBodyFat <= r.value <= MaxBodyFat
    ensures r.Some? && MinBodyFat as real <= BodyFatRaw(bmi.value, sex, age) <= MaxBodyFat as real
            ==> BodyFatRaw(bmi.value, sex, age) - 0.5 < r.value as real <= BodyFatRaw(bmi.value, sex, age) + 0.5
    ensures r.Some? ==> var raw := BodyFatRaw(bmi.value, sex, age);
              (r.value == MinBodyFat <==> raw < MinBodyFat as real + 0.5)
              && (r.value == MaxBodyFat <==> raw >= MaxBodyFat as real - 0.5)
  {
    match bmi
    case None => None
    case Some(b) => Some(ClampInt(Round(BodyFatRaw(b, sex, age)), MinBodyFat, MaxBodyFat))
  }

  function ClampInt(n: int, lo: int, hi: int): (r: int)
    requires lo <= hi
    ensures lo <= r <= hi
    ensures lo <= n <= hi ==> r == n
  {
    if n < lo then lo else if n > hi then hi else n
  }

  /** A higher BMI never lowers the estimate. */
  lemma BodyFatMonotoneInBmi(b1: real, b2: real, sex: string, age: Option<real>)
    requires b1 <= b2
    ensures BodyFatPercent(Some(b1), sex, age).value <= BodyFatPercent(Some(b2), sex, age).value
  {
    RoundMonotone(BodyFatRaw(b1, sex, age), BodyFatRaw(b2, sex, age));
  }

  /** For equal BMI and age the estimate for "male" is never above any
      other sex value. */
  lemma BodyFatMaleNotAbove(b: real, other: string, age: Option<real>)
    requires other != "male"
    ensures BodyFatPercent(Some(b), "male", age).value <= BodyFatPercent(Some(b), other, age).value
  {
    RoundMonotone(BodyFatRaw(b, "male", age), BodyFatRaw(b, other, age));
  }

  /** A missing age is estimated as age 30. */
  lemma BodyFatDefaultAge(b: real, sex: string)
    ensures BodyFatPercent(Some(b), sex, None) == BodyFatPercent(Some(b), sex, Some(DefaultAge))
  {
  }

  /** The displayed string `${n}%`. */
  function BodyFatLabel(bmi: Option<real>, sex: string, age: Option<real>): (s: Option<string>)
    ensures s.Some? <==> bmi.Some?
    ensures s.Some? ==> |s.value| >= 2 && s.value[|s.value| - 1] == '%'
                        && AllDigits(s.value[..|s.value| - 1])
                        && ParseDigits(s.value[..|s.value| - 1]) == BodyFatPercent(bmi, sex, age).value
  {
    match BodyFatPercent(bmi, sex, age)
    case None => None
    case Some(p) =>
      var digits := NatToString(p);
      ParseNatToString(p);
      assert (digits + "%")[..|digits|] == digits;
      Some(digits + "%")
  }
}
