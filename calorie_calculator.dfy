/**
  The standalone calorie calculator: three slider inputs (weight in kg,
  duration in minutes, intensity in percent) and the button that computes
  `Math.round(weight * duration * (intensity / 100) * 0.8)`.
 */
module Calories {

  /** The value of `calculateCalories`'s expression before rounding, in exact arithmetic; never negative. */
  function ExactCalories(weight: nat, duration: nat, intensity: nat): (x: real)
    ensures x >= 0.0
  {
    (weight as real) * (duration as real) * ((intensity as real) / 100.0) * 0.8
  }

  /** `Math.round(x)`: the nearest integer, halves rounded up. */
  function Round(x: real): (r: int)
    ensures x - 0.5 < r as real <= x + 0.5
  {
    (x + 0.5).Floor
  }

  /**
    The button's result in integer arithmetic: `round(w * d * i / 125)`, which is
    `(2 * w * d * i + 125) / 250` with integer division.
   */
  function CaloriesBurned(weight: nat, duration: nat, intensity: nat): (r: nat)
    ensures r == Round(ExactCalories(weight, duration, intensity))
  {
    var p := weight * duration * intensity;
    var r := (2 * p + 125) / 250;
    ExactIsProductOver125(weight, duration, intensity);
    assert r * 250 <= 2 * p + 125 < r * 250 + 250;
    assert (r as real) <= (p as real) / 125.0 + 0.5 < (r as real) + 1.0;
    r
  }

  /** `w * d * (i / 100) * 0.8 == w * d * i / 125`. */
  lemma ExactIsProductOver125(weight: nat, duration: nat, intensity: nat)
    ensures ExactCalories(weight, duration, intensity) == ((weight * duration * intensity) as real) / 125.0
  {
    var wd := weight * duration;
    assert (wd as real) == (weight as real) * (duration as real);
    assert ((wd * intensity) as real) == (wd as real) * (intensity as real);
  }

  /**
    The exact value stays at least 1/250 away from every point halfway between
    two integers, so how ties round does not matter and a floating-point error
    far below 1/250 cannot change the rounded result.
   */
  lemma NoTie(weight: nat, duration: nat, intensity: nat, n: int)
    ensures var x := ExactCalories(weight, duration, intensity) - ((n as real) + 0.5);
      x >= 1.0 / 250.0 || x <= -1.0 / 250.0
  {
    ExactIsProductOver125(weight, duration, intensity);
    var k := 2 * (weight * duration * intensity) - 250 * n - 125;
    assert k % 2 == 1;
    assert ExactCalories(weight, duration, intensity) - ((n as real) + 0.5) == (k as real) / 250.0;
  }

  /** The defaults 70 kg, 30 min, 50 % give 840. */
  lemma DefaultCalories()
    ensures CaloriesBurned(DefaultWeight, DefaultDuration, DefaultIntensity) == 840
  {
    assert DefaultWeight * DefaultDuration * DefaultIntensity == 105000;
  }

  lemma MulMonotone(a: nat, b: nat, c: nat)
    requires a <= b
    ensures a * c <= b * c
  {
  }

  /** More weight, a longer duration or a higher intensity never gives fewer calories. */
  lemma CaloriesMonotone(w: nat, d: nat, i: nat, w': nat, d': nat, i': nat)
    requires w <= w' && d <= d' && i <= i'
    ensures CaloriesBurned(w, d, i) <= CaloriesBurned(w', d', i')
  {
    MulMonotone(w, w', d);
    MulMonotone(d, d', w');
    assert w * d <= w' * d';
    MulMonotone(w * d, w' * d', i);
    MulMonotone(i, i', w' * d');
    assert w * d * i <= w' * d' * i';
  }

  // ---------------------------------------------------------------------------
  // The sliders

  const DefaultWeight: nat := 70
  const DefaultDuration: nat := 30
  const DefaultIntensity: nat := 50

  datatype Field = Weight | Duration | Intensity

  /** `formData`. */
  datatype FormData = FormData(weight: nat, duration: nat, intensity: nat)

  function Get(f: FormData, field: Field): nat {
    match field
    case Weight => f.weight
    case Duration => f.duration
    case Intensity => f.intensity
  }

  /** `setFormData(prev => ({ ...prev, [field]: value }))`: only the named field changes. */
  function Set(f: FormData, field: Field, value: nat): (r: FormData)
    ensures Get(r, field) == value
    ensures forall other :: other != field ==> Get(r, other) == Get(f, other)
  {
    match field
    case Weight => f.(weight := value)
    case Duration => f.(duration := value)
    case Intensity => f.(intensity := value)
  }

  /** The values a slider can produce: weight 40..150 step 1, duration 5..180 step 5, intensity 10..100 step 5. */
  predicate InSliderRange(field: Field, value: nat) {
    match field
    case Weight => 40 <= value <= 150
    case Duration => 5 <= value <= 180 && value % 5 == 0
    case Intensity => 10 <= value <= 100 && value % 5 == 0
  }

  predicate ValidForm(f: FormData) {
    && InSliderRange(Weight, f.weight)
    && InSliderRange(Duration, f.duration)
    && InSliderRange(Intensity, f.intensity)
  }

  /** Within the slider ranges the result lies between 16 and 21600. */
  lemma CaloriesBounds(f: FormData)
    requires ValidForm(f)
    ensures 16 <= CaloriesBurned(f.weight, f.duration, f.intensity) <= 21600
  {
    CaloriesMonotone(40, 5, 10, f.weight, f.duration, f.intensity);
    CaloriesMonotone(f.weight, f.duration, f.intensity, 150, 180, 100);
    assert CaloriesBurned(40, 5, 10) == 16;
    assert CaloriesBurned(150, 180, 100) == 21600;
  }

  /** The calculator component: its form and the last computed result. */
  class CalorieCalculator {
    var formData: FormData
    var calories: nat

    ghost predicate Valid()
      reads this
    {
      ValidForm(formData)
    }

    /** Mount: the default form, and no result yet. */
    constructor ()
      ensures Valid()
      ensures formData == FormData(DefaultWeight, DefaultDuration, DefaultIntensity)
      ensures calories == 0
    {
      formData := FormData(DefaultWeight, DefaultDuration, DefaultIntensity);
      calories := 0;
    }

    /** `handleInputChange(field, value)`: the form changes in that field only; the result does not. */
    method HandleInputChange(field: Field, value: nat)
      requires Valid()
      requires InSliderRange(field, value)
      modifies this
      ensures Valid()
      ensures formData == Set(old(formData), field, value)
      ensures calories == old(calories)
    {
      formData := Set(formData, field, value);
    }

    /** `calculateCalories`, the button: the result for the current form. */
    method CalculateCalories()
      requires Valid()
      modifies this
      ensures Valid()
      ensures formData == old(formData)
      ensures calories == CaloriesBurned(formData.weight, formData.duration, formData.intensity)
      ensures 16 <= calories <= 21600
    {
      CaloriesBounds(formData);
      calories := CaloriesBurned(formData.weight, formData.duration, formData.intensity);
    }
  }
}
