/** Nadler's regression estimate of a person's total blood volume (litres)
    from weight (kg), height (cm) and sex. */
module Nadler {

  function Cube(x: real): real
  {
    x * x * x
  }

  /** Height in metres from height in centimetres. */
  function Metres(heightCm: real): (m: real)
    ensures m * 100.0 == heightCm
  {
    heightCm / 100.0
  }

  /** The blood volume in litres: the male coefficients for sex "M", the
      female ones for every other value. */
  function BloodVolume(weight: real, heightCm: real, sex: string): real
  {
    var h := Metres(heightCm);
    if sex == "M" then 0.3669 * Cube(h) + 0.03219 * weight + 0.6041
    else 0.3561 * Cube(h) + 0.03308 * weight + 0.1833
  }

  /** Any sex value other than "M" selects the female coefficients. */
  lemma NonMaleUsesFemaleFormula(weight: real, heightCm: real, sex: string)
    requires sex != "M"
    ensures BloodVolume(weight, heightCm, sex) == BloodVolume(weight, heightCm, "F")
  {
  }

  /** For a fixed sex and height the estimate strictly increases with weight. */
  lemma IncreasingInWeight(w1: real, w2: real, heightCm: real, sex: string)
    requires w1 < w2
    ensures BloodVolume(w1, heightCm, sex) < BloodVolume(w2, heightCm, sex)
  {
  }

  lemma {:induction false} CubeIncreasing(a: real, b: real)
    requires 0.0 <= a < b
    ensures Cube(a) < Cube(b)
  {
    var aa, ab, bb := a * a, a * b, b * b;
    assert aa <= ab;
    assert ab < bb;
    var aaa, aab, bbb := aa * a, aa * b, bb * b;
    assert aaa <= aab;
    assert aab < bbb;
  }

  /** For a fixed sex and weight the estimate strictly increases with height. */
  lemma {:induction false} IncreasingInHeight(weight: real, h1: real, h2: real, sex: string)
    requires 0.0 < h1 < h2
    ensures BloodVolume(weight, h1, sex) < BloodVolume(weight, h2, sex)
  {
    CubeIncreasing(Metres(h1), Metres(h2));
  }

  /** For non-negative weight and height the estimate is at least 0.1833 litres. */
  lemma {:induction false} AtLeastFemaleIntercept(weight: real, heightCm: real, sex: string)
    requires weight >= 0.0 && heightCm >= 0.0
    ensures BloodVolume(weight, heightCm, sex) >= 0.1833
  {
    var h := Metres(heightCm);
    assert h >= 0.0;
    assert Cube(h) >= 0.0 by {
      assert h * h >= 0.0;
    }
  }

  /** 70 kg, 170 cm, male: about 4.66 litres. */
  lemma MaleExample()
    ensures 4.655 <= BloodVolume(70.0, 170.0, "M") < 4.665
  {
  }
}
