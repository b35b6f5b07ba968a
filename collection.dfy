/** Target-collection calculator: from the donor's blood volume and a target
    dose of cells per kg of recipient, the volume of blood to process and how
    many donor volemias that is. One marker-agnostic model serves both the CD34
    and the CD3 calculators. */
module Collection {
  import opened Common
  import Nadler

  /** Collection efficiency (CE2) used when the caller gives none. */
  const DefaultEfficiency: real := 0.4

  /** From this many volemias on, the result carries a warning. */
  const WarningVolemias: real := 4.0

  datatype CollectionInput = CollectionInput(
    donorWeight: real,           // kg
    donorHeight: real,           // cm
    donorSex: string,            // "M" selects the male formula
    recipientWeight: real,       // kg
    targetPerKg: real,           // millions of cells per kg of recipient
    concentration: real,         // pre-apheresis cells per microlitre
    efficiency: Option<real>)    // None: the parameter was left undefined

  datatype CollectionResult = CollectionResult(
    donorBloodVolume: real,      // litres
    totalCells: real,            // millions of cells
    volumeToProcess: real,       // litres
    volemias: real,
    warning: bool)

  /** The efficiency actually used: the default parameter value when absent. */
  function EfficiencyOf(inp: CollectionInput): real
  {
    match inp.efficiency
    case None => DefaultEfficiency
    case Some(e) => e
  }

  /** What the validating callers guarantee before calling the calculator. */
  predicate Computable(inp: CollectionInput)
  {
    inp.donorWeight >= 0.0 && inp.donorHeight >= 0.0 && inp.concentration > 0.0 && EfficiencyOf(inp) > 0.0
  }

  /** The calculation: blood volume, cells needed, litres to process (cells in
      millions over cells per microlitre, both scaled by a million), and the
      ratio of that volume to the blood volume. */
  function Compute(inp: CollectionInput): (r: CollectionResult)
    requires Computable(inp)
    ensures r.donorBloodVolume == Nadler.BloodVolume(inp.donorWeight, inp.donorHeight, inp.donorSex)
    ensures r.donorBloodVolume >= 0.1833
    ensures r.totalCells == inp.targetPerKg * inp.recipientWeight
    ensures r.volumeToProcess * (inp.concentration * EfficiencyOf(inp)) == r.totalCells
    ensures r.volemias * r.donorBloodVolume == r.volumeToProcess
    ensures r.warning <==> r.volemias >= WarningVolemias
  {
    var bloodVolume := Nadler.BloodVolume(inp.donorWeight, inp.donorHeight, inp.donorSex);
    Nadler.AtLeastFemaleIntercept(inp.donorWeight, inp.donorHeight, inp.donorSex);
    var totalCells := inp.targetPerKg * inp.recipientWeight;
    var volume := (totalCells * 1000000.0) / (inp.concentration * 1000000.0 * EfficiencyOf(inp));
    var volemias := volume / bloodVolume;
    CollectionResult(bloodVolume, totalCells, volume, volemias, volemias >= WarningVolemias)
  }

  /** The unit conversion cancels: litres to process are the cells needed over
      concentration times efficiency. */
  lemma {:induction false} VolumeIsCellsOverYield(inp: CollectionInput)
    requires Computable(inp)
    ensures Compute(inp).volumeToProcess == Compute(inp).totalCells / (inp.concentration * EfficiencyOf(inp))
  {
    var r := Compute(inp);
    var y := inp.concentration * EfficiencyOf(inp);
    assert y > 0.0;
    assert r.volumeToProcess * y == r.totalCells;
  }

  /** The CD34 calculator. */
  function VolemiasCD34(inp: CollectionInput): CollectionResult
    requires Computable(inp)
  {
    Compute(inp)
  }

  /** The CD3 (lymphapheresis) calculator. cd3Calculations.js repeats the
      formula of cd34Calculations.js line for line, so both are Compute. */
  function VolemiasCD3(inp: CollectionInput): CollectionResult
    requires Computable(inp)
  {
    Compute(inp)
  }

  /** Leaving the efficiency undefined is the same as giving 0.4. */
  lemma DefaultEfficiencyApplies(inp: CollectionInput)
    requires inp.efficiency == None
    ensures Computable(inp) <==> Computable(inp.(efficiency := Some(0.4)))
    ensures Computable(inp) ==> Compute(inp) == Compute(inp.(efficiency := Some(0.4)))
  {
    var given := inp.(efficiency := Some(0.4));
    assert EfficiencyOf(inp) == EfficiencyOf(given) == DefaultEfficiency;
    assert inp.donorWeight == given.donorWeight && inp.donorHeight == given.donorHeight && inp.donorSex == given.donorSex;
    assert inp.recipientWeight == given.recipientWeight && inp.targetPerKg == given.targetPerKg && inp.concentration == given.concentration;
    if Computable(inp) {
      var a, b := Compute(inp), Compute(given);
      assert a.donorBloodVolume == b.donorBloodVolume && a.totalCells == b.totalCells;
      assert a.volumeToProcess == b.volumeToProcess;
      assert a.volemias == b.volemias;
    }
  }

  /** Donor 70 kg, 170 cm, male; recipient 60 kg; 5 million cells/kg; 20
      cells/uL; efficiency 0.4: 300 million cells, 37.5 litres, about 8.05
      volemias, so the warning is raised. */
  lemma {:induction false} WorkedExample()
    ensures var r := Compute(CollectionInput(70.0, 170.0, "M", 60.0, 5.0, 20.0, Some(0.4)));
      r.totalCells == 300.0 && r.volumeToProcess == 37.5 && 8.04 < r.volemias < 8.06 && r.warning
  {
    var inp := CollectionInput(70.0, 170.0, "M", 60.0, 5.0, 20.0, Some(0.4));
    var r := Compute(inp);
    Nadler.MaleExample();
    assert r.volumeToProcess * 8.0 == 300.0;
    var bv := r.donorBloodVolume;
    assert 4.655 <= bv < 4.665;
    assert r.volemias * bv == 37.5;
    assert 8.04 * bv < 37.5 && 8.06 * bv > 37.5;
  }
}
