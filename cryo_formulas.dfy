/** The closed-form steps of the cryopreservation planner: how far a product
    may be concentrated, the DMSO/plasma cryoprotectant added to it, the volume
    left for distribution and the cell concentration after freezing medium is
    added. Volumes are in ml, concentrations in cells per microlitre. */
module CryoFormulas {

  /** DMSO and autologous plasma are added as 20 % and 80 % of the
      concentrated volume. */
  const DmsoShare: real := 0.2
  const PlasmaShare: real := 0.8

  /** The DMSO percentage the planner reports for the final product. */
  const FinalDmsoPercent: int := 10

  /** Reserved before distribution: two 1 ml control cryovials and a 2 ml
      blood-culture sample. */
  const ControlVolume: real := 4.0

  /** calcularVolumenMinimo: the smallest concentrated volume whose leukocyte
      concentration stays within the maximum. */
  function MinVolume(initialVolume: real, leukocytes: real, maxConcentration: real): (r: real)
    requires maxConcentration != 0.0
    ensures r * maxConcentration == initialVolume * leukocytes
  {
    initialVolume * (leukocytes / maxConcentration)
  }

  /** Concentrating `initialVolume` ml at `leukocytes` per microlitre into vc ml
      keeps the leukocyte concentration at most `maxConcentration` exactly when
      vc is at least the minimum volume. */
  lemma {:induction false} MinVolumeIsSafetyBound(initialVolume: real, leukocytes: real, maxConcentration: real, vc: real)
    requires initialVolume > 0.0 && leukocytes >= 0.0 && maxConcentration > 0.0 && vc > 0.0
    ensures vc >= MinVolume(initialVolume, leukocytes, maxConcentration)
        <==> initialVolume * leukocytes / vc <= maxConcentration
  {
    var m := MinVolume(initialVolume, leukocytes, maxConcentration);
    var cells := initialVolume * leukocytes;
    var c := cells / vc;
    assert c * vc == cells;
    assert m * maxConcentration == cells;
    if vc >= m {
      var a, b := vc * maxConcentration, m * maxConcentration;
      assert a >= b;
      assert c * vc <= maxConcentration * vc;
    } else {
      var a, b := vc * maxConcentration, m * maxConcentration;
      assert a < b;
      assert c * vc > maxConcentration * vc;
    }
  }

  /** calcularFactorConcentracion: how many times the product is concentrated. */
  function ConcentrationFactor(initialVolume: real, concentratedVolume: real): (r: real)
    requires concentratedVolume != 0.0
    ensures r * concentratedVolume == initialVolume
  {
    initialVolume / concentratedVolume
  }

  /** At the minimum volume the product is concentrated by the ratio of the
      maximum to the initial leukocyte concentration. */
  lemma {:induction false} FactorAtMinimum(initialVolume: real, leukocytes: real, maxConcentration: real)
    requires initialVolume != 0.0 && leukocytes != 0.0 && maxConcentration != 0.0
    ensures MinVolume(initialVolume, leukocytes, maxConcentration) != 0.0
    ensures ConcentrationFactor(initialVolume, MinVolume(initialVolume, leukocytes, maxConcentration))
        == maxConcentration / leukocytes
  {
    var m := MinVolume(initialVolume, leukocytes, maxConcentration);
    var cells := initialVolume * leukocytes;
    assert cells != 0.0;
    assert m != 0.0;
    var f := ConcentrationFactor(initialVolume, m);
    assert f * m == initialVolume;
    assert f * m * maxConcentration == initialVolume * maxConcentration;
    assert f * cells == initialVolume * maxConcentration;
    assert f * leukocytes == maxConcentration;
  }

  /** The cryoprotectant added to a concentrated product. */
  datatype Cryoprotectant = Cryoprotectant(dmso: real, plasma: real, totalVolume: real, dmsoPercent: int)

  /** calcularCriopreservante: DMSO and plasma split 1:4, together as much as
      the concentrated product itself, so the product volume doubles; the
      reported DMSO percentage is always 10. */
  function CryoprotectantFor(concentratedVolume: real): (r: Cryoprotectant)
    ensures r.dmso + r.plasma == concentratedVolume
    ensures r.plasma == 4.0 * r.dmso
    ensures r.totalVolume == 2.0 * concentratedVolume
    ensures r.dmsoPercent == FinalDmsoPercent
  {
    var dmso := concentratedVolume * DmsoShare;
    var plasma := concentratedVolume * PlasmaShare;
    Cryoprotectant(dmso, plasma, concentratedVolume + dmso + plasma, FinalDmsoPercent)
  }

  /** DMSO is a tenth of the final volume, matching the reported percentage. */
  lemma DmsoIsTenPercent(concentratedVolume: real)
    requires concentratedVolume > 0.0
    ensures var r := CryoprotectantFor(concentratedVolume);
      r.dmso * 100.0 / r.totalVolume == r.dmsoPercent as real
  {
  }

  /** calcularVolumenDistribuible: the total less the 4 ml of controls and
      blood cultures. */
  function Distributable(totalVolume: real): (r: real)
    ensures r + ControlVolume == totalVolume
  {
    totalVolume - ControlVolume
  }

  /** calcularConcentracionFinal: the cells of the initial product spread over
      the final volume; the concentrated volume plays no part. */
  function FinalConcentration(cellConcentration: real, initialVolume: real, concentratedVolume: real, finalVolume: real): (r: real)
    requires finalVolume != 0.0
    ensures r * finalVolume == cellConcentration * initialVolume
  {
    var cells := cellConcentration * initialVolume;
    cells / finalVolume
  }

  /** The concentrated-volume argument has no effect on the final concentration. */
  lemma FinalConcentrationIgnoresConcentratedVolume(ci: real, vi: real, vc1: real, vc2: real, vf: real)
    requires vf != 0.0
    ensures FinalConcentration(ci, vi, vc1, vf) == FinalConcentration(ci, vi, vc2, vf)
  {
  }

  /** 200 ml at 40000 leukocytes/uL with a ceiling of 250000/uL: at least
      32 ml; concentrating to exactly 32 ml gives factor 6.25, 6.4 ml DMSO,
      25.6 ml plasma, 64 ml in all and 60 ml to distribute. */
  lemma WorkedExample()
    ensures MinVolume(200.0, 40000.0, 250000.0) == 32.0
    ensures ConcentrationFactor(200.0, 32.0) == 6.25
    ensures CryoprotectantFor(32.0) == Cryoprotectant(6.4, 25.6, 64.0, 10)
    ensures Distributable(CryoprotectantFor(32.0).totalVolume) == 60.0
  {
  }
}
