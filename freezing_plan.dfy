/** calcularProgramacionCongelacion and calcularCelulasPorContenedor: the
    whole freezing plan of a product, from the concentration step to the
    containers with their cell yield. Cells are counted in millions,
    concentrations in cells per microlitre and volumes in ml. */
module FreezingPlan {
  import opened Common
  import opened CryoFormulas
  import opened ContainerAllocation

  const ControlsName: string := "Controles"
  const BloodCulturesName: string := "Hemocultivos"

  /** What the form hands to the planner, already parsed. A dose of 0 stands
      for the switch being off or the field being empty. */
  datatype PlanRequest = PlanRequest(
    cellType: string,
    initialVolume: real,
    cellConcentration: real,
    leukocytes: real,
    recipientWeight: real,
    maxConcentration: real,
    concentratedVolume: real,
    useDose: bool,
    dosePerKg: real,
    maxCryovials: int,
    types: seq<ContainerType>)

  /** One line of the plan, as shown in the results table. `None` is the
      '-' of the blood-culture line. */
  datatype Line = Line(kind: string, count: int, unitVolume: real, totalVolume: real,
                       concentration: Option<real>, cells: Option<real>, cellsPerKg: Option<real>,
                       cellType: string)

  datatype Plan = Plan(
    minVolume: real,
    factor: real,
    cryoprotectant: Cryoprotectant,
    totalVolume: real,
    distributable: real,
    finalConcentration: real,
    distribution: seq<Line>,
    distributed: real,
    remaining: real)

  /** Millions of cells in `volume` ml at `concentration` cells/uL:
      concentration * 1000 * volume / 1e6. */
  function MillionCells(concentration: real, volume: real): (r: real)
    ensures r * 1000.0 == concentration * volume
  {
    concentration * 1000.0 * volume / 1000000.0
  }

  /** The volume of one dose-specific cryovial: the cells of the dose,
      dosePerKg * weight million, at the final concentration. */
  function DoseVolume(dosePerKg: real, weight: real, concentration: real): (r: real)
    requires concentration != 0.0
    ensures MillionCells(concentration, r) == dosePerKg * weight
  {
    var cells := dosePerKg * weight;
    var v := cells * 1000000.0 / (concentration * 1000.0);
    assert v * concentration == cells * 1000.0;
    v
  }

  /** One entry of the distribution with its cell yield, computed from the
      unit volume the entry keeps. */
  function Annotate(e: Entry, concentration: real, weight: real, cellType: string): (l: Line)
    requires weight != 0.0
    ensures l.kind == e.kind && l.count == e.count
    ensures l.unitVolume == e.unitVolume && l.totalVolume == e.totalVolume
    ensures l.concentration == Some(concentration) && l.cellType == cellType
    ensures l.cells == Some(MillionCells(concentration, e.storedUnit))
    ensures l.cellsPerKg.Some? && l.cellsPerKg.value * weight == l.cells.value
  {
    var cells := MillionCells(concentration, e.storedUnit);
    Line(e.kind, e.count, e.unitVolume, e.totalVolume, Some(concentration), Some(cells), Some(cells / weight), cellType)
  }

  /** calcularCelulasPorContenedor: every entry annotated, in order. */
  function CellsPerContainer(entries: seq<Entry>, concentration: real, weight: real, cellType: string): (r: seq<Line>)
    requires weight != 0.0
    ensures |r| == |entries|
    ensures forall k :: 0 <= k < |entries| ==> r[k] == Annotate(entries[k], concentration, weight, cellType)
  {
    if entries == [] then []
    else [Annotate(entries[0], concentration, weight, cellType)] + CellsPerContainer(entries[1..], concentration, weight, cellType)
  }

  /** The two control cryovials of 1 ml, annotated like any other entry. */
  function Controls(concentration: real, weight: real, cellType: string): Line
    requires weight != 0.0
  {
    Annotate(Entry(ControlsName, 2, 1.0, 2.0, 1.0), concentration, weight, cellType)
  }

  /** The 2 ml blood-culture sample, without a cell yield. */
  function BloodCultures(cellType: string): Line
  {
    Line(BloodCulturesName, 1, 2.0, 2.0, None, None, None, cellType)
  }

  /** The total volume after cryoprotectant, as the planner reads it back
      from its two-decimal text. */
  function RoundedTotal(r: PlanRequest): real
  {
    Round2(CryoprotectantFor(r.concentratedVolume).totalVolume)
  }

  /** When every division of the plan is by a non-zero number and the types
      are well formed; otherwise the JavaScript values are infinities or NaN. */
  predicate Plannable(r: PlanRequest)
  {
    && r.maxConcentration != 0.0
    && r.concentratedVolume != 0.0
    && RoundedTotal(r) != 0.0
    && r.recipientWeight != 0.0
    && (r.useDose && r.dosePerKg != 0.0 ==> r.cellConcentration * r.initialVolume != 0.0)
    && WellFormedTypes(r.types)
  }

  /** The final concentration: the cells of the initial product over the
      rounded total volume; non-zero when there are cells. */
  function Concentration(r: PlanRequest): (c: real)
    requires Plannable(r)
    ensures c * RoundedTotal(r) == r.cellConcentration * r.initialVolume
    ensures r.cellConcentration * r.initialVolume != 0.0 ==> c != 0.0
  {
    FinalConcentration(r.cellConcentration, r.initialVolume, r.concentratedVolume, RoundedTotal(r))
  }

  /** Step 6: the per-vial volume when a dose is requested, else 0. */
  function VialVolume(r: PlanRequest): real
    requires Plannable(r)
  {
    if r.useDose && r.dosePerKg != 0.0 then
      var c := Concentration(r);
      DoseVolume(r.dosePerKg, r.recipientWeight, c)
    else 0.0
  }

  /** The options handed to the allocator. */
  function AllocatorOptions(r: PlanRequest): Options
    requires Plannable(r)
  {
    Options(r.useDose, r.maxCryovials, VialVolume(r))
  }

  function Allocation(r: PlanRequest): Distribution
    requires Plannable(r)
  {
    Allocate(Distributable(RoundedTotal(r)), AllocatorOptions(r), r.types)
  }

  /** calcularProgramacionCongelacion. */
  function PlanFor(r: PlanRequest): Plan
    requires Plannable(r)
  {
    PlanOf(r, RoundedTotal(r), Concentration(r), Allocation(r))
  }

  /** The plan assembled from the total volume, the final concentration and
      the allocation. */
  function PlanOf(r: PlanRequest, total: real, concentration: real, d: Distribution): Plan
    requires r.maxConcentration != 0.0 && r.concentratedVolume != 0.0 && r.recipientWeight != 0.0
  {
    Plan(
      MinVolume(r.initialVolume, r.leukocytes, r.maxConcentration),
      ConcentrationFactor(r.initialVolume, r.concentratedVolume),
      CryoprotectantFor(r.concentratedVolume),
      total,
      Distributable(total),
      concentration,
      [Controls(concentration, r.recipientWeight, r.cellType), BloodCultures(r.cellType)]
        + CellsPerContainer(d.entries, concentration, r.recipientWeight, r.cellType),
      d.distributed,
      d.remaining)
  }

  /** The distribution is the controls, the blood cultures, then the
      allocator's entries in their order, each with its cell yield. */
  lemma PlanShape(r: PlanRequest)
    requires Plannable(r)
    ensures var p := PlanFor(r);
      var entries := Allocation(r).entries;
      && |p.distribution| == 2 + |entries|
      && p.distribution[0].kind == ControlsName && p.distribution[0].count == 2
      && p.distribution[0].unitVolume == 1.0 && p.distribution[0].totalVolume == 2.0
      && p.distribution[0].cells == Some(MillionCells(p.finalConcentration, 1.0))
      && p.distribution[1] == Line(BloodCulturesName, 1, 2.0, 2.0, None, None, None, r.cellType)
      && forall k :: 0 <= k < |entries| ==>
           var l := p.distribution[k + 2];
           && l.kind == entries[k].kind && l.count == entries[k].count
           && l.unitVolume == entries[k].unitVolume && l.totalVolume == entries[k].totalVolume
           && l.cells == Some(MillionCells(p.finalConcentration, entries[k].storedUnit))
  {
    PlanOfShape(r, RoundedTotal(r), Concentration(r), Allocation(r));
  }

  lemma PlanOfShape(r: PlanRequest, total: real, concentration: real, d: Distribution)
    requires r.maxConcentration != 0.0 && r.concentratedVolume != 0.0 && r.recipientWeight != 0.0
    ensures var p := PlanOf(r, total, concentration, d);
      && |p.distribution| == 2 + |d.entries|
      && p.distribution[0].kind == ControlsName && p.distribution[0].count == 2
      && p.distribution[0].unitVolume == 1.0 && p.distribution[0].totalVolume == 2.0
      && p.distribution[0].cells == Some(MillionCells(concentration, 1.0))
      && p.distribution[1] == Line(BloodCulturesName, 1, 2.0, 2.0, None, None, None, r.cellType)
      && forall k :: 0 <= k < |d.entries| ==>
           p.distribution[k + 2] == Annotate(d.entries[k], concentration, r.recipientWeight, r.cellType)
  {
  }

  /** The volume of the lines of a plan. */
  function LineTotals(lines: seq<Line>): real
  {
    if lines == [] then 0.0 else LineTotals(lines[..|lines| - 1]) + lines[|lines| - 1].totalVolume
  }

  lemma {:induction false} LineTotalsAppend(a: seq<Line>, b: seq<Line>)
    ensures LineTotals(a + b) == LineTotals(a) + LineTotals(b)
    decreases |b|
  {
    if b != [] {
      var b' := b[..|b| - 1];
      assert (a + b)[..|a + b| - 1] == a + b';
      LineTotalsAppend(a, b');
    } else {
      assert a + b == a;
    }
  }

  /** Lines and entries of equal volumes, position by position, hold the
      same volume in all. */
  lemma {:induction false} SameVolumes(lines: seq<Line>, entries: seq<Entry>)
    requires |lines| == |entries|
    requires forall k :: 0 <= k < |lines| ==> lines[k].totalVolume == entries[k].totalVolume
    ensures LineTotals(lines) == SumTotals(entries)
    decreases |lines|
  {
    if lines != [] {
      var n := |lines|;
      SameVolumes(lines[..n - 1], entries[..n - 1]);
    }
  }

  /** Annotation keeps every entry's volume. */
  lemma AnnotationKeepsVolume(entries: seq<Entry>, concentration: real, weight: real, cellType: string)
    requires weight != 0.0
    ensures LineTotals(CellsPerContainer(entries, concentration, weight, cellType)) == SumTotals(entries)
  {
    SameVolumes(CellsPerContainer(entries, concentration, weight, cellType), entries);
  }

  /** Accounting of the whole plan in exact arithmetic: the lines hold the
      total volume of the product less what remains, and the distributed
      volume is the total less the 4 ml of controls and cultures and less
      what remains. */
  lemma PlanAccounting(r: PlanRequest)
    requires Plannable(r)
    ensures var p := PlanFor(r);
      && LineTotals(p.distribution) + p.remaining == p.totalVolume
      && p.distributed == p.totalVolume - ControlVolume - p.remaining
  {
    AllocateAccounting(Distributable(RoundedTotal(r)), AllocatorOptions(r), r.types);
    PlanOfAccounting(r, RoundedTotal(r), Concentration(r), Allocation(r));
  }

  lemma PlanOfAccounting(r: PlanRequest, total: real, concentration: real, d: Distribution)
    requires r.maxConcentration != 0.0 && r.concentratedVolume != 0.0 && r.recipientWeight != 0.0
    requires SumTotals(d.entries) == d.distributed && d.distributed + d.remaining == Distributable(total)
    ensures var p := PlanOf(r, total, concentration, d);
      && LineTotals(p.distribution) + p.remaining == p.totalVolume
      && p.distributed == p.totalVolume - ControlVolume - p.remaining
  {
    var w := r.recipientWeight;
    var fixed := [Controls(concentration, w, r.cellType), BloodCultures(r.cellType)];
    var rest := CellsPerContainer(d.entries, concentration, w, r.cellType);
    LineTotalsAppend(fixed, rest);
    assert fixed[..1] == [fixed[0]] && fixed[..1][..0] == [];
    assert LineTotals(fixed[..1]) == 2.0;
    assert LineTotals(fixed) == ControlVolume;
    AnnotationKeepsVolume(d.entries, concentration, w, r.cellType);
  }

  function Abs(x: real): real
  {
    if x < 0.0 then -x else x
  }

  /** How far, in million cells, a line may be from the cells of its exact
      volume when its unit volume is kept to two decimals: the cells in
      0.005 ml. */
  function RoundingTolerance(concentration: real): real
  {
    MillionCells(Abs(concentration), 0.005)
  }

  /** A cell count within the rounding tolerance of a target. */
  predicate NearCells(cells: real, target: real, concentration: real)
  {
    -RoundingTolerance(concentration) <= cells - target <= RoundingTolerance(concentration)
  }

  /** A line of dose-specific vials of the per-vial volume v holds the dose:
      its cells are within the rounding tolerance of dosePerKg times the
      weight, its cells per kg times the weight are its cells, and both are
      exact when v needed no rounding. */
  predicate HoldsDose(l: Line, dosePerKg: real, weight: real, concentration: real, v: real)
  {
    && l.cells.Some? && l.cellsPerKg.Some?
    && NearCells(l.cells.value, dosePerKg * weight, concentration)
    && l.cellsPerKg.value * weight == l.cells.value
    && (Round2(v) == v ==> l.cells == Some(dosePerKg * weight) && l.cellsPerKg == Some(dosePerKg))
  }

  /** When dose-specific cryovials are reserved they come right after the
      controls and the blood cultures, `maxCryovials` of the per-vial
      volume. Each holds the dose, dosePerKg times the weight in million
      cells, up to the cells of the 0.005 ml lost when the per-vial volume is
      kept to two decimals; exactly the dose when that volume has no more
      than two decimals. */
  lemma DoseVialHoldsDose(r: PlanRequest)
    requires Plannable(r) && r.useDose && r.dosePerKg != 0.0
    requires DoseApplies(SortByCapacity(r.types), AllocatorOptions(r))
    ensures |PlanFor(r).distribution| >= 3
    ensures PlanFor(r).distribution[2].count == r.maxCryovials
    ensures PlanFor(r).distribution[2].unitVolume == VialVolume(r)
    ensures HoldsDose(PlanFor(r).distribution[2], r.dosePerKg, r.recipientWeight, PlanFor(r).finalConcentration, VialVolume(r))
  {
    var opts := AllocatorOptions(r);
    var d := Allocation(r);
    var c := Concentration(r);
    DoseEntryFirst(Distributable(RoundedTotal(r)), opts, r.types);
    var e := d.entries[0];
    assert e.count == r.maxCryovials;
    assert e.unitVolume == DoseVolume(r.dosePerKg, r.recipientWeight, c) == VialVolume(r);
    assert e.storedUnit == Round2(e.unitVolume);
    PlanOfDose(r, RoundedTotal(r), c, d);
    assert PlanFor(r) == PlanOf(r, RoundedTotal(r), c, d);
    DoseLine(e, c, r.recipientWeight, r.cellType, r.dosePerKg);
  }

  lemma PlanOfDose(r: PlanRequest, total: real, concentration: real, d: Distribution)
    requires r.maxConcentration != 0.0 && r.concentratedVolume != 0.0 && r.recipientWeight != 0.0
    requires concentration != 0.0 && |d.entries| >= 1 && d.entries[0].count == r.maxCryovials
    requires d.entries[0].unitVolume == DoseVolume(r.dosePerKg, r.recipientWeight, concentration)
    requires d.entries[0].storedUnit == Round2(d.entries[0].unitVolume)
    ensures var p := PlanOf(r, total, concentration, d);
      && |p.distribution| >= 3
      && p.distribution[2] == Annotate(d.entries[0], concentration, r.recipientWeight, r.cellType)
      && p.finalConcentration == concentration
  {
    PlanOfShape(r, total, concentration, d);
    var p := PlanOf(r, total, concentration, d);
    assert p.distribution[0 + 2] == Annotate(d.entries[0], concentration, r.recipientWeight, r.cellType);
  }

  /** An entry of dose-sized vials, its unit volume kept to two decimals,
      carries the dose up to the rounding tolerance; exactly when the volume
      needed no rounding. */
  lemma DoseLine(e: Entry, concentration: real, weight: real, cellType: string, dosePerKg: real)
    requires weight != 0.0 && concentration != 0.0
    requires e.unitVolume == DoseVolume(dosePerKg, weight, concentration)
    requires e.storedUnit == Round2(e.unitVolume)
    ensures (Annotate(e, concentration, weight, cellType).cells.value - dosePerKg * weight) * 1000.0
              == concentration * (e.storedUnit - e.unitVolume)
    ensures HoldsDose(Annotate(e, concentration, weight, cellType), dosePerKg, weight, concentration, e.unitVolume)
  {
    var l := Annotate(e, concentration, weight, cellType);
    var dose := dosePerKg * weight;
    var cells := l.cells.value;
    assert cells * 1000.0 == concentration * e.storedUnit;
    assert dose * 1000.0 == concentration * e.unitVolume;
    RoundingError(cells, dose, concentration, e.unitVolume, e.storedUnit);
    if Round2(e.unitVolume) == e.unitVolume {
      assert cells == dose;
      Cancel(l.cellsPerKg.value, dosePerKg, weight);
    }
  }

  /** 3750 cells/uL, a dose of 2 million per kg for 50 kg: the exact
      per-vial volume is 26.666... ml, the line keeps 26.67 ml and shows
      100.0125 million cells instead of 100. */
  lemma DoseRoundingExample()
    ensures DoseVolume(2.0, 50.0, 3750.0) == 80.0 / 3.0
    ensures Round2(80.0 / 3.0) == 26.67
    ensures Annotate(Entry("Criotubo" + DoseSuffix, 3, 80.0 / 3.0, 80.0, 26.67), 3750.0, 50.0, "CD34").cells
              == Some(100.0125)
  {
    assert (80.0 / 3.0 * 100.0 + 0.5).Floor == 2667;
  }

  /** Cells of the stored volume against cells of the exact volume: they
      differ by the cells of the rounding, at most the tolerance. */
  lemma RoundingError(cells: real, dose: real, concentration: real, v: real, stored: real)
    requires cells * 1000.0 == concentration * stored
    requires dose * 1000.0 == concentration * v
    requires stored == Round2(v)
    ensures (cells - dose) * 1000.0 == concentration * (stored - v)
    ensures NearCells(cells, dose, concentration)
  {
    var delta := stored - v;
    assert concentration * stored - concentration * v == concentration * delta;
    ScaledBound(concentration, delta);
    assert RoundingTolerance(concentration) * 1000.0 == Abs(concentration) * 0.005;
  }

  lemma Cancel(a: real, b: real, w: real)
    requires w != 0.0 && a * w == b * w
    ensures a == b
  {
    assert a == a * w / w;
    assert b == b * w / w;
  }

  /** A deviation of at most 0.005 ml, scaled by a concentration, stays
      within the cells of 0.005 ml. */
  lemma ScaledBound(c: real, delta: real)
    requires -0.005 <= delta <= 0.005
    ensures -Abs(c) * 0.005 <= c * delta <= Abs(c) * 0.005
  {
    var a := Abs(c);
    ProductNonNegative(a, 0.005 - delta);
    ProductNonNegative(a, delta + 0.005);
    if c >= 0.0 {
      assert c * delta == a * delta;
    } else {
      assert c * delta == -(a * delta);
    }
  }
}
