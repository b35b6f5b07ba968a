/** The cryopreservation form: the component's own computations (the
    largest number of dose-specific cryovials, the raise of the concentrated
    volume to its minimum), its container list, its validation and the gate
    that runs the planner only on a form without errors. */
module CryoForm {
  import opened Common
  import opened CryoFormulas
  import opened ContainerAllocation
  import opened FreezingPlan
  import opened Validation

  /** The text fields of the form and the dose switch. */
  datatype CryoFields = CryoFields(
    cellType: string,
    initialVolume: Field,
    cellConcentration: Field,
    leukocytes: Field,
    recipientWeight: Field,
    maxConcentration: Field,
    concentratedVolume: Field,
    useDose: bool,
    dosePerKg: Field)

  /** A container type of the list the form keeps; its limits went through
      parseFloat, so either may be NaN (None). */
  datatype FormContainer = FormContainer(id: int, name: string, volMin: Option<real>, volMax: Option<real>)

  /** The state the validation and the gate read: the fields, the container
      list and the state values the effects computed. */
  datatype CryoState = CryoState(
    fields: CryoFields,
    containers: seq<FormContainer>,
    minVolume: real,
    maxCryovials: int)

  const DefaultContainers: seq<FormContainer> := [
    FormContainer(1, "Criotubo", Some(1.0), Some(1.0)),
    FormContainer(2, "Bolsa pequeña", Some(15.0), Some(85.0)),
    FormContainer(3, "Bolsa grande", Some(40.0), Some(160.0))]

  // ---------------------------------------------------------------------
  // The largest number of dose-specific cryovials.

  datatype VialSizing = VialSizing(maxCryovials: int, cellsPerVial: real)

  /** The volume after cryoprotectant as the component adds it up from its
      DMSO and plasma state. */
  function ComponentTotal(concentratedVolume: real, dmso: real, plasma: real): real
  {
    concentratedVolume + dmso + plasma
  }

  /** With the DMSO and plasma state as the other effect sets them, the
      component's total is the planner's total before rounding. */
  lemma SettledComponentTotal(concentratedVolume: real)
    ensures ComponentTotal(concentratedVolume, concentratedVolume * 0.2, concentratedVolume * 0.8)
      == CryoprotectantFor(concentratedVolume).totalVolume
  {
  }

  /** The sizing when every input is a number: cells per vial are dose times
      weight; the count is the floor of the distributable volume over the
      per-vial volume, and 0 when that floor is negative. None when a division
      by zero would leave the real numbers. */
  function DoseSizing(initialVolume: real, cellConcentration: real, concentratedVolume: real,
                      dmso: real, plasma: real, dosePerKg: real, weight: real): (r: Option<VialSizing>)
    ensures r.Some? ==> r.value.maxCryovials >= 0 && r.value.cellsPerVial == dosePerKg * weight
  {
    var total := ComponentTotal(concentratedVolume, dmso, plasma);
    if total == 0.0 then None
    else
      var concentration := FinalConcentration(cellConcentration, initialVolume, concentratedVolume, total);
      if concentration == 0.0 then None
      else
        var perVial := DoseVolume(dosePerKg, weight, concentration);
        if perVial == 0.0 then None
        else
          var n := (Distributable(total) / perVial).Floor;
          Some(VialSizing(if n >= 0 then n else 0, dosePerKg * weight))
  }

  /** The count is the largest number of vials of the per-vial volume that
      fit in the distributable volume: that many fit and one more does not. */
  lemma DoseSizingIsLargestFit(initialVolume: real, cellConcentration: real, concentratedVolume: real,
                               dmso: real, plasma: real, dosePerKg: real, weight: real)
    requires DoseSizing(initialVolume, cellConcentration, concentratedVolume, dmso, plasma, dosePerKg, weight).Some?
    ensures var total := ComponentTotal(concentratedVolume, dmso, plasma);
      var concentration := FinalConcentration(cellConcentration, initialVolume, concentratedVolume, total);
      var perVial := DoseVolume(dosePerKg, weight, concentration);
      var n := DoseSizing(initialVolume, cellConcentration, concentratedVolume, dmso, plasma, dosePerKg, weight).value.maxCryovials;
      perVial > 0.0 ==>
        && VolumeOf(n, perVial) <= (if Distributable(total) >= 0.0 then Distributable(total) else 0.0)
        && VolumeOf(n + 1, perVial) > Distributable(total)
  {
    var total := ComponentTotal(concentratedVolume, dmso, plasma);
    var concentration := FinalConcentration(cellConcentration, initialVolume, concentratedVolume, total);
    var perVial := DoseVolume(dosePerKg, weight, concentration);
    var x := Distributable(total);
    if perVial > 0.0 {
      FloorOfQuotient(x, perVial);
      var f := (x / perVial).Floor;
      var n := DoseSizing(initialVolume, cellConcentration, concentratedVolume, dmso, plasma, dosePerKg, weight).value.maxCryovials;
      assert VolumeOf(f + 1, perVial) == VolumeOf(f, perVial) + perVial;
      if f < 0 {
        assert n == 0;
        assert x < 0.0 by {
          ProductNonNegative(-(f as real), perVial);
          assert VolumeOf(f, perVial) <= -perVial by {
            assert VolumeOf(f, perVial) + perVial == VolumeOf(f + 1, perVial);
            ProductNonNegative(-((f + 1) as real), perVial);
          }
        }
        assert VolumeOf(n + 1, perVial) == perVial;
      } else {
        assert n == f;
        assert x >= 0.0 by {
          ProductNonNegative(f as real, perVial);
        }
      }
    }
  }

  /** The effect of lines 104-130: with the switch on and every field it uses
      filled in, the sizing of the numbers; a NaN among the volumes and the
      concentration makes the count 0 (NaN >= 0 is false) and a NaN dose or
      weight is not modelled (None); otherwise both values are 0. */
  function MaxCryovials(f: CryoFields, dmso: real, plasma: real): Option<VialSizing>
  {
    if !(f.useDose && Present(f.dosePerKg) && Present(f.recipientWeight) && Present(f.cellConcentration)
         && Present(f.initialVolume) && Present(f.concentratedVolume)) then
      Some(VialSizing(0, 0.0))
    else if Parse(f.dosePerKg).None? || Parse(f.recipientWeight).None? then None
    else
      var dose := Parse(f.dosePerKg).value;
      var weight := Parse(f.recipientWeight).value;
      if Parse(f.initialVolume).None? || Parse(f.cellConcentration).None? || Parse(f.concentratedVolume).None? then
        Some(VialSizing(0, dose * weight))
      else
        DoseSizing(Parse(f.initialVolume).value, Parse(f.cellConcentration).value,
                   Parse(f.concentratedVolume).value, dmso, plasma, dose, weight)
  }

  /** With the switch off or a field missing, both values are 0; otherwise
      a modelled result carries dose times weight cells per vial and a count
      that is never negative. */
  lemma MaxCryovialsMeaning(f: CryoFields, dmso: real, plasma: real)
    ensures !f.useDose ==> MaxCryovials(f, dmso, plasma) == Some(VialSizing(0, 0.0))
    ensures !Present(f.dosePerKg) || !Present(f.recipientWeight) || !Present(f.cellConcentration)
         || !Present(f.initialVolume) || !Present(f.concentratedVolume)
         ==> MaxCryovials(f, dmso, plasma) == Some(VialSizing(0, 0.0))
    ensures MaxCryovials(f, dmso, plasma).Some? && f.useDose && Parse(f.dosePerKg).Some? && Parse(f.recipientWeight).Some?
         && Present(f.cellConcentration) && Present(f.initialVolume) && Present(f.concentratedVolume)
         ==> MaxCryovials(f, dmso, plasma).value.cellsPerVial == Parse(f.dosePerKg).value * Parse(f.recipientWeight).value
    ensures MaxCryovials(f, dmso, plasma).Some? ==> MaxCryovials(f, dmso, plasma).value.maxCryovials >= 0
  {
  }

  /** 200 ml at 1000 cells/uL concentrated to 32 ml, DMSO 6.4 and plasma
      25.6 ml: 64 ml at 3125 cells/uL; 2 million cells/kg for 50 kg is 100
      million cells, 32 ml a vial, so one vial fits in the 60 ml left. */
  lemma MaxCryovialsExample()
    ensures DoseSizing(200.0, 1000.0, 32.0, 6.4, 25.6, 2.0, 50.0) == Some(VialSizing(1, 100.0))
  {
    var c := FinalConcentration(1000.0, 200.0, 32.0, 64.0);
    assert c == 3125.0;
    assert DoseVolume(2.0, 50.0, c) == 32.0;
    assert (60.0 / 32.0).Floor == 1;
  }

  // ---------------------------------------------------------------------
  // The raise of the concentrated volume to the minimum.

  /** What the effect of lines 71-88 does: nothing unless the three fields
      are filled in; a new minimum in state and the concentrated volume,
      possibly replaced; or NaN/infinity arithmetic, not modelled. */
  datatype MinVolumeEffect =
    | NotRun
    | Raised(minVolume: real, concentratedVolume: Field)
    | NotNumeric

  /** When the concentrated volume is replaced: blank, or a number below
      the minimum. Text that is not a number is kept. */
  predicate NeedsRaise(concentratedVolume: Field, minVolume: real)
  {
    !Present(concentratedVolume) || ParsedBelow(concentratedVolume, minVolume)
  }

  /** The effect as written: the minimum with `toFixed(2)`, which rounds to
      the nearest hundredth and so can fall below the minimum. */
  function AutoRaise(f: CryoFields): MinVolumeEffect
  {
    if !(Present(f.initialVolume) && Present(f.leukocytes) && Present(f.maxConcentration)) then NotRun
    else if Parse(f.initialVolume).None? || Parse(f.leukocytes).None? || Parse(f.maxConcentration).None?
         || Parse(f.maxConcentration).value == 0.0 then NotNumeric
    else
      var m := MinVolume(Parse(f.initialVolume).value, Parse(f.leukocytes).value, Parse(f.maxConcentration).value);
      Raised(m, if NeedsRaise(f.concentratedVolume, m) then Text(Some(Round2(m))) else f.concentratedVolume)
  }

  /** The effect with the minimum rounded up to the hundredth. */
  function AutoRaiseUp(f: CryoFields): MinVolumeEffect
  {
    if !(Present(f.initialVolume) && Present(f.leukocytes) && Present(f.maxConcentration)) then NotRun
    else if Parse(f.initialVolume).None? || Parse(f.leukocytes).None? || Parse(f.maxConcentration).None?
         || Parse(f.maxConcentration).value == 0.0 then NotNumeric
    else
      var m := MinVolume(Parse(f.initialVolume).value, Parse(f.leukocytes).value, Parse(f.maxConcentration).value);
      Raised(m, if NeedsRaise(f.concentratedVolume, m) then Text(Some(Ceil2(m))) else f.concentratedVolume)
  }

  /** As written, a raised volume is within half a hundredth of the minimum,
      and a volume that needs no raise is kept. */
  lemma AutoRaiseMeaning(f: CryoFields)
    ensures AutoRaise(f).Raised? ==>
      var e := AutoRaise(f);
      && (NeedsRaise(f.concentratedVolume, e.minVolume) ==>
            Parse(e.concentratedVolume).Some? && -0.005 <= Parse(e.concentratedVolume).value - e.minVolume <= 0.005)
      && (!NeedsRaise(f.concentratedVolume, e.minVolume) ==> e.concentratedVolume == f.concentratedVolume)
  {
  }

  /** As written, the effect can leave a volume the validation then refuses:
      100 ml at 80010/uL with a ceiling of 250000/uL has minimum 32.004 ml,
      which `toFixed(2)` makes 32.00. */
  lemma AutoRaiseCanStayBelowMinimum()
    ensures var f := CryoFields("CD34", Text(Some(100.0)), Blank, Text(Some(80010.0)), Blank,
                                Text(Some(250000.0)), Blank, false, Blank);
      && AutoRaise(f) == Raised(32.004, Text(Some(32.0)))
      && NeedsRaise(AutoRaise(f).concentratedVolume, AutoRaise(f).minVolume)
  {
    var f := CryoFields("CD34", Text(Some(100.0)), Blank, Text(Some(80010.0)), Blank,
                        Text(Some(250000.0)), Blank, false, Blank);
    assert MinVolume(100.0, 80010.0, 250000.0) == 32.004;
    assert (32.004 * 100.0 + 0.5).Floor == 3200;
  }

  /** Rounded up, the raised volume always passes the minimum-volume check,
      and exceeds the minimum by less than a hundredth. */
  lemma AutoRaiseUpReachesMinimum(f: CryoFields)
    ensures AutoRaiseUp(f).Raised? ==>
      var e := AutoRaiseUp(f);
      && !NeedsRaise(e.concentratedVolume, e.minVolume)
      && (NeedsRaise(f.concentratedVolume, e.minVolume) ==>
            Parse(e.concentratedVolume).Some? && e.minVolume <= Parse(e.concentratedVolume).value < e.minVolume + 0.01)
      && (!NeedsRaise(f.concentratedVolume, e.minVolume) ==> e.concentratedVolume == f.concentratedVolume)
  {
  }

  // ---------------------------------------------------------------------
  // The container list.

  /** `Math.max(...ids, 0)`. */
  function MaxId(cs: seq<FormContainer>): (m: int)
    ensures m >= 0 && forall i :: 0 <= i < |cs| ==> cs[i].id <= m
  {
    if cs == [] then 0
    else
      var rest := MaxId(cs[..|cs| - 1]);
      var last := cs[|cs| - 1].id;
      if last > rest then last else rest
  }

  predicate UniqueIds(cs: seq<FormContainer>)
  {
    forall i, j :: 0 <= i < j < |cs| ==> cs[i].id != cs[j].id
  }

  datatype AddOutcome =
    | Ignored
    | MinAboveMax
    | UnusableLimits
    | Added(containers: seq<FormContainer>)

  /** handleAgregarContenedor as written: nothing without a name and both
      limits, an alert when the minimum exceeds the maximum, otherwise the
      type appended with the next id and its limits through parseFloat. */
  function AddContainer(cs: seq<FormContainer>, name: string, volMin: Field, volMax: Field): AddOutcome
  {
    if name == "" || !Present(volMin) || !Present(volMax) then Ignored
    else if Parse(volMin).Some? && Parse(volMax).Some? && Parse(volMin).value > Parse(volMax).value then MinAboveMax
    else Added(cs + [FormContainer(MaxId(cs) + 1, name, Parse(volMin), Parse(volMax))])
  }

  /** Adding is refused exactly for a missing field or a minimum above the
      maximum; an added type goes at the end with an id above every id in
      the list, so ids stay unique. */
  lemma AddContainerMeaning(cs: seq<FormContainer>, name: string, volMin: Field, volMax: Field)
    ensures AddContainer(cs, name, volMin, volMax).Ignored? <==> name == "" || volMin == Blank || volMax == Blank
    ensures AddContainer(cs, name, volMin, volMax).MinAboveMax? <==>
      name != "" && ParsedAbove(volMin, if Parse(volMax).Some? then Parse(volMax).value else 0.0) && Parse(volMax).Some?
    ensures AddContainer(cs, name, volMin, volMax).Added? ==>
      var r := AddContainer(cs, name, volMin, volMax).containers;
      && |r| == |cs| + 1 && r[..|cs|] == cs
      && r[|cs|].name == name && r[|cs|].volMin == Parse(volMin) && r[|cs|].volMax == Parse(volMax)
      && (forall i :: 0 <= i < |cs| ==> cs[i].id < r[|cs|].id)
      && (UniqueIds(cs) ==> UniqueIds(r))
  {
    var o := AddContainer(cs, name, volMin, volMax);
    if o.Added? {
      assert o.containers[..|cs|] == cs;
    }
  }

  /** The type limits the allocator needs: both numbers, 0 < min <= max. */
  predicate Usable(c: FormContainer)
  {
    c.volMin.Some? && c.volMax.Some? && 0.0 < c.volMin.value <= c.volMax.value
  }

  predicate AllUsable(cs: seq<FormContainer>)
  {
    forall i :: 0 <= i < |cs| ==> Usable(cs[i])
  }

  /** As written, a minimum of "0" is accepted: the list then holds a type
      the allocator divides by (0 ml units, an infinite count). */
  lemma AddContainerAcceptsZeroMinimum()
    ensures var o := AddContainer(DefaultContainers, "Vial", Text(Some(0.0)), Text(Some(10.0)));
      o.Added? && AllUsable(DefaultContainers) && !AllUsable(o.containers)
  {
    var o := AddContainer(DefaultContainers, "Vial", Text(Some(0.0)), Text(Some(10.0)));
    assert !Usable(o.containers[3]);
  }

  /** handleAgregarContenedor with the evidently intended check: limits that
      are not numbers or a minimum that is not positive are refused too. */
  function AddContainerChecked(cs: seq<FormContainer>, name: string, volMin: Field, volMax: Field): AddOutcome
  {
    if name == "" || !Present(volMin) || !Present(volMax) then Ignored
    else if Parse(volMin).Some? && Parse(volMax).Some? && Parse(volMin).value > Parse(volMax).value then MinAboveMax
    else if Parse(volMin).None? || Parse(volMax).None? || Parse(volMin).value <= 0.0 then UnusableLimits
    else Added(cs + [FormContainer(MaxId(cs) + 1, name, Parse(volMin), Parse(volMax))])
  }

  /** The checked add accepts what the add as written accepts, less the
      unusable limits, and keeps a usable list usable. */
  lemma AddContainerCheckedMeaning(cs: seq<FormContainer>, name: string, volMin: Field, volMax: Field)
    ensures var o := AddContainerChecked(cs, name, volMin, volMax);
      && (o.Added? <==> AddContainer(cs, name, volMin, volMax).Added? && Parse(volMin).Some? && Parse(volMax).Some? && Parse(volMin).value > 0.0)
      && (o.Added? ==> o == AddContainer(cs, name, volMin, volMax))
      && (o.Added? && AllUsable(cs) ==> AllUsable(o.containers))
  {
  }

  /** handleEliminarContenedor: `filter(c => c.id !== id)`. */
  function RemoveContainer(cs: seq<FormContainer>, id: int): (r: seq<FormContainer>)
    ensures forall c :: c in r <==> c in cs && c.id != id
    ensures |r| <= |cs|
  {
    if cs == [] then []
    else (if cs[0].id != id then [cs[0]] else []) + RemoveContainer(cs[1..], id)
  }

  /** Removal keeps the order: removing from a concatenation removes from
      each part. */
  lemma {:induction false} RemoveKeepsOrder(a: seq<FormContainer>, b: seq<FormContainer>, id: int)
    ensures RemoveContainer(a + b, id) == RemoveContainer(a, id) + RemoveContainer(b, id)
  {
    if a == [] {
      assert a + b == b;
    } else {
      assert (a + b)[0] == a[0] && (a + b)[1..] == a[1..] + b;
      RemoveKeepsOrder(a[1..], b, id);
    }
  }

  /** Removing an id no type has leaves the list as it was. */
  lemma {:induction false} RemoveAbsent(cs: seq<FormContainer>, id: int)
    requires forall i :: 0 <= i < |cs| ==> cs[i].id != id
    ensures RemoveContainer(cs, id) == cs
  {
    if cs != [] {
      RemoveAbsent(cs[1..], id);
      assert [cs[0]] + cs[1..] == cs;
    }
  }

  /** Removal keeps a usable list usable. */
  lemma RemoveKeepsUsable(cs: seq<FormContainer>, id: int)
    requires AllUsable(cs)
    ensures AllUsable(RemoveContainer(cs, id))
  {
    var r := RemoveContainer(cs, id);
    forall i | 0 <= i < |r| ensures Usable(r[i]) {
      assert r[i] in cs;
    }
  }

  /** The default list is usable and its ids are unique. */
  lemma DefaultContainersUsable()
    ensures AllUsable(DefaultContainers) && UniqueIds(DefaultContainers)
  {
    var d := DefaultContainers;
    assert |d| == 3 && d[0].id == 1 && d[1].id == 2 && d[2].id == 3;
    assert Usable(d[0]) && Usable(d[1]) && Usable(d[2]);
  }

  /** The first default type is the one the allocator takes for cryovials. */
  lemma DefaultCryovialFirst()
    ensures IsCryovial(DefaultContainers[0].name)
    ensures FindCryovial(TypesOf(DefaultContainers)) == Some(ContainerType("Criotubo", 1.0, 1.0))
  {
    DefaultContainersUsable();
    CryovialExamples();
    FindCryovialIsFirst(TypesOf(DefaultContainers), 0);
  }

  // ---------------------------------------------------------------------
  // validarCampos.

  datatype CryoError =
    | NoContainerTypes
    | InitialVolumeNotPositive
    | CellConcentrationNotPositive
    | LeukocytesNotPositive
    | RecipientWeightNotPositive
    | MaxConcentrationNotPositive
    | ConcentratedVolumeBelowMinimum
    | DoseNotPositive
    | NoRoomForDoseVials

  const CryoOrder: seq<CryoError> := [NoContainerTypes, InitialVolumeNotPositive,
    CellConcentrationNotPositive, LeukocytesNotPositive, RecipientWeightNotPositive,
    MaxConcentrationNotPositive, ConcentratedVolumeBelowMinimum, DoseNotPositive, NoRoomForDoseVials]

  function CryoRank(e: CryoError): nat
  {
    match e
    case NoContainerTypes => 0
    case InitialVolumeNotPositive => 1
    case CellConcentrationNotPositive => 2
    case LeukocytesNotPositive => 3
    case RecipientWeightNotPositive => 4
    case MaxConcentrationNotPositive => 5
    case ConcentratedVolumeBelowMinimum => 6
    case DoseNotPositive => 7
    case NoRoomForDoseVials => 8
  }

  lemma RanksCryoOrder()
    ensures Ranks(CryoOrder, CryoRank)
  {
    forall e: CryoError ensures CryoRank(e) < |CryoOrder| && CryoOrder[CryoRank(e)] == e {
    }
  }

  /** `!x || parseFloat(x) <= 0`: blank or a number <= 0 (NaN passes). */
  predicate NotPositive(f: Field)
  {
    !Present(f) || ParsedAtMost(f, 0.0)
  }

  /** When validarCampos reports each error. */
  predicate FailsCryo(s: CryoState, e: CryoError)
  {
    var f := s.fields;
    match e
    case NoContainerTypes => |s.containers| == 0
    case InitialVolumeNotPositive => NotPositive(f.initialVolume)
    case CellConcentrationNotPositive => NotPositive(f.cellConcentration)
    case LeukocytesNotPositive => NotPositive(f.leukocytes)
    case RecipientWeightNotPositive => NotPositive(f.recipientWeight)
    case MaxConcentrationNotPositive => NotPositive(f.maxConcentration)
    case ConcentratedVolumeBelowMinimum => NeedsRaise(f.concentratedVolume, s.minVolume)
    case DoseNotPositive => f.useDose && NotPositive(f.dosePerKg)
    case NoRoomForDoseVials => f.useDose && s.maxCryovials == 0
  }

  function FailuresCryo(s: CryoState): set<CryoError>
  {
    set e | e in CryoOrder && FailsCryo(s, e)
  }

  lemma FailuresCryoMeaning(s: CryoState)
    ensures forall e :: e in FailuresCryo(s) <==> FailsCryo(s, e)
  {
    RanksCryoOrder();
    forall e ensures e in FailuresCryo(s) <==> FailsCryo(s, e) {
      assert CryoOrder[CryoRank(e)] == e;
    }
  }

  /** The seven checks of validarCampos that do not depend on the dose
      switch, one push per failing check, in order. */
  method ValidateCommon(s: CryoState) returns (errors: seq<CryoError>)
    ensures errors == Reported(CryoOrder, FailuresCryo(s), 7)
  {
    ghost var failures := FailuresCryo(s);
    FailuresCryoMeaning(s);
    var f := s.fields;
    errors := [];
    ReportedStep(CryoOrder, failures, 0);
    errors := PushIf(errors, |s.containers| == 0, NoContainerTypes);
    assert errors == Reported(CryoOrder, failures, 1);
    ReportedStep(CryoOrder, failures, 1);
    errors := PushIf(errors, !Present(f.initialVolume) || ParsedAtMost(f.initialVolume, 0.0), InitialVolumeNotPositive);
    assert errors == Reported(CryoOrder, failures, 2);
    ReportedStep(CryoOrder, failures, 2);
    errors := PushIf(errors, !Present(f.cellConcentration) || ParsedAtMost(f.cellConcentration, 0.0), CellConcentrationNotPositive);
    assert errors == Reported(CryoOrder, failures, 3);
    ReportedStep(CryoOrder, failures, 3);
    errors := PushIf(errors, !Present(f.leukocytes) || ParsedAtMost(f.leukocytes, 0.0), LeukocytesNotPositive);
    assert errors == Reported(CryoOrder, failures, 4);
    ReportedStep(CryoOrder, failures, 4);
    errors := PushIf(errors, !Present(f.recipientWeight) || ParsedAtMost(f.recipientWeight, 0.0), RecipientWeightNotPositive);
    assert errors == Reported(CryoOrder, failures, 5);
    ReportedStep(CryoOrder, failures, 5);
    errors := PushIf(errors, !Present(f.maxConcentration) || ParsedAtMost(f.maxConcentration, 0.0), MaxConcentrationNotPositive);
    assert errors == Reported(CryoOrder, failures, 6);
    ReportedStep(CryoOrder, failures, 6);
    errors := PushIf(errors, !Present(f.concentratedVolume) || ParsedBelow(f.concentratedVolume, s.minVolume), ConcentratedVolumeBelowMinimum);
  }

  /** validarCampos: the common checks, then the two dose checks only with
      the switch on. */
  method ValidateCryo(s: CryoState) returns (errors: seq<CryoError>)
    ensures errors == Reported(CryoOrder, FailuresCryo(s), 9)
  {
    ghost var failures := FailuresCryo(s);
    FailuresCryoMeaning(s);
    errors := ValidateCommon(s);
    if s.fields.useDose {
      errors := PushIf(errors, !Present(s.fields.dosePerKg) || ParsedAtMost(s.fields.dosePerKg, 0.0), DoseNotPositive);
      assert errors == Reported(CryoOrder, failures, 8);
      errors := PushIf(errors, s.maxCryovials == 0, NoRoomForDoseVials);
    } else {
      assert errors == Reported(CryoOrder, failures, 8);
    }
  }

  /** The report names exactly the failing checks, in order, and is empty
      exactly when nothing fails. */
  lemma ReportedCryoMeaning(s: CryoState)
    ensures var r := Reported(CryoOrder, FailuresCryo(s), 9);
      && (forall e :: e in r <==> FailsCryo(s, e))
      && InOrder(r, CryoRank) && |r| <= 9
      && (r == [] <==> forall e :: !FailsCryo(s, e))
  {
    RanksCryoOrder();
    ReportedAll(CryoOrder, CryoRank, FailuresCryo(s));
    FailuresCryoMeaning(s);
  }

  /** The concentrated volume is checked against the minimum held in state;
      once that state is the current minimum, the volume after the rounded-up
      raise always passes the check. */
  lemma RaisedUpVolumePasses(s: CryoState)
    requires AutoRaiseUp(s.fields).Raised?
    requires s.minVolume == AutoRaiseUp(s.fields).minVolume
    ensures !FailsCryo(s.(fields := s.fields.(concentratedVolume := AutoRaiseUp(s.fields).concentratedVolume)),
                       ConcentratedVolumeBelowMinimum)
  {
    AutoRaiseUpReachesMinimum(s.fields);
  }

  // ---------------------------------------------------------------------
  // handleCalcular.

  /** The numbers handed to the planner: every field it reads parses, and
      every container type has numeric limits 0 < min <= max. */
  predicate ReachesPlanner(s: CryoState)
  {
    var f := s.fields;
    && Parse(f.initialVolume).Some? && Parse(f.cellConcentration).Some? && Parse(f.leukocytes).Some?
    && Parse(f.recipientWeight).Some? && Parse(f.maxConcentration).Some? && Parse(f.concentratedVolume).Some?
    && (f.useDose ==> Parse(f.dosePerKg).Some?)
    && AllUsable(s.containers)
  }

  function TypeOf(c: FormContainer): ContainerType
    requires Usable(c)
  {
    ContainerType(c.name, c.volMin.value, c.volMax.value)
  }

  function TypesOf(cs: seq<FormContainer>): (r: seq<ContainerType>)
    requires AllUsable(cs)
    ensures |r| == |cs| && WellFormedTypes(r)
    ensures forall i :: 0 <= i < |cs| ==> r[i] == TypeOf(cs[i])
  {
    if cs == [] then [] else [TypeOf(cs[0])] + TypesOf(cs[1..])
  }

  /** The planner's parameters: dose and cryovial count only with the switch on. */
  function RequestOf(s: CryoState): PlanRequest
    requires ReachesPlanner(s)
  {
    var f := s.fields;
    PlanRequest(f.cellType, Parse(f.initialVolume).value, Parse(f.cellConcentration).value,
      Parse(f.leukocytes).value, Parse(f.recipientWeight).value, Parse(f.maxConcentration).value,
      Parse(f.concentratedVolume).value, f.useDose,
      if f.useDose then Parse(f.dosePerKg).value else 0.0,
      if f.useDose then s.maxCryovials else 0,
      TypesOf(s.containers))
  }

  datatype PlanOutcome =
    | Rejected(errors: seq<CryoError>)
    | Planned(plan: Plan)
    | Unmodelled

  /** The gate: errors clear the results and the planner does not run;
      otherwise it runs on the parsed fields, the allocation done step by step
      by Distribute. NaN fields that pass the checks, unusable container
      limits, and divisions by zero are not modelled. */
  method Calculate(s: CryoState) returns (o: PlanOutcome)
    ensures o.Rejected? <==> Reported(CryoOrder, FailuresCryo(s), 9) != []
    ensures o.Rejected? ==> o.errors == Reported(CryoOrder, FailuresCryo(s), 9)
    ensures o.Planned? ==> ReachesPlanner(s) && Plannable(RequestOf(s)) && o.plan == PlanFor(RequestOf(s))
    ensures o.Unmodelled? ==> !ReachesPlanner(s) || !Plannable(RequestOf(s))
  {
    var errors := ValidateCryo(s);
    if |errors| > 0 {
      return Rejected(errors);
    }
    if !ReachesPlanner(s) {
      return Unmodelled;
    }
    var r := RequestOf(s);
    if !Plannable(r) {
      return Unmodelled;
    }
    var total := RoundedTotal(r);
    var d := Distribute(Distributable(total), AllocatorOptions(r), r.types);
    o := Planned(PlanOf(r, total, Concentration(r), d));
  }

  /** The minimum-volume state is the minimum of the current fields. */
  predicate MinVolumeSettled(s: CryoState)
  {
    var f := s.fields;
    Parse(f.initialVolume).Some? && Parse(f.leukocytes).Some? && Parse(f.maxConcentration).Some?
    && Parse(f.maxConcentration).value != 0.0
    && s.minVolume == MinVolume(Parse(f.initialVolume).value, Parse(f.leukocytes).value, Parse(f.maxConcentration).value)
  }

  /** A form that passes validation, with numbers in the fields, usable
      container types, the minimum in state up to date and a concentrated
      volume of at least 0.01 ml, reaches the planner with nothing the planner
      divides by equal to zero. */
  lemma ValidatedFormIsPlannable(s: CryoState)
    requires Reported(CryoOrder, FailuresCryo(s), 9) == []
    requires ReachesPlanner(s) && MinVolumeSettled(s)
    requires Parse(s.fields.concentratedVolume).value >= 0.01
    ensures Plannable(RequestOf(s))
  {
    ReportedCryoMeaning(s);
    var f := s.fields;
    assert !FailsCryo(s, InitialVolumeNotPositive) && !FailsCryo(s, CellConcentrationNotPositive);
    assert !FailsCryo(s, RecipientWeightNotPositive) && !FailsCryo(s, MaxConcentrationNotPositive);
    var r := RequestOf(s);
    var total := CryoprotectantFor(r.concentratedVolume).totalVolume;
    assert total >= 0.02;
    assert RoundedTotal(r) >= 0.015;
    ProductNonNegative(r.cellConcentration, r.initialVolume);
  }
}
