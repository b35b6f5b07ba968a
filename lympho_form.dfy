/** The lymphapheresis (CD3) form: its low-concentration warning, its own
    field validation, and the gate that runs the CD3 calculator only on a form
    without errors. */
module LymphoForm {
  import opened Common
  import opened Validation
  import opened Collection

  /** The warning shown while typing the CD3 concentration: a number strictly
      between 0 and the CD34 warning threshold. */
  predicate LowCd3Warning(concentration: Field)
  {
    ParsedAbove(concentration, 0.0) && ParsedBelow(concentration, Cd34Warning)
  }

  /** Blank or unparseable text never warns; a warned value passes the
      concentration check, so the warning never blocks the calculation. */
  lemma LowCd3WarningMeaning(d: CollectionForm)
    ensures LowCd3Warning(d.concentration) <==>
      (Parse(d.concentration).Some? && 0.0 < Parse(d.concentration).value < 10.0)
    ensures LowCd3Warning(d.concentration) ==> !FailsCD3(d, ConcentrationError)
  {
  }

  /** `!x || parseFloat(x) < min || parseFloat(x) > max`: blank, or a number
      outside [min, max]. Text that is not a number is not refused. */
  predicate OutOfBounds(f: Field, min: real, max: real)
  {
    !Present(f) || ParsedBelow(f, min) || ParsedAbove(f, max)
  }

  /** When validarCamposCD3 reports each error. */
  predicate FailsCD3(d: CollectionForm, e: FieldError)
  {
    match e
    case DonorWeightError => OutOfBounds(d.donorWeight, WeightMin, WeightMax)
    case DonorHeightError => OutOfBounds(d.donorHeight, HeightMin, HeightMax)
    case SexError => d.donorSex == ""
    case RecipientWeightError => OutOfBounds(d.recipientWeight, WeightMin, WeightMax)
    case TargetError => !Present(d.target) || ParsedAtMost(d.target, 0.0)
    case ConcentrationError => !Present(d.concentration) || ParsedAtMost(d.concentration, 0.0)
    case EfficiencyError => !Present(d.efficiency) || ParsedAtMost(d.efficiency, 0.0) || ParsedAbove(d.efficiency, 1.0)
  }

  function FailuresCD3(d: CollectionForm): set<FieldError>
  {
    set e | e in FieldOrder && FailsCD3(d, e)
  }

  lemma FailuresCD3Meaning(d: CollectionForm)
    ensures forall e :: e in FailuresCD3(d) <==> FailsCD3(d, e)
  {
    RanksFieldOrder();
    forall e ensures e in FailuresCD3(d) <==> FailsCD3(d, e) {
      assert FieldOrder[Rank(e)] == e;
    }
  }

  /** validarCamposCD3: one push per failing field, in field order. */
  method ValidateCD3(d: CollectionForm) returns (errors: seq<FieldError>)
    ensures errors == Reported(FieldOrder, FailuresCD3(d), 7)
  {
    ghost var failures := FailuresCD3(d);
    FailuresCD3Meaning(d);
    errors := [];
    errors := PushIf(errors, !Present(d.donorWeight) || ParsedBelow(d.donorWeight, WeightMin) || ParsedAbove(d.donorWeight, WeightMax), DonorWeightError);
    assert errors == Reported(FieldOrder, failures, 1);
    errors := PushIf(errors, !Present(d.donorHeight) || ParsedBelow(d.donorHeight, HeightMin) || ParsedAbove(d.donorHeight, HeightMax), DonorHeightError);
    assert errors == Reported(FieldOrder, failures, 2);
    errors := PushIf(errors, d.donorSex == "", SexError);
    assert errors == Reported(FieldOrder, failures, 3);
    errors := PushIf(errors, !Present(d.recipientWeight) || ParsedBelow(d.recipientWeight, WeightMin) || ParsedAbove(d.recipientWeight, WeightMax), RecipientWeightError);
    assert errors == Reported(FieldOrder, failures, 4);
    errors := PushIf(errors, !Present(d.target) || ParsedAtMost(d.target, 0.0), TargetError);
    assert errors == Reported(FieldOrder, failures, 5);
    errors := PushIf(errors, !Present(d.concentration) || ParsedAtMost(d.concentration, 0.0), ConcentrationError);
    assert errors == Reported(FieldOrder, failures, 6);
    errors := PushIf(errors, !Present(d.efficiency) || ParsedAtMost(d.efficiency, 0.0) || ParsedAbove(d.efficiency, 1.0), EfficiencyError);
    assert errors == Reported(FieldOrder, failures, 7);
  }

  /** The report names exactly the failing fields, in field order, and is
      empty exactly when no field fails. */
  lemma ReportedCD3Meaning(d: CollectionForm)
    ensures var r := Reported(FieldOrder, FailuresCD3(d), 7);
      && (forall e :: e in r <==> FailsCD3(d, e))
      && InOrder(r, Rank) && |r| <= 7
      && (r == [] <==> forall e :: !FailsCD3(d, e))
  {
    RanksFieldOrder();
    ReportedAll(FieldOrder, Rank, FailuresCD3(d));
    FailuresCD3Meaning(d);
  }

  /** No field is text that parseFloat turns into NaN. */
  predicate NoNaN(d: CollectionForm)
  {
    && d.donorWeight != Text(None) && d.donorHeight != Text(None) && d.recipientWeight != Text(None)
    && d.target != Text(None) && d.concentration != Text(None) && d.efficiency != Text(None)
  }

  /** On fields that are blank or numbers the CD3 checks agree with the CD34
      ones; they differ only on NaN, which validarRango refuses and the CD3
      range test lets through. */
  lemma CD3AgreesWithCD34Validation(d: CollectionForm, e: FieldError)
    requires NoNaN(d)
    ensures FailsCD3(d, e) <==> FailsCD34(d, e)
  {
  }

  lemma NaNWeightPassesOnlyCD3(d: CollectionForm)
    requires d.donorWeight == Text(None)
    ensures !FailsCD3(d, DonorWeightError) && FailsCD34(d, DonorWeightError)
  {
  }

  /** Every numeric field parses: what the calculator needs to receive
      numbers and not NaN. */
  predicate AllParsed(d: CollectionForm)
  {
    && Parse(d.donorWeight).Some? && Parse(d.donorHeight).Some? && Parse(d.recipientWeight).Some?
    && Parse(d.target).Some? && Parse(d.concentration).Some? && Parse(d.efficiency).Some?
  }

  /** The calculator's parameters, each field through parseFloat. */
  function InputOf(d: CollectionForm): CollectionInput
    requires AllParsed(d)
  {
    CollectionInput(Parse(d.donorWeight).value, Parse(d.donorHeight).value, d.donorSex,
      Parse(d.recipientWeight).value, Parse(d.target).value, Parse(d.concentration).value,
      Some(Parse(d.efficiency).value))
  }

  datatype CollectionOutcome =
    | Rejected(errors: seq<FieldError>)
    | Computed(result: CollectionResult)
    | Unmodelled

  /** handleCalcular: errors clear the results; otherwise the calculator runs
      on the parsed fields. A field the validation lets through as NaN would
      make the calculator compute with NaN, which is not modelled. */
  method CalculateCD3(d: CollectionForm) returns (o: CollectionOutcome)
    ensures o.Rejected? <==> Reported(FieldOrder, FailuresCD3(d), 7) != []
    ensures o.Rejected? ==> o.errors == Reported(FieldOrder, FailuresCD3(d), 7)
    ensures o.Computed? ==> AllParsed(d) && Computable(InputOf(d)) && o.result == VolemiasCD3(InputOf(d))
    ensures o.Unmodelled? ==> !AllParsed(d)
  {
    var errors := ValidateCD3(d);
    if |errors| > 0 {
      return Rejected(errors);
    }
    if !AllParsed(d) {
      return Unmodelled;
    }
    ReportedCD3Meaning(d);
    assert !FailsCD3(d, DonorWeightError) && !FailsCD3(d, DonorHeightError);
    assert !FailsCD3(d, ConcentrationError) && !FailsCD3(d, EfficiencyError);
    o := Computed(VolemiasCD3(InputOf(d)));
  }

  /** The form as it opens: sex "M" and efficiency "0.4" filled in. */
  const InitialForm: CollectionForm := CollectionForm(Blank, Blank, "M", Blank, Blank, Blank, Text(Some(0.4)))

  /** Every field of the opened form fails except the sex and the efficiency. */
  lemma InitialFormFailures()
    ensures FailuresCD3(InitialForm)
      == {DonorWeightError, DonorHeightError, RecipientWeightError, TargetError, ConcentrationError}
  {
    FailuresCD3Meaning(InitialForm);
    assert !FailsCD3(InitialForm, SexError) && !FailsCD3(InitialForm, EfficiencyError);
  }

  /** So the opened form reports every other field, in field order. */
  lemma InitialFormErrors()
    ensures Reported(FieldOrder, FailuresCD3(InitialForm), 7)
      == [DonorWeightError, DonorHeightError, RecipientWeightError, TargetError, ConcentrationError]
  {
    InitialFormFailures();
    var f := FailuresCD3(InitialForm);
    assert FieldOrder[0] == DonorWeightError && FieldOrder[1] == DonorHeightError;
    assert Reported(FieldOrder, f, 1) == [DonorWeightError];
    assert Reported(FieldOrder, f, 2) == [DonorWeightError, DonorHeightError];
    assert Reported(FieldOrder, f, 3) == [DonorWeightError, DonorHeightError];
    assert Reported(FieldOrder, f, 4) == [DonorWeightError, DonorHeightError, RecipientWeightError];
    assert Reported(FieldOrder, f, 5) == [DonorWeightError, DonorHeightError, RecipientWeightError, TargetError];
    assert Reported(FieldOrder, f, 6) == [DonorWeightError, DonorHeightError, RecipientWeightError, TargetError, ConcentrationError];
  }
}
