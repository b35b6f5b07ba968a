/** The bounds table shared by the calculators, the range check, and the
    validation of the CD34 form. */
module Validation {
  import opened Common

  const WeightMin: real := 1.0
  const WeightMax: real := 200.0
  const HeightMin: real := 50.0
  const HeightMax: real := 250.0
  /** Pre-apheresis concentrations below this many cells/uL draw a warning. */
  const Cd34Warning: real := 10.0

  /** The failures the collection forms report, one per field, in the order
      the validators test the fields. */
  datatype FieldError =
    | DonorWeightError
    | DonorHeightError
    | SexError
    | RecipientWeightError
    | TargetError
    | ConcentrationError
    | EfficiencyError

  /** validarRango: the field parses to a number within [min, max]. */
  predicate InRange(f: Field, min: real, max: real)
  {
    match Parse(f)
    case None => false
    case Some(x) => min <= x && x <= max
  }

  /** validarRango against the plain comparisons `v < min` and `v > max`
      the lymphapheresis form uses: on a number both say the same; text that
      is not a number fails validarRango but neither comparison. */
  lemma InRangeVersusComparisons(f: Field, min: real, max: real)
    ensures Parse(f).Some? ==> (InRange(f, min, max) <==> !(ParsedBelow(f, min) || ParsedAbove(f, max)))
    ensures Parse(f).None? ==> !InRange(f, min, max) && !ParsedBelow(f, min) && !ParsedAbove(f, max)
  {
  }

  /** A donor/recipient form (CD34 or CD3) as the component holds it. */
  datatype CollectionForm = CollectionForm(
    donorWeight: Field, donorHeight: Field, donorSex: string, recipientWeight: Field,
    target: Field, concentration: Field, efficiency: Field)

  // ---------------------------------------------------------------------
  // The report of a validator that tests a fixed list of checks in turn and
  // pushes the error of each check that fails.

  /** The errors reported after the first k checks of `order`, when
      `failures` are the checks that fail. */
  function Reported<E>(order: seq<E>, failures: set<E>, k: nat): seq<E>
    requires k <= |order|
  {
    if k == 0 then []
    else Reported(order, failures, k - 1) + (if order[k - 1] in failures then [order[k - 1]] else [])
  }

  /** One more position of the order: its error is appended when it failed. */
  lemma ReportedStep<E>(order: seq<E>, failures: set<E>, k: nat)
    requires k < |order|
    ensures Reported(order, failures, k + 1)
      == Reported(order, failures, k) + (if order[k] in failures then [order[k]] else [])
  {
  }

  /** `rank` gives each error its position in `order`, and every error has one. */
  ghost predicate Ranks<E(!new)>(order: seq<E>, rank: E -> nat)
  {
    && (forall i :: 0 <= i < |order| ==> rank(order[i]) == i)
    && (forall e :: rank(e) < |order| && order[rank(e)] == e)
  }

  /** The errors come in the order of their checks, so each at most once. */
  predicate InOrder<E>(errors: seq<E>, rank: E -> nat)
  {
    forall i, j :: 0 <= i < j < |errors| ==> rank(errors[i]) < rank(errors[j])
  }

  /** An error is reported exactly when its check fails and has been made. */
  lemma {:induction false} ReportedMembers<E(!new)>(order: seq<E>, rank: E -> nat, failures: set<E>, k: nat)
    requires k <= |order| && Ranks(order, rank)
    ensures forall e :: e in Reported(order, failures, k) <==> e in failures && rank(e) < k
  {
    if k > 0 {
      ReportedMembers(order, rank, failures, k - 1);
    }
  }

  /** Reported errors come in check order, at most one per check. */
  lemma {:induction false} ReportedInOrder<E(!new)>(order: seq<E>, rank: E -> nat, failures: set<E>, k: nat)
    requires k <= |order| && Ranks(order, rank)
    ensures InOrder(Reported(order, failures, k), rank)
    ensures forall i :: 0 <= i < |Reported(order, failures, k)| ==> rank(Reported(order, failures, k)[i]) < k
    ensures |Reported(order, failures, k)| <= k
  {
    if k > 0 {
      ReportedInOrder(order, rank, failures, k - 1);
    }
  }

  /** After every check: the errors are exactly the failing checks, in
      check order, and there are none exactly when nothing fails. */
  lemma ReportedAll<E(!new)>(order: seq<E>, rank: E -> nat, failures: set<E>)
    requires Ranks(order, rank)
    ensures forall e :: e in Reported(order, failures, |order|) <==> e in failures
    ensures InOrder(Reported(order, failures, |order|), rank) && |Reported(order, failures, |order|)| <= |order|
    ensures Reported(order, failures, |order|) == [] <==> failures == {}
  {
    var r := Reported(order, failures, |order|);
    ReportedMembers(order, rank, failures, |order|);
    ReportedInOrder(order, rank, failures, |order|);
    if failures != {} {
      var e :| e in failures;
      assert e in r;
    }
    if r != [] {
      assert r[0] in failures;
    }
  }

  // ---------------------------------------------------------------------
  // validarCamposCD34.

  /** The order in which the collection forms test their fields. */
  const FieldOrder: seq<FieldError> := [DonorWeightError, DonorHeightError, SexError,
    RecipientWeightError, TargetError, ConcentrationError, EfficiencyError]

  function Rank(e: FieldError): nat
  {
    match e
    case DonorWeightError => 0
    case DonorHeightError => 1
    case SexError => 2
    case RecipientWeightError => 3
    case TargetError => 4
    case ConcentrationError => 5
    case EfficiencyError => 6
  }

  lemma RanksFieldOrder()
    ensures Ranks(FieldOrder, Rank)
  {
    forall e: FieldError ensures Rank(e) < |FieldOrder| && FieldOrder[Rank(e)] == e {
    }
  }

  /** When validarCamposCD34 reports each error: a weight or height that is
      blank or fails validarRango, no sex chosen, a target or concentration
      that is blank or a number <= 0, an efficiency that is blank or a number
      <= 0 or > 1. */
  predicate FailsCD34(d: CollectionForm, e: FieldError)
  {
    match e
    case DonorWeightError => !Present(d.donorWeight) || !InRange(d.donorWeight, WeightMin, WeightMax)
    case DonorHeightError => !Present(d.donorHeight) || !InRange(d.donorHeight, HeightMin, HeightMax)
    case SexError => d.donorSex == ""
    case RecipientWeightError => !Present(d.recipientWeight) || !InRange(d.recipientWeight, WeightMin, WeightMax)
    case TargetError => !Present(d.target) || ParsedAtMost(d.target, 0.0)
    case ConcentrationError => !Present(d.concentration) || ParsedAtMost(d.concentration, 0.0)
    case EfficiencyError => !Present(d.efficiency) || ParsedAtMost(d.efficiency, 0.0) || ParsedAbove(d.efficiency, 1.0)
  }

  /** The fields of a CD34 form that fail their check. */
  function FailuresCD34(d: CollectionForm): set<FieldError>
  {
    set e | e in FieldOrder && FailsCD34(d, e)
  }

  /** Every field of the CD34 form is acceptable: the weights parse into
      [1, 200], the height into [50, 250], a sex is chosen, the target and the
      concentration are filled in and not a number <= 0, the efficiency is
      filled in and not a number outside (0, 1]. */
  predicate CD34Acceptable(d: CollectionForm)
  {
    && InRange(d.donorWeight, 1.0, 200.0)
    && InRange(d.donorHeight, 50.0, 250.0)
    && d.donorSex != ""
    && InRange(d.recipientWeight, 1.0, 200.0)
    && Present(d.target) && !(Parse(d.target).Some? && Parse(d.target).value <= 0.0)
    && Present(d.concentration) && !(Parse(d.concentration).Some? && Parse(d.concentration).value <= 0.0)
    && Present(d.efficiency) && !(Parse(d.efficiency).Some? && !(0.0 < Parse(d.efficiency).value <= 1.0))
  }

  /** The failing fields are those whose check fails; there are none exactly
      when the form is acceptable. */
  lemma FailuresCD34Meaning(d: CollectionForm)
    ensures forall e :: e in FailuresCD34(d) <==> FailsCD34(d, e)
    ensures FailuresCD34(d) == {} <==> CD34Acceptable(d)
  {
    RanksFieldOrder();
    forall e ensures e in FailuresCD34(d) <==> FailsCD34(d, e) {
      assert FieldOrder[Rank(e)] == e;
    }
    if FailuresCD34(d) == {} {
      assert !FailsCD34(d, DonorWeightError) && !FailsCD34(d, DonorHeightError) && !FailsCD34(d, SexError);
      assert !FailsCD34(d, RecipientWeightError) && !FailsCD34(d, TargetError);
      assert !FailsCD34(d, ConcentrationError) && !FailsCD34(d, EfficiencyError);
    }
  }

  /** `if (failing) errores.push(error)`: one step of a validator. */
  method PushIf<T>(errors: seq<T>, failing: bool, error: T) returns (r: seq<T>)
    ensures r == errors + (if failing then [error] else [])
  {
    r := errors;
    if failing {
      r := r + [error];
    }
  }

  /** validarCamposCD34: one push per failing field, tested in field order;
      what that report means is ReportedCD34Meaning. */
  method ValidateCD34(d: CollectionForm) returns (errors: seq<FieldError>)
    ensures errors == Reported(FieldOrder, FailuresCD34(d), 7)
  {
    ghost var failures := FailuresCD34(d);
    FailuresCD34Meaning(d);
    errors := [];
    errors := PushIf(errors, !Present(d.donorWeight) || !InRange(d.donorWeight, WeightMin, WeightMax), DonorWeightError);
    assert errors == Reported(FieldOrder, failures, 1);
    errors := PushIf(errors, !Present(d.donorHeight) || !InRange(d.donorHeight, HeightMin, HeightMax), DonorHeightError);
    assert errors == Reported(FieldOrder, failures, 2);
    errors := PushIf(errors, d.donorSex == "", SexError);
    assert errors == Reported(FieldOrder, failures, 3);
    errors := PushIf(errors, !Present(d.recipientWeight) || !InRange(d.recipientWeight, WeightMin, WeightMax), RecipientWeightError);
    assert errors == Reported(FieldOrder, failures, 4);
    errors := PushIf(errors, !Present(d.target) || ParsedAtMost(d.target, 0.0), TargetError);
    assert errors == Reported(FieldOrder, failures, 5);
    errors := PushIf(errors, !Present(d.concentration) || ParsedAtMost(d.concentration, 0.0), ConcentrationError);
    assert errors == Reported(FieldOrder, failures, 6);
    errors := PushIf(errors, !Present(d.efficiency) || ParsedAtMost(d.efficiency, 0.0) || ParsedAbove(d.efficiency, 1.0), EfficiencyError);
    assert errors == Reported(FieldOrder, failures, 7);
  }

  /** The report on a CD34 form names exactly its failing fields, in field
      order, and is empty exactly when the form is acceptable. */
  lemma ReportedCD34Meaning(d: CollectionForm)
    ensures var r := Reported(FieldOrder, FailuresCD34(d), 7);
      && (forall e :: e in r <==> FailsCD34(d, e))
      && InOrder(r, Rank) && |r| <= 7
      && (r == [] <==> CD34Acceptable(d))
  {
    RanksFieldOrder();
    ReportedAll(FieldOrder, Rank, FailuresCD34(d));
    FailuresCD34Meaning(d);
  }

  /** The blank test in front of each validarRango call adds nothing: a
      blank field never parses, so the three range checks fail exactly when
      validarRango does. */
  lemma RangeGuardsRedundant(d: CollectionForm)
    ensures FailsCD34(d, DonorWeightError) <==> !InRange(d.donorWeight, WeightMin, WeightMax)
    ensures FailsCD34(d, DonorHeightError) <==> !InRange(d.donorHeight, HeightMin, HeightMax)
    ensures FailsCD34(d, RecipientWeightError) <==> !InRange(d.recipientWeight, WeightMin, WeightMax)
  {
  }
}
