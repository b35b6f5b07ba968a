/** distribuirEnContenedores: the greedy allocation of a distributable volume
    to container types. Types are visited largest capacity first; optional
    dose-specific cryovials are reserved first; each visited type is filled
    with the fewest equal units its minimum allows, capped at its maximum; the
    visit stops once less than 1 ml remains; what is left is topped up into
    the cryovial type at full capacity. Volumes are in ml and exact; each
    entry also keeps its unit volume as the source stores it. */
module ContainerAllocation {
  import opened Common

  /** A container type of the form's list (its id plays no part here). */
  datatype ContainerType = ContainerType(name: string, volMin: real, volMax: real)

  /** One line of the distribution: `count` containers of `unitVolume` ml,
      `totalVolume` in all. `storedUnit` is the unit volume as the line
      keeps it: read back from two decimals for the dose-specific and the
      main-loop entries, the type's maximum for a topped-up entry. */
  datatype Entry = Entry(kind: string, count: int, unitVolume: real, totalVolume: real, storedUnit: real)

  /** usarDosisEspecifica, criotubosMaximos and volumenPorCriotubo. */
  datatype Options = Options(useDose: bool, maxCryovials: int, volumePerCryovial: real)

  datatype Distribution = Distribution(entries: seq<Entry>, distributed: real, remaining: real)

  /** The distribution built so far and the volume not yet placed. */
  datatype Progress = Progress(entries: seq<Entry>, rest: real)

  const CryovialWord: string := "criotubo"
  const DoseSuffix: string := " (dosis específica)"
  /** Below this many ml the remaining volume is negligible. */
  const NegligibleVolume: real := 1.0

  /** What the form guarantees of a container type: 0 < volMin <= volMax. */
  predicate WellFormed(c: ContainerType)
  {
    0.0 < c.volMin <= c.volMax
  }

  predicate WellFormedTypes(types: seq<ContainerType>)
  {
    forall i :: 0 <= i < |types| ==> WellFormed(types[i])
  }

  function LowerAscii(ch: char): char
  {
    if 'A' <= ch <= 'Z' then (ch as int + 32) as char else ch
  }

  /** `toLowerCase` on the ASCII letters. */
  function Lower(s: string): string
  {
    if s == [] then [] else [LowerAscii(s[0])] + Lower(s[1..])
  }

  /** `s.includes(w)`: w occurs in s at some position. */
  predicate Contains(s: string, w: string)
    decreases |s|
  {
    if |s| < |w| then false else s[..|w|] == w || Contains(s[1..], w)
  }

  /** `nombre.toLowerCase().includes('criotubo')`. */
  predicate IsCryovial(name: string)
  {
    Contains(Lower(name), CryovialWord)
  }

  /** The default types: "Criotubo" is the cryovial, "Bolsa grande" is not. */
  lemma CryovialExamples()
    ensures IsCryovial("Criotubo")
    ensures !IsCryovial("Bolsa")
  {
    assert Lower("Criotubo")[0..8] == CryovialWord;
  }

  // ---------------------------------------------------------------------
  // Sorting by capacity: `[...types].sort((a, b) => b.volMax - a.volMax)`,
  // a stable sort on a copy.

  predicate SortedByCapacity(s: seq<ContainerType>)
  {
    forall i, j :: 0 <= i < j < |s| ==> s[i].volMax >= s[j].volMax
  }

  /** Puts c in front of the first element whose capacity is not larger. */
  function InsertByCapacity(c: ContainerType, s: seq<ContainerType>): (r: seq<ContainerType>)
    ensures |r| == |s| + 1
    ensures r[0] == c || (s != [] && r[0] == s[0])
  {
    if s == [] then [c]
    else if s[0].volMax > c.volMax then [s[0]] + InsertByCapacity(c, s[1..])
    else [c] + s
  }

  function SortByCapacity(s: seq<ContainerType>): (r: seq<ContainerType>)
    ensures |r| == |s|
  {
    if s == [] then [] else InsertByCapacity(s[0], SortByCapacity(s[1..]))
  }

  lemma {:induction false} InsertPermutes(c: ContainerType, s: seq<ContainerType>)
    ensures multiset(InsertByCapacity(c, s)) == multiset(s) + multiset{c}
  {
    if s != [] && s[0].volMax > c.volMax {
      InsertPermutes(c, s[1..]);
      assert s == [s[0]] + s[1..];
    }
  }

  /** The copy is a permutation of the input. */
  lemma {:induction false} SortPermutes(s: seq<ContainerType>)
    ensures multiset(SortByCapacity(s)) == multiset(s)
  {
    if s != [] {
      SortPermutes(s[1..]);
      InsertPermutes(s[0], SortByCapacity(s[1..]));
      assert s == [s[0]] + s[1..];
    }
  }

  lemma {:induction false} InsertKeepsSorted(c: ContainerType, s: seq<ContainerType>)
    requires SortedByCapacity(s)
    ensures SortedByCapacity(InsertByCapacity(c, s))
  {
    if s != [] && s[0].volMax > c.volMax {
      InsertKeepsSorted(c, s[1..]);
    }
  }

  /** The copy is ordered by capacity, largest first. */
  lemma {:induction false} SortIsSorted(s: seq<ContainerType>)
    ensures SortedByCapacity(SortByCapacity(s))
  {
    if s != [] {
      SortIsSorted(s[1..]);
      InsertKeepsSorted(s[0], SortByCapacity(s[1..]));
    }
  }

  /** The copy holds the same types, so it is as well formed as the input. */
  lemma SortKeepsTypes(s: seq<ContainerType>)
    ensures forall c :: c in SortByCapacity(s) <==> c in s
    ensures WellFormedTypes(s) ==> WellFormedTypes(SortByCapacity(s))
  {
    var r := SortByCapacity(s);
    SortPermutes(s);
    assert forall c :: c in r <==> c in multiset(r);
    if WellFormedTypes(s) {
      forall i | 0 <= i < |r|
        ensures WellFormed(r[i])
      {
        assert r[i] in multiset(r);
        assert r[i] in s;
        var j :| 0 <= j < |s| && s[j] == r[i];
      }
    }
  }

  /** The types of one capacity, in the order they appear. */
  function WithCapacity(s: seq<ContainerType>, v: real): seq<ContainerType>
  {
    if s == [] then []
    else (if s[0].volMax == v then [s[0]] else []) + WithCapacity(s[1..], v)
  }

  lemma {:induction false} InsertWithCapacity(c: ContainerType, s: seq<ContainerType>, v: real)
    ensures WithCapacity(InsertByCapacity(c, s), v) == (if c.volMax == v then [c] else []) + WithCapacity(s, v)
  {
    var r := InsertByCapacity(c, s);
    if s != [] && s[0].volMax > c.volMax {
      var t := InsertByCapacity(c, s[1..]);
      assert r[0] == s[0] && r[1..] == t;
      InsertWithCapacity(c, s[1..], v);
      var hs := if s[0].volMax == v then [s[0]] else [];
      var hc := if c.volMax == v then [c] else [];
      assert WithCapacity(r, v) == hs + WithCapacity(t, v);
      assert WithCapacity(t, v) == hc + WithCapacity(s[1..], v);
      assert WithCapacity(s, v) == hs + WithCapacity(s[1..], v);
      assert hs == [] || hc == [];
    } else if s != [] {
      assert r[1..] == s;
    }
  }

  /** The sort is stable: types of equal capacity keep their input order. */
  lemma {:induction false} SortIsStable(s: seq<ContainerType>, v: real)
    ensures WithCapacity(SortByCapacity(s), v) == WithCapacity(s, v)
  {
    if s != [] {
      SortIsStable(s[1..], v);
      InsertWithCapacity(s[0], SortByCapacity(s[1..]), v);
    }
  }

  // ---------------------------------------------------------------------
  // Lookups.

  /** `types.find(c => IsCryovial(c.nombre))`: the first cryovial type. */
  function FindCryovial(types: seq<ContainerType>): (r: Option<ContainerType>)
    ensures r.Some? ==> r.value in types && IsCryovial(r.value.name)
    ensures r.Some? && WellFormedTypes(types) ==> WellFormed(r.value)
    ensures r.None? <==> forall i :: 0 <= i < |types| ==> !IsCryovial(types[i].name)
  {
    if types == [] then None
    else if IsCryovial(types[0].name) then Some(types[0])
    else
      var r := FindCryovial(types[1..]);
      assert forall i :: 1 <= i < |types| ==> types[i] == types[1..][i - 1];
      r
  }

  /** The cryovial type found is the first one of the list. */
  lemma {:induction false} FindCryovialIsFirst(types: seq<ContainerType>, i: nat)
    requires i < |types| && IsCryovial(types[i].name)
    requires forall j :: 0 <= j < i ==> !IsCryovial(types[j].name)
    ensures FindCryovial(types) == Some(types[i])
  {
    if i > 0 {
      assert forall j :: 0 <= j < i - 1 ==> types[1..][j] == types[j + 1];
      FindCryovialIsFirst(types[1..], i - 1);
    }
  }

  /** `entries.find(d => d.tipo === kind)`, as the index of the first match. */
  function FindEntry(entries: seq<Entry>, kind: string): (r: Option<nat>)
    ensures r.Some? ==> (r.value < |entries| && entries[r.value].kind == kind
      && forall j :: 0 <= j < r.value ==> entries[j].kind != kind)
    ensures r.None? ==> forall j :: 0 <= j < |entries| ==> entries[j].kind != kind
  {
    if entries == [] then None
    else if entries[0].kind == kind then Some(0)
    else match FindEntry(entries[1..], kind)
      case None => None
      case Some(k) => Some(k + 1)
  }

  // ---------------------------------------------------------------------
  // The three stages as functions.

  /** Step 1: the dose-specific cryovials, reserved first when requested,
      possible (a cryovial type exists) and sized (non-zero volume). */
  function ReserveDose(sorted: seq<ContainerType>, opts: Options, available: real): Progress
  {
    if opts.useDose && opts.maxCryovials > 0 then
      match FindCryovial(sorted)
      case Some(c) =>
        if opts.volumePerCryovial != 0.0 then
          var reserved := VolumeOf(opts.maxCryovials, opts.volumePerCryovial);
          Progress([Entry(c.name + DoseSuffix, opts.maxCryovials, opts.volumePerCryovial, reserved,
                             Round2(opts.volumePerCryovial))], available - reserved)
        else Progress([], available)
      case None => Progress([], available)
    else Progress([], available)
  }

  datatype Units = Units(count: int, unitVolume: real)

  /** The volume of n containers of v ml each. */
  function VolumeOf(n: int, v: real): real
  {
    n as real * v
  }

  /** `Math.floor(x / y)` for y > 0: between x - y (excluded) and x, and at
      least 1 when x >= y. */
  lemma FloorOfQuotient(x: real, y: real)
    requires y > 0.0
    ensures x - y < VolumeOf((x / y).Floor, y) <= x
    ensures x >= y ==> (x / y).Floor >= 1 && VolumeOf((x / y).Floor, y) >= y
  {
    var r := x / y;
    var n := r.Floor as real;
    assert r * y == x;
    var d := r - n;
    assert 0.0 <= d < 1.0;
    var ny := n * y;
    assert ny == VolumeOf(r.Floor, y);
    var dy := d * y;
    assert dy == r * y - n * y;
    assert x - ny == dy;
    ProductNonNegative(d, y);
    ProductNonNegative(1.0 - d, y);
    assert (1.0 - d) * y == y - dy;
    assert x - y < ny <= x;
    if x >= y {
      assert (r - 1.0) * y == x - y;
      assert r >= 1.0;
      assert n >= 1.0;
      ProductNonNegative(n - 1.0, y);
      assert (n - 1.0) * y == ny - y;
    }
  }

  lemma ProductNonNegative(a: real, b: real)
    requires a >= 0.0 && b >= 0.0
    ensures a * b >= 0.0
    ensures a > 0.0 && b > 0.0 ==> a * b > 0.0
  {
  }

  /** cantidadMaxima: how many units of the minimum volume fit in `rest`. */
  function MaxUnits(c: ContainerType, rest: real): int
    requires WellFormed(c)
  {
    (rest / c.volMin).Floor
  }

  /** volumenOptimo before capping: `rest` shared equally by MaxUnits units. */
  function UniformVolume(c: ContainerType, rest: real): real
    requires WellFormed(c) && rest >= c.volMin
  {
    FloorOfQuotient(rest, c.volMin);
    rest / MaxUnits(c, rest) as real
  }

  /** The uniform volume over n units, n no more than rest / volMin, is at
      least volMin and at most rest, and rest holds exactly n of them. */
  lemma OptimalBounds(rest: real, volMin: real, n: int)
    requires 0.0 < volMin && n >= 1 && n as real * volMin <= rest
    ensures volMin <= rest / n as real <= rest
    ensures rest / n as real * n as real == rest
    ensures (rest / (rest / n as real)).Floor == n
  {
    var o := rest / n as real;
    assert o * n as real == rest;
    var a, b := o * n as real, volMin * n as real;
    assert b <= a;
    assert (o - volMin) * n as real == a - b;
    assert (n as real - 1.0) * o == rest - o;
    assert rest / o == n as real;
  }

  /** cantidad: how many units of `unit` ml fit in `rest`. */
  function UnitsOf(rest: real, unit: real): (u: Units)
    requires 0.0 < unit <= rest
    ensures u.unitVolume == unit && u.count >= 1
    ensures 0.0 <= rest - VolumeOf(u.count, unit) < unit
    ensures u.count == (rest / unit).Floor
  {
    FloorOfQuotient(rest, unit);
    Units((rest / unit).Floor, unit)
  }

  /** Step 2 for one type: at least one unit, each between the type's minimum
      and maximum, together at most `rest` and leaving less than one unit;
      when the uniform volume needs no capping the units take all of `rest`. */
  function UnitsFor(c: ContainerType, rest: real): (u: Units)
    requires WellFormed(c) && rest >= c.volMin
    ensures u.count >= 1
    ensures c.volMin <= u.unitVolume <= c.volMax
    ensures 0.0 <= rest - VolumeOf(u.count, u.unitVolume) < u.unitVolume
    ensures UniformVolume(c, rest) <= c.volMax ==> VolumeOf(u.count, u.unitVolume) == rest
  {
    FloorOfQuotient(rest, c.volMin);
    OptimalBounds(rest, c.volMin, MaxUnits(c, rest));
    var optimal := UniformVolume(c, rest);
    var unit := if optimal > c.volMax then c.volMax else optimal;
    UnitsOf(rest, unit)
  }

  /** Step 2 for a type that is not skipped: its units are appended and
      their volume taken from the rest. */
  function Take(c: ContainerType, p: Progress): Progress
    requires WellFormed(c) && p.rest >= c.volMin
  {
    var u := UnitsFor(c, p.rest);
    var used := VolumeOf(u.count, u.unitVolume);
    Progress(p.entries + [Entry(c.name, u.count, u.unitVolume, used, Round2(u.unitVolume))], p.rest - used)
  }

  /** Step 2: the visit of the sorted types from position i on. A cryovial
      type is skipped when the dose switch is on, a type whose minimum exceeds
      the rest is skipped, and the visit stops after a type that leaves less
      than 1 ml. */
  function Fill(types: seq<ContainerType>, i: nat, useDose: bool, p: Progress): Progress
    requires i <= |types| && WellFormedTypes(types)
    decreases |types| - i
  {
    if i == |types| then p
    else
      var c := types[i];
      if useDose && IsCryovial(c.name) then Fill(types, i + 1, useDose, p)
      else if p.rest < c.volMin then Fill(types, i + 1, useDose, p)
      else
        var q := Take(c, p);
        if q.rest < NegligibleVolume then q else Fill(types, i + 1, useDose, q)
  }

  /** Step 3: at least 1 ml left goes into the first cryovial type at full
      capacity. */
  function TopUp(sorted: seq<ContainerType>, p: Progress): Progress
    requires WellFormedTypes(sorted)
  {
    if p.rest >= NegligibleVolume then
      match FindCryovial(sorted)
      case None => p
      case Some(c) => TopUpInto(c, p)
    else p
  }

  /** The top-up into cryovial type c: as many full vials as fit, if any. */
  function TopUpInto(c: ContainerType, p: Progress): Progress
    requires WellFormed(c)
  {
    var extra := (p.rest / c.volMax).Floor;
    if extra > 0 then Progress(AddVials(p.entries, c.name, extra, c.volMax), p.rest - VolumeOf(extra, c.volMax))
    else p
  }

  /** `extra` vials of `volMax` ml, counted into the first entry named `name`
      when there is one (its unit volume left as it was), else a new entry. */
  function AddVials(entries: seq<Entry>, name: string, extra: int, volMax: real): seq<Entry>
  {
    var added := VolumeOf(extra, volMax);
    match FindEntry(entries, name)
    case Some(k) => entries[k := entries[k].(count := entries[k].count + extra, totalVolume := entries[k].totalVolume + added)]
    case None => entries + [Entry(name, extra, volMax, added, volMax)]
  }

  /** The whole allocation, on the copy sorted by capacity. */
  function Allocate(available: real, opts: Options, types: seq<ContainerType>): Distribution
    requires WellFormedTypes(types)
  {
    var sorted := SortByCapacity(types);
    SortKeepsTypes(types);
    var p := TopUp(sorted, Fill(sorted, 0, opts.useDose, ReserveDose(sorted, opts, available)));
    Distribution(p.entries, available - p.rest, p.rest)
  }

  /** The main loop of distribuirEnContenedores over the sorted types. */
  method Visit(sorted: seq<ContainerType>, useDose: bool, entries0: seq<Entry>, rest0: real)
    returns (entries: seq<Entry>, rest: real)
    requires WellFormedTypes(sorted)
    ensures Progress(entries, rest) == Fill(sorted, 0, useDose, Progress(entries0, rest0))
  {
    ghost var filled := Fill(sorted, 0, useDose, Progress(entries0, rest0));
    entries, rest := entries0, rest0;

    var i := 0;
    while i < |sorted|
      invariant 0 <= i <= |sorted|
      invariant Fill(sorted, i, useDose, Progress(entries, rest)) == filled
    {
      var c := sorted[i];
      i := i + 1;
      if useDose && IsCryovial(c.name) {
        continue;
      }
      if rest < c.volMin {
        continue;
      }
      var maxCount := (rest / c.volMin).Floor;
      FloorOfQuotient(rest, c.volMin);
      var optimal := rest / maxCount as real;
      if optimal > c.volMax {
        optimal := c.volMax;
      }
      var count := (rest / optimal).Floor;
      assert Units(count, optimal) == UnitsFor(c, rest);
      ghost var before := Progress(entries, rest);
      var used := VolumeOf(count, optimal);
      entries := entries + [Entry(c.name, count, optimal, used, Round2(optimal))];
      rest := rest - used;
      assert Progress(entries, rest) == Take(c, before);
      if rest < NegligibleVolume {
        break;
      }
    }
  }

  /** The closing step of distribuirEnContenedores: what is left, at least
      1 ml, goes into the cryovial type at full capacity. */
  method TopUpCryovials(sorted: seq<ContainerType>, entries0: seq<Entry>, rest0: real)
    returns (entries: seq<Entry>, rest: real)
    requires WellFormedTypes(sorted)
    ensures Progress(entries, rest) == TopUp(sorted, Progress(entries0, rest0))
  {
    entries, rest := entries0, rest0;
    if rest >= NegligibleVolume {
      var cryovial := FindCryovial(sorted);
      if cryovial.Some? {
        var c := cryovial.value;
        var extra := (rest / c.volMax).Floor;
        if extra > 0 {
          var added := VolumeOf(extra, c.volMax);
          var existing := FindEntry(entries, c.name);
          if existing.Some? {
            var k := existing.value;
            entries := entries[k := entries[k].(count := entries[k].count + extra, totalVolume := entries[k].totalVolume + added)];
          } else {
            entries := entries + [Entry(c.name, extra, c.volMax, added, c.volMax)];
          }
          rest := rest - added;
        }
      }
    }
  }

  /** distribuirEnContenedores, step by step as the source runs it. */
  method Distribute(available: real, opts: Options, types: seq<ContainerType>) returns (d: Distribution)
    requires WellFormedTypes(types)
    ensures d == Allocate(available, opts, types)
    ensures SumTotals(d.entries) == d.distributed && d.distributed + d.remaining == available
  {
    var entries: seq<Entry> := [];
    var rest := available;
    var sorted := SortByCapacity(types);
    SortKeepsTypes(types);

    if opts.useDose && opts.maxCryovials > 0 {
      var cryovial := FindCryovial(sorted);
      if cryovial.Some? && opts.volumePerCryovial != 0.0 {
        var reserved := VolumeOf(opts.maxCryovials, opts.volumePerCryovial);
        entries := entries + [Entry(cryovial.value.name + DoseSuffix, opts.maxCryovials, opts.volumePerCryovial, reserved,
                                     Round2(opts.volumePerCryovial))];
        rest := rest - reserved;
      }
    }
    assert Progress(entries, rest) == ReserveDose(sorted, opts, available);
    ghost var filled := Fill(sorted, 0, opts.useDose, Progress(entries, rest));
    entries, rest := Visit(sorted, opts.useDose, entries, rest);
    assert Progress(entries, rest) == filled;

    entries, rest := TopUpCryovials(sorted, entries, rest);
    assert Progress(entries, rest) == TopUp(sorted, filled);
    d := Distribution(entries, available - rest, rest);
    AllocateAccounting(available, opts, types);
  }

  // ---------------------------------------------------------------------
  // Volume accounting.

  /** The volume placed in a list of entries. */
  function SumTotals(entries: seq<Entry>): real
  {
    if entries == [] then 0.0
    else SumTotals(entries[..|entries| - 1]) + entries[|entries| - 1].totalVolume
  }

  lemma SumTotalsAppend(entries: seq<Entry>, e: Entry)
    ensures SumTotals(entries + [e]) == SumTotals(entries) + e.totalVolume
  {
    assert (entries + [e])[..|entries|] == entries;
  }

  lemma {:induction false} SumTotalsUpdate(entries: seq<Entry>, k: nat, e: Entry)
    requires k < |entries|
    ensures SumTotals(entries[k := e]) == SumTotals(entries) - entries[k].totalVolume + e.totalVolume
  {
    var n := |entries|;
    var u := entries[k := e];
    if k == n - 1 {
      assert u[..n - 1] == entries[..n - 1];
    } else {
      SumTotalsUpdate(entries[..n - 1], k, e);
      assert u[..n - 1] == entries[..n - 1][k := e];
    }
  }

  /** Entry `e` is made of units of type c: at least one unit, each between
      the type's minimum and maximum, and not of a cryovial type when the dose
      switch is on. */
  predicate MadeFrom(e: Entry, c: ContainerType, useDose: bool)
  {
    && e.kind == c.name && !(useDose && IsCryovial(c.name))
    && e.count >= 1 && c.volMin <= e.unitVolume <= c.volMax
    && e.totalVolume == VolumeOf(e.count, e.unitVolume)
    && e.storedUnit == Round2(e.unitVolume)
  }

  /** One step of the visit appends one entry made of the type and moves its
      volume from the rest to the entries; the rest stays non-negative. */
  lemma TakeFacts(c: ContainerType, p: Progress, useDose: bool)
    requires WellFormed(c) && p.rest >= c.volMin && !(useDose && IsCryovial(c.name))
    ensures var q := Take(c, p);
      && |q.entries| == |p.entries| + 1 && q.entries[..|p.entries|] == p.entries
      && MadeFrom(q.entries[|p.entries|], c, useDose)
      && SumTotals(q.entries) + q.rest == SumTotals(p.entries) + p.rest
      && 0.0 <= q.rest <= p.rest
  {
    var u := UnitsFor(c, p.rest);
    var used := VolumeOf(u.count, u.unitVolume);
    var e := Entry(c.name, u.count, u.unitVolume, used, Round2(u.unitVolume));
    SumTotalsAppend(p.entries, e);
    assert (p.entries + [e])[..|p.entries|] == p.entries;
    assert used - u.unitVolume == VolumeOf(u.count - 1, u.unitVolume);
    assert used >= 0.0;
  }

  /** What the visit does: it only appends, the placed volume plus the rest is
      unchanged, the rest never rises and does not fall below zero. */
  lemma {:induction false} FillAccounting(types: seq<ContainerType>, i: nat, useDose: bool, p: Progress)
    requires i <= |types| && WellFormedTypes(types)
    decreases |types| - i
    ensures var q := Fill(types, i, useDose, p);
      && |p.entries| <= |q.entries| && q.entries[..|p.entries|] == p.entries
      && SumTotals(q.entries) + q.rest == SumTotals(p.entries) + p.rest
      && q.rest <= p.rest
      && (p.rest >= 0.0 ==> q.rest >= 0.0)
  {
    if i < |types| {
      var c := types[i];
      if (useDose && IsCryovial(c.name)) || p.rest < c.volMin {
        FillAccounting(types, i + 1, useDose, p);
      } else {
        var q := Take(c, p);
        TakeFacts(c, p, useDose);
        if q.rest >= NegligibleVolume {
          FillAccounting(types, i + 1, useDose, q);
          var r := Fill(types, i + 1, useDose, q);
          assert r.entries[..|p.entries|] == r.entries[..|q.entries|][..|p.entries|];
        }
      }
    }
  }

  /** An entry made in the visit: units of one of the visited types. */
  predicate MainLoopEntry(e: Entry, types: seq<ContainerType>, useDose: bool)
  {
    exists j :: 0 <= j < |types| && MadeFrom(e, types[j], useDose)
  }

  /** Every entry the visit appends is a main-loop entry. */
  lemma {:induction false} FillEntries(types: seq<ContainerType>, i: nat, useDose: bool, p: Progress)
    requires i <= |types| && WellFormedTypes(types)
    decreases |types| - i
    ensures var q := Fill(types, i, useDose, p);
      |p.entries| <= |q.entries| &&
      forall k :: |p.entries| <= k < |q.entries| ==> MainLoopEntry(q.entries[k], types, useDose)
  {
    if i < |types| {
      var c := types[i];
      if (useDose && IsCryovial(c.name)) || p.rest < c.volMin {
        FillEntries(types, i + 1, useDose, p);
      } else {
        var q := Take(c, p);
        TakeFacts(c, p, useDose);
        assert MainLoopEntry(q.entries[|p.entries|], types, useDose);
        if q.rest >= NegligibleVolume {
          FillEntries(types, i + 1, useDose, q);
          FillAccounting(types, i + 1, useDose, q);
          var r := Fill(types, i + 1, useDose, q);
          assert r.entries[|p.entries|] == r.entries[..|q.entries|][|p.entries|];
        }
      }
    }
  }

  /** Adding vials either increments the first entry of that name, count and
      volume, or appends a new entry when there is none; nothing else changes
      and the placed volume grows by exactly the added vials. */
  lemma AddVialsMeaning(entries: seq<Entry>, name: string, extra: int, volMax: real)
    ensures var r := AddVials(entries, name, extra, volMax);
      && SumTotals(r) == SumTotals(entries) + VolumeOf(extra, volMax)
      && (forall k :: 0 <= k < |entries| && entries[k].kind != name ==> k < |r| && r[k] == entries[k])
      && ((forall j :: 0 <= j < |entries| ==> entries[j].kind != name) ==>
            r == entries + [Entry(name, extra, volMax, VolumeOf(extra, volMax), volMax)])
      && (forall k :: 0 <= k < |entries| && entries[k].kind == name && (forall j :: 0 <= j < k ==> entries[j].kind != name) ==>
            |r| == |entries| && r[k] == entries[k].(count := entries[k].count + extra,
                                                     totalVolume := entries[k].totalVolume + VolumeOf(extra, volMax)))
  {
    var added := VolumeOf(extra, volMax);
    match FindEntry(entries, name)
    case Some(k) =>
      SumTotalsUpdate(entries, k, entries[k].(count := entries[k].count + extra, totalVolume := entries[k].totalVolume + added));
    case None =>
      SumTotalsAppend(entries, Entry(name, extra, volMax, added, volMax));
  }

  /** The top-up into c keeps the placed volume plus the rest, leaves less
      than one vial and no less than zero of a non-negative rest, adds at most
      one entry, and changes no entry not named after c. */
  lemma TopUpIntoAccounting(c: ContainerType, p: Progress)
    requires WellFormed(c)
    ensures var q := TopUpInto(c, p);
      && SumTotals(q.entries) + q.rest == SumTotals(p.entries) + p.rest
      && q.rest <= p.rest
      && (p.rest >= 0.0 ==> 0.0 <= q.rest < c.volMax)
      && |p.entries| <= |q.entries| <= |p.entries| + 1
      && (forall k :: 0 <= k < |p.entries| && p.entries[k].kind != c.name ==> q.entries[k] == p.entries[k])
  {
    FloorOfQuotient(p.rest, c.volMax);
    var extra := (p.rest / c.volMax).Floor;
    var used := VolumeOf(extra, c.volMax);
    if extra > 0 {
      AddVialsMeaning(p.entries, c.name, extra, c.volMax);
      AddVialsLength(p.entries, c.name, extra, c.volMax);
      ProductNonNegative(extra as real, c.volMax);
    } else {
      assert (p.rest / c.volMax).Floor <= 0;
      assert p.rest >= 0.0 ==> p.rest < c.volMax;
    }
  }

  lemma AddVialsLength(entries: seq<Entry>, name: string, extra: int, volMax: real)
    ensures |entries| <= |AddVials(entries, name, extra, volMax)| <= |entries| + 1
  {
  }

  /** The top-up keeps the placed volume plus the rest, never raises the rest
      or takes it below zero, adds at most one entry, and changes no entry
      other than one named after the cryovial type. */
  lemma TopUpAccounting(sorted: seq<ContainerType>, p: Progress)
    requires WellFormedTypes(sorted)
    ensures var q := TopUp(sorted, p);
      && SumTotals(q.entries) + q.rest == SumTotals(p.entries) + p.rest
      && q.rest <= p.rest
      && (p.rest >= 0.0 ==> q.rest >= 0.0)
      && |p.entries| <= |q.entries| <= |p.entries| + 1
      && (forall k :: 0 <= k < |p.entries| && (FindCryovial(sorted).None? || p.entries[k].kind != FindCryovial(sorted).value.name)
            ==> q.entries[k] == p.entries[k])
  {
    if p.rest >= NegligibleVolume && FindCryovial(sorted).Some? {
      TopUpIntoAccounting(FindCryovial(sorted).value, p);
    }
  }

  /** With at least 1 ml left and a cryovial type present, the top-up leaves
      less than one full cryovial. */
  lemma TopUpRemainder(sorted: seq<ContainerType>, p: Progress)
    requires WellFormedTypes(sorted) && p.rest >= NegligibleVolume && FindCryovial(sorted).Some?
    ensures 0.0 <= TopUp(sorted, p).rest < FindCryovial(sorted).value.volMax
  {
    TopUpIntoAccounting(FindCryovial(sorted).value, p);
  }

  /** Accounting of the whole allocation, in exact arithmetic: the volume
      distributed is the volume of the entries and the volume available less
      the volume remaining. */
  lemma AllocateAccounting(available: real, opts: Options, types: seq<ContainerType>)
    requires WellFormedTypes(types)
    ensures var d := Allocate(available, opts, types);
      SumTotals(d.entries) == d.distributed && d.distributed + d.remaining == available
  {
    var sorted := SortByCapacity(types);
    SortKeepsTypes(types);
    var p0 := ReserveDose(sorted, opts, available);
    assert SumTotals(p0.entries) + p0.rest == available by {
      if p0.entries != [] {
        SumTotalsAppend([], p0.entries[0]);
        assert p0.entries == [] + [p0.entries[0]];
      }
    }
    FillAccounting(sorted, 0, opts.useDose, p0);
    TopUpAccounting(sorted, Fill(sorted, 0, opts.useDose, p0));
  }

  /** After step 1 the remaining volume never rises, and it stays
      non-negative if it was. */
  lemma AllocateRemaining(available: real, opts: Options, types: seq<ContainerType>)
    requires WellFormedTypes(types)
    ensures var afterDose := ReserveDose(SortByCapacity(types), opts, available).rest;
      var d := Allocate(available, opts, types);
      d.remaining <= afterDose && (afterDose >= 0.0 ==> d.remaining >= 0.0)
  {
    var sorted := SortByCapacity(types);
    SortKeepsTypes(types);
    var p0 := ReserveDose(sorted, opts, available);
    FillAccounting(sorted, 0, opts.useDose, p0);
    TopUpAccounting(sorted, Fill(sorted, 0, opts.useDose, p0));
  }

  /** When the dose switch is on, a cryovial type exists, the vial count is
      positive and the per-vial volume non-zero. */
  predicate DoseApplies(sorted: seq<ContainerType>, opts: Options)
  {
    opts.useDose && opts.maxCryovials > 0 && FindCryovial(sorted).Some? && opts.volumePerCryovial != 0.0
  }

  /** Step 1 reserves exactly when the dose applies: one entry named after the
      cryovial with the dose suffix, `maxCryovials` vials of the per-vial
      volume, that volume subtracted; otherwise nothing. */
  lemma ReserveDoseMeaning(sorted: seq<ContainerType>, opts: Options, available: real)
    ensures var p := ReserveDose(sorted, opts, available);
      && (p.entries != [] <==> DoseApplies(sorted, opts))
      && (DoseApplies(sorted, opts) ==>
            var c := FindCryovial(sorted).value;
            && p.entries == [Entry(c.name + DoseSuffix, opts.maxCryovials, opts.volumePerCryovial,
                                   VolumeOf(opts.maxCryovials, opts.volumePerCryovial),
                                   Round2(opts.volumePerCryovial))]
            && p.rest == available - VolumeOf(opts.maxCryovials, opts.volumePerCryovial))
      && (!DoseApplies(sorted, opts) ==> p == Progress([], available))
  {
  }

  /** The dose-specific entry, when made, stays first in the distribution:
      neither the visit nor the top-up changes it. */
  lemma DoseEntryFirst(available: real, opts: Options, types: seq<ContainerType>)
    requires WellFormedTypes(types)
    requires DoseApplies(SortByCapacity(types), opts)
    ensures var c := FindCryovial(SortByCapacity(types)).value;
      var d := Allocate(available, opts, types);
      |d.entries| >= 1 && d.entries[0] == Entry(c.name + DoseSuffix, opts.maxCryovials, opts.volumePerCryovial,
                                                   VolumeOf(opts.maxCryovials, opts.volumePerCryovial),
                                                   Round2(opts.volumePerCryovial))
  {
    var sorted := SortByCapacity(types);
    SortKeepsTypes(types);
    var c := FindCryovial(sorted).value;
    var p0 := ReserveDose(sorted, opts, available);
    var p1 := Fill(sorted, 0, opts.useDose, p0);
    FillAccounting(sorted, 0, opts.useDose, p0);
    assert p1.entries[0] == p1.entries[..|p0.entries|][0] == p0.entries[0];
    assert |p0.entries[0].kind| > |c.name|;
    TopUpAccounting(sorted, p1);
  }

  /** When the dose switch is on, no entry of the visit is of a cryovial
      type, whether or not dose-specific vials were reserved. */
  lemma NoCryovialVisitedUnderDose(types: seq<ContainerType>, p: Progress)
    requires WellFormedTypes(types)
    ensures var q := Fill(types, 0, true, p);
      forall k :: |p.entries| <= k < |q.entries| ==> !IsCryovial(q.entries[k].kind)
  {
    FillEntries(types, 0, true, p);
  }
}
