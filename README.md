# Apheresis calculator: a Dafny model of its calculation layer

The repository is a web calculator for apheresis. It has three parts.

- The **CD34 and CD3 calculators** take the donor's blood volume from Nadler's formula. From a target number of cells per kg of recipient, they compute how many litres of blood to process and how many donor volemias that is.
- The **cryopreservation planner** works out four things:
  - how far a product may be concentrated;
  - the DMSO/plasma cryoprotectant to add;
  - the volume left after 4 ml of controls;
  - the final cell concentration.

  A greedy allocator then splits the distributable volume into containers, with an optional "specific dose" set of cryovials first. Each container is annotated with its cell yield.
- The **two forms** (cryopreservation and lymphapheresis) validate their fields before calling the calculators. The cryopreservation form also sizes the dose vials, raises the concentrated volume to its minimum, and keeps a list of container types.

Quantities are exact `real`s and `Math.floor` is `.Floor`. A form's text field is a `Field`: blank (`Blank`, which is falsy), or text whose `parseFloat` is a number or NaN (`Text(None)`). Comparisons with NaN are false, as in JavaScript.

Modules:

| module | file | contents |
|---|---|---|
| `Common` | `common.dfy` | `Option`, `Field`, the NaN-aware comparisons, `Round2` (what `toFixed(2)` reads back as) and `Ceil2` |
| `Nadler` | `nadler.dfy` | blood volume by sex, weight and height |
| `Collection` | `collection.dfy` | one model of the CD34 and CD3 calculators |
| `Validation` | `validation.dfy` | the bounds table, `validarRango`, the CD34 field validation, and the generic ordered-report machinery |
| `LymphoForm` | `lympho_form.dfy` | the lymphapheresis form's warning, validation and gate |
| `CryoFormulas` | `cryo_formulas.dfy` | the closed-form planner steps |
| `ContainerAllocation` | `container_allocation.dfy` | the allocator |
| `FreezingPlan` | `freezing_plan.dfy` | the coordinator and the per-container annotation |
| `CryoForm` | `cryo_form.dfy` | the cryopreservation form: vial sizing, auto-raise, container list, validation and gate |

The allocator mutates state step by step. It is written as methods:

- `Visit`: the main `for…of` loop, with `continue`/`break`.
- `TopUpCryovials`: the top-up, which updates an entry in place or appends one.
- `Distribute`: the whole algorithm.

Each method is proved equal to a specification function (`Fill`, `TopUp`, `Allocate`), and the allocator's properties are lemmas about those functions. The validators that push onto a list (`ValidateCD34`, `ValidateCD3`, `ValidateCryo`) are methods proved equal to `Validation.Reported`. `Validation.Reported` is the sequence of failing checks in the source's order. The two `handleCalcular` gates are methods:

- `LymphoForm.CalculateCD3` returns the errors or the calculator's result.
- `CryoForm.Calculate` returns the errors or the plan, with the allocation computed by `Distribute`.

## Model

| member | source | states |
|---|---|---|
| Common.Round2 | src/utils/formulas/cryopreservationCalculations.js:222 | the total read back from `toFixed(2)` is within 0.005 of the exact value and stays non-negative |
| Common.Ceil2 | src/components/calculators/CryopreservationCalculator.jsx:84 | the rounded-up value is at least x and less than x + 0.01 (used by the corrected auto-raise) |
| Nadler.BloodVolume | src/utils/formulas/nadler.js:8-23 | the male regression for sex "M", the female one otherwise, on the height in metres (definition; its properties are the next rows) |
| Nadler.Metres | src/utils/formulas/nadler.js:10 | the height in metres times 100 is the height in cm |
| Nadler.NonMaleUsesFemaleFormula | src/utils/formulas/nadler.js:14-20 | every sex value other than "M" gets the female formula |
| Nadler.IncreasingInWeight | src/utils/formulas/nadler.js:14-20 | for a fixed sex and height the blood volume is strictly increasing in weight |
| Nadler.IncreasingInHeight | src/utils/formulas/nadler.js:14-20 | for a fixed sex and weight and positive heights the blood volume is strictly increasing in height |
| Nadler.AtLeastFemaleIntercept | src/utils/formulas/nadler.js:14-22 | for non-negative weight and height the blood volume is at least 0.1833 l, so it is never zero |
| Nadler.MaleExample | src/utils/formulas/nadler.js:14-16 | 70 kg, 170 cm, male: between 4.655 and 4.665 l |
| Collection.Compute | src/utils/formulas/cd34Calculations.js:15-47 | the blood volume is Nadler's and at least 0.1833; total cells = target × recipient weight; volume × (concentration × efficiency) = total cells; volemias × blood volume = volume; warning iff the unrounded volemias ≥ 4 |
| Collection.VolumeIsCellsOverYield | src/utils/formulas/cd34Calculations.js:35 | the two factors of 10^6 cancel: volume = total cells / (concentration × efficiency) |
| Collection.DefaultEfficiencyApplies | src/utils/formulas/cd34Calculations.js:23 | an absent efficiency behaves exactly as 0.4 |
| Collection.WorkedExample | src/utils/formulas/cd34Calculations.js:27-45 | a concrete donor: 300 million cells, 37.5 l, about 8.05 volemias, warning raised |
| Validation.InRange | src/utils/validation.js:26-30 | `validarRango`: the field parses to a number and min ≤ number ≤ max (definition; its partner is the next row) |
| Validation.InRangeVersusComparisons | src/utils/validation.js:26-30 | on a number, `validarRango` holds iff neither `v < min` nor `v > max`; on text that is not a number it fails while both comparisons are false |
| Validation.ReportedMembers | src/utils/validation.js:35-67 | the first k checks report exactly the failing errors of rank below k |
| Validation.ReportedInOrder | src/utils/validation.js:35-67 | the report follows the fixed order of the checks and has at most k entries |
| Validation.ReportedAll | src/utils/validation.js:35-67 | the full report holds each failing error once, in order, and is empty iff nothing fails |
| Validation.FailsCD34 | src/utils/validation.js:35-67 | when `validarCamposCD34` pushes each error: a weight or height blank or out of `validarRango`, no sex, a target or concentration blank or ≤ 0, an efficiency blank, ≤ 0 or > 1 (definition) |
| Validation.CD34Acceptable | src/utils/validation.js:35-67 | the independent statement of an acceptable form, field by field, that `FailuresCD34Meaning` and `ReportedCD34Meaning` compare the report with (definition) |
| Validation.FailuresCD34Meaning | src/utils/validation.js:35-67 | an error is in the failure set iff its check fails; the set is empty iff every field is acceptable |
| Validation.ValidateCD34 | src/utils/validation.js:35-67 | `validarCamposCD34` returns the ordered report of the failing checks |
| Validation.ReportedCD34Meaning | src/utils/validation.js:35-67 | the CD34 report names exactly the failing fields, in field order, has at most 7 entries, and is empty iff every field is acceptable |
| Validation.RangeGuardsRedundant | src/utils/validation.js:38-52 | the blank test before each `validarRango` call adds nothing: the donor weight, height and recipient weight checks fail exactly when `validarRango` does |
| LymphoForm.LowCd3Warning | src/components/calculators/LinfoaferesisCalculator.jsx:48-52 | `val > 0 && val < 10` on the parsed concentration (definition; the next row states it) |
| LymphoForm.LowCd3WarningMeaning | src/components/calculators/LinfoaferesisCalculator.jsx:48-52 | the warning holds iff the value is a number with 0 < v < 10 (the CD34 threshold); a warned value passes the concentration check |
| LymphoForm.FailsCD3 | src/components/calculators/LinfoaferesisCalculator.jsx:55-87 | when `validarCamposCD3` pushes each error: the `!x \|\| v < min \|\| v > max` tests, no sex, and the same target, concentration and efficiency tests as the CD34 form (definition) |
| LymphoForm.FailuresCD3Meaning | src/components/calculators/LinfoaferesisCalculator.jsx:55-87 | an error is in the failure set iff its CD3 check fails |
| LymphoForm.ValidateCD3 | src/components/calculators/LinfoaferesisCalculator.jsx:55-87 | `validarCamposCD3` returns the ordered report of the failing checks |
| LymphoForm.ReportedCD3Meaning | src/components/calculators/LinfoaferesisCalculator.jsx:55-87 | the CD3 report names exactly the failing fields, in field order, has at most 7 entries, and is empty iff nothing fails |
| LymphoForm.CD3AgreesWithCD34Validation | src/components/calculators/LinfoaferesisCalculator.jsx:58-72 | on fields that are blank or numbers, each CD3 check agrees with the CD34 check of the same field |
| LymphoForm.NaNWeightPassesOnlyCD3 | src/components/calculators/LinfoaferesisCalculator.jsx:58-60 | a NaN donor weight passes the below-min or above-max test but fails `validarRango` |
| LymphoForm.CalculateCD3 | src/components/calculators/LinfoaferesisCalculator.jsx:89-112 | errors are returned iff the report is non-empty, and are then that report; otherwise the CD3 calculator's result on the parsed fields, whose inputs are shown to meet its precondition |
| LymphoForm.InitialFormFailures | src/components/calculators/LinfoaferesisCalculator.jsx:28-36 | on the freshly opened form (sex "M", efficiency "0.4") exactly donor weight, donor height, recipient weight, target and concentration fail |
| LymphoForm.InitialFormErrors | src/components/calculators/LinfoaferesisCalculator.jsx:55-87 | the freshly opened form reports those five errors, in that order |
| CryoFormulas.MinVolume | src/utils/formulas/cryopreservationCalculations.js:8-10 | minimum volume × maximum concentration = initial volume × leukocytes |
| CryoFormulas.MinVolumeIsSafetyBound | src/utils/formulas/cryopreservationCalculations.js:8-10 | a concentrated volume keeps the leukocyte concentration at or below the maximum iff it is at least the minimum volume |
| CryoFormulas.ConcentrationFactor | src/utils/formulas/cryopreservationCalculations.js:15-17 | factor × concentrated volume = initial volume |
| CryoFormulas.FactorAtMinimum | src/utils/formulas/cryopreservationCalculations.js:15-17 | at the minimum volume the factor is maximum concentration / leukocytes |
| CryoFormulas.CryoprotectantFor | src/utils/formulas/cryopreservationCalculations.js:22-33 | DMSO + plasma = concentrated volume, plasma = 4 × DMSO, total = 2 × concentrated volume, percentage always 10 |
| CryoFormulas.DmsoIsTenPercent | src/utils/formulas/cryopreservationCalculations.js:22-33 | DMSO is exactly the reported 10 % of the total |
| CryoFormulas.Distributable | src/utils/formulas/cryopreservationCalculations.js:38-41 | distributable + 4 ml = total |
| CryoFormulas.FinalConcentration | src/utils/formulas/cryopreservationCalculations.js:46-56 | final concentration × final volume = initial concentration × initial volume (cells are conserved) |
| CryoFormulas.FinalConcentrationIgnoresConcentratedVolume | src/utils/formulas/cryopreservationCalculations.js:46-56 | the concentrated-volume argument has no effect |
| CryoFormulas.WorkedExample | src/utils/formulas/cryopreservationCalculations.js:8-41 | 200 ml at 40000/uL, ceiling 250000: 32 ml minimum, factor 6.25, 6.4 + 25.6 ml, 64 ml total, 60 ml distributable |
| ContainerAllocation.Lower | src/utils/formulas/cryopreservationCalculations.js:77 | `toLowerCase` on ASCII letters, character by character (definition) |
| ContainerAllocation.IsCryovial | src/utils/formulas/cryopreservationCalculations.js:77 | the lower-cased name contains "criotubo" (definition; the next row exhibits it) |
| ContainerAllocation.CryovialExamples | src/utils/formulas/cryopreservationCalculations.js:77 | "Criotubo" is taken for a cryovial by the lower-case substring test and "Bolsa" is not |
| ContainerAllocation.InsertByCapacity | src/utils/formulas/cryopreservationCalculations.js:73 | one insertion step of the sort grows the list by one and puts the new type or the old head first |
| ContainerAllocation.SortByCapacity | src/utils/formulas/cryopreservationCalculations.js:73 | the sorted copy has the input's length |
| ContainerAllocation.InsertPermutes | src/utils/formulas/cryopreservationCalculations.js:73 | insertion adds exactly the inserted type to the multiset |
| ContainerAllocation.SortPermutes | src/utils/formulas/cryopreservationCalculations.js:73 | the sorted copy is a permutation of the input |
| ContainerAllocation.InsertKeepsSorted | src/utils/formulas/cryopreservationCalculations.js:73 | inserting into a list sorted by `volMax` descending keeps it sorted |
| ContainerAllocation.SortIsSorted | src/utils/formulas/cryopreservationCalculations.js:73 | the copy is sorted by `volMax` descending |
| ContainerAllocation.SortKeepsTypes | src/utils/formulas/cryopreservationCalculations.js:73 | the copy holds the same types and keeps 0 < volMin ≤ volMax |
| ContainerAllocation.InsertWithCapacity | src/utils/formulas/cryopreservationCalculations.js:73 | insertion puts a type ahead of the others of the same capacity |
| ContainerAllocation.SortIsStable | src/utils/formulas/cryopreservationCalculations.js:73 | types of equal `volMax` keep their input order |
| ContainerAllocation.FindCryovial | src/utils/formulas/cryopreservationCalculations.js:77 | a found type is in the list and has "criotubo" in its name; nothing is found iff no type does |
| ContainerAllocation.FindCryovialIsFirst | src/utils/formulas/cryopreservationCalculations.js:77 | the type found is the first cryovial of the list |
| ContainerAllocation.FindEntry | src/utils/formulas/cryopreservationCalculations.js:140 | the index found is the first entry of that name; none is found iff no entry has it |
| ContainerAllocation.FloorOfQuotient | src/utils/formulas/cryopreservationCalculations.js:104 | floor(x/y) units of y fit in x and leave less than y; at least one unit when x ≥ y |
| ContainerAllocation.OptimalBounds | src/utils/formulas/cryopreservationCalculations.js:104-116 | the uniform volume V/n lies in [volMin, V], uses all of V, and gives back exactly n units |
| ContainerAllocation.UnitsOf | src/utils/formulas/cryopreservationCalculations.js:116-117 | at least one unit, floor(V/unit) of them, leaving 0 ≤ rest < unit |
| ContainerAllocation.UnitsFor | src/utils/formulas/cryopreservationCalculations.js:103-117 | at least one unit, unit volume in [volMin, volMax], used volume ≤ the remaining volume with less than a unit left, all of it used when the uniform volume is not capped |
| ContainerAllocation.ReserveDose | src/utils/formulas/cryopreservationCalculations.js:76-89 | step 1: with the switch on, a positive count, a cryovial type and a non-zero per-vial volume, one entry of count × per-vial volume, the unit kept to two decimals, subtracted from the volume; otherwise nothing (definition; `ReserveDoseMeaning` states it) |
| ContainerAllocation.Take | src/utils/formulas/cryopreservationCalculations.js:103-128 | one processed type: its units from `UnitsFor` appended as an entry, the unit kept to two decimals, and their volume subtracted (definition; `TakeFacts` states it) |
| ContainerAllocation.Fill | src/utils/formulas/cryopreservationCalculations.js:92-132 | step 2: the visit of the sorted types, skipping cryovials under the switch and types whose minimum exceeds the rest, stopping once less than 1 ml is left (the specification `Visit` is proved equal to) |
| ContainerAllocation.AddVials | src/utils/formulas/cryopreservationCalculations.js:140-151 | the extra vials counted into the first entry of the cryovial's name, or a new entry of volMax vials (definition; `AddVialsMeaning` states it) |
| ContainerAllocation.TopUpInto | src/utils/formulas/cryopreservationCalculations.js:136-153 | as many full cryovials as fit in the rest, if any (definition) |
| ContainerAllocation.TopUp | src/utils/formulas/cryopreservationCalculations.js:134-155 | step 3: with at least 1 ml left and a cryovial type, the top-up into it (the specification `TopUpCryovials` is proved equal to) |
| ContainerAllocation.Allocate | src/utils/formulas/cryopreservationCalculations.js:68-162 | the three steps on the copy sorted by capacity; distributed = available − remaining (the specification `Distribute` is proved equal to) |
| ContainerAllocation.Visit | src/utils/formulas/cryopreservationCalculations.js:92-132 | the main loop's entries and remainder are those of the specification `Fill` |
| ContainerAllocation.TopUpCryovials | src/utils/formulas/cryopreservationCalculations.js:134-155 | the top-up's entries and remainder are those of the specification `TopUp` |
| ContainerAllocation.Distribute | src/utils/formulas/cryopreservationCalculations.js:68-162 | the result is the specification `Allocate`; the entries' totals add up to the distributed volume, and distributed + remaining = available |
| ContainerAllocation.TakeFacts | src/utils/formulas/cryopreservationCalculations.js:103-128 | one processed type appends one entry made from it and moves exactly its volume from the remainder, which stays in [0, old remainder] |
| ContainerAllocation.FillAccounting | src/utils/formulas/cryopreservationCalculations.js:92-132 | the main loop only appends, conserves entries + remainder, never increases the remainder, and keeps it ≥ 0 if it started ≥ 0 |
| ContainerAllocation.FillEntries | src/utils/formulas/cryopreservationCalculations.js:92-132 | every entry the main loop appends comes from a visited type, with count ≥ 1, unit volume in [volMin, volMax] and that unit kept to two decimals |
| ContainerAllocation.AddVialsMeaning | src/utils/formulas/cryopreservationCalculations.js:140-151 | the top-up adds the extra volume to the totals, increments the first same-named entry in place or appends a new one, and leaves other entries untouched |
| ContainerAllocation.TopUpIntoAccounting | src/utils/formulas/cryopreservationCalculations.js:138-153 | the top-up conserves entries + remainder, leaves less than one vial's `volMax`, and changes at most the cryovial entry or appends one |
| ContainerAllocation.TopUpAccounting | src/utils/formulas/cryopreservationCalculations.js:134-155 | the whole stage conserves entries + remainder, never increases the remainder or makes it negative, and leaves non-cryovial entries unchanged |
| ContainerAllocation.TopUpRemainder | src/utils/formulas/cryopreservationCalculations.js:135-153 | after a top-up the remainder is in [0, cryovial volMax) |
| ContainerAllocation.AllocateAccounting | src/utils/formulas/cryopreservationCalculations.js:157-161 | distributed volume = sum of the entries' totals, and distributed + remaining = available |
| ContainerAllocation.AllocateRemaining | src/utils/formulas/cryopreservationCalculations.js:70-161 | the final remainder is at most the volume after the dose reservation, and non-negative when that was |
| ContainerAllocation.ReserveDoseMeaning | src/utils/formulas/cryopreservationCalculations.js:76-90 | a dose entry (name + " (dosis específica)", count, volume per vial, count × volume, the unit kept to two decimals) is made and subtracted iff the switch is on, the count is positive, a cryovial type exists and the per-vial volume is non-zero; otherwise nothing is reserved |
| ContainerAllocation.DoseEntryFirst | src/utils/formulas/cryopreservationCalculations.js:76-90 | when the dose applies, its entry is the first of the result |
| ContainerAllocation.NoCryovialVisitedUnderDose | src/utils/formulas/cryopreservationCalculations.js:93-97 | with the dose switch on, the main loop appends no cryovial entry, even if no dose entry was made |
| FreezingPlan.MillionCells | src/utils/formulas/cryopreservationCalculations.js:176-177 | millions of cells × 1000 = cells/uL × ml |
| FreezingPlan.DoseVolume | src/utils/formulas/cryopreservationCalculations.js:233-237 | the per-vial volume holds exactly dose × recipient weight million cells |
| FreezingPlan.Annotate | src/utils/formulas/cryopreservationCalculations.js:173-187 | an annotated line keeps the entry's fields and adds the concentration, the cells in one unit of the unit volume the entry keeps, and cells per kg with cells per kg × weight = cells |
| FreezingPlan.CellsPerContainer | src/utils/formulas/cryopreservationCalculations.js:167-188 | the annotation keeps the length and order, line k being the annotation of entry k |
| FreezingPlan.Concentration | src/utils/formulas/cryopreservationCalculations.js:225-230 | concentration × the rounded total = initial concentration × initial volume, and it is non-zero when the cells are |
| FreezingPlan.Controls | src/utils/formulas/cryopreservationCalculations.js:263-272 | the 2 × 1 ml control line, annotated as any entry of 1 ml (definition) |
| FreezingPlan.BloodCultures | src/utils/formulas/cryopreservationCalculations.js:274-283 | the 1 × 2 ml blood-culture line with no cell figures (definition) |
| FreezingPlan.Plannable | src/utils/formulas/cryopreservationCalculations.js:193-260 | every divisor of the plan is non-zero and the types are well formed; outside it the JavaScript values are infinities or NaN (definition) |
| FreezingPlan.VialVolume | src/utils/formulas/cryopreservationCalculations.js:232-237 | step 6: the dose volume at the final concentration when the switch is on and a dose is given, else 0 (definition; `DoseVolume` states it) |
| FreezingPlan.PlanOf | src/utils/formulas/cryopreservationCalculations.js:254-298 | the plan assembled from the total, the final concentration and an allocation (definition; `PlanOfShape`, `PlanOfAccounting` and `PlanOfDose` state it) |
| FreezingPlan.PlanFor | src/utils/formulas/cryopreservationCalculations.js:193-298 | `calcularProgramacionCongelacion`: the steps 1-8 on the rounded total, with the allocation of `Allocate` (definition; `PlanShape`, `PlanAccounting` and `DoseVialHoldsDose` state it) |
| FreezingPlan.PlanShape | src/utils/formulas/cryopreservationCalculations.js:262-294 | the distribution is Controls (2 × 1 ml, the cells of 1 ml), Blood cultures (1 × 2 ml, no cell figures), then each allocator entry annotated, in order, with the cells of the unit volume it keeps |
| FreezingPlan.PlanOfShape | src/utils/formulas/cryopreservationCalculations.js:254-294 | the same shape for any allocation, total and concentration |
| FreezingPlan.AnnotationKeepsVolume | src/utils/formulas/cryopreservationCalculations.js:173-187 | the annotated lines hold the same volume as the entries |
| FreezingPlan.PlanAccounting | src/utils/formulas/cryopreservationCalculations.js:285-297 | the lines' volumes plus the remainder are the total volume; distributed = total − 4 − remaining |
| FreezingPlan.PlanOfAccounting | src/utils/formulas/cryopreservationCalculations.js:285-297 | the same accounting for any allocation whose own accounting holds |
| FreezingPlan.DoseVialHoldsDose | src/utils/formulas/cryopreservationCalculations.js:232-260 | when the dose applies, the third line is the dose vials: count as asked, unit volume the per-vial volume, cells within the cells of 0.005 ml of dose × weight (line 84 keeps the unit to two decimals, line 177 computes the cells from it), cells per kg × weight = cells, and exactly the dose when the per-vial volume has at most two decimals |
| FreezingPlan.PlanOfDose | src/utils/formulas/cryopreservationCalculations.js:254-260 | for any allocation whose first entry is a dose entry, the third line of the plan is that entry annotated at the final concentration |
| FreezingPlan.DoseLine | src/utils/formulas/cryopreservationCalculations.js:176-178 | a dose entry whose unit is kept to two decimals shows cells that differ from dose × weight by concentration × rounding / 1000, within the cells of 0.005 ml, and exactly the dose and dose per kg when no rounding was needed |
| FreezingPlan.DoseRoundingExample | src/utils/formulas/cryopreservationCalculations.js:176-177 | 3750 cells/uL, 2 million/kg for 50 kg: a per-vial volume of 80/3 ml is kept as 26.67 ml by line 84 and shows 100.0125 million cells |
| CryoForm.SettledComponentTotal | src/components/calculators/CryopreservationCalculator.jsx:96-109 | with the DMSO/plasma state as the other effect sets it, the component's total is the planner's 2 × concentrated volume |
| CryoForm.DoseSizing | src/components/calculators/CryopreservationCalculator.jsx:109-126 | a count is never negative and the cells per vial are dose × weight |
| CryoForm.DoseSizingIsLargestFit | src/components/calculators/CryopreservationCalculator.jsx:119-126 | the count is the largest number of per-vial volumes that fit in total − 4: that many fit (none when total − 4 < 0) and one more does not |
| CryoForm.MaxCryovials | src/components/calculators/CryopreservationCalculator.jsx:104-130 | the effect's sizing: 0 and 0 with the switch off or a field missing, `DoseSizing` on numbers, a count of 0 when a volume or the concentration is NaN (definition; the next two rows state it) |
| CryoForm.MaxCryovialsMeaning | src/components/calculators/CryopreservationCalculator.jsx:104-130 | switch off or a field missing: both values 0; otherwise the cells per vial are dose × weight and the count is never negative |
| CryoForm.MaxCryovialsExample | src/components/calculators/CryopreservationCalculator.jsx:109-126 | 200 ml at 1000/uL into 32 ml, 2 million/kg for 50 kg: 32 ml per vial and one vial |
| CryoForm.AutoRaise | src/components/calculators/CryopreservationCalculator.jsx:71-88 | as written: with the three inputs filled in and numbers, the minimum volume goes to state, and a concentrated volume that is blank or below it becomes the minimum read back from `toFixed(2)` (definition) |
| CryoForm.AutoRaiseUp | src/components/calculators/CryopreservationCalculator.jsx:71-88 | corrected: the same with the minimum rounded up to the hundredth (definition) |
| CryoForm.AutoRaiseMeaning | src/components/calculators/CryopreservationCalculator.jsx:71-88 | as written: a raised volume is within 0.005 of the minimum; a volume that needs no raise is kept |
| CryoForm.AutoRaiseCanStayBelowMinimum | src/components/calculators/CryopreservationCalculator.jsx:80-86 | as written, 100 ml at 80010/uL with ceiling 250000 raises to 32.00 ml against a minimum of 32.004 ml, which still needs raising |
| CryoForm.AutoRaiseUpReachesMinimum | src/components/calculators/CryopreservationCalculator.jsx:80-86 | rounded up, the raised volume is in [minimum, minimum + 0.01) and never needs raising again |
| CryoForm.RaisedUpVolumePasses | src/components/calculators/CryopreservationCalculator.jsx:205-207 | rounded up, the raised volume passes the minimum-volume check of `validarCampos` |
| CryoForm.MaxId | src/components/calculators/CryopreservationCalculator.jsx:160 | `Math.max(...ids, 0)` is ≥ 0 and ≥ every id |
| CryoForm.AddContainer | src/components/calculators/CryopreservationCalculator.jsx:150-172 | as written: ignored on a blank name or limit, refused on min > max, otherwise appended with id max + 1 (definition) |
| CryoForm.AddContainerChecked | src/components/calculators/CryopreservationCalculator.jsx:150-172 | corrected: as `AddContainer`, refusing also non-numeric limits and a minimum ≤ 0 (definition) |
| CryoForm.AddContainerMeaning | src/components/calculators/CryopreservationCalculator.jsx:150-172 | ignored iff the name or a limit is blank; refused iff min > max; otherwise appended at the end, the old list unchanged, with an id above every existing id, so ids stay unique |
| CryoForm.AddContainerAcceptsZeroMinimum | src/components/calculators/CryopreservationCalculator.jsx:150-169 | as written, a minimum of 0 is accepted and the list then holds a type the allocator cannot use |
| CryoForm.AddContainerCheckedMeaning | src/components/calculators/CryopreservationCalculator.jsx:150-172 | the checked add accepts what the add as written accepts, less non-numeric limits and a minimum ≤ 0, and keeps a usable list usable |
| CryoForm.RemoveContainer | src/components/calculators/CryopreservationCalculator.jsx:174-176 | what remains is exactly the types of the list whose id differs |
| CryoForm.RemoveKeepsOrder | src/components/calculators/CryopreservationCalculator.jsx:174-176 | removal distributes over concatenation, so the order is kept |
| CryoForm.RemoveAbsent | src/components/calculators/CryopreservationCalculator.jsx:174-176 | removing an id no type has changes nothing |
| CryoForm.RemoveKeepsUsable | src/components/calculators/CryopreservationCalculator.jsx:174-176 | removal keeps a usable list usable |
| CryoForm.DefaultContainersUsable | src/components/calculators/CryopreservationCalculator.jsx:35-39 | the default types have numeric limits 0 < min ≤ max and unique ids |
| CryoForm.DefaultCryovialFirst | src/components/calculators/CryopreservationCalculator.jsx:35-39 | the first default type is the cryovial the allocator looks for |
| CryoForm.FailsCryo | src/components/calculators/CryopreservationCalculator.jsx:178-219 | when `validarCampos` pushes each error: no container types, a value blank or ≤ 0, the concentrated volume below the minimum in state, and with the switch on a dose blank or ≤ 0 or no room for a dose vial (definition) |
| CryoForm.FailuresCryoMeaning | src/components/calculators/CryopreservationCalculator.jsx:178-219 | an error is in the failure set iff its check fails |
| CryoForm.ValidateCommon | src/components/calculators/CryopreservationCalculator.jsx:178-207 | the first seven checks give the ordered report of their failures |
| CryoForm.ValidateCryo | src/components/calculators/CryopreservationCalculator.jsx:178-219 | `validarCampos` returns the ordered report of the failing checks |
| CryoForm.ReportedCryoMeaning | src/components/calculators/CryopreservationCalculator.jsx:178-219 | the report names exactly the failing checks: no containers, each value blank or ≤ 0, the concentrated volume below the minimum, and with the switch on a dose ≤ 0 or no room for a vial. It is in order, has at most 9 entries, and is empty iff nothing fails |
| CryoForm.TypesOf | src/components/calculators/CryopreservationCalculator.jsx:243 | the list given to the planner has one well-formed type per container, in order |
| CryoForm.RequestOf | src/components/calculators/CryopreservationCalculator.jsx:232-244 | the planner's parameters on a form whose fields all parse: each field's number, the dose and the vial count only with the switch on, else 0 (definition) |
| CryoForm.Calculate | src/components/calculators/CryopreservationCalculator.jsx:221-252 | errors are returned iff the report is non-empty, and are then that report; a plan is returned only for parsed fields the planner can divide by, and it is the planner's plan, with dose and cryovial count passed only with the switch on |
| CryoForm.ValidatedFormIsPlannable | src/components/calculators/CryopreservationCalculator.jsx:221-244 | a form that passes validation, with numbers in its fields, usable types and the minimum in state up to date, reaches the planner with no zero divisor |

## Left out

- IEEE-754 arithmetic. NaN and infinities are not real numbers. Where they would reach a calculation, the model says so and goes no further:
  - the gates return `Unmodelled`;
  - `CryoForm.MaxCryovials` and `CryoForm.DoseSizing` return `None`;
  - the allocator and planner have preconditions that no divisor is zero.
- `toFixed(2)` on values returned for display, and the strings they become: every result of the calculators, and the figures of each plan line. The model keeps those values exact.
- Rounding is modelled, as `Round2`, where a rounded value is read back into a computation:
  - the total at cryopreservationCalculations.js:222 and 229;
  - the unit volume the dose and main-loop entries keep (lines 84 and 123), from which line 177 computes the cells (`Entry.storedUnit`);
  - the auto-raised volume at CryopreservationCalculator.jsx:84.
- The entries' total volumes (cryopreservationCalculations.js:85 and 124), the top-up's addition to a two-decimal total at line 143, and the distributed and remaining volumes (lines 159-160) are kept exact. These totals are only shown, never computed with, so `ContainerAllocation.AllocateAccounting` and `FreezingPlan.PlanAccounting` state the accounting in exact arithmetic.
- `toLowerCase` is modelled on ASCII letters only. Non-ASCII letters are left as they are.
- Dead branches are not modelled, because no input reaches them for well-formed types:
  - `cantidadMaxima === 0` (cryopreservationCalculations.js:106);
  - `cantidad > 0` (line 119), which is always true;
  - `resultadoDistribucion.error` (lines 250-252), since the allocator never returns an `error`;
  - `resultado.error` in CryopreservationCalculator.jsx:246-249.
- The allocator copies the caller's array before sorting (cryopreservationCalculations.js:73). Dafny sequences are values, so the caller's list cannot change and no lemma states it.
- React reactivity and effect ordering. The form state the effects compute is a free part of `CryoForm.CryoState`: the minimum volume, the dose-vial count, and the DMSO/plasma used by the vial sizing. `CryoForm.MinVolumeSettled` states when the minimum is up to date. The factor/DMSO effect (CryopreservationCalculator.jsx:91-101) appears only through `CryoForm.SettledComponentTotal`.
- The dose-vial count is an `int` in state. The `Infinity` that line 125 can store when the per-vial volume is 0 is not representable.
- Input handling is not modelled: `handleChange`, the slider, the reset handlers, the clearing of the new-container fields (CryopreservationCalculator.jsx:171) and the `alert` at line 156. The alert is the `MinAboveMax` outcome.
- The CD3 warning is set only when that field changes. The model states the predicate, not when it is set.
- Every validator's messages are represented by their error kind: `Validation.FieldError` for `validarCamposCD34` and `validarCamposCD3`, `CryoForm.CryoError` for `validarCampos`. The texts, the "CD34"/"CD3" marker and the interpolated product name and minimum are not modelled.
- src/components/calculators/CD34Calculator.jsx is not part of this model. It only wires the CD34 form to `validarCamposCD34` and `calcularVolemiasCD34`, which are modelled directly.
- Rendering, the report and print views, routing and the other UI files are not part of this model.
- CryoForm.ValidatedFormIsPlannable: it requires a concentrated volume of at least 0.01 ml. Below 0.0025 ml the rounded total is 0.00, and the planner then divides by zero.
- CryoForm.Calculate: it returns `Unmodelled` when a NaN field passes validation. NaN passes because `parseFloat(x) <= 0` is false on NaN. It also returns `Unmodelled` when a container type has limits the allocator cannot use, or when a zero divisor reaches the planner.
- LymphoForm.CalculateCD3: it returns `Unmodelled` when a NaN field passes the `< min || > max` tests.

## Findings

| source | as written | input that shows it | evidently intended | confidence | as-written member | corrected member |
|---|---|---|---|---|---|---|
| src/components/calculators/CryopreservationCalculator.jsx:84 | the raised concentrated volume is `volMin.toFixed(2)`, which rounds to the nearest hundredth and can land below the minimum | volume 100 ml, leukocytes 80010/uL, ceiling 250000/uL: the minimum is 32.004 ml and the field becomes "32.00". `validarCampos` (line 205) then refuses it with "at least 32.00 ml" | round up to the hundredth, so that the raised volume passes the minimum check | not executed | CryoForm.AutoRaiseCanStayBelowMinimum (on CryoForm.AutoRaise) | CryoForm.AutoRaiseUpReachesMinimum (on CryoForm.AutoRaiseUp), used by CryoForm.RaisedUpVolumePasses |
| src/components/calculators/CryopreservationCalculator.jsx:150-169 | a new container type is checked only for blank fields and min > max, so a minimum of "0" (or a negative or non-numeric limit) is added | with the default types, add name "Vial", minimum "0", maximum "10". The sorted visit reaches "Vial" with volume left only when the distributable volume V is in (0, 15) ml, i.e. a concentrated volume between 2 and 9.5 ml: larger volumes are taken whole by the two bags. The allocator then computes `Math.floor(V / 0)`, an infinite count, and the entry's volumes and the remainder are NaN | refuse limits that are not positive numbers, as every other field of the form is refused when ≤ 0 | not executed | CryoForm.AddContainerAcceptsZeroMinimum (on CryoForm.AddContainer) | CryoForm.AddContainerCheckedMeaning (on CryoForm.AddContainerChecked), with CryoForm.RemoveKeepsUsable and CryoForm.DefaultContainersUsable keeping the list the gate needs |
