# hexrd WPPF: reflection generation and refinement parameters, in Dafny

This project models the core of `hexrd/WPPF.py`, hexrd's whole-powder-pattern
fitting module (LeBail and Rietveld refinement of powder diffraction
patterns). It covers two parts of that module.

**Reflection generator** (`Material_LeBail`). It enumerates a box of Miller
triples (h, k, l) and works through these steps:

- It removes the triples that the lattice centering forbids (`Allowed_HKLs`).
- For a non-symmorphic space group, it also removes those that the glide planes
  and screw axes forbid (`NonSymmorphicAbsences`, `omitglideplaneabsences`,
  `omitscrewaxisabsences`).
- It drops the direct beam and every triple whose d-spacing is below `dmin`.
- It keeps one triple per symmetry orbit: the star of `CalcStar` and the mask
  of `ChooseSymmetric`.
- It sorts the result by the key of `SortHKL` (`getHKLs`).

**Refinement parameters.** The `Parameters` store is an insertion-ordered
dictionary of `Parameter` records. Around it the model covers:

- the vary-flag sweeps (`params_vary_on` / `params_vary_off`);
- the export of the varying parameters to the least-squares solver
  (`initialize_lmfit_parameters`);
- the copy-back of solved values (`update_parameters`).

**Small pure pieces:**

- the lattice-parameter expansion table (`_rqpDict`, `Required_lp`);
- the two clamps of the peak-shape code (`MixingFact`, `CagliottiH`);
- the running occurrence labels of `_getnumber`.

Modules, one per file:

| module | file | what it holds |
|---|---|---|
| `Wrappers` | `wrappers.dfy` | `Result` and `Outcome`. Python exceptions become their `Failure`/`Fail` values, carrying the source's message. |
| `Crystal` | `crystal.dfy` | Miller triples, integer 3×3 operators, the order-preserving filter `Keep` (numpy's `a[mask, :]`). |
| `Absences` | `absences.dfy` | Centering, glide and screw conditions, `NonSymmorphicAbsences`, `Allowed_HKLs`. |
| `Star` | `star.dfy` | `CalcStar` (a method with its loops) and the orbit lemmas. |
| `Choose` | `choose.dfy` | `ChooseSymmetric`: the boolean mask is an `array<bool>` updated in place. |
| `Sorting` | `sorting.dfy` | The `SortHKL` key, `np.round(x, 8)`, and the sort. |
| `Reflections` | `reflections.dfy` | `getHKLs`: the candidate box, the resolution loop, the pipeline. |
| `LatticeParams` | `lattice.dfy` | `_rqpDict` and `Required_lp`. |
| `ParameterStore` | `parameters.dfy` | The store as a value (`Store`) and as a class (`Parameters`). |
| `PeakShape` | `peakshape.dfy` | The mixing-factor and Caglioti-width clamps. |
| `Labels` | `labels.dfy` | `_getnumber`. |

Inputs the model takes as parameters rather than computing:

- the reciprocal length |g| (`CalcLength(g, 'r')`), a function `len`;
- the box half-widths `ih`, `ik`, `il`;
- the point-group operator lists (`SYM_PG_d`, `SYM_PG_r` and their Laue forms);
- the glide/screw table entry of the space group (`constants.SYS_AB[sgnum]`);
- tan θ.

## Modelling choices

- **Candidate box.** `getHKLs` sets `hmin = -self.ih-1`, `kmin = -self.ik-1` and
  `lmin = -1` (hexrd/WPPF.py:1050-1055). `np.arange` excludes its stop value, so h
  runs from ih down to -ih, k from ik down to -ik, and l from il down to 0.
  `Reflections.Candidates` models that.
- **String comparisons.** `is` / `is not` on short string literals in
  `omitscrewaxisabsences`, `omitglideplaneabsences` and `NonSymmorphicAbsences`
  are modelled as string equality.
- **Undefined masks.** Where a branch leaves a mask variable undefined (for
  example a trigonal c glide with `ip == 0`), the source raises a `NameError`.
  The model makes this a `Failure`.

## Model

| member | source | states |
|---|---|---|
| `Crystal.Keep` | hexrd/WPPF.py:645 | Boolean-mask selection keeps exactly the rows that pass the test, in their original order (a subsequence), and never adds rows. |
| `Crystal.KeepKeep` | hexrd/WPPF.py:984-991 | Applying two filters one after the other keeps the same rows as one filter that asks both questions. |
| `Crystal.MaxComponent` | hexrd/WPPF.py:1033 | `np.max(g)` is one of the three indices and at least as large as each. |
| `Absences.ModOffsets` | hexrd/WPPF.py:620-641 | `np.mod(x + 100, 2)`, `np.mod(x + 90, 3)`, `np.mod(x + 100, 4)` and `np.mod(x + 120, 6)` equal x mod 2, 3, 4 and 6 for every integer x, negative ones included. |
| `Absences.CenteringConditions` | hexrd/WPPF.py:614-641 | The centering masks are the textbook conditions: P allows all; F needs h, k, l of equal parity; I needs h+k+l even; A, B and C need k+l, h+l and h+k even; R needs -h+k+l divisible by 3. |
| `Absences.CenteringFilter` | hexrd/WPPF.py:614-645 | Fails exactly for a centering letter other than P, F, I, A, B, C, R. Otherwise it keeps, in order, exactly the rows that centering allows. |
| `Absences.OmitGlidePlaneAbsences` | hexrd/WPPF.py:767-977 | Fails exactly for a glide symbol or direction the lattice family does not handle. Otherwise it keeps, in order, exactly the rows that the glide does not forbid. |
| `Absences.OmitScrewAxisAbsences` | hexrd/WPPF.py:651-765 | Fails exactly for a screw symbol or axis the family does not handle. Otherwise it keeps, in order, exactly the rows that the screw does not forbid. |
| `Absences.GlidePass` | hexrd/WPPF.py:985-987 | One glide pass: an empty symbol changes nothing. A handled one extends the set of directions applied by one. An unhandled one means the whole table is not handled. |
| `Absences.ScrewPass` | hexrd/WPPF.py:989-991 | The same three cases, for one screw-axis pass. |
| `Absences.OmitGlides` | hexrd/WPPF.py:984-987 | The glide loop fails exactly when some glide symbol of the entry is not handled. Otherwise it keeps the rows that no glide of any direction forbids. |
| `Absences.OmitScrews` | hexrd/WPPF.py:988-991 | The same, for the screw loop. |
| `Absences.NonSymmorphicAbsences` | hexrd/WPPF.py:979-992 | Fails exactly when the table entry holds an unhandled symbol. Otherwise it keeps, in order, the rows that no glide plane and no screw axis forbids. |
| `Absences.AllowedHKLs` | hexrd/WPPF.py:608-649 | Fails exactly for an empty symbol, an unknown centering letter or, for non-symmorphic groups, an unhandled table symbol. Otherwise it returns, in order, the rows allowed by centering and, unless the group is symmorphic, by the glides and screws. |
| `Absences.CenteringFriedel` | hexrd/WPPF.py:614-644 | Friedel's law for centering: (h,k,l) is allowed exactly when (-h,-k,-l) is. |
| `Absences.GlideFriedel` | hexrd/WPPF.py:767-977 | Every glide rule of every family removes (h,k,l) exactly when it removes (-h,-k,-l). |
| `Absences.ScrewFriedel` | hexrd/WPPF.py:651-765 | Every screw rule of every family removes (h,k,l) exactly when it removes (-h,-k,-l). |
| `Absences.AllowedFriedel` | hexrd/WPPF.py:608-649 | The full reflection conditions obey Friedel's law: g is allowed exactly when -g is. |
| `Absences.OrthorhombicPrimaryScrew` | hexrd/WPPF.py:685-696 | An orthorhombic 2_1 screw along a never raises. It removes exactly the rows (h,0,0) with h odd. |
| `Absences.MonoclinicScrewErrors` | hexrd/WPPF.py:669-684 | A monoclinic screw is accepted exactly when it is 2_1 along b. Every other symbol or axis raises. |
| `Absences.OrthorhombicPrimaryGlide` | hexrd/WPPF.py:793-805 | An orthorhombic b, c, n or d glide normal to a never raises. It removes only rows with h = 0: k odd for b, l odd for c, k+l odd for n, k+l not divisible by 4 for d. |
| `Star.StarAfter` | hexrd/WPPF.py:594-606 | After n operators the list starts with v, holds no repeated row and has at most n+1 rows. Its rows are exactly v and the images of v under the first n operators. |
| `Star.CalcStar` | hexrd/WPPF.py:578-606 | The method fails exactly for an unknown space label. Otherwise it returns the star: v followed by each new operator image in operator order, without repeats. |
| `Star.StarSymmetric` | hexrd/WPPF.py:578-606 | When every operator has an inverse among the operators, x lies in the star of v exactly when v lies in the star of x. |
| `Star.StarWithin` | hexrd/WPPF.py:578-606 | When the operators are closed under products, the star of any star member lies inside the original star. |
| `Star.StarsAreOrbits` | hexrd/WPPF.py:578-606 | For a group of operators the stars are orbits: two triples either lie in each other's star, with equal row sets, or in neither. |
| `Star.StarPreserves` | hexrd/WPPF.py:578-606 | A quantity every operator preserves, such as the reciprocal length, has the same value on every row of a star. |
| `Choose.MaskMonotone` | hexrd/WPPF.py:1003-1008 | The mask only ever loses entries as the visiting loop advances. |
| `Choose.ClearedBy` | hexrd/WPPF.py:1003-1008 | A mask entry that goes from set to clear was cleared by a row, visited in between with its own entry set, whose star contains the cleared row. |
| `Choose.VisitKeepsRow` | hexrd/WPPF.py:1004-1008 | Visiting a row whose entry is set never clears that row itself. |
| `Choose.KeptRowsApart` | hexrd/WPPF.py:1003-1009 | Of two different positions whose entries survive, neither row is in the other's star beyond the row itself. |
| `Choose.Masked` | hexrd/WPPF.py:1009 | `hkllist[mask, :]` keeps rows in their original order (a subsequence) and is no longer than the input. |
| `Choose.MaskedMembers` | hexrd/WPPF.py:1009 | A row is in the masked list exactly when it sits at a position whose mask entry is set. |
| `Choose.ArgMaxSum` | hexrd/WPPF.py:1013 | `np.argmax` of the component sums returns the first position of the largest sum. |
| `Choose.PickRepresentatives` | hexrd/WPPF.py:1010-1016 | The second loop replaces each kept row by the member of its star with the largest component sum (the first such member on ties). |
| `Choose.ClearStarTail` | hexrd/WPPF.py:1006-1008 | The inner loop clears, in place, the mask of every row equal to a member of the star after its first row, and changes no other entry. |
| `Choose.ChooseSymmetric` | hexrd/WPPF.py:994-1016 | The mask loop, which updates the `array<bool>` in place, followed by the representative loop, returns exactly the specified choice. |
| `Choose.KeptInDistinctStars` | hexrd/WPPF.py:1001-1009 | Two different rows that both survive the mask never lie in each other's star. |
| `Choose.ChosenNonEmpty` | hexrd/WPPF.py:994-1016 | A non-empty input list gives a non-empty choice. |
| `Choose.EveryRowCovered` | hexrd/WPPF.py:1001-1009 | When the operators are closed under products, every input row lies in the star of some surviving row: no orbit is lost. |
| `Choose.RepresentativeIsMax` | hexrd/WPPF.py:1012-1014 | The representative is in the star, and no member of the star has a larger component sum. |
| `Choose.RepresentativeSumNonNegative` | hexrd/WPPF.py:1012-1014 | With the inversion among the operators (the Laue set), the representative's component sum is never negative. |
| `Choose.RepresentativesApart` | hexrd/WPPF.py:994-1016 | For a group of operators, the representatives of two different kept rows lie in different orbits. |
| `Sorting.RoundHalfEven` | hexrd/WPPF.py:1027 | Rounding lands within 1/2 of its argument, and a value exactly halfway between two integers goes to the even one. |
| `Sorting.RoundHalfEvenMonotone` | hexrd/WPPF.py:1027 | Rounding never reverses the order of two values. |
| `Sorting.Round8` | hexrd/WPPF.py:1027 | `np.round(x, 8)` is within 5e-9 of x. |
| `Sorting.Round8Monotone` | hexrd/WPPF.py:1027 | `np.round(x, 8)` never reverses the order of two values. |
| `Sorting.KeyOrder` | hexrd/WPPF.py:1029-1035 | The lexicographic order on (glen, max, sum, l, k, h) is total, and two triples with equal keys are equal. |
| `Sorting.KeyTransitive` | hexrd/WPPF.py:1035 | The key order is transitive. |
| `Sorting.SortHKL` | hexrd/WPPF.py:1018-1036 | The result is ascending in the key and a permutation of the input (same multiset). |
| `Sorting.SortedUnique` | hexrd/WPPF.py:1035-1036 | Any two ascending permutations of the same rows are equal. So `argsort`'s result does not depend on stability or tie breaking. |
| `Sorting.SortedByLength` | hexrd/WPPF.py:1018-1036 | In sorted output a later row's length is never smaller than an earlier one's by more than the rounding step 1e-8, so d-spacings decrease. |
| `Reflections.Descending` | hexrd/WPPF.py:1056-1058 | `np.arange(hi, lo, -1)` has hi - lo entries (none when hi <= lo), and entry i is hi - i. |
| `Reflections.CandidatesBox` | hexrd/WPPF.py:1050-1058 | For non-negative half-widths the candidate list holds exactly the triples with abs(h) <= ih, abs(k) <= ik and 0 <= l <= il, and has (2ih+1)(2ik+1)(il+1) rows. |
| `Reflections.ResolvedRowsOf` | hexrd/WPPF.py:1063-1068 | The resolution loop keeps, in order, exactly the rows that are not the direct beam and have d-spacing 1/abs(g) >= dmin. |
| `Reflections.GetHKLs` | hexrd/WPPF.py:1038-1087 | The method fails exactly where the pipeline specification fails: reflection conditions not handled, or an empty resolution list. Otherwise it returns the specified sorted choice. |
| `Reflections.ReflectionsResolved` | hexrd/WPPF.py:1059-1087 | For a norm preserved by the reciprocal Laue operators, no returned reflection is the origin, and each has 1/abs(g) >= dmin. |
| `Reflections.ReflectionsNonEmpty` | hexrd/WPPF.py:1076-1087 | A reflection list, when produced, is never empty. |
| `LatticeParams.IndependentIndices` | hexrd/WPPF.py:6343-6351 | Each family's free positions index into (a, b, c, alpha, beta, gamma): between one and six of them. |
| `LatticeParams.RequiredLp` | hexrd/WPPF.py:6343-6351 | Triclinic returns its argument unchanged. Every other family fails exactly when given fewer values than it has free positions, and otherwise returns six values. |
| `LatticeParams.ExpandSelected` | hexrd/WPPF.py:6343-6351 | Taking the free values of a parameter set that obeys its family's constraints and expanding them gives the set back. |
| `LatticeParams.SelectExpanded` | hexrd/WPPF.py:6343-6351 | An expansion always obeys the family's constraints (equal edges, 90° and 120° angles), and its free values are the ones it was given. |
| `ParameterStore.Lookup` | hexrd/WPPF.py:99-103 | Lookup fails exactly for a name not in the store. |
| `ParameterStore.PutSpec` | hexrd/WPPF.py:105-112 | Storing makes the parameter the entry under its key and changes no other entry, and keeps the store well formed. A new key goes last; an existing key keeps its place. |
| `ParameterStore.AddFirstKeeps` | hexrd/WPPF.py:49-61 | `add_many` keeps the store well formed and leaves every name it does not list unchanged. |
| `ParameterStore.AddFirstLastWins` | hexrd/WPPF.py:49-61 | After `add_many` each listed name holds the record built from its last position in the lists. |
| `ParameterStore.ExportKeysSpec` | hexrd/WPPF.py:1662-1671 | The solver receives only varying parameters, each with its own value and bounds. It receives every varying one, and no name twice. |
| `ParameterStore.ExportSweeps` | hexrd/WPPF.py:1328-1340 | After `params_vary_off` nothing is exported. After `params_vary_on` every parameter is, in store order. |
| `ParameterStore.UpdateWrites` | hexrd/WPPF.py:1673-1677 | After a successful update, each solved name holds the solved value of its last entry in the list. |
| `ParameterStore.UpdateFirstSpec` | hexrd/WPPF.py:1673-1677 | The update changes only values: order, keys, names, bounds and flags stay. It succeeds exactly when every solved name is in the store. |
| `ParameterStore.UpdateExportedKeys` | hexrd/WPPF.py:1662-1677 | Writing back the exported values unchanged leaves the store as it was. |
| `ParameterStore.ExportRoundTrip` | hexrd/WPPF.py:1662-1677 | For a well-formed store, export followed by update with the same values is the identity and does not fail. |
| `ParameterStore.UpdateFailed` | hexrd/WPPF.py:1673-1677 | Once a name is not found, the rest of the solved list changes nothing, and the writes already made stay. |
| `ParameterStore.Parameters.constructor` | hexrd/WPPF.py:34-37 | A new store is empty and well formed. |
| `ParameterStore.Parameters.Get` | hexrd/WPPF.py:99-103 | `__getitem__` returns the entry, or fails exactly for an unknown name. |
| `ParameterStore.Parameters.SetItem` | hexrd/WPPF.py:105-112 | Warns exactly when the key exists. For a Parameter it stores it as `Put` does. For anything else it fails and leaves the store unchanged. |
| `ParameterStore.Parameters.Add` | hexrd/WPPF.py:41-47 | `add` stores the new record under its name, as `Put` does, and warns on an overwrite. |
| `ParameterStore.Parameters.AddMany` | hexrd/WPPF.py:49-61 | Fails, changing nothing, exactly when the five lists differ in length. Otherwise it applies `add` to each position in turn. |
| `ParameterStore.Parameters.Iter` | hexrd/WPPF.py:114-116 | `__iter__` resets the cursor and changes no entry. |
| `ParameterStore.Parameters.Next` | hexrd/WPPF.py:118-125 | `__next__` yields the keys in insertion order, then StopIteration. It never changes an entry. |
| `ParameterStore.Parameters.SetVaryAll` | hexrd/WPPF.py:1328-1340 | `params_vary_on` / `params_vary_off` set every entry's vary flag, change nothing else, and keep the store well formed. |
| `ParameterStore.Parameters.ExportVarying` | hexrd/WPPF.py:1662-1671 | `initialize_lmfit_parameters` returns exactly the export specification and leaves the entries unchanged. |
| `ParameterStore.Parameters.UpdateValues` | hexrd/WPPF.py:1673-1677 | `update_parameters` ends in the state, and with the outcome, that the update specification gives, including the partial writes before a failure. On success each solved name holds its solved value (`UpdateWrites`). |
| `PeakShape.Clamp01` | hexrd/WPPF.py:1468-1472 | The clamp always lands in [0, 1]. |
| `PeakShape.Clamp01Nearest` | hexrd/WPPF.py:1468-1472 | The clamp leaves values already in [0, 1] alone and returns the point of [0, 1] nearest its argument. It is idempotent. |
| `PeakShape.Clamp01Monotone` | hexrd/WPPF.py:1468-1472 | The clamp never reverses an order. |
| `PeakShape.MixingFactor` | hexrd/WPPF.py:1460-1472 | The mixing factor eta is always in [0, 1]. |
| `PeakShape.MixingFactorUnclamped` | hexrd/WPPF.py:1466-1472 | When the quadratic eta1 + eta2·tth + eta3·tth² is already in [0, 1], it is the mixing factor. |
| `PeakShape.FloorHsq` | hexrd/WPPF.py:1445-1446 | The floored square width is never negative. |
| `PeakShape.CagliottiHsq` | hexrd/WPPF.py:1436-1447 | The square width handed to `np.sqrt` is never negative. |
| `PeakShape.FloorHsqSpec` | hexrd/WPPF.py:1445-1446 | Non-negative widths pass unchanged. A negative one becomes a positive value. The floor is idempotent. |
| `Labels.CountPrefix` | hexrd/WPPF.py:6360 | `np.sum(arr[0:n] == x)` is the multiplicity of x in the first n entries, and at most n. |
| `Labels.Label` | hexrd/WPPF.py:6360 | Entry i's label lies between 1 and i+1. |
| `Labels.GetNumber` | hexrd/WPPF.py:6356-6363 | `_getnumber` returns a fresh array with one label per entry: the number of equal entries up to and including it. |
| `Labels.LabelsIncrease` | hexrd/WPPF.py:6356-6363 | A later equal entry has a strictly larger label, so no two entries share both value and label. |
| `Labels.LabelsConsecutive` | hexrd/WPPF.py:6356-6363 | Between two consecutive occurrences of a value the label goes up by exactly one. |
| `Labels.FirstLabel` | hexrd/WPPF.py:6356-6363 | The first occurrence of a value is labelled 1. |

## Left out

- File and terminal I/O, plotting, YAML load/dump of parameters, `Parameters.__str__`, `Parameter.__str__`.
- The lmfit solver itself. `initialize_lmfit_parameters` is modelled as the list it hands over, and `update_parameters` as consuming a solved list. Any clipping lmfit applies to values is not modelled.
- Floating point. Lengths, d-spacings, the clamps and the rounding are exact reals. `np.radians`, `np.tan` and `np.sqrt` are not modelled: tan θ is an input, and the model stops at the argument of the square root.
- `CalcLength`, the metric tensor and `CalcMaxGIndex`. The reciprocal length is an input function, and the box half-widths are inputs.
- The generation of the point-group operators (`SYM_PG_d`, `SYM_PG_r`), which are given. `constants.SYS_AB` is not part of this model: the table entry of the space group is an input.
- Fundamental-parameter peak shapes (FPA), the Rietveld structure-factor code, and the Rietveld lattice-parameter sweeps that use `_rqpDict` index lists, which are not part of this model.
- Star.CalcStar: compares rows exactly, not with the code's summed-difference tolerance of 1e-4. The two agree for integer triples and integer operators, which the model takes as given.
- `Parameters(name=...)`: the constructor path that passes Python's builtin `min` and `max` as bounds is not modelled. Only the empty constructor is.
- Dynamic typing of `Parameter`: its `name` setter ignores non-strings and its `vary` setter ignores non-booleans. The model's fields are typed, so those calls cannot be written.
- `__next__` before `__iter__`: in Python this raises `AttributeError`, because `self.n` does not yet exist. In the model the cursor starts at 0.
- Aliasing of `Parameter` objects. Records are values, so one record stored under two keys, and then mutated through one of them, is not modelled.
- `np.int32` truncation: indices, labels and box bounds are unbounded integers. The casts cannot wrap for the box sizes and list lengths the code produces.
- The defects in `CalcLength` (its `spec` argument), `Spectrum.__sub__` and `bkg_spectrum` lie outside the modelled core.
- The reflection generator of the Rietveld material class (`Material_Rietveld`) is not modelled. Its centering, glide, screw, star and sort steps are the LeBail ones.
- The multiplicity that `Material_Rietveld.getHKLs` also returns (hexrd/WPPF.py:3822-3827) is not modelled. It is the number of rows in the non-Laue reciprocal `CalcStar` of each reflection, and the Rietveld intensity uses it.
