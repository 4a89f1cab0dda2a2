# Enzymatic constraints for a scyllo-inositol Flexible Net

This project models, in Dafny, the step of `gecko_smom_FNs_def.py` that adds enzymatic
constraints to a Flexible Net. The net is lowered from the genome-scale model of
*Bacillus subtilis*. The script holds a catalogue of 20 enzyme-catalysed reactions. Each
reaction has a kinetic type (`fonly`, `fcat`, `bcat` or `scillo`), a turnover number `kcat`,
an enzyme abundance `ea` and a molecular weight `mw`. A regime token picks one of four regimes:

- `g+s`: GECKO and sMOMENT;
- `g`: GECKO only;
- `s`: sMOMENT only;
- `n`: no enzymatic constraints.

The builder first resets the handlers and the extra constraints and sets the total-enzyme place
`E_total` to `P`. Then, in regimes `g+s`, `g` and `s`, for each catalogue entry in order, it
writes:

- the entry's enzyme place (`g+s` and `g` only);
- `l0 = 0` on the catalysed transition;
- a handler with its arcs and rate constraints;
- a direction lock for `fcat` and `bcat` entries.

Regime `n` writes nothing per entry.

Finally it sets the objective to maximise `t_EX_scino_f`. It also appends the growth-rate
equality and the glucose-uptake bound.

Modules:

- `NetModel` (`net_model.dfy`): the part of the net dictionary the builder touches. That is
  places, transitions with their `l0`, handlers, the ordered list of extra constraints and the
  objective. It also defines how a run ends.
- `Catalogue` (`catalogue.dfy`): the reaction catalogue, in the script's iteration order.
- `EnzymeConstraints` (`enzyme_constraints.dfy`): key names, the per-regime tables and the
  specification functions. `ApplyEntry` is one loop body, `Loop` is the loop and `Build` is the
  whole builder.
- `ConstraintBuilder` (`constraint_builder.dfy`): class `FlexNet` updates its maps and its
  constraint list in place, as the script does. Each method is proved equal to the
  specification function.
- `BuildTheorems` (`build_theorems.dfy`): what a run guarantees. This covers keys written and
  values, transitions touched, direction locks, the global constraints, the error paths, and
  the shape of the handlers in each regime.

Two failures are modelled as outcomes, not as preconditions:

- An unknown token ends the run after the reset and the `E_total` write. The objective and
  the global constraints are never set.
- A catalogue entry whose transition is not in the net fails at the `l0` subscript. The run
  stops there with the state written so far. In `g+s` and `g` that state includes the entry's
  enzyme place, because the place is written before the subscript.

How the script ends on its two failures:

- An unknown token calls `exit()` with no argument, which ends the script with status 0. The
  model only records that the run ended early.
- A missing transition raises Python's `KeyError` at the subscript.

Regime `n` adds no direction lock: the locks are appended only inside the `g+s`, `g` and `s`
loops. In `n` the extra constraints are exactly the two global ones.

## Model

| member | source | states |
|---|---|---|
| Catalogue.Count | gecko_smom_FNs_def.py:41-61 | the number of catalogue entries of a kinetic type is at most the catalogue's size, and is zero exactly when no entry has that type |
| Catalogue.RxnsDistinct | gecko_smom_FNs_def.py:41-61 | the 20 reaction names of the catalogue are pairwise distinct, as keys of the script's dictionary are |
| EnzymeConstraints.Token | gecko_smom_FNs_def.py:69-168 | every regime has one of the four command-line tokens |
| EnzymeConstraints.ParseRegime | gecko_smom_FNs_def.py:69-173 | a token is rejected exactly when it is none of g+s, g, s, n, and an accepted token reads back as the regime's own token |
| BuildTheorems.TokenRoundTrip | gecko_smom_FNs_def.py:69-168 | each regime's token parses back to that regime |
| EnzymeConstraints.Catalysed | gecko_smom_FNs_def.py:72-100 | the enzyme sits on the backward direction exactly for bcat entries, on the forward one otherwise |
| EnzymeConstraints.HandlerArcs | gecko_smom_FNs_def.py:75-161 | the table of handler arcs by regime; stated by HandlerArcsTable |
| BuildTheorems.HandlerArcsTable | gecko_smom_FNs_def.py:75-161 | the handler's arc names are e exactly in g+s and g, r always, and p exactly in g+s and s; r runs s_r_d -> t_r_d, e runs E_r_d -> s_r_d and p runs E_total -> s_r_d |
| EnzymeConstraints.Capacity | gecko_smom_FNs_def.py:78-132 | the GECKO bound of an entry carries its kcat and ea, and is the lower bound r >= kcat*ea exactly for scillo entries and the upper bound r <= kcat*ea otherwise |
| EnzymeConstraints.RateConstraints | gecko_smom_FNs_def.py:78-161 | the table of handler constraints by regime; stated by RateConstraintsTable |
| BuildTheorems.RateConstraintsTable | gecko_smom_FNs_def.py:78-161 | a handler has the capacity bound exactly in g+s and g, and first; the pool bound r <= kcat*p/mw exactly in g+s and s; no other constraint; one constraint per bound present |
| EnzymeConstraints.HandlerFor | gecko_smom_FNs_def.py:75-161 | the handler of an entry is its arcs and rate constraints above; its shape in each regime is stated by GeckoSMomentForward, GeckoHandlerShape, SMomentHandlers, ScilloBounds and HandlerArcR |
| EnzymeConstraints.ApplyEntry | gecko_smom_FNs_def.py:72-100 | one loop body over an entry; what it writes is stated, summed over the loop, by LoopOutcome, LoopTransitions, LoopHandlers, LoopPlaces and LoopExtracons, and it is what FlexNet.AddEntry is proved to do |
| EnzymeConstraints.Loop | gecko_smom_FNs_def.py:70-100 | the regime's loop in catalogue order, stopping at the first missing transition; its effect is stated by the Loop* lemmas, and FlexNet.AddCatalogue is proved to do it |
| EnzymeConstraints.Build | gecko_smom_FNs_def.py:63-178 | the whole builder; its effect is stated by BuildOutcome, BuildGlobals, BuildHandlers, BuildTransitions, BuildPlaces and the per-regime lemmas, and FlexNet.AddEnzymaticConstraints is proved to do it |
| EnzymeConstraints.GlobalCons | gecko_smom_FNs_def.py:177-178 | the growth equality then the uptake bound; BuildGlobals states that every successful run ends with them |
| EnzymeConstraints.Locks | gecko_smom_FNs_def.py:80-86 | the direction locks of a catalogue in order; stated by LocksLength, LocksMember, LocksOfEntry and LoopExtracons |
| EnzymeConstraints.Lock | gecko_smom_FNs_def.py:80-86 | an entry appends at most one lock, it appends one exactly when it is fcat or bcat, and that lock fixes the flow of its non-catalysed transition to 0 |
| ConstraintBuilder.FlexNet.constructor | gecko_smom_FNs_def.py:30 | the object holds exactly the net the lowering produced, with nothing assumed about its contents |
| ConstraintBuilder.FlexNet.AddEntry | gecko_smom_FNs_def.py:72-100 | one loop body in place: enzyme place first (GECKO regimes), then the failing subscript or l0 = 0, the handler and the lock; the new state equals ApplyEntry of the old |
| ConstraintBuilder.FlexNet.AddCatalogue | gecko_smom_FNs_def.py:70-100 | the loop over the catalogue in order, stopping at the first missing transition; the new state and the outcome equal Loop of the old state |
| ConstraintBuilder.FlexNet.AddEnzymaticConstraints | gecko_smom_FNs_def.py:63-178 | the whole builder in place equals Build; E_total is P; the run exits exactly on an unknown token; it succeeds exactly on a valid token when every subscripted transition exists (or in regime n); on success the objective is max t_EX_scino_f and the list ends with the growth and uptake constraints; on failure the objective is unchanged |
| ConstraintBuilder.FlexNet.AddRxnsConstraints | gecko_smom_FNs_def.py:41-178 | the script's run over its own catalogue equals Build over that catalogue |
| BuildTheorems.NameInjective | gecko_smom_FNs_def.py:73-76 | a key built as prefix + r + "_f"/"_b" determines both the reaction and the direction |
| BuildTheorems.TotalEnzymeNotPlace | gecko_smom_FNs_def.py:67-73 | no per-reaction enzyme place is the total-enzyme place E_total |
| BuildTheorems.LoopOutcome | gecko_smom_FNs_def.py:70-100 | the loop creates no transition and leaves the objective alone; it succeeds exactly when every catalysed transition exists, and otherwise fails at the first missing one |
| BuildTheorems.LoopKeepsTransitions | gecko_smom_FNs_def.py:70-100 | the loop creates no transition and leaves the objective alone |
| BuildTheorems.LoopFailure | gecko_smom_FNs_def.py:74-95 | the loop succeeds exactly when every catalysed transition exists, and otherwise fails at the first entry whose transition is missing |
| BuildTheorems.LoopTransitionsFrame | gecko_smom_FNs_def.py:74-95 | the loop changes no transition that no entry subscripts |
| BuildTheorems.LoopTransitions | gecko_smom_FNs_def.py:74-95 | after a successful loop every entry's catalysed transition has l0 = 0 |
| BuildTheorems.LoopHandlerKeys | gecko_smom_FNs_def.py:75-96 | a successful loop adds exactly one handler key per entry, on the entry's catalysed direction |
| BuildTheorems.LoopHandlersFrame | gecko_smom_FNs_def.py:75-96 | the loop leaves every handler that no entry writes unchanged |
| BuildTheorems.LoopHandlers | gecko_smom_FNs_def.py:75-96 | with distinct names, a successful loop gives each entry the regime's handler for it, keyed by its catalysed direction |
| BuildTheorems.LoopPlacesFrame | gecko_smom_FNs_def.py:73-94 | the loop writes no place but its entries' enzyme places, and none at all in regime s |
| BuildTheorems.LoopPlaceKeys | gecko_smom_FNs_def.py:73-94 | in g+s and g a successful loop adds exactly the entries' enzyme places |
| BuildTheorems.LoopPlaces | gecko_smom_FNs_def.py:73-94 | in g+s and g, with distinct names, each entry's enzyme place holds that entry's ea |
| BuildTheorems.LoopExtracons | gecko_smom_FNs_def.py:80-86 | a successful loop appends exactly the catalogue's direction locks, in catalogue order |
| BuildTheorems.LoopExtraconsFailed | gecko_smom_FNs_def.py:80-86 | a failed loop has appended nothing but direction locks |
| BuildTheorems.LocksLength | gecko_smom_FNs_def.py:80-86 | the catalogue has one direction lock per fcat or bcat entry |
| BuildTheorems.LocksMember | gecko_smom_FNs_def.py:80-86 | a constraint is among the catalogue's locks exactly when it is the lock of one of its entries |
| BuildTheorems.LockedDirection | gecko_smom_FNs_def.py:80-86 | with distinct names, direction d of an entry is locked exactly when the entry's type locks d |
| BuildTheorems.LocksOfEntry | gecko_smom_FNs_def.py:80-86 | with distinct names, the backward transition of an entry is locked exactly when it is fcat and the forward one exactly when it is bcat, so no entry locks both |
| BuildTheorems.BuildOutcome | gecko_smom_FNs_def.py:63-173 | every run sets E_total to P and creates no transition; it exits exactly on an unknown token; it succeeds exactly on a valid token when, outside n, every subscripted transition exists; otherwise it stops at the first missing transition |
| BuildTheorems.InvalidRegimeExits | gecko_smom_FNs_def.py:171-173 | an unknown token leaves the net reset, with E_total set to P, and nothing else changed |
| BuildTheorems.MissingTransitionStops | gecko_smom_FNs_def.py:74-158 | a run that fails at a missing transition has not set the objective and has appended only direction locks |
| BuildTheorems.BuildGlobals | gecko_smom_FNs_def.py:176-178 | a successful run maximises t_EX_scino_f; its extra constraints are the locks (none in n) followed by the growth equality and then the uptake bound; the count is (#fcat + #bcat) + 2, or 2 in n |
| BuildTheorems.BuildSummary | gecko_smom_FNs_def.py:63-178 | the facts of BuildOutcome and BuildGlobals that the builder method promises, for one run |
| BuildTheorems.NoEnzymeRegime | gecko_smom_FNs_def.py:168-169 | regime n succeeds with no handler, every transition unchanged, only E_total written and only the two global constraints |
| BuildTheorems.BuildHandlers | gecko_smom_FNs_def.py:70-161 | in g+s, g and s, with distinct names and all transitions present, the handlers are exactly one per entry, each the regime's handler for that entry |
| BuildTheorems.BuildTransitions | gecko_smom_FNs_def.py:74-158 | in g+s, g and s a successful run keeps the set of transitions, sets l0 = 0 on every catalysed transition and changes no other transition |
| BuildTheorems.BuildPlaces | gecko_smom_FNs_def.py:67-128 | in g+s and g the places are the old ones plus E_total plus one enzyme place per entry holding its ea, and every other old place keeps its value; in s and n only E_total is written |
| BuildTheorems.DirectionLocking | gecko_smom_FNs_def.py:80-152 | in g+s, g and s, before the two global constraints, t_r_b is locked exactly for fcat entries and t_r_f exactly for bcat entries |
| BuildTheorems.GeckoSMomentForward | gecko_smom_FNs_def.py:72-79 | in g+s an fonly or fcat entry r gets E_r_f = ea, l0 = 0 on t_r_f, and handler s_r_f with arcs e, r, p and exactly the constraints r <= kcat*ea and r <= kcat*p/mw |
| BuildTheorems.BackwardHandler | gecko_smom_FNs_def.py:83-155 | in g+s, g and s a bcat entry r gets handler s_r_b whose r arc goes to t_r_b, and no s_r_f handler exists |
| BuildTheorems.HandlerArcR | gecko_smom_FNs_def.py:76-159 | in every enzymatic regime a handler's r arc runs from the handler to its entry's catalysed transition |
| BuildTheorems.BackwardPlaces | gecko_smom_FNs_def.py:83-151 | in g+s, g and s a bcat entry r has l0 = 0 on t_r_b and, in g+s and g, E_r_b = ea; no E_r_f place is created |
| BuildTheorems.ScilloBounds | gecko_smom_FNs_def.py:93-161 | a scillo entry never gets an upper kcat*ea bound; it gets the lower bound r >= kcat*ea exactly in g+s and g and the pool bound exactly in g+s and s; in s the pool bound is its only constraint |
| BuildTheorems.GeckoHandlers | gecko_smom_FNs_def.py:107-132 | in g every handler has exactly the arcs e and r, none touching E_total, and one kcat*ea constraint; entry r's handler s_r_d has arcs e: E_r_d -> s_r_d and r: s_r_d -> t_r_d and exactly its own bound r <= kcat*ea (r >= kcat*ea for scillo) |
| BuildTheorems.GeckoHandlerShape | gecko_smom_FNs_def.py:110-132 | the GECKO-only handler of entry r is exactly arcs e: E_r_d -> s_r_d and r: s_r_d -> t_r_d, none touching E_total, with the one bound r <= kcat*ea (r >= kcat*ea for scillo) |
| BuildTheorems.SMomentHandlers | gecko_smom_FNs_def.py:139-161 | in s only E_total is written among the places, and every handler has exactly the arcs r and p, p from E_total, and the one constraint r <= kcat*p/mw of its entry |

## Left out

- `generate_sc_iYO844_def.py` is not part of this model. It reads and writes SBML through the cobra library and has no logic of its own.
- Reading the SBML model and lowering it to a Flexible Net (`cobra2fn`) are calls into a library this model cannot see. The lowered places and transitions are the constructor's parameters.
- The solver choice, `FNFactory`, `optimize()` and reading the results are the external LP solver and are left out. So is the `options` entry set just before it, which only that solver reads.
- Command-line parsing and every `print` are console I/O only. The regime token, growth rate and uptake bound are parameters.
- Numbers are opaque reals, and constraints are symbolic datatypes rather than the strings the script builds with `str()`. Neither `kcat*ea` nor any other product is evaluated.
- Transitions carry only their `l0` entry. The net's other attributes and the insertion order of its dictionaries are not modelled.
- The script updates the nested transition dictionaries in place; the model treats them as values, so aliasing is not captured.
- The exit status of `exit()` is not modelled; an unknown token is the outcome `InvalidRegime`.
- The per-regime printing branches that compare the uptake bound with its default are console output only.
- The concrete numbers of fcat and bcat entries in the script's catalogue are not proved. BuildGlobals states the count as `Count(cat, Fcat) + Count(cat, Bcat) + 2` for any catalogue.
- The per-entry theorems assume distinct reaction names. For the script's own catalogue this is proved by RxnsDistinct.
