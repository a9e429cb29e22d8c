# Loop memory and session audits, modelled in Dafny

This project models two cores of the repository and proves what they keep over whole runs.

**The memory of the loopback audit** (`audit-cycle-loopback`). Each cycle appends rows to
append-only histories; gates look back over them; compaction rewrites them.

- `MetricComparator`, `MetricValues`, `ParetoOrder`, `MetricOrder`: metric contracts, value normalisation,
  the five orderings and their order theory under a tolerance.
- `PrimaryMetric`, `MetricEvidence`, `MetricLineage`, `MetricRuns`, `MetricStall`, `MetricCounter`, `MetricMemory`,
  `MetricRegistry`: the primary-metric state machine (baseline, high-water, provenance, basis migration, streak,
  stall, sealed observation) and what holds over every run of it.
- `DurableProjection`, `ProjectionPrivacy`, `StoredValues`, `DurableIdempotence`, `ProjectionTraces`, `StoredMetric`,
  `StoredSeal`, `DurableMetric`, `SavedRuns`: the privacy projection of JSON trees, what it hides and keeps, its fixed points and
  the absence of cycles, and what saving a registry row, once or again and again, does to its metric gate and to
  whole runs.
- `Grouping`, `FamilyRegistry`, `RegistryCorrections`, `FamilyMoves`, `RootCauseLedger`, `LedgerEntries`,
  `LedgerCompaction`, `LedgerVerdict`, `LedgerHistory`, `LedgerTruncation`, `LedgerStream`, `VerdictRules`, `Streaks`, `StreakRules`:
  the two compactions, batch and streamed, the verdicts and the look-back streaks over them.
- `Recurrence`, `RecurrenceRules`, `InvocationLog`, `InvocationRules`, `ConsumerReceipt`, `ReceiptRules`,
  `QualityPolicy`, `QualityRules`: the recurrence contract, the hook-call log and its receipts, the metric-key policy.

**The session capture and audit pair** (`audit-session-governance`): `SessionLines`,
`SessionEvents`, `SessionAcceptance`, `SessionParsing`, `SessionReport`, `SessionCapture`, `CaptureRules`,
`SessionPackets`, `PacketComplaints`, `SessionValidation`, `SessionExample`. One side writes a projection of a transcript, the other parses it, builds a packet and
validates packets against their source.

The modules named `...Rules`, `...Entries`, `...Report`, `...Values`, `MetricEvidence`, `RegistryCorrections`,
`SessionAcceptance` and `PacketComplaints` say in their own words, on the inputs, what the operations decide
and report, and prove that the operations do exactly that.

Code that works by loops over mutable state is modelled by methods with loops (and a class for the
hook-call log), each proved equal to a specification function; the theorems are about those functions.

## Where the code does not do what one might expect

- The comment at `common.py:31-33` says the ledger bound cannot change a gate verdict. It can
  (`LedgerTruncation.TruncationChangesVerdict`); `TruncationVerdictIff` says exactly when it does not.
- With three vector axes and a positive tolerance, improvements can go round in circles or lower every
  axis (`MetricOrder.VectorReturnsIffThreeAxes`, `ImprovementsCanWorsenEveryAxis`).
- Going back to an old metric basis forgets what happened on the others (`MetricMemory.DetourIsForgotten`);
  relabelling a root and back clears its recurrence count (`Recurrence.DetourClearsCount`).
- Regrouping the registry by family can break a streak whose scope spans families
  (`Streaks.RegroupingBreaksStreak`); `CompactionKeepsStreakIff` says exactly when compaction cannot.
- On a compacted registry no streak is longer than the per-family bound times the number of families its scope
  spans (`Streaks.SpanCapsStreak`, reached by `SpanIsReached`). Where the scope is one family of the history, a
  cap above the bound plus one is never met (`Streaks.BoundCapsStreak`, `CapUnreachable`).
- Saving the registry replaces the values of set, vector and ranked metrics by references, so their gates
  fail the observation check from then on: in every saved run such a metric starts over each cycle, never
  moves and never stalls (`SavedRuns.ReplacedNeverMoves`); plain metrics do not notice
  (`SavedRuns.SavingIsInvisible`).
- Compacting the ledger a second time can forget an attempt and with it an exhaustion verdict
  (`LedgerTruncation.RecompactionLoses`); `RecompactionVerdictIff` says exactly when it does not.
- A correction that moves a row to another family can make the streamed registry differ from the batch one
  (`FamilyRegistry.MoveRevivesDropped`); `FamilyMoves.StreamStepIff` says exactly when it does not.
- A packet may write its version as 1.0 or true and still validate, if that does not show in the audit id
  (`SessionValidation.ValidatesIff`, `TwinsValidate`).
- An adverse compatibility verdict erases the metric policy's own contract errors
  (`QualityPolicy.CompatibilityNeverAdds`).
- A captured text with a NEL, LS or PS character is written as one JSON line that the auditor reads as
  two broken ones (`SessionCapture.CaptureIsAccepted`).

- Two attempts whose cycle names hold a colon can share a registry key and are then merged
  (`RegistryCorrections.KeysCollide`).

## Conventions

In the metric and projection modules SHA-256 digests are symbolic terms (`Json.Sha`, `PrimaryMetric.Digest`)
and so injective; in the session modules a digest is any function to 64 hex digits. Floating-point numbers
are reals. Label normalisers, `str`, lower-casing, timestamp parsing, UTF-8 decoding and JSON printing and
reading are function parameters; the few facts a theorem needs about them are written as a named predicate
in its `requires` (`SessionCapture.Lawful`, `SessionValidation.Sound`, `Recurrence.Sensible`,
`QualityPolicy.WordsStay`, `DurableMetric.Faithful` and `Legible`). `SessionExample.ExampleIsLawful`,
`SessionValidation.BlindIsSound` and `DurableMetric.Understood` give examples that meet them. UTF-8 encoding
and line splitting are concrete. `Times(k, x)` is k·x. Dictionaries with a closed key set are records; a
missing key reads as null.

## Model

| member | source | states |
|---|---|---|
| MetricComparator.NormalizeIsNormalForm | audit-cycle-loopback/scripts/audit_cycle_loopback/metric_comparator.py:180-214 | normalising a value lands in the contract's normal form, and the normal values are exactly the fixed points, so re-reading a stored value changes nothing |
| MetricComparator.SetOfMeaning | audit-cycle-loopback/scripts/audit_cycle_loopback/metric_comparator.py:57-68 | a listing is accepted as a set if and only if every item is a scalar and none repeats, and then the result is precisely those scalars |
| MetricValues.NormalizeExactly | audit-cycle-loopback/scripts/audit_cycle_loopback/metric_comparator.py:41-86 | which value each kind of contract reads, and as what: numbers and numeric text but no truth values, sets of distinct scalars, dictionaries of trimmed distinct axes with exactly the contract's names, listed ranks, truth values; everything else is refused |
| MetricValues.RankIsPlace | audit-cycle-loopback/scripts/audit_cycle_loopback/metric_comparator.py:89-138 | under a valid ordered contract a value's rank is the one place where it is listed |
| MetricValues.AxisIsPlace | audit-cycle-loopback/scripts/audit_cycle_loopback/metric_comparator.py:89-138 | under a valid vector contract the axes are trimmed names, each listed once |
| MetricRegistry.CollectSet | audit-cycle-loopback/scripts/audit_cycle_loopback/metric_comparator.py:57-68 | the token-table loop computes the set reading that `SetOfMeaning` characterises, with its error cases |
| MetricRegistry.CollectAxes | audit-cycle-loopback/scripts/audit_cycle_loopback/metric_comparator.py:71-86 | the axis-table loop refuses blank or repeated axis names and non-numbers, and otherwise computes the axis map |
| MetricOrder.CompareMirrors | audit-cycle-loopback/scripts/audit_cycle_loopback/metric_comparator.py:281-364 | for all five orderings and a non-negative tolerance, swapping the arguments swaps improvement with regression and keeps every other relation |
| MetricOrder.ScalarComparesExactly | audit-cycle-loopback/scripts/audit_cycle_loopback/metric_comparator.py:268-280 | a scalar improves if and only if it gains more than the tolerance in its direction, worsens if and only if it loses more, and is never incomparable |
| MetricOrder.LadderComparesExactly | audit-cycle-loopback/scripts/audit_cycle_loopback/metric_comparator.py:281-318 | predicate, target and ordered metrics improve if and only if they climb a rung and worsen if and only if they lose one, whatever the tolerance |
| MetricOrder.SetComparesExactly | audit-cycle-loopback/scripts/audit_cycle_loopback/metric_comparator.py:319-341 | sets improve, worsen, agree or are incomparable exactly as strict inclusion in the configured direction has it |
| MetricOrder.SelfImprovementIffNegative | audit-cycle-loopback/scripts/audit_cycle_loopback/metric_comparator.py:268-280 | a scalar reading improves on itself exactly when the tolerance is negative, which is why the run theorems ask for a tolerance of at least zero |
| MetricOrder.ScalarGain | audit-cycle-loopback/scripts/audit_cycle_loopback/metric_comparator.py:268-280 | over any climbing sequence, k scalar improvements gain more than k tolerances, and without one the value never changed |
| MetricOrder.LadderBoundsMoves | audit-cycle-loopback/scripts/audit_cycle_loopback/metric_comparator.py:281-341 | for predicate, ordered, set and target metrics each improvement takes at least one rung, so the number of moves is bounded by the rungs gained (for sets, by the change in cardinality) |
| MetricOrder.FiniteLaddersRunOut | audit-cycle-loopback/scripts/audit_cycle_loopback/metric_comparator.py:281-341 | a predicate or target metric improves at most once in its life, an ordered one at most ranks - 1 times |
| MetricOrder.CompareIsBetter | audit-cycle-loopback/scripts/audit_cycle_loopback/metric_comparator.py:342-358 | a vector improves if and only if some axis gains more than the tolerance and none loses more, worsens in the mirrored case, agrees if none moves that far, and is incomparable otherwise |
| MetricOrder.VectorDriftBound | audit-cycle-loopback/scripts/audit_cycle_loopback/metric_comparator.py:342-364 | after k vector improvements no axis is more than k tolerances worse than at the start (with tolerance zero: never worse) |
| MetricOrder.VectorReturnsIffThreeAxes | audit-cycle-loopback/scripts/audit_cycle_loopback/metric_comparator.py:342-358 | some non-empty run of vector improvements comes back to its start if and only if the contract has at least three axes and the tolerance is positive |
| MetricOrder.ImprovementsCanWorsenEveryAxis | audit-cycle-loopback/scripts/audit_cycle_loopback/metric_comparator.py:342-358 | with three axes and a positive tolerance, from every vector three improvements in a row can leave every single axis strictly worse |
| ParetoOrder.LoopIffThree | audit-cycle-loopback/scripts/audit_cycle_loopback/metric_comparator.py:342-358 | the order-theoretic core on points: improvements can loop exactly with three coordinates and a positive tolerance; with at most two the sum strictly grows |
| MetricLineage.RecordedGateCountsIff | audit-cycle-loopback/scripts/audit_cycle_loopback/metric_observation.py:80-151 | evaluating, binding and sealing a reading gives a gate that passes eligibility and the observation check if and only if the evidence is independent, the verdict is compatible, the artifact binding is valid and any basis change carries an accepted receipt |
| MetricEvidence.CountsExactly | audit-cycle-loopback/scripts/audit_cycle_loopback/metric_observation.py:216-314 | the same in terms of the reading itself: the provenance hook answered, declared and found label are independent verification, the separation word is pass, the verdict word is compatible, the artifact reference is allowed, and a gate on another basis has exactly the one receipt that names both bases, observations, lineages, artifact and evidence |
| MetricEvidence.ReferenceAllowedIff | audit-cycle-loopback/scripts/audit_cycle_loopback/metric_observation.py:161-213 | an artifact reference is a valid binding if and only if it fully identifies a current decision subject, with its four applicability rows, or names no subject field and identifies an artifact with digests and inputs |
| MetricEvidence.ReferenceKept | audit-cycle-loopback/scripts/audit_cycle_loopback/metric_observation.py:69-77 | what is kept of a reference: the ten subject fields if one of the five identifying ones is there, else the seven artifact fields, as given |
| MetricEvidence.LabelExactly | audit-cycle-loopback/scripts/audit_cycle_loopback/primary_metric_evaluation.py:21-72 | the label published for evidence that is not independently verified |
| MetricEvidence.OtherBasisIsNewest | audit-cycle-loopback/scripts/audit_cycle_loopback/primary_metric_registry.py:170-191 | the gate a basis migration starts from is the newest that counts and differs from the contract in its basis and in nothing else |
| MetricEvidence.ValuesExactly | audit-cycle-loopback/scripts/audit_cycle_loopback/primary_metric_evaluation.py:191-286 | in every recorded gate relation, previous value, high-water and movement flags agree: the better of reading and previous high-water is kept as far as the evidence is independent |
| MetricEvidence.VerdictsExactly | audit-cycle-loopback/scripts/audit_cycle_loopback/primary_metric_evaluation.py:244-286 | in every recorded gate evaluation, cap and stall follow from relation, provenance, verdict and the gate's own streak |
| MetricEvidence.BasisExactly | audit-cycle-loopback/scripts/audit_cycle_loopback/primary_metric_evaluation.py:83-150 | in every recorded gate comparability, migration status and reason tell the same story |
| MetricEvidence.StreakExactly | audit-cycle-loopback/scripts/audit_cycle_loopback/primary_metric_registry.py:11-60 | over any history: the recorded streak is zero on movement, one more than the newest gate's in scope without it, a recount of the trailing unmoved gates where that gate carries none, and the streak taken up where the reading is not judged |
| MetricEvidence.SealFixesGate | audit-cycle-loopback/scripts/audit_cycle_loopback/metric_observation.py:216-314 | two gates that count and carry the same observation digest agree in contract, high-water, streak, flags, provenance and migration |
| MetricEvidence.SealVouches | audit-cycle-loopback/scripts/audit_cycle_loopback/metric_observation.py:216-314 | the seal of a gate that counts covers its evidence, its verdict and a receipt for this very transition |
| MetricLineage.DigestPinsHighWater | audit-cycle-loopback/scripts/audit_cycle_loopback/primary_metric_registry.py:139-167 | a recorded high-water is usable as a baseline only as recorded: the sealed digest pins the stored value to its own normal form |
| MetricLineage.BaselineIsLineageEnd | audit-cycle-loopback/scripts/audit_cycle_loopback/primary_metric_registry.py:139-167 | the baseline look-back returns exactly the newest gate of the contract's lineage, for every history |
| MetricLineage.LineageIsChain | audit-cycle-loopback/scripts/audit_cycle_loopback/primary_metric_evaluation.py:208-286 | in every run, the gates that can serve a contract form a chain: the first carries its own value, each later one keeps the high-water or replaces it by an improvement and says so |
| MetricRuns.ScalarRunGain | audit-cycle-loopback/scripts/audit_cycle_loopback/primary_metric_evaluation.py:208-286 | over every run, k reported moves of a scalar metric gained more than k tolerances; with none the high-water never changed |
| MetricRuns.LadderRunMoves | audit-cycle-loopback/scripts/audit_cycle_loopback/primary_metric_evaluation.py:208-286 | over every run, predicate and target metrics report at most one move, ordered ones at most ranks - 1, sets at most the change in cardinality |
| MetricRuns.VectorRunDrift | audit-cycle-loopback/scripts/audit_cycle_loopback/primary_metric_evaluation.py:208-286 | over every run, k reported vector moves left no axis more than k tolerances worse than in the first recorded high-water |
| MetricStall.KeyClash | audit-cycle-loopback/scripts/audit_cycle_loopback/metric_comparator.py:217-237 | two contracts share a lineage key if and only if they are equal or are both legacy scalars that differ only in a metric name the normaliser identifies |
| MetricStall.ScopeIsLineage | audit-cycle-loopback/scripts/audit_cycle_loopback/primary_metric_registry.py:11-60 | in every run whose keys separate its contracts, the scope look-back of the streak and the baseline look-back find the same gate |
| MetricStall.StalledExactlyAtCap | audit-cycle-loopback/scripts/audit_cycle_loopback/primary_metric_evaluation.py:244-283 | in every run with a fixed cap and no adapter-asserted stall, every recorded gate with a compatible verdict is stalled exactly when its own streak has reached the cap |
| MetricStall.OnlyVerifiedMovementClears | audit-cycle-loopback/scripts/audit_cycle_loopback/primary_metric_evaluation.py:244-283 | once a lineage is stalled, a further reading of it stays stalled unless it is independently verified movement, which also resets the streak |
| MetricCounter.LineageIsCounted | audit-cycle-loopback/scripts/audit_cycle_loopback/primary_metric_registry.py:11-60 | in every run whose keys separate its contracts, each gate of a lineage stores its predecessor's streak plus one if it is comparable and unmoved, zero if it moved, and repeats it if it was not judged |
| MetricCounter.FirstGate | audit-cycle-loopback/scripts/audit_cycle_loopback/primary_metric_evaluation.py:226-254 | a lineage that starts on its only basis starts at zero, unmoved, with its own value |
| MetricCounter.StreakCounts | audit-cycle-loopback/scripts/audit_cycle_loopback/primary_metric_registry.py:11-60 | the streak of a lineage gate is the number of comparable unmoved gates since the last movement, plus what its first gate brought along |
| MetricCounter.CapStalls | audit-cycle-loopback/scripts/audit_cycle_loopback/primary_metric_evaluation.py:244-283 | so as many unmoved readings in a row as the cap do stall |
| MetricMemory.NonInterference | audit-cycle-loopback/scripts/audit_cycle_loopback/primary_metric_registry.py:93-105 | deleting every row that does not count (attested-only, incompatible, unverified migration) changes no later recorded gate |
| MetricMemory.OneRowSuffices | audit-cycle-loopback/scripts/audit_cycle_loopback/primary_metric_registry.py:11-60 | in a run whose keys separate its contracts, the whole history can be replaced by a single row, or none, without changing the evaluation |
| MetricMemory.MigrationCarriesStall | audit-cycle-loopback/scripts/audit_cycle_loopback/primary_metric_evaluation.py:226-283 | moving to a basis with no row of its own never reports movement, carries the old streak and stall flag over unchanged, and can serve as a later baseline if and only if its receipt was accepted (given a valid artifact binding) |
| MetricMemory.DetourIsForgotten | audit-cycle-loopback/scripts/audit_cycle_loopback/primary_metric_evaluation.py:226-254 | going back to an old basis resumes that basis's own streak and stall flag, whatever was recorded on other bases in between |
| MetricRegistry.FindBaseline | audit-cycle-loopback/scripts/audit_cycle_loopback/primary_metric_registry.py:139-167 | the reverse loop with early exit returns the newest gate that can serve the contract, as the look-back specifies |
| MetricRegistry.FindOtherBasis | audit-cycle-loopback/scripts/audit_cycle_loopback/primary_metric_registry.py:170-191 | the reverse loop returns the newest eligible gate of the same metric on another basis |
| MetricRegistry.ZeroMovementStreak | audit-cycle-loopback/scripts/audit_cycle_loopback/primary_metric_registry.py:11-60 | the counting loop returns the stored counter of the newest row in scope, or recounts back to the last movement |
| MetricRegistry.RegistryHighWater | audit-cycle-loopback/scripts/audit_cycle_loopback/primary_metric_registry.py:63-90 | the scan returns a best recorded number of the lineage: a member of the scanned values that none of them beats |
| MetricRegistry.ScanFindsNewest | audit-cycle-loopback/scripts/audit_cycle_loopback/primary_metric_registry.py:63-90 | in every run, the best number over the whole registry is the one the newest row of the lineage already carries |
| DurableIdempotence.FixedIff | audit-cycle-loopback/scripts/audit_cycle_loopback/durable_projection.py:223-264 | projecting a tree leaves it alone if and only if it is clean: no sensitive key, no path-like text under a locating key, no null in a list, findings reduced to severity and code, and every metric gate quiet, named and marked |
| ProjectionPrivacy.ProjectionIsPrivate | audit-cycle-loopback/scripts/audit_cycle_loopback/durable_projection.py:184-264 | whatever is projected, the result holds no sensitive key, no path-like text under a key that refers to something, findings reduced to severity and code, and no metric value that had to be replaced |
| ProjectionPrivacy.DropsNothingElse | audit-cycle-loopback/scripts/audit_cycle_loopback/durable_projection.py:223-264 | a key that the projection drops was sensitive or referred to path-like text |
| StoredValues.GateFollows | audit-cycle-loopback/scripts/audit_cycle_loopback/durable_projection.py:133-220 | every metric value of a stored gate is itself if it is plain and else the digest reference to it, with its shape and size; nothing else changes but the named settings and the mark |
| StoredValues.MarkExactly | audit-cycle-loopback/scripts/audit_cycle_loopback/durable_projection.py:174-220 | a stored gate that refers to a digest anywhere is marked, and an unmarked gate is marked only then |
| DurableIdempotence.ProjectTwiceIff | audit-cycle-loopback/scripts/audit_cycle_loopback/durable_projection.py:223-264 | projecting a projected tree changes nothing if and only if every metric gate that survives in it holds no value that must be replaced by a reference |
| DurableIdempotence.GateTwiceIff | audit-cycle-loopback/scripts/audit_cycle_loopback/durable_projection.py:184-220 | a projected metric gate is left alone by a second projection if and only if none of its metric values (own, configured or observed) is replaced by a reference; a replaced value is replaced again, differently |
| ProjectionTraces.NoCycles | audit-cycle-loopback/scripts/audit_cycle_loopback/durable_projection.py:184-264 | the projection has no cycles: a value that any number of projections gives back is one that the first leaves alone |
| DurableIdempotence.KeptWholeIff | audit-cycle-loopback/scripts/audit_cycle_loopback/durable_projection.py:225-244 | a dictionary is kept whole exactly when none of its keys is sensitive and each child is itself left alone |
| StoredMetric.RowStoresGate | audit-cycle-loopback/scripts/audit_cycle_loopback/cli.py:114-119 | in a stored row the metric gate is the projected gate under the gate's own rule |
| StoredMetric.StoredCountsIff | audit-cycle-loopback/scripts/audit_cycle_loopback/metric_observation.py:216-305 | a sealed JSON gate counts after its row is stored if and only if it counted before, its observation passes the projection unchanged, and the projections of its verification and compatibility records are final |
| StoredSeal.SealFixesStored | audit-cycle-loopback/scripts/audit_cycle_loopback/metric_observation.py:216-314 | two stored gates that count under the same seal state the same in every field that later cycles read, so none can be edited without breaking the seal |
| StoredSeal.CountedIsDigested | audit-cycle-loopback/scripts/audit_cycle_loopback/metric_observation.py:216-314 | the observation of a stored gate that counts digests value, high-water, evidence and verdict; the evidence is independent and the verdict compatible |
| StoredSeal.CountedTransition | audit-cycle-loopback/scripts/audit_cycle_loopback/metric_observation.py:216-314 | a stored gate on a new basis that counts holds a receipt for this very transition, any other nothing of one |
| StoredMetric.SavedCountsIff | audit-cycle-loopback/scripts/audit_cycle_loopback/cli.py:114-119 | however often its row is saved, a sealed gate counts if and only if it counted before and its observation and records endure; no later save brings a lost gate back |
| StoredMetric.ReplacedIsLost | audit-cycle-loopback/scripts/audit_cycle_loopback/durable_projection.py:123-171 | an observed set or vector, a list of ranks or a table of directions is replaced by a reference, and such a gate never counts once stored |
| DurableMetric.WrittenCountsIff | audit-cycle-loopback/scripts/audit_cycle_loopback/primary_metric_registry.py:93-105 | a recorded gate, written out as JSON, passes the eligibility and observation checks on the JSON if and only if the recorded gate is eligible |
| DurableMetric.SavedGateCountsIff | audit-cycle-loopback/scripts/audit_cycle_loopback/cli.py:114-119 | a recorded gate still counts after its row is saved if and only if it is eligible and lasting: one value at a time with no settings but a plain target, plain labels as value and high-water, nothing sensitive or path-like in binding and receipt, and final verification and compatibility records |
| SavedRuns.RegistryMirrorsRun | audit-cycle-loopback/scripts/audit_cycle_loopback/cli.py:114-119 | over every run in which each cycle appends its row as JSON and projects all rows again, each stored row counts if and only if the record the saved run keeps for it does, and then it carries that record's observation, repeated fields, lineage identifier and seal |
| SavedRuns.ReplacedStartsOver | audit-cycle-loopback/scripts/audit_cycle_loopback/primary_metric_evaluation.py:208-286 | in every run saved after each cycle, a set, vector or ranked metric (or one with an unplain target) is evaluated as if there were no history |
| SavedRuns.ReplacedNeverMoves | audit-cycle-loopback/scripts/audit_cycle_loopback/primary_metric_evaluation.py:244-283 | so its high-water is always its own value, it never moves, is never judged and no cap ever stalls it |
| SavedRuns.RecordLastsIff | audit-cycle-loopback/scripts/audit_cycle_loopback/durable_projection.py:184-220 | on a saved history whether the next gate lasts is decided by its reading, evidence and records alone, because the high-water it inherits is plain |
| SavedRuns.SavingIsInvisible | audit-cycle-loopback/scripts/audit_cycle_loopback/cli.py:114-119 | if every reading of a run lasts, the saved run records exactly the gates the unsaved run does |
| FamilyMoves.StreamStepIff | audit-cycle-loopback/scripts/audit_cycle_loopback/family_registry.py:30-66 | compacting after an append gives what compacting the whole history gives if and only if the new row names no attempt, a fresh one, or corrects one acceptably: its row stays in its family and is still kept; or it moves out of a family that fits the bound and both the rows of the new family and the order of the families settle; or, already dropped, it comes back exactly as the correction would have made it |
| FamilyMoves.KeptMoveIff | audit-cycle-loopback/scripts/audit_cycle_loopback/family_registry.py:60-66 | moving one row to another family before or after regrouping gives the same list if and only if no row of the new family stands on the wrong side of it (unless the bound cuts the row off) and no third family first appears in between |
| FamilyMoves.DroppedMoveIff | audit-cycle-loopback/scripts/audit_cycle_loopback/family_registry.py:60-66 | a moving correction of a row the bound has dropped agrees with appending the new row if and only if the two rows are equal, it comes last in its family, and the families stand as after an append |
| FamilyRegistry.StayStepIff | audit-cycle-loopback/scripts/audit_cycle_loopback/family_registry.py:30-66 | where corrections stay in their family, the condition is that the new row names no attempt, a fresh one, or one still kept |
| FamilyMoves.StreamingEqualsBatchIff | audit-cycle-loopback/scripts/audit_cycle_loopback/family_registry.py:30-66 | over every history whose corrections leave keys alone, compacting after each append agrees with compacting the whole history throughout if and only if every row is absorbed when it arrives |
| FamilyRegistry.CompactIsNormalForm | audit-cycle-loopback/scripts/audit_cycle_loopback/family_registry.py:30-66 | compacting a compacted registry changes nothing if and only if no two of its rows now carry the same attempt key, which holds whenever kept rows keep the key they were filed under; with a positive bound no family has more rows than the bound |
| FamilyRegistry.MoveRevivesDropped | audit-cycle-loopback/scripts/audit_cycle_loopback/family_registry.py:37-66 | a correction that moves a kept row out of a family with more rows than the bound always makes compacting after the append differ from compacting the whole history |
| FamilyRegistry.KeySteadyIff | audit-cycle-loopback/scripts/audit_cycle_loopback/registry_identity.py:126-141 | a corrected row keeps its logical-attempt key exactly when the key came from cycle and input fingerprint or the merged row still lacks one of them |
| FamilyRegistry.RegroupingReordersHistory | audit-cycle-loopback/scripts/audit_cycle_loopback/family_registry.py:60-66 | order is kept only inside a family: three rows of two families come out with the newest no longer last |
| FamilyRegistry.Deduplicate | audit-cycle-loopback/scripts/audit_cycle_loopback/family_registry.py:31-59 | the index-dictionary loop that replaces list entries in place computes the deduplicated rows |
| RegistryCorrections.KeptRowsExactly | audit-cycle-loopback/scripts/audit_cycle_loopback/family_registry.py:30-66 | over every history whose rows state no correction of their own, each kept row names no attempt and is as it was, or is its attempt's rows laid over each other, marked as a correction if and only if a label changed on the way |
| RegistryCorrections.MarksExactly | audit-cycle-loopback/scripts/audit_cycle_loopback/family_registry.py:41-57 | the marks come together: the candidate is one more than the superseded revision, and superseded revision and identity are those the attempt had before |
| RegistryCorrections.CorrectionsExactly | audit-cycle-loopback/scripts/audit_cycle_loopback/family_registry.py:41-57 | what any sequence of rows of one attempt leaves, field by field |
| RegistryCorrections.SameAttemptIff | audit-cycle-loopback/scripts/audit_cycle_loopback/registry_identity.py:126-133 | two rows are of the same attempt if and only if they name the same cycle and input fingerprint or, where one is missing, the same attempt |
| RegistryCorrections.KeysCollide | audit-cycle-loopback/scripts/audit_cycle_loopback/registry_identity.py:126-133 | with a colon inside a cycle name two different attempts can share a key |
| RegistryCorrections.FamilyKeepsLast | audit-cycle-loopback/scripts/audit_cycle_loopback/family_registry.py:58-66 | a family keeps the last of its attempts, in order, up to the bound |
| Grouping.TailIsSlice | audit-cycle-loopback/scripts/audit_cycle_loopback/family_registry.py:60-66 | the bound is the Python slice of the last items, also for a bound of zero (everything) or below (all but the first) |
| FamilyRegistry.CompactRegistry | audit-cycle-loopback/scripts/audit_cycle_loopback/family_registry.py:30-66 | the whole imperative compaction (index dictionary, buckets, slices) computes the specified compaction |
| LedgerVerdict.ExhaustionState | audit-cycle-loopback/scripts/audit_cycle_loopback/root_cause.py:244-287 | the counting loop and the reverse streak loop compute the verdict, the vacuous and positive counts and the streak |
| VerdictRules.ExhaustedIff | audit-cycle-loopback/scripts/audit_cycle_loopback/root_cause.py:244-287 | a hypothesis is exhausted if and only if there is a positive budget, no attempt in scope helped, and the failed ones meet the budget |
| VerdictRules.OneMoreRow | audit-cycle-loopback/scripts/audit_cycle_loopback/root_cause.py:198-287 | one more row adds what it stands for to the failed attempts and to their streak, or ends the streak, or is not looked at, as its scope, attempt and outcome have it |
| LedgerVerdict.CountsConserved | audit-cycle-loopback/scripts/audit_cycle_loopback/root_cause_registry.py:46-77 | with no repeated attempt/hypothesis pair, a kept entry's attempt and vacuous counts are the numbers of such rows of its family and hypothesis in the input |
| LedgerVerdict.MergedConserves | audit-cycle-loopback/scripts/audit_cycle_loopback/root_cause_registry.py:46-77 | merging conserves the total of vacuous attempts in the scope of any query, across all families |
| LedgerVerdict.SameVerdictsIff | audit-cycle-loopback/scripts/audit_cycle_loopback/root_cause.py:244-287 | two ledgers give the same exhaustion verdict at every budget exactly when they reach equally far |
| LedgerHistory.MergeVerdictIff | audit-cycle-loopback/scripts/audit_cycle_loopback/root_cause_registry.py:56-67 | merging keeps the exhaustion verdict at every budget if and only if, in the input rows: where some attempt helped, a hypothesis that any row changed is still attempted in its newest row or no other hypothesis still counts as a failed attempt; where none helped, every hypothesis tried in vain is still attempted in its newest row |
| LedgerVerdict.MergeKeepsVerdict | audit-cycle-loopback/scripts/audit_cycle_loopback/root_cause_registry.py:46-77 | on every history of fresh rows where outcomes change only on attempted rows and an attempted hypothesis stays attempted, merging changes no verdict |
| LedgerCompaction.CompactTwice | audit-cycle-loopback/scripts/audit_cycle_loopback/root_cause_registry.py:19-77 | compacting a compacted ledger does exactly one thing: it demotes the rows that share attempt and hypothesis with an earlier row |
| LedgerStream.CompactStableIff | audit-cycle-loopback/scripts/audit_cycle_loopback/root_cause_registry.py:19-77 | compaction is stable if and only if each row that shares attempt and hypothesis with an earlier one already is a zeroed correction; always for a history in which a repeated pair is only ever a replay |
| LedgerStream.ReplayIff | audit-cycle-loopback/scripts/audit_cycle_loopback/root_cause_registry.py:19-44 | re-appending the last cycle's entries to the compacted ledger changes nothing if and only if the bound still holds every hypothesis they name; so always where nothing is truncated |
| LedgerStream.StreamStepIff | audit-cycle-loopback/scripts/audit_cycle_loopback/root_cause_runtime.py:237-240 | compacting the compacted ledger and one more row gives what compacting the whole history gives if and only if the row is welcome: its attempt's record still speaks, and unless it is a replay its hypothesis is new to the family or within the bound |
| LedgerStream.RowByRowIff | audit-cycle-loopback/scripts/audit_cycle_loopback/root_cause_runtime.py:237-240 | over every history in which a repeated attempt/hypothesis pair is only ever a replay, compacting after each row agrees with compacting the whole history throughout if and only if every row is welcome when it arrives |
| LedgerStream.StreamingEqualsBatch | audit-cycle-loopback/scripts/audit_cycle_loopback/root_cause_runtime.py:237-240 | over every run of cycles with distinct pairs in which no cycle takes up a hypothesis the bound has dropped, compacting after each cycle equals compacting once |
| LedgerStream.StreamedVerdictIff | audit-cycle-loopback/scripts/audit_cycle_loopback/root_cause_runtime.py:237-240 | on such disciplined runs the streamed ledger gives the full history's verdict at every budget if and only if the history is safe to truncate |
| LedgerStream.StreamKeepsVerdict | audit-cycle-loopback/scripts/audit_cycle_loopback/root_cause_runtime.py:237-240 | without a bound the streamed ledger of every disciplined run gives every verdict of the full history |
| LedgerTruncation.BoundKeepsIff | audit-cycle-loopback/scripts/audit_cycle_loopback/root_cause_registry.py:46-77 | the bound keeps a hypothesis's entry if and only if fewer other hypotheses of its family than the bound first appear after it |
| LedgerTruncation.TruncationVerdictIff | audit-cycle-loopback/scripts/audit_cycle_loopback/root_cause_registry.py:76-76 | the per-family bound keeps the verdict at every budget if and only if, in the input rows, some helpful hypothesis is within the bound, or one is beyond it and no failing one is within, or none is helpful and every failing one is within |
| LedgerTruncation.CompactVerdictIff | audit-cycle-loopback/scripts/audit_cycle_loopback/root_cause_registry.py:10-77 | on disciplined histories that is the only way compaction as a whole can change a verdict |
| LedgerTruncation.TruncationChangesVerdict | audit-cycle-loopback/scripts/audit_cycle_loopback/common.py:31-33 | contrary to the comment on the bound, it can change a gate verdict: two vacuous attempts exhaust a budget of two, the compacted ledger does not |
| LedgerTruncation.TruncationDropsNewest | audit-cycle-loopback/scripts/audit_cycle_loopback/root_cause_registry.py:51-76 | entries keep the place of their first row, so the bound can drop the hypothesis that was updated last |
| LedgerTruncation.RecompactionZeroesCounts | audit-cycle-loopback/scripts/audit_cycle_loopback/root_cause_registry.py:30-41 | counts absorbed by a label correction are zeroed when the ledger is compacted again |
| LedgerTruncation.RecompactionLoses | audit-cycle-loopback/scripts/audit_cycle_loopback/root_cause_registry.py:30-41 | one hypothesis tried in two families, the first attempt relabelled into the second: the compacted ledger holds both attempts and exhausts a budget of two, compacted again it holds one and does not |
| LedgerTruncation.RecompactionVerdictIff | audit-cycle-loopback/scripts/audit_cycle_loopback/root_cause_registry.py:19-77 | compacting a compacted ledger once more keeps its exhaustion verdict at every budget if and only if, where some entry helped, one that shares its attempt with no earlier entry helped or no such entry failed, and where none helped, no entry that shares its attempt with an earlier one failed |
| LedgerTruncation.CompactThrice | audit-cycle-loopback/scripts/audit_cycle_loopback/root_cause_registry.py:19-77 | a third compaction never changes anything more |
| LedgerTruncation.AdmitAll | audit-cycle-loopback/scripts/audit_cycle_loopback/root_cause_registry.py:19-44 | the first loop drops replays and turns relabelled entries of a known attempt into zeroed corrections |
| LedgerTruncation.MergeFamily | audit-cycle-loopback/scripts/audit_cycle_loopback/root_cause_registry.py:52-75 | the merge loop over `latest_by_equivalence` keeps one entry per hypothesis, in order of first appearance |
| LedgerTruncation.CompactLedger | audit-cycle-loopback/scripts/audit_cycle_loopback/root_cause_registry.py:10-77 | the three loops together compute the specified compaction |
| LedgerEntries.AlikeIff | audit-cycle-loopback/scripts/audit_cycle_loopback/root_cause.py:205-225 | two rows share a key if and only if their slugged cause, their trimmed surface (the first filled of target surface, blocker, root key, root family and family) and their trimmed delta class agree |
| LedgerEntries.NewAdmitted | audit-cycle-loopback/scripts/audit_cycle_loopback/root_cause_registry.py:19-41 | a row that repeats no admitted attempt at the same hypothesis is admitted as it is |
| LedgerEntries.RepeatAdmitted | audit-cycle-loopback/scripts/audit_cycle_loopback/root_cause_registry.py:19-41 | a repeated attempt is dropped if it carries the labels of the newest it repeats, and is else admitted as a correction that counts for nothing |
| LedgerEntries.EntriesSummarize | audit-cycle-loopback/scripts/audit_cycle_loopback/root_cause_registry.py:42-77 | each entry of the compacted ledger is the summary of its family's rows on its hypothesis: counts added up, outcome and first cycle kept, the rest from the newest |
| LedgerEntries.EachRowItsEntry | audit-cycle-loopback/scripts/audit_cycle_loopback/root_cause_registry.py:10-77 | with nothing truncated and pairs distinct each row has exactly one entry, shared exactly with the rows of its family that state the same hypothesis |
| Streaks.RunIsLongestStretch | audit-cycle-loopback/scripts/audit_cycle_loopback/chain_stall.py:57-66 | a look-back streak is exactly the longest unbroken stretch at the end of its own scope's rows |
| Streaks.OthersNeverMatter | audit-cycle-loopback/scripts/audit_cycle_loopback/blockers.py:202-213 | histories that agree on the scope's rows give the same streak, however other rows are interleaved |
| StreakRules.OneMoreRow | audit-cycle-loopback/scripts/audit_cycle_loopback/blockers.py:202-213 | for all four streaks, with their conditions spelled out on the row: one more row leaves the streak alone, adds one, or ends it |
| StreakRules.WatchIff | audit-cycle-loopback/scripts/audit_cycle_loopback/chain_stall.py:11-57 | which rows each of the four streaks looks at and which of them carry it on |
| StreakRules.CurrentCycleCounts | audit-cycle-loopback/scripts/audit_cycle_loopback/chain_stall.py:24-80 | where the current cycle goes on, a streak counts it and what the history adds row by row; where it does not, the streak is zero |
| StreakRules.SurfaceOrNothing | audit-cycle-loopback/scripts/audit_cycle_loopback/failure.py:193-216 | the diagnostics streak follows its failure surface, and without one is the current cycle alone; a limit is reached only while the streak goes on, and zero is no limit |
| Streaks.CumulativeStall | audit-cycle-loopback/scripts/audit_cycle_loopback/chain_stall.py:24-80 | the cumulative goal-distance streak and its stall verdict |
| Streaks.AdapterMissing | audit-cycle-loopback/scripts/audit_cycle_loopback/chain_adapter.py:47-63 | the adapter-missing streak |
| Streaks.DetectionOnly | audit-cycle-loopback/scripts/audit_cycle_loopback/blockers.py:202-213 | the detection-only streak |
| Streaks.DiagnosticsUnavailable | audit-cycle-loopback/scripts/audit_cycle_loopback/failure.py:193-216 | the diagnostics-unavailable streak and whether instrumentation is required |
| Streaks.BoundCapsStreak | audit-cycle-loopback/scripts/audit_cycle_loopback/family_registry.py:60-66 | where one of the four streaks' scopes is one family of the history's attempts, compaction cuts the streak off at the per-family bound and nothing else: a cap is met on the compacted registry if and only if it is met on the full one and does not exceed the bound plus one |
| Streaks.CapUnreachable | audit-cycle-loopback/scripts/audit_cycle_loopback/family_registry.py:60-66 | for each of the four streaks and every cap above the bound plus one there is a history that meets the cap and whose compaction does not |
| Streaks.SpanCapsStreak | audit-cycle-loopback/scripts/audit_cycle_loopback/family_registry.py:60-66 | on a compacted registry no streak is longer than the bound times the number of families its scope spans |
| Streaks.SpanIsReached | audit-cycle-loopback/scripts/audit_cycle_loopback/family_registry.py:60-66 | and each of the four streaks reaches that length: families filled with copies of one continuing row |
| Streaks.CompactionKeepsStreakIff | audit-cycle-loopback/scripts/audit_cycle_loopback/family_registry.py:60-66 | on every history, compaction keeps a scope's streak, whatever its rows say, if and only if the bound drops no row of the scope and the scope's rows already stand in the order in which their families first appear |
| Streaks.RegroupingKeepsStreakIff | audit-cycle-loopback/scripts/audit_cycle_loopback/family_registry.py:60-66 | so with nothing truncated only the order decides |
| Streaks.RegroupingBreaksStreak | audit-cycle-loopback/scripts/audit_cycle_loopback/family_registry.py:60-66 | a scope that reaches across families can lose its streak to regrouping alone |
| Recurrence.FallAllowedIff | audit-cycle-loopback/scripts/audit_cycle_loopback/recurrence_identity.py:227-272 | restating an accepted record with another root count leaves it accepted if and only if the count has not fallen below the prior one or the record is excused by a fully bound material delta or a linked root change, any lineage transition covering the prior count |
| RecurrenceRules.AcceptedIff | audit-cycle-loopback/scripts/audit_cycle_loopback/recurrence_identity.py:57-285 | a record is accepted if and only if it says only what it may: named identifiers, counts, bound identities, an allowed delta (a cosmetic one claims nothing, a material one is bound and evidenced), a complete transition, a connected change of root, a covered fall, a growing debt |
| RecurrenceRules.FindingsExactly | audit-cycle-loopback/scripts/audit_cycle_loopback/recurrence_delta.py:56-150 | every finding of a record by its code: it is reported if and only if what it objects to is there |
| Recurrence.LowerOnlyIfExcused | audit-cycle-loopback/scripts/audit_cycle_loopback/recurrence_identity.py:93-285 | in every chain of accepted records, a count lower than an earlier one has an excused fall in between |
| Recurrence.DebtAccumulates | audit-cycle-loopback/scripts/audit_cycle_loopback/recurrence_identity.py:273-285 | each not-evaluated record of a chain adds at least one to the evaluation debt |
| Recurrence.DetourClearsCount | audit-cycle-loopback/scripts/audit_cycle_loopback/recurrence_identity.py:144-163 | the floor is one step deep: relabelling a root and relabelling it back brings its count from any value to zero with every record accepted and no material delta |
| InvocationLog.Receipts.Record | audit-cycle-loopback/scripts/audit_cycle_loopback/adapters.py:158-182 | a call is appended with the next index, unbound, its status from callability and error |
| InvocationLog.Receipts.Bind | audit-cycle-loopback/scripts/audit_cycle_loopback/adapters.py:72-102 | the latest open call of the hook is settled, nothing else changes, and the result says whether there was one |
| InvocationLog.Receipts.Clear | audit-cycle-loopback/scripts/audit_cycle_loopback/adapters.py:61-62 | a reset empties the log |
| InvocationLog.LogIsKept | audit-cycle-loopback/scripts/audit_cycle_loopback/adapters.py:61-102 | after any sequence of resets, calls and bindings the indices are 0..n-1 and a consumed value was completed, valid and accepted |
| InvocationRules.RowsAreCalls | audit-cycle-loopback/scripts/audit_cycle_loopback/adapters.py:158-182 | after any operations the log has one row per call since the last reset, in order, with the call's data and a status that says how it ended |
| InvocationRules.BindingExactly | audit-cycle-loopback/scripts/audit_cycle_loopback/adapters.py:72-102 | a binding enters its verdict in the newest open row of its hook, acceptance needing a completed call and a valid return and consumption acceptance; every other row stays, and open rows say nothing |
| InvocationLog.OpenCallsAreStacked | audit-cycle-loopback/scripts/audit_cycle_loopback/adapters.py:72-102 | per hook, calls and bindings pair up like a stack: a binding finds a call exactly when more calls than successful bindings came since the last reset |
| InvocationLog.BoundForEver | audit-cycle-loopback/scripts/audit_cycle_loopback/adapters.py:82-101 | until the next reset a row keeps its call for ever, and once bound it never changes again |
| ConsumerReceipt.CheckHookIo | audit-cycle-loopback/scripts/audit_cycle_loopback/consumer_receipt_contract.py:180-216 | the loop accepts exactly the non-empty lists of well-formed receipts with distinct indices, and collects exactly the backed hooks |
| ReceiptRules.ReceiptsPassIff | audit-cycle-loopback/scripts/audit_cycle_loopback/consumer_receipt_contract.py:180-216 | published receipts pass if and only if there are some, each is a dictionary of exactly the ten fields with their kinds, and no two claim the same place |
| ReceiptRules.HookBackedIff | audit-cycle-loopback/scripts/audit_cycle_loopback/consumer_receipt_contract.py:180-216 | a hook is backed if and only if one of them is of a completed, valid, accepted and consumed call of it |
| ReceiptRules.HookAsked | audit-cycle-loopback/scripts/audit_cycle_loopback/consumer_receipt_contract.py:118-140 | the hook a receipt must name is the one asked for, or else the only name among the expected ones |
| ReceiptRules.StatusTrimmed | audit-cycle-loopback/scripts/audit_cycle_loopback/consumer_receipt_contract.py:235-251 | blanks around the declared status are ignored, and nothing, null and blanks all declare the empty word |
| ConsumerReceipt.MismatchesExactly | audit-cycle-loopback/scripts/audit_cycle_loopback/consumer_receipt_contract.py:118-251 | every mismatch by its name: it is reported if and only if that part of the row differs from what is expected |
| ConsumerReceipt.ParseListIff | audit-cycle-loopback/scripts/audit_cycle_loopback/consumer_receipt_contract.py:62-85 | an identifier list is read as valid if and only if its items are non-blank texts that stay distinct when trimmed, and its names are exactly those trimmed texts |
| ConsumerReceipt.ValidateBinding | audit-cycle-loopback/scripts/audit_cycle_loopback/consumer_receipt_contract.py:118-251 | a receipt row is conformant if and only if task, adapter revision, hook, version, consumer revision and validator are the expected ones, all lists are lists of distinct names, required and consumed hooks are the expected ones and each is backed by a completed, valid, accepted and consumed call, the expected gates are all consumed with none excluded, and it says so itself; a refusal without a mismatch is exactly an honest exclusion |
| ConsumerReceipt.LoggedHooksIff | audit-cycle-loopback/scripts/audit_cycle_loopback/consumer_receipt_contract.py:178-230 | on a row that publishes the hook-call log of any sane run, the hooks are covered if and only if both lists name the expected hooks and each has a consumed call in the log |
| ConsumerReceipt.LogPassesCheck | audit-cycle-loopback/scripts/audit_cycle_loopback/consumer_receipt_contract.py:180-216 | after any sequence of resets, calls with named hooks and bindings, a non-empty log passes the receipt check and backs exactly the hooks with a consumed call |
| QualityPolicy.NormalizeTwice | audit-cycle-loopback/scripts/audit_cycle_loopback/quality_policy.py:139-269 | normalising a normalised policy, read back from its JSON, changes nothing but a missing evidence list, which is read as empty |
| QualityPolicy.RowReadsBack | audit-cycle-loopback/scripts/audit_cycle_loopback/quality_policy.py:87-137 | a normalised applicability row, written out and read again, is itself with its evidence list filled in |
| QualityPolicy.DecidesIff | audit-cycle-loopback/scripts/audit_cycle_loopback/quality_policy.py:251-256 | a metric decides if and only if the policy has no contract error and no invalid row, and its own row applies |
| QualityRules.DecidesExactly | audit-cycle-loopback/scripts/audit_cycle_loopback/quality_policy.py:139-269 | the same on the adapter's own value: it is sound, the metric is declared, and either no applicability is supplied or one undisputed mapping has a valid row for every declared metric and an applicable one for this |
| QualityRules.RowStatusIff | audit-cycle-loopback/scripts/audit_cycle_loopback/quality_policy.py:87-137 | the status of a row from what it says in writing and by its flag, whether its lists are sound and whether classes are missing |
| QualityRules.RowForExactly | audit-cycle-loopback/scripts/audit_cycle_loopback/quality_policy.py:226-249 | the row each declared metric gets: the legacy row, its own row from one undisputed mapping, or an invalid one that says why |
| QualityRules.SourceExactly | audit-cycle-loopback/scripts/audit_cycle_loopback/quality_policy.py:139-160 | keys and aliases are read from the first of their spellings that is given |
| QualityRules.RowContents | audit-cycle-loopback/scripts/audit_cycle_loopback/quality_policy.py:87-137 | the lists and the reason of a normalised row |
| QualityRules.VerdictExactly | audit-cycle-loopback/scripts/audit_cycle_loopback/quality_values.py:9-57 | what each compatibility verdict makes of the policy: nothing, or its status and reason on every declared metric, lists kept, none deciding |
| QualityPolicy.FillAliases | audit-cycle-loopback/scripts/audit_cycle_loopback/quality_policy.py:186-207 | the two alias loops compute each declared key's candidates and whether every entry is well formed |
| QualityPolicy.CompatibilityNeverAdds | audit-cycle-loopback/scripts/audit_cycle_loopback/quality_values.py:9-57 | a verdict never adds a decision metric: an adverse one leaves none and wipes out the policy's own contract errors, any other leaves the policy alone |
| SessionLines.ByteLines | audit-session-governance/scripts/audit_session_governance/session_parsing.py:193-203 | splitting the encoded bytes gives the encodings of the text cut at line feeds and carriage returns only |
| SessionLines.LineCountsAgreeIff | audit-session-governance/scripts/audit_session_governance/session_parsing.py:193-211 | text and bytes have equally many lines if and only if no Unicode or control separator stands anywhere but at the very end |
| SessionEvents.CapturedIsAccepted | audit-session-governance/scripts/audit_session_governance/capture_projection.py:190-321 | every event capture keeps is classified with the same tool and role, and capturing what was written keeps exactly the same again |
| SessionAcceptance.AcceptedIff | audit-session-governance/scripts/audit_session_governance/session_parsing.py:63-158 | the auditor accepts an event if and only if it is a conversation event of the tool and role: no foreign key, no meta event, nothing but text, no instruction wrapper in a user's mouth |
| SessionAcceptance.RefusedExactly | audit-session-governance/scripts/audit_session_governance/session_parsing.py:63-158 | why it refuses an event and which tool it takes it for |
| SessionAcceptance.AcceptedIsCaptured | audit-session-governance/scripts/audit_session_governance/capture_projection.py:219-321 | whatever the auditor accepts, capture keeps as the same tool and role, unless it is a user text that opens an instruction wrapper |
| CaptureRules.CapturedIff | audit-session-governance/scripts/audit_session_governance/capture_projection.py:190-321 | capture keeps an event in a form if and only if it tells a text in that form that opens no wrapper in a user's mouth; it keeps that text and the time |
| CaptureRules.KeptExactly | audit-session-governance/scripts/audit_session_governance/capture_projection.py:324-343 | what capture keeps of a transcript: all events of the tool's form, for Codex the event messages and the response items only if there are none |
| CaptureRules.TranscriptExactly | audit-session-governance/scripts/audit_session_governance/capture_projection.py:146-170 | which transcripts are read, and which trouble is reported first otherwise |
| CaptureRules.RenderedAs | audit-session-governance/scripts/audit_session_governance/capture_projection.py:208-321 | the event that is written for what was kept |
| SessionParsing.ParseSource | audit-session-governance/scripts/audit_session_governance/session_parsing.py:182-279 | the parsing loop with its counts, findings, times and flags computes the specified summary, on every source |
| SessionParsing.TallyMeaning | audit-session-governance/scripts/audit_session_governance/session_parsing.py:211-253 | each count is the number of lines of its sort |
| SessionParsing.Accounting | audit-session-governance/scripts/audit_session_governance/session_parsing.py:211-279 | on every non-failed parse, total lines = blank + malformed + unrecognized + recognized, and recognized splits by tool, by role, and into timed plus untimed |
| SessionParsing.StatusBySeverity | audit-session-governance/scripts/audit_session_governance/session_parsing.py:254-279 | the status is complete exactly when there are no findings, and failed or quarantined exactly when some finding blocks |
| SessionReport.StatusExactly | audit-session-governance/scripts/audit_session_governance/session_parsing.py:254-279 | the status from the lines: quarantined if some line that is not blank is no event of the declared tool, else complete if there are lines, none blank and all timed |
| SessionReport.FindingsExactly | audit-session-governance/scripts/audit_session_governance/session_parsing.py:211-263 | each finding is reported if and only if the lines show it |
| SessionParsing.CompleteIff | audit-session-governance/scripts/audit_session_governance/session_parsing.py:254-263 | complete means exactly that there are lines and each is a timed event of the declared tool |
| SessionParsing.BoundsEnclose | audit-session-governance/scripts/audit_session_governance/session_parsing.py:264-278 | the reported timestamp bounds are observed stamps that enclose all others |
| SessionCapture.ParseTranscript | audit-session-governance/scripts/audit_session_governance/capture_projection.py:146-170 | the transcript loop computes the events or the first error |
| SessionCapture.CaptureIsAccepted | audit-session-governance/scripts/audit_session_governance/capture_projection.py:324-343 | for every transcript capture can project, the auditor's parse is never failed, is quarantined if and only if a kept text holds NEL, LS or PS, and is otherwise complete exactly when every kept event carries a timestamp |
| SessionCapture.CaptureTwice | audit-session-governance/scripts/audit_session_governance/capture_projection.py:324-343 | capturing a projection gives the same bytes again if no kept text holds a raw separator, and is refused otherwise |
| SessionPackets.ValidateFindings | audit-session-governance/scripts/audit_session_governance/session_packets.py:238-258 | the findings loop reports exactly the schema and content errors, in order |
| SessionReport.PacketNames | audit-session-governance/scripts/audit_session_governance/session_packets.py:49-107 | header, source, binding and evidence of a built packet, with one digest for each line of the bytes in order |
| SessionReport.PacketStatus | audit-session-governance/scripts/audit_session_governance/session_packets.py:49-107 | its status, capture mode, repair class and use: consumable means complete and bound |
| SessionReport.PacketFigures | audit-session-governance/scripts/audit_session_governance/session_packets.py:49-107 | each of its figures is a number of lines of the source |
| SessionReport.PacketBounds | audit-session-governance/scripts/audit_session_governance/session_packets.py:99-105 | its bounds are times of the source that enclose all others, the earlier first |
| SessionReport.PacketFindings | audit-session-governance/scripts/audit_session_governance/session_packets.py:49-107 | it lists each finding of its source exactly once, and the ambiguous binding |
| SessionReport.BuildExactly | audit-session-governance/scripts/audit_session_governance/session_packets.py:34-107 | when a packet is built, why not, and under which session name and binding |
| SessionReport.PacketUnread | audit-session-governance/scripts/audit_session_governance/session_parsing.py:182-210 | a source that is too large, has too many lines or is no UTF-8 gives a failed packet with that one finding, the total alone, no bounds, and line digests only if it was cut into lines |
| SessionReport.FindingWeighs | audit-session-governance/scripts/audit_session_governance/session_common.py:39-92 | severity and evidence class of every finding |
| SessionReport.MessagesTellApart | audit-session-governance/scripts/audit_session_governance/session_common.py:39-92 | no two findings share a message |
| PacketComplaints.ComplaintsExactly | audit-session-governance/scripts/audit_session_governance/session_packets.py:111-359 | every complaint of the validator by its text: it is made if and only if what it complains about is there |
| SessionValidation.FreshPacketValidatesIff | audit-session-governance/scripts/audit_session_governance/session_packets.py:291-359 | a packet just built from a source gets no complaint from the validator if text and bytes agree about lines, and exactly one otherwise; an ambiguous binding is rebuilt through its stand-in cycle |
| SessionValidation.LinesAgreeIff | audit-session-governance/scripts/audit_session_governance/session_packets.py:273-284 | for a readable source that agreement means: no exotic separator before the last character |
| SessionValidation.ValidatesIff | audit-session-governance/scripts/audit_session_governance/session_packets.py:339-359 | exactly which packets validate with source checking: those that their own source, tool, session and binding give when built afresh, from a source whose text and bytes agree about lines; only the version may be spelled otherwise, and only where that does not show in the audit id |
| SessionValidation.ValidatedIsRebuild | audit-session-governance/scripts/audit_session_governance/session_packets.py:291-336 | any packet that validates is level with the packet built afresh from its own source, and equal to it if and only if it writes its version as the integer 1; another spelling is a second body with the same audit id |
| SessionValidation.TwinsValidate | audit-session-governance/scripts/audit_session_governance/session_packets.py:291-336 | both cases occur: in a repository whose digest collides, a fresh packet and its twin with version 1.0 both validate |
| SessionValidation.ConsumableCertifies | audit-session-governance/scripts/audit_session_governance/session_packets.py:49-107 | a validated consumable packet certifies that every line of its source is a timed event of the declared tool and that cycle and task are bound |
| SessionValidation.CapturedIsConsumable | audit-session-governance/scripts/audit_session_governance/session_packets.py:49-107 | from capture to consumption: a projection within the size limit, bound to cycle and task, gives a consumable packet if and only if the kept texts are free of raw separators and every kept event has its time, and then the packet validates |

## Left out

- File, descriptor and lock handling, path resolution and atomic writes of both packages: operating-system
  calls; a source is a path in a map of files, and the maximum-size rule is kept.
- Adapter discovery and loading, scan-packet checks, facades, command lines and packet field copying.
- `normalize_contract` and its text parsing: contracts are taken as already read, with their validity as a
  predicate; non-finite floats and overflow are not modelled.
- The shape of a basis-migration receipt is one flag (`wellFormed`); which transition it binds is modelled.
- The hypothesis gate's actionability rules and lists, provenance references and `hypothesis_aliases`: they
  would add fields without a law across operations.
- Values that make the Python code raise instead of reporting (an unhashable `type` field, a packet whose
  findings or evidence are not lists, a lineage transition whose parents are not a list): the model treats
  them as not matching; none of them is accepted either way.
- Surrogate code points in JSON strings, which cannot be encoded.
- `high_water_last_improved_cycle` of the cumulative gate, message texts of recurrence findings, and the
  recurrence record's own projection.
- MetricRuns.ScalarRunGain: assumes a tolerance of at least zero and one tolerance for the whole run.
- Cycle reachability, authority classification and acceptance verdicts: single-branch decisions.
- FamilyMoves.StreamStepIff: is for histories whose rows keep the key they were filed under, and corrections that
  do not make their row equal to another one; `KeySteadyIff` says when a key stays.
- FamilyMoves.StreamingEqualsBatchIff: the same, for every append of the history.
- RegistryCorrections.KeptRowsExactly: is for histories whose rows state no correction field of their own, and a
  number reader that reads a missing value as no positive number.
- RegistryCorrections.SameAttemptIff: is for cycle names without a colon; `KeysCollide` shows why.
- LedgerStream.StreamStepIff: is for histories in which an attempt's hypothesis is not relabelled; the arriving
  row may relabel.
- LedgerStream.StreamingEqualsBatch: takes whole cycles at a time and so asks for distinct attempt/hypothesis
  pairs; `RowByRowIff` covers replays, a row at a time.
- SavedRuns.RegistryMirrorsRun: rows of other cycles hold no metric gate, and declared labels outside the four
  known ones do not spell one of them.
- ConsumerReceipt.ValidateBinding: a receipt index that cannot be hashed makes the Python code raise; here the row
  is refused.
