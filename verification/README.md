# Agent commerce and guarantor: a verified model

This project models the decision logic of the Go packages `pkg/agentcommerce` and
`pkg/agentguarantor` in Dafny and proves what that logic promises. `dafny verify dfyconfig.toml`
checks all of it.

The model covers:

- **Cohort sets** (`Cohort`, `CohortSet`): the Merkle root of a set of outcome assertions with odd
  nodes promoted, the membership-proof builder, and the verifier that recomputes the tree shape from
  the claimed index and count.
- **Amounts** (`Decimal`, `Amounts`): canonical integer and decimal texts, and arithmetic on them.
- **Billing** (`Billing`, `Settlement`, `SettlementRuns`, `Confluence`, `ConfluenceLimits`): materialisation of an
  obligation into instances under an aggregate cap, and the ledger state of each instance over whole
  runs of payments and resolutions.
- **Agreements** (`Graph`, `Portfolio`, `Agreement`, `AgreementEvidence`): three-colour cycle search,
  the mutually recursive preparation and validation of authorization targets, and the matching of
  evidence to authorization predicates.
- **Signed bytes** (`Framing`, `SemanticAction`, `Custody`, `CustodyPrediction`): length-framed
  preimages of stable action identities and of the three custody authorizations, each with a reader
  of its wire format that is written independently of the writer.
- **Claims** (`ClaimDecision`, `ClaimFallback`, `ClaimPayout`): decision bodies, the deterministic
  fallback, and payout materialisation.
- **Kernels** (`Authority`, `Ledger`, `Admission`): authority-proof matching, double-entry balance, and
  the proof-of-work test.

How the Go world is read:

- A Go `string` or `[]byte` is a Dafny `string` with one character per byte. UTF-8 validity, trimming,
  hexadecimal and byte order are spelled out in `Text`.
- SHA-256 is a function parameter with 32-byte results. Where a theorem needs collision freedom it
  asks for it only on the finite set of messages the statement is about.
- The canonical codec, digests of records, signature checks and the caller's evidence verifiers are
  function parameters. A theorem that needs an encoding to be injective says so in its `requires`, and one that
  needs a digest to succeed asks for it only on the records the statement is about.
- 64-bit sums that the source leaves unchecked are written modulo 2^64. `big.Int` values are unbounded
  integers. A nil `big.Int` dereference is the outcome `Panicked`, proved unreachable from valid states.
- A moment in time enters as the predicate "precedes this Unix time".
- Errors are `Err`, `Failed` or `None`; their texts are not modelled.
- Every inductive proof is written out: automatic induction is switched off on every lemma.

Code that updates variables step by step is a method with loops, proved against a specification
function; the cycle search, whose colour map is updated through a recursive closure, is a class.

Properties that turned out to be false of the code are stated with their exact condition and an
input that fails:

- The deterministic benefit fallback is not the "closed total function" its comment promises
  (pkg/agentguarantor/claim.go:230-235). The rule forces an award that nothing bounds by the maximum
  of one claim, and the body check then refuses it. `ClaimFallback.FallbackClosesExactly` says when a
  claim can be closed, `ClaimFallback.StuckClaim` gives one that cannot.
- A settlement state's evidence list need not stay duplicate-free, although `ValidateSettlementState`
  refuses repetitions. `Settlement.EvidenceStaysDistinct` says when one payment keeps it so,
  `SettlementRuns.EvidenceDistinctExactly` when a whole run does, and `Settlement.EvidenceCanRepeat`
  shows that every obligation can get there.
- Replay is not unconditional: an accepted call that makes the 64-bit revision wrap cannot be repeated.
  `Settlement.PaymentReplayExact`, `Settlement.ResolutionReplayExact` and `Settlement.RevisionWraps`; after the
  wrap the state is stuck for good, `SettlementRuns.WrappedForever`.
- Decimal payments do not always commute: a running total may exceed the text limit in one order and
  not in another. `Confluence.DeliverAll` has the condition, `ConfluenceLimits.OrderMatters` an example.
- A materialised billing instance need not be one that can be opened. `Billing.InstanceOpens` and
  `Billing.AllInstancesOpen` say when it is, in terms of the request, and `Billing.UnopenableInstance` gives one
  that is not.
- A validated claim decision need not materialise, because the payout template's identifier is validated
  as a bare token and settlement obligations also refuse surrounding white space and line breaks:
  `ClaimPayout.PayoutDefined` and `ClaimPayout.UnnameableTemplate`.
- The authority assessment alone does not cover evidence roles: `Authority.RolesNeedTheirOwnCheck`.
- The proof builder does not validate the other references of the set, so its root is the set root
  exactly when they are all valid: `CohortSet.BuildProof` and `CohortSet.BuiltWithoutRoot`.

## Model

| member | source | states |
|---|---|---|
| `Cohort.DomainsDisjoint` | pkg/agentcommerce/outcome_merkle.go:25-72 | leaf, node and empty-set messages never coincide, whatever their contents |
| `Cohort.MessagesRead` | pkg/agentcommerce/outcome_merkle.go:25-72 | a reader of the hashed messages gets back the leaf bytes, and the two node hashes with the left one first |
| `Cohort.ClimbComplete` | pkg/agentcommerce/outcome_merkle.go:112-133 | the builder's siblings lead the verifier from any leaf to the builder's root, through promoted nodes |
| `Cohort.ClimbExact` | pkg/agentcommerce/outcome_merkle.go:143-186 | with the true width, an accepted climb pins the leaf to its position and every sibling to the builder's |
| `Cohort.SiblingBound` | pkg/agentcommerce/outcome_merkle.go:112-133 | a path over at most 2^k leaves needs at most k siblings, promotion included |
| `Cohort.TreeInjective` | pkg/agentcommerce/outcome_merkle.go:43-71 | equal root hashes mean equal trees, leaves and shape |
| `Cohort.ClimbStartsInTree` | pkg/agentcommerce/outcome_merkle.go:143-186 | a climb of any claimed width that ends in the tree's root started at a hash inside that tree |
| `CohortSet.OutcomeAssertionSetRoot` | pkg/agentcommerce/outcome_merkle.go:25-72 | the level-by-level loops compute the root of the sorted, duplicate-free encodings, and fail exactly on an invalid or repeated reference |
| `CohortSet.SetRootDefined` | pkg/agentcommerce/outcome_merkle.go:25-72 | a root exists exactly for lists of valid, pairwise distinct references |
| `CohortSet.BuildProof` | pkg/agentcommerce/outcome_merkle.go:74-141 | the builder succeeds exactly for a member of a duplicate-free set, its self-check never fails, it uses at most 32 siblings, and its root is the set root iff all references are valid |
| `CohortSet.BuiltWithoutRoot` | pkg/agentcommerce/outcome_merkle.go:74-141 | beside a reference without a network id the builder still answers, for a set that has no root |
| `CohortSet.VerifyProof` | pkg/agentcommerce/outcome_merkle.go:143-186 | the verifier's loop accepts exactly the proofs whose recomputed climb ends in the expected root with no sibling left over |
| `CohortSet.BuiltProofAccepted` | pkg/agentcommerce/outcome_merkle.go:74-141 | every built proof is accepted against the built root |
| `CohortSet.MembershipSound` | pkg/agentcommerce/outcome_merkle.go:143-186 | an accepted proof against a set's root names a member of the set, whatever index and count it claims |
| `CohortSet.MembershipExact` | pkg/agentcommerce/outcome_merkle.go:143-186 | with the true count the index is the member's sorted position and the siblings are exactly the builder's |
| `CohortSet.MembershipComplete` | pkg/agentcommerce/outcome_merkle.go:74-141 | every member of a set of up to 2^32-1 valid distinct references has a built proof that is accepted against the set root |
| `CohortSet.RootIgnoresOrder` | pkg/agentcommerce/outcome_merkle.go:43-71 | every permutation of the input gives the same root |
| `CohortSet.RootCommitsToSet` | pkg/agentcommerce/outcome_merkle.go:43-71 | two accepted inputs with one root hold the same references, whatever their sizes |
| `Decimal.ShortlexIsNumeric` | pkg/agentcommerce/profile.go:148-156 | comparing length and then bytes is the numeric order of canonical integers |
| `Decimal.CoefficientOfCanonical` | pkg/agentcommerce/billing.go:352-365 | parsing succeeds on exactly the canonical decimal texts and yields digits and scale |
| `Decimal.FormatExact` | pkg/agentcommerce/billing.go:380-395 | the printed text is in canonical form and denotes coefficient / 10^scale |
| `Decimal.FormatUndoesCoefficient` | pkg/agentcommerce/billing.go:352-395 | printing a parsed canonical decimal gives the text back |
| `Decimal.DecimalUnique` | pkg/agentcommerce/intent.go:531-550 | canonical decimal texts of equal value are equal |
| `Amounts.AddExact` | pkg/agentcommerce/billing.go:287-307 | addition never panics on readable amounts and its result denotes the exact sum at any mix of scales |
| `Amounts.SubtractExact` | pkg/agentcommerce/billing.go:309-328 | subtraction denotes the exact difference and fails exactly when it would be negative |
| `Amounts.CompareExact` | pkg/agentcommerce/billing.go:330-350 | comparison is the sign of the exact difference |
| `Amounts.ExceedsExact` | pkg/agentcommerce/billing.go:261-277 | the aggregate test refuses exactly when count instances are worth more than the cap |
| `Amounts.AmountUnique` | pkg/agentcommerce/billing.go:287-395 | amounts of one asset and kind with equal values are equal texts |
| `Amounts.ZeroExact` | pkg/agentcommerce/billing.go:397-399 | the textual zero test is the test for value zero |
| `Billing.MaterializeSettlementObligations` | pkg/agentcommerce/billing.go:55-128 | the loop yields the chain of instances of an admissible request, and an error otherwise |
| `Billing.MaterializedInstance` | pkg/agentcommerce/billing.go:86-126 | every instance field by field: payer is the obligor and payee the beneficiary, with the agreed amount, cap, adapter, parameters, mandate and agreement; its turn of the recurrence with due and expiry; its 64-bit sequence, predecessor, identity and stable action; and there are as many as the billing terms say |
| `Billing.MaterializedExactly` | pkg/agentcommerce/billing.go:55-128 | a request whose records have digests materialises exactly when it is well formed, its instances together stay within the maximum and every turn starts before the recurrence ends |
| `Billing.AggregateCap` | pkg/agentcommerce/billing.go:55-81 | all instances together are worth no more than the agreed maximum |
| `Billing.InstancesDistinct` | pkg/agentcommerce/billing.go:86-126 | no two instances share an identity, even when the sequence wraps |
| `Billing.InstanceOpens` | pkg/agentcommerce/billing.go:130-146 | a materialised instance passes obligation validation exactly when its sequence has not wrapped to zero, the obligor is a bounded identifier and the agreed times are in order: for a recurrence, the agreed due time is not after the common expiry, and otherwise the three times of the obligation agree |
| `Billing.AllInstancesOpen` | pkg/agentcommerce/billing.go:86-146 | the whole materialised set passes obligation validation exactly when the sequence numbers end before the 64-bit wrap, the obligor is a bounded identifier and the agreed times are in order |
| `Billing.UnopenableInstance` | pkg/agentcommerce/billing.go:86-126 | two concrete periodic instances, the second materialised with sequence zero and refused by obligation validation |
| `Settlement.PayObligation` | pkg/agentcommerce/billing.go:168-212 | the payment call step by step: validation, replay search, terminal and expiry refusal, exact total, sorted evidence, revision on 64 bits, status |
| `Settlement.ResolveObligation` | pkg/agentcommerce/billing.go:217-259 | the resolution call step by step, with its replay rule, its transition table and its duplicate scan |
| `Settlement.NewStateInv` | pkg/agentcommerce/billing.go:148-166 | a fresh state is pending at revision one with no evidence, nothing paid and the whole amount outstanding, and satisfies the ledger invariant |
| `Settlement.PaymentOutcome` | pkg/agentcommerce/billing.go:190-197 | on a balanced state the arithmetic of a payment never panics, is accepted exactly when the total stays within the amount, and keeps the balance |
| `Settlement.ApplyPaymentStep` | pkg/agentcommerce/billing.go:168-212 | a payment keeps the invariant, adds exactly its value and its evidence once, or leaves the state alone for known evidence |
| `Settlement.PaymentExactly` | pkg/agentcommerce/billing.go:168-212 | a payment with new evidence is accepted exactly when evidence, amount and revision are in order, the obligation is not paid, cancelled, written off or expired, and the total fits; it is then paid exactly when nothing is outstanding |
| `Settlement.ResolveStep` | pkg/agentcommerce/billing.go:217-259 | a resolution keeps the invariant and moves no money and no payment evidence |
| `Settlement.ResolveExactly` | pkg/agentcommerce/billing.go:217-259 | a resolution that is no replay succeeds exactly for the eleven listed moves, overdue only at or after the due time, with its checks passed and its digest new to a duplicate-free list, and changes status, revision and evidence only |
| `Settlement.ResolveReplayed` | pkg/agentcommerce/billing.go:217-231 | a replayed resolution changes nothing and succeeds exactly when the obligation, evidence, revision and digest checks pass |
| `Settlement.EvidenceStaysDistinct` | pkg/agentcommerce/billing.go:168-212 | a new, accepted payment keeps the evidence list duplicate-free exactly when its digest is not on it yet |
| `Settlement.RepeatedEvidenceInvalid` | pkg/agentcommerce/billing.go:401-406 | a state whose evidence list repeats a digest is refused by state validation |
| `Settlement.EvidenceCanRepeat` | pkg/agentcommerce/billing.go:148-259 | every open obligation reaches such a state in three calls: open, dispute with some evidence, pay in full with the same evidence |
| `Settlement.EvidenceRepeats` | pkg/agentcommerce/billing.go:148-259 | the three calls on a concrete obligation |
| `Settlement.RepeatedEvidenceBlocksResolution` | pkg/agentcommerce/billing.go:251-257 | once the evidence list repeats a digest, no resolution changes the state any more |
| `Settlement.PaymentReplayExact` | pkg/agentcommerce/billing.go:168-212 | repeating an accepted new payment returns the same state exactly when the payment did not make the revision wrap |
| `Settlement.ResolutionReplayExact` | pkg/agentcommerce/billing.go:217-259 | the same for a resolution that changed the state |
| `Settlement.RevisionWraps` | pkg/agentcommerce/billing.go:205-205 | at the last revision of a concrete obligation, payment and dispute are accepted and neither can be repeated |
| `SettlementRuns.RunKeepsInv` | pkg/agentcommerce/billing.go:148-259 | over any interleaving of calls on all instances every reachable state satisfies the invariant |
| `SettlementRuns.PaidIsSumOfBookings` | pkg/agentcommerce/billing.go:168-212 | after any run paid plus outstanding is the amount, and paid is the sum of the booked payments |
| `SettlementRuns.BookingsDistinct` | pkg/agentcommerce/billing.go:179-203 | the booked payments carry distinct evidence, and it is exactly the applied evidence |
| `SettlementRuns.EvidenceDistinctExactly` | pkg/agentcommerce/billing.go:168-259 | after any run the evidence list is duplicate-free exactly when no digest served both a payment and a resolution |
| `SettlementRuns.TerminalForever` | pkg/agentcommerce/billing.go:168-259 | once paid, cancelled or written off, a state is the same after any further run |
| `SettlementRuns.WrappedForever` | pkg/agentcommerce/billing.go:168-259 | once the revision has wrapped to zero, any further run leaves the state as it is and books no payment |
| `SettlementRuns.StepMoves` | pkg/agentcommerce/billing.go:168-259 | every change of status is a payment on an open obligation or one of the listed moves |
| `SettlementRuns.WrittenOffHistory` | pkg/agentcommerce/billing.go:240-241 | from fresh states an instance is written off only if an earlier state of the same run was overdue or disputed |
| `SettlementRuns.OverdueHistory` | pkg/agentcommerce/billing.go:233-235 | from fresh states an instance is overdue only if it has a due time and a step of the run came at or after it |
| `SettlementRuns.CapOverAllRuns` | pkg/agentcommerce/billing.go:55-128 | over every run, whichever instances of one obligation have been opened, they are together never paid beyond the agreed maximum |
| `SettlementRuns.CapBetweenParties` | pkg/agentcommerce/billing.go:119-125 | over every run all that the instances are paid is paid by the obligor to the beneficiary, within the maximum, and nothing between any other two |
| `Confluence.FittingPaymentAccepted` | pkg/agentcommerce/billing.go:190-197 | a payment whose value fits is accepted exactly when the new total can be spelled within the text limits |
| `Confluence.DeliverAll` | pkg/agentcommerce/billing.go:168-212 | fitting payments, each delivered at its own moment, all succeed exactly when every new one comes before expiry and every running total can be spelled; replays may come at any time; the end state counts each payment once |
| `Confluence.PaymentsConfluent` | pkg/agentcommerce/billing.go:168-212 | two successful deliveries of the same payments, in any order and repetition, end in the identical state, evidence lists and revision included |
| `Confluence.AtomicConfluent` | pkg/agentcommerce/billing.go:168-212 | for atomic amounts every timely order and repetition succeeds and ends in that state |
| `Confluence.DecimalSpelled` | pkg/agentcommerce/billing.go:190-197 | decimal payments with few enough fractional digits can always be spelled |
| `ConfluenceLimits.OrderMatters` | pkg/agentcommerce/billing.go:190-197 | three concrete decimal payments that are accepted in one order and refused in another |
| `Graph.OrderedAcyclic` | pkg/agentcommerce/agreement.go:744-774 | a graph with a topological order has no cycle |
| `Graph.CycleSearch.Visit` | pkg/agentcommerce/agreement.go:751-767 | the recursive visit terminates, reports only real cycles, and otherwise extends the finished order by the node it was given |
| `Graph.HasCycle` | pkg/agentcommerce/agreement.go:744-774 | the search reports a cycle exactly when one exists, and otherwise leaves a topological order |
| `Portfolio.KeyInjective` | pkg/agentcommerce/schedule.go:99-130 | node keys separate distinct obligations of distinct Agreements |
| `Portfolio.RepresentedCycles` | pkg/agentcommerce/schedule.go:103-155 | the edge map over joined keys is cyclic exactly when obligations wait for each other in a circle |
| `Portfolio.ScheduledAcyclic` | pkg/agentcommerce/schedule.go:131-155 | dependencies that can be scheduled have no cycle |
| `Portfolio.ValidatePortfolioDependencies` | pkg/agentcommerce/schedule.go:99-156 | a portfolio is accepted exactly when it is well-formed, free of equal digests and without a blocking cycle of obligations, and then every obligation gets a time before what waits for it |
| `Agreement.DependencyEdgesExact` | pkg/agentcommerce/agreement.go:411-419 | the dependency graph has one node per obligation with exactly its dependencies as successors |
| `Agreement.CheckSound` | pkg/agentcommerce/agreement.go:281-419 | structure and acyclicity are decided exactly, and an accepted body comes with an order that respects every dependency |
| `Agreement.PrepareAgreementTargets` | pkg/agentcommerce/agreement.go:211-240 | preparation validates without targets, then writes every target into a copy; the mutual recursion terminates |
| `Agreement.ValidateAgreementBody` | pkg/agentcommerce/agreement.go:281-437 | validation decides exactly the valid bodies, recomputing targets through preparation |
| `Agreement.CheckObligors` | pkg/agentcommerce/agreement.go:395-410 | the nested loops accept exactly when every obligation lists a predicate of its obligor |
| `Agreement.ObligorsDecide` | pkg/agentcommerce/agreement.go:395-410 | a body that meets every other check is refused exactly when some obligation lists no predicate whose agent subject is its obligor or whose other subject represents it |
| `Agreement.ValidBodyLinked` | pkg/agentcommerce/agreement.go:356-416 | in a valid body obligors and beneficiaries participate, predicates cover known obligations, and obligations list only predicates that cover them and depend only on other known obligations |
| `Agreement.ProfilesBound` | pkg/agentcommerce/agreement.go:338-351 | a predicate under a well-known evidence profile carries that profile's version, digest and kind of subject |
| `Agreement.PrepareThenValidate` | pkg/agentcommerce/agreement.go:211-240 | every body that preparation accepts is valid once prepared |
| `Agreement.ValidIffPrepared` | pkg/agentcommerce/agreement.go:420-435 | the valid bodies are exactly the results of preparing their stripped forms |
| `Agreement.TargetReads` | pkg/agentcommerce/agreement.go:226-238 | a reader of the hashed target message gets back the core hash, then the policy hash, then the predicate |
| `Agreement.TargetBinds` | pkg/agentcommerce/agreement.go:615-669 | two valid bodies that share one target agree on the whole core and on every predicate's policy fields |
| `Agreement.TargetsDistinct` | pkg/agentcommerce/agreement.go:211-240 | no two predicates of a valid body share a target |
| `AgreementEvidence.KeyInjective` | pkg/agentcommerce/agreement.go:95-97 | the group key confuses no two authorities |
| `AgreementEvidence.BuildGroups` | pkg/agentcommerce/agreement.go:467-475 | the map loop groups the predicates by authority, in order, and fails exactly on a predicate outside its time bounds |
| `AgreementEvidence.ValidateAgreementEvidenceSet` | pkg/agentcommerce/agreement.go:451-520 | evidence is accepted exactly when there are a verifier, a time and a body digest, every object fits its whole group, none repeats a key and, if required, every group is covered |
| `AgreementEvidence.ExactlyOneEvidence` | pkg/agentcommerce/agreement.go:451-520 | under full authorization every predicate is listed by exactly one evidence object, from its own authority |
| `AgreementEvidence.EvidenceBinds` | pkg/agentcommerce/agreement.go:477-497 | accepted evidence that names a predicate comes from its subject under its profile, for this agreement, version and body, lists it beside its target, and was verified |
| `AgreementEvidence.AcceptedInTime` | pkg/agentcommerce/agreement.go:458-509 | acceptance lies within the window of the body and of every predicate, and a signed acceptance expires no later than the body and every predicate it names |
| `AgreementEvidence.ObligorAuthorized` | pkg/agentcommerce/agreement.go:281-437 | under full authorization every obligation has verified evidence whose subject is the obligor itself when it is an agent, and represents the obligor otherwise |
| `AgreementEvidence.PartialClosedUnderDropping` | pkg/agentcommerce/agreement.go:447-520 | partial acceptance survives dropping any of the evidence |
| `SemanticAction.CanonicalValueInjective` | pkg/agentcommerce/semantic_action.go:326-363 | the canonical bytes of a field determine the value they came from |
| `SemanticAction.DeriveStableActionId` | pkg/agentcommerce/semantic_action.go:286-324 | the buffer built field by field is the specified preimage, its hash the identity, and it fails exactly on values the registry entry refuses |
| `SemanticAction.AcceptedKeys` | pkg/agentcommerce/semantic_action.go:286-324 | accepted values name exactly the registered fields |
| `SemanticAction.AcceptedExactly` | pkg/agentcommerce/semantic_action.go:286-363 | an action has an identity exactly when its kind is registered and it gives every field of that kind, and no other, a value of the form of its type |
| `SemanticAction.PreimageReads` | pkg/agentcommerce/semantic_action.go:286-324 | a reader of the wire format gets back the kind and the values from every preimage |
| `SemanticAction.PreimageInjective` | pkg/agentcommerce/semantic_action.go:286-363 | equal preimages come from the same kind with the same value in every field |
| `SemanticAction.StableIdInjective` | pkg/agentcommerce/semantic_action.go:286-324 | two actions share an identity only when they are the same action |
| `SemanticAction.ExportSemanticFields` | pkg/agentcommerce/semantic_action.go:94-115 | export succeeds exactly on accepted values and lists every field in registry order |
| `SemanticAction.ImportSemanticFields` | pkg/agentcommerce/semantic_action.go:119-146 | import yields the values the transport form spells out, and fails only when no accepted values do |
| `SemanticAction.ExportThenImport` | pkg/agentcommerce/semantic_action.go:94-146 | importing what was exported gives back the values |
| `SemanticAction.ImportThenExport` | pkg/agentcommerce/semantic_action.go:94-146 | exporting what was imported gives back the transport form, 64-bit numbers included |
| `Custody.CustodyAuthorizationPreimage` | pkg/agentcommerce/custody_authorization.go:128-185 | the buffer built field by field is the specified layout, and only valid bodies of schema 1, 2 or 3 have one |
| `Custody.ActionReads` | pkg/agentcommerce/custody_authorization.go:156-184 | a reader of the wire format, field by field, gets back the whole body from the bytes of every valid one, across the three schemas |
| `Custody.AppendDomain` | pkg/agentcommerce/custody_network_domain.go:34-40 | the network domain is appended as its framed fields |
| `Custody.SponsorNotWriter` | pkg/agentcommerce/custody_authorization.go:168-177 | the optional sponsorship strings can never be read as a writer generation and a fence frame |
| `Custody.ActionInjective` | pkg/agentcommerce/custody_authorization.go:128-185 | across schemas 1, 2 and 3, with or without sponsorship, the signed bytes determine the body |
| `Custody.CustodyEffectPreimage` | pkg/agentcommerce/custody_effect_authorization.go:110-149 | the buffer built field by field is the specified layout, and only valid bodies have one |
| `Custody.EffectReads` | pkg/agentcommerce/custody_effect_authorization.go:123-148 | the same for the bytes of a contract effect |
| `Custody.EffectInjective` | pkg/agentcommerce/custody_effect_authorization.go:110-149 | across schemas 1 and 2 the signed bytes of a contract effect determine the body |
| `CustodyPrediction.PredictionCustodyEffectPreimage` | pkg/agentcommerce/prediction_custody_effect_authorization.go:174-236 | the buffer built field by field is the specified layout, and only valid bodies have one |
| `CustodyPrediction.PredictionReads` | pkg/agentcommerce/prediction_custody_effect_authorization.go:197-235 | the same for a prediction-market effect, whose destination is read from the market address |
| `CustodyPrediction.PredictionInjective` | pkg/agentcommerce/prediction_custody_effect_authorization.go:174-236 | the signed bytes determine the body; fields that are not written follow from the equalities validation enforces |
| `CustodyPrediction.TypesDisjoint` | pkg/agentcommerce/prediction_custody_effect_authorization.go:174-236 | no bytes are signed as two different types of authorization |
| `ClaimDecision.CompareUnits` | pkg/agentguarantor/canonical.go:291-302 | comparing amounts of one asset is the order of their numbers of units |
| `ClaimDecision.QuorumThreshold` | pkg/agentguarantor/canonical.go:181-204 | an accepted quorum rule asks for at least one subject and no more than there are |
| `ClaimDecision.QuorumExactly` | pkg/agentguarantor/canonical.go:181-204 | a rule is accepted with threshold n exactly when it is "all" for all subjects, "any" for one, or "at-least:" and n in canonical decimal below a hundred, with n between one and the number of sorted subjects |
| `ClaimDecision.SumLines` | pkg/agentguarantor/claim.go:498-508 | the loop stops at the first invalid line and otherwise returns the exact sum of the lines |
| `ClaimDecision.ValidateClaimDecisionBody` | pkg/agentguarantor/claim.go:456-516 | bodies are accepted exactly when header with profile, quorum and extensions, result rules, every line, the textual sum and the per-claim maximum agree |
| `ClaimDecision.BodyConserves` | pkg/agentguarantor/claim.go:478-515 | an accepted body pays out exactly what it approves, within the per-claim and the aggregate maximum, and approves more than zero exactly when it approves |
| `ClaimDecision.ResultWindows` | pkg/agentguarantor/claim.go:478-497 | terminal results open the agreed challenge window and no other, the two open results the agreed window to resolve them |
| `ClaimDecision.LineTimes` | pkg/agentguarantor/claim.go:499-505 | the unchecked expiry sum of a line cannot wrap, because coverage terms whose windows overflow were refused |
| `ClaimFallback.ValidateDeterministicFallbackDecision` | pkg/agentguarantor/claim.go:265-347 | the operand loop, the capacity test and the rule search decide exactly the accepted fallback decisions |
| `ClaimFallback.FallbackForced` | pkg/agentguarantor/claim.go:282-337 | an accepted benefit fallback awards the smaller of the benefit and the remaining room, its result and reason are forced by the operands, and the aggregate maximum is kept |
| `ClaimFallback.FallbackDeterministic` | pkg/agentguarantor/claim.go:265-347 | two accepted fallback decisions on the same benefit and reserves have the same amount, result and reason |
| `ClaimFallback.BenefitExactly` | pkg/agentguarantor/claim.go:209-216 | the benefit check in numbers: full approval pays exactly the benefit, a partial one less but not nothing, a denial without projection has no benefit |
| `ClaimFallback.FallbackFollowsBenefit` | pkg/agentguarantor/claim.go:209-216 | an accepted fallback never contradicts the benefit comparison made before it |
| `ClaimFallback.FallbackClosesExactly` | pkg/agentguarantor/claim.go:167-240 | some benefit fallback decision passes the whole validation at a position exactly when the reserves fit under the aggregate maximum and the forced award under the per-claim maximum |
| `ClaimFallback.StuckClaim` | pkg/agentguarantor/claim.go:227-347 | a concrete position where the rule accepts an award and no decision passes the validation |
| `ClaimFallback.DenyZeroCloses` | pkg/agentguarantor/claim.go:227-281 | under the deny-zero rule every claim can be closed |
| `ClaimPayout.MaterializeClaimPayout` | pkg/agentguarantor/claim.go:518-617 | the loop yields the specified payout set: nothing for a denial, one chained obligation per line for an approval, an error otherwise |
| `ClaimPayout.ObligationAt` | pkg/agentguarantor/claim.go:548-614 | each obligation is valid; the guarantor owes the beneficiary the amount of its line under the agreed cap, adapter, parameters and mandate; its times count from the terminal close; its sequence, identity, action and materialised line are those of its place in the chain |
| `ClaimPayout.SequencesConsecutive` | pkg/agentguarantor/claim.go:547-614 | sequence numbers are first, first+1, ... without wrapping, although the sum is unchecked |
| `ClaimPayout.SequenceBounds` | pkg/agentguarantor/claim.go:545-616 | the recorded first and last numbers are those of the first and last obligation |
| `ClaimPayout.PayoutTimes` | pkg/agentguarantor/claim.go:550-561 | terminal close <= start <= due < expiry <= deadline, and expiry is due plus the recovery window |
| `ClaimPayout.InstancesDistinct` | pkg/agentguarantor/claim.go:563-583 | different lines become different instances |
| `ClaimPayout.PayoutDefined` | pkg/agentguarantor/claim.go:518-617 | a validated approving decision materialises exactly when its template identifier is acceptable to settlement, its expiries meet the deadline and the sequence numbers suffice |
| `ClaimPayout.PayoutByResult` | pkg/agentguarantor/claim.go:534-545 | a denial materialises with nothing to pay, an open result is refused, and an approval gives a materialised set for its decision, agreement, template and receipt |
| `ClaimPayout.UnnameableTemplate` | pkg/agentguarantor/claim.go:521-523 | one approved decision that pays out under one template identifier and not under the same with a line break |
| `ClaimPayout.PayoutConserves` | pkg/agentguarantor/claim.go:518-617 | the obligations add up to exactly the approved amount, at most the per-claim maximum |
| `ClaimPayout.ClaimPaidWithinApproved` | pkg/agentguarantor/claim.go:518-617 | over every run of payments and resolutions a claim is never paid more than its decision approved |
| `ClaimPayout.ClaimPaidByGuarantor` | pkg/agentguarantor/claim.go:592-605 | over every run whatever is paid on a claim is paid by the guarantor to the beneficiary |
| `Authority.VerifyOperationOutcomeAuthority` | pkg/agentcommerce/outcome_profiles.go:49-126 | the map and walk loops compute the specified assessment |
| `Authority.MatchingExact` | pkg/agentcommerce/outcome_profiles.go:63-81 | the material checks accept exactly a one-to-one matching with the references, whose digests are then distinct although nothing checks that directly |
| `Authority.CheckProofsExact` | pkg/agentcommerce/outcome_profiles.go:85-110 | the two proofs of an item pass exactly when they are read under their two profiles, both verifiers accept them, and digest, scope, claimed time, moment and qualification window agree |
| `Authority.AssessExact` | pkg/agentcommerce/outcome_profiles.go:63-122 | a profile with required roles is assessed exactly when references and objects match, every item is backed by a time proof and a qualification of its own that both verifiers accept, and every object is cited; one without them exactly when there is nothing to assess |
| `Authority.AssessReports` | pkg/agentcommerce/outcome_profiles.go:82-125 | the result lists the evidence of all items in canonical order and the largest finalised mark of their time proofs |
| `Authority.VerifyRoles` | pkg/agentcommerce/outcome_profiles.go:198-222 | the two counting passes accept exactly when every required role is filled, no role is filled twice, and no other role appears |
| `Authority.VerifyProofBindings` | pkg/agentcommerce/outcome_profiles.go:391-405 | the binding check accepts exactly when both proofs of every item are among the references |
| `Authority.CitationsReferenced` | pkg/agentcommerce/outcome_profiles.go:82-122 | a qualified assessment implies the binding check, and every reference is cited |
| `Authority.RoleBacked` | pkg/agentcommerce/outcome_profiles.go:198-222 | with the role check each required role has exactly one item, and its proofs passed |
| `Authority.RolesNeedTheirOwnCheck` | pkg/agentcommerce/outcome_profiles.go:49-126 | without it, required roles are backed exactly when the manifest names them; an empty manifest qualifies |
| `Ledger.PostLines` | pkg/agentcommerce/outcome_assertions.go:206-219 | the running texts of every asset spell its debit and credit sums |
| `Ledger.KeyInjective` | pkg/agentcommerce/outcome_assertions.go:211-211 | the joined map key names one asset |
| `Ledger.EvenIffBalanced` | pkg/agentcommerce/outcome_assertions.go:220-224 | comparing texts pair by pair is comparing integer sums asset by asset |
| `Ledger.ValidateEntry` | pkg/agentcommerce/outcome_assertions.go:195-226 | an entry is accepted exactly when well-formed and balanced in every asset |
| `Ledger.ValidateEconomicLedgerEntries` | pkg/agentcommerce/outcome_assertions.go:191-227 | a cut is accepted exactly when every entry is and their encodings strictly increase |
| `Ledger.LedgerConserves` | pkg/agentcommerce/outcome_assertions.go:191-227 | over any collection of accepted entries every asset's debits equal its credits |
| `Ledger.CutDistinct` | pkg/agentcommerce/outcome_event.go:392-405 | no entry is posted twice in one cut |
| `Ledger.CutUnique` | pkg/agentcommerce/outcome_event.go:392-405 | two accepted cuts of the same entries are the same cut |
| `Admission.EnoughZeros` | pkg/agentcommerce/admission.go:145-159 | the byte loop decides whether the leading bits are zero |
| `Admission.ZeroBitsExact` | pkg/agentcommerce/admission.go:145-159 | the leading d bits of n bytes are zero exactly when the big-endian number is below 2^(8n-d) |
| `Admission.AdmissionWorkValid` | pkg/agentcommerce/admission.go:130-160 | a counter is accepted exactly for a canonical digest whose hashed work has enough leading zeros |
| `Admission.WorkBound` | pkg/agentcommerce/admission.go:130-160 | for every difficulty up to 256 a counter is accepted exactly when its 256-bit work is below 2^(256-difficulty) |
| `Admission.WorkReads` | pkg/agentcommerce/admission.go:138-143 | a reader of the hashed message gets back the challenge and then the counter |
| `Admission.DifficultyMonotone` | pkg/agentcommerce/admission.go:130-160 | work that meets a difficulty meets every smaller one |
| `Admission.WorkMessageInjective` | pkg/agentcommerce/admission.go:138-143 | no two challenges or counters share a hashed message |
| `Admission.SolveOperationAdmission` | pkg/agentcommerce/admission.go:72-83 | the solver returns the least counter below its bound that does the work, and fails exactly when there is none |

## Left out

- `cmd/`: command lines, fixture generators, HTTP and file access.
- Ed25519, X25519, AES-GCM, HKDF and SHA-256 themselves; signing and signature verification are abstract predicates.
- The canonical codec: encodings and digests of records are parameters, assumed injective only where a `requires` says so.
- TVM cells, BOC and address parsing; the prediction address parser is a parameter.
- Network retrieval, chain access and operating-system guards.
- Validators that are one long conjunction of independent field checks (profiles, intents, operations, handoffs, requested coverage), and the gift and schedule lifecycle tables, which only list allowed transitions.
- Of `ValidateCoverageTerms` only the checks on amounts, durations, parties and the fallback table are spelled out; the rest is one abstract predicate.
- Fields of claim decisions that only bind the decision to its claim, its evidence set and the agreed profile and subjects (pkg/agentguarantor/claim.go:184-201), and the moment of the call.
- The semantic-action registry table: the theorems hold for every well-formed registry.
- The outcome-profile registry table and the payload decoders behind it: required and optional roles are parameters.
- Settlement states other than the seven named ones.
- The internal range of `time.Time`; the cast of a 64-bit time to a signed one is inside the time predicate.
- The difference between a nil and an empty slice, and the order in which Go iterates over a map; both cycle searches are one class over a map visited in any order.
- `sort.SearchStrings` on validated sorted lists is modelled as membership.
- Spacing of periodic start times: the source adds and multiplies unchecked, so no spacing is claimed.
- `Decimal.FormatExact`: does not claim the 96-character text limit, because the printer does not enforce it.
- `CustodyPrediction.PredictionInjective`: asks that parsed addresses are short texts, because the address library is not part of this model.
- `Confluence.PaymentsConfluent`: asks for positive payments and a revision that does not wrap, because a paid obligation refuses even a payment of zero and a wrapped one refuses everything.
