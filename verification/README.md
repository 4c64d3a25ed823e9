# Verified model of ctrlrun's decision and effect core

ctrlrun decides whether an agent's action may run and makes sure that one effect happens at most
once. This project models that core in Dafny and proves what its documentation promises of it, for
every input, every stored row and every interleaving.

| area | modules | what is proved |
|---|---|---|
| patterns, values, conditions | `Patterns`, `Values`, `Conditions` | containment of patterns is language inclusion; type-strict equality is an equivalence; a stricter constraint implies its parent |
| canonical encoding | `Json`, `Canonical` | the printed bytes parse back, and decide equality of what was accepted |
| grants, chains, evaluation | `Grants`, `Chains`, `Evaluation`, `EvaluationLaws`, `Charges`, `Authorities` | no escalation over an arbitrary store; the answer is a function of the set of grants; the whole chain is charged; a cut hop holds no reservation |
| delegation | `BuiltGrants`, `Delegations`, `DelegationRuns` | reachable stores are forests rooted in the document; a new delegation passes the re-check exactly when its grant reads back; revocation is permanent and transitive |
| approvals | `Approvals`, `ApprovalLaws` | consumed once, for its own action; granted by distinct principals who stay fixed |
| effects and store | `Effects`, `Ledgers`, `Stores` | the planners, the store's atomic calls as functions, and the class that performs them in place |
| protocol | `Protocol`, `ProtocolLaws`, `ResumptionLaws` | at most once, ceilings, leases and evidence over every interleaving; when a resumption runs beside its successor |
| budgets | `BudgetLaws`, `Conservation` | over every interleaving, a grant and everything beneath it spend together no more than each of its budgets |
| one call | `Controls`, `PathRuns` | the imperative path of `execute` and `resume`, and that each such call is a run of the protocol |
| anchors, executor runs | `Anchors`, `ExecutorRuns` | verification does not trust the cache; a run is marked exactly when a send reached it |

## How it is modelled

- Times and durations are integers. Strings are sequences of characters, compared by code point.
- Code that changes fields is a class with `modifies` clauses (`StateStore`, `Control`, `Reconciler`,
  `DelegationControl`, `AnchorCache`, `ExecutorRun`, `Register`), and code that loops is a method with
  a loop. Each such method is proved equal to, or by, a function of the old state; the laws are proved
  of those functions.
- `Protocol` interleaves at every store call: `Next` is one step of one caller, an operator, an
  approver or the clock. A theorem over `After(..., steps)` holds for every sequence of steps. The
  stale fast path of the ceiling changes nothing in the store, so a run in which callers pass it is
  among those sequences.
- The clock never goes backwards in a run. A minted id (an action id, a delegation id) names nothing
  yet. The document, the ceilings and the budgets are fixed for a run, and every claim presents the
  charges authority assembled.
- A document's grants and envelopes share no id, as the loader requires
  (`src/ctrlrun/authority.py`, lines 2099-2108). Rows are keyed by their id and otherwise arbitrary.
- A stored grant is what reading it back gives. `BuiltGrants` has the constructor's own checks, the
  comparison creation makes of operands nobody checked, and the parsing of `grant_from_json`; every
  later read is of the parsed grant, or of a row that cannot be read.
- Integers are unbounded. The interpreter refuses to print or parse one of more than 4300 digits, so
  there `canonical_bytes` and `grant_to_json` raise where the model answers.
- Hashes and tokens are uninterpreted. What is proved injective is the bytes.
- The store is the one in memory, whose calls are one step each.

## Where the code does not do what it promises

Each is kept as the code has it, with the exact condition under which the promise holds.

- **Denials can repeat an approver.** `deny_approval` appends the verified denier unchecked, so an
  approver who granted and then denies is listed twice (`ApprovalLaws.DenialRepeatsAnApprover`). The list
  stays distinct exactly when the denier had not answered
  (`ApprovalLaws.DenialKeepsDistinctExactlyWhen`); every list that is not a denial's is distinct.
- **A stale continuation is admitted.** `take_continuation` reads the record's state and lease but not
  its holder, so a suspended call whose attempt was resolved as failed can resume beside the attempt
  that replaced it (`ProtocolLaws.StaleContinuationRunsBesideItsSuccessor`). In every reachable world
  an admitted resumption runs beside a successor exactly when the record it found is held by another
  action, and then its own attempt had been declared failed; otherwise its attempt is the last the
  store numbered (`ResumptionLaws.ResumesBesideASuccessorExactlyWhen`). What it returns is committed
  exactly when it has no successor (`ResumptionLaws.ResumedReturnIsCommittedExactlyWhen`).
- **An empty provider passes when the cache does not.** With nothing held by the provider, the report
  is `ok` exactly when the local anchor table is not empty (`Anchors.EmptyProviderIsOkWhenTheCacheIsNot`).
  One planted row before a provider that vouches for nothing reports `ok`
  (`Anchors.APlantedRowHidesAnEmptyProvider`).
- **Roles are covered by control.** `unsatisfied` compares control ids, so a control demanding two
  roles is covered by an approver holding one (`Approvals.OneRoleCoversItsControl`). Being satisfied
  means holding every required role, whatever is held, exactly when each required role is the only role
  of some control on the list (`Approvals.SatisfactionMeansEveryRoleExactlyWhen`); a list may meet that
  though one of its controls demands two (`Approvals.TwoRolesMayStillBeInsisted`). `Control` lists one
  role for each control, where the two are the same (`Approvals.OneRoleAControlIsExact`), so a list that
  fails the condition reaches `unsatisfied` only in a request built through the API.
- **A grant built in code can be stored and never read again.** The specification has
  `Grant.__post_init__` validate every condition key and operand, so that it refuses exactly what the
  loader refuses (`docs/SPEC-v0.3.md`, lines 1377-1386). It checks a constraint's key against its own
  argument and operator and reads neither the name nor the operand
  (`src/ctrlrun/authority.py`, lines 522-533), and `delegate`, `hop` and `_break_glass` store what they
  plan without reading it back. What `delegate` creates can be read and passes the re-check exactly when
  the grant reads back (`DelegationRuns.DelegatingPassesTheRecheck`), which is when each constraint
  names an argument, not one reserved for the action's own fields, and has an operand its operator can
  read (`BuiltGrants.ConditionReadsBackExactlyWhen`). A grant constrained by `agent_eq` is planned by
  either call and cannot be read (`DelegationRuns.AReservedNameRefusesEveryone`). From then on, in every
  run, every evaluation of every action that presents no hop is refused, and no revocation removes the
  row (`DelegationRuns.UnreadableIsForEver`).
- **Opening an envelope does not read the envelope's expiry.** What `break_glass` opens can be read and
  passes the re-check at its creation exactly when the grant reads back and its envelope has not expired
  (`DelegationRuns.OpeningPassesTheRecheck`). An envelope that ended at 5 and is opened at 10 stores a
  grant that reads back and is refused at that same instant (`DelegationRuns.AnExpiredEnvelopeOpens`).
  The loader refuses an envelope with an expiry, so only a document built in code can differ in that.

## Model

| member | source | states |
|---|---|---|
| Patterns.ContainsDecidesInclusion | src/ctrlrun/authority.py:309-335 | for well-formed patterns, `contains` answers yes exactly when every value the child matches the parent matches |
| Patterns.Separated | src/ctrlrun/authority.py:291-335 | wherever `contains` answers no there is a value the child matches and the parent does not |
| Patterns.ContainsReflexive | src/ctrlrun/authority.py:309-335 | every well-formed pattern contains itself |
| Patterns.ContainsTransitive | src/ctrlrun/authority.py:309-335 | containment of patterns composes |
| Patterns.SegmentWitness | src/ctrlrun/authority.py:303-335 | a value one segment matches, that another matches only where it contains it |
| Values.EqualIsNormalEquality | src/ctrlrun/grammar.py:163-187 | type-strict equality holds exactly when the key-sorted forms are the same value, at every depth |
| Values.EqualIsEquivalence | src/ctrlrun/grammar.py:163-187 | type-strict equality is reflexive, symmetric and transitive on nested values |
| Json.ValueRoundTrip | src/ctrlrun/action.py:254-293 | parsing a printed value gives the value back and leaves what followed it |
| Json.Utf8RoundTrip | src/ctrlrun/action.py:254-293 | encoding as UTF-8 and decoding gives the text back |
| Canonical.AcceptedExactly | src/ctrlrun/action.py:55-106 | an argument is accepted exactly when nothing in it is a float, an unlisted type, a non-string key or an unencodable string |
| Canonical.FrozenValue | src/ctrlrun/action.py:79-96 | freezing an argument gives its plain form, tuples as lists, or refuses it |
| Canonical.FrozenMapping | src/ctrlrun/action.py:99-106 | the loop over a mapping freezes every entry in order or refuses the mapping |
| Canonical.FormDecidesEquality | src/ctrlrun/action.py:254-331 | two accepted values print the same bytes exactly when they are type-strictly equal, whatever their insertion order |
| Canonical.FormRoundTrips | src/ctrlrun/action.py:254-331 | loading the canonical bytes of an accepted value gives a value equal to it |
| Canonical.CanonicalBytesDecideEquality | src/ctrlrun/action.py:254-331 | two payloads have the same canonical bytes exactly when what was accepted of them is equal |
| Canonical.SameFormIsSameProposal | src/ctrlrun/action.py:334-350 | two actions share a canonical form exactly when name, arguments, agent, user, resource and environment agree |
| Canonical.ExecutorSeesTheArguments | src/ctrlrun/action.py:244-251 | the arguments read back off the canonical form are the arguments hashed |
| Canonical.TokenInputNamesTheAttempt | src/ctrlrun/effect.py:541-565 | the bytes an idempotency token is taken over name one effect key and one attempt, and are never an action's |
| Conditions.KeyIsReversible | src/ctrlrun/grammar.py:468-496 | the key built from an argument and an operator splits back into exactly that pair |
| Conditions.SameKeySameMeaning | src/ctrlrun/grammar.py:468-496 | conditions under one key name one argument and one operator |
| Conditions.ParseConditions | src/ctrlrun/grammar.py:433-466 | a mapping parses exactly when every entry does, to one condition for each key |
| Conditions.ParsedAreValid | src/ctrlrun/grammar.py:433-466 | every condition parsed has an operand that fits its operator, under the key that names both |
| Conditions.StricterImplies | src/ctrlrun/authority.py:1116-1129 | between conditions that were parsed, any arguments that satisfy the child's satisfy the parent's, for all seven operators |
| Conditions.StrictnessComposes | src/ctrlrun/authority.py:1116-1129 | the operand table composes |
| Grants.ContainmentAttenuates | src/ctrlrun/authority.py:990-1028 | between grants that were read, whatever a contained grant covers its parent covers, the agent aside |
| Grants.ContainmentComposes | src/ctrlrun/authority.py:990-1028 | between grants that were read, containment composes over all eight rows |
| Grants.ConstraintsCover | src/ctrlrun/authority.py:1100-1113 | between grants that were read, arguments that satisfy all child constraints satisfy all parent constraints |
| Grants.LiteralSubject | src/ctrlrun/authority.py:1069-1088 | a subject pattern without a wildcard names exactly one value |
| Grants.BudgetsRefine | src/ctrlrun/authority.py:1031-1066 | every spend history that keeps each child budget in every window keeps each parent budget in every window |
| BuiltGrants.ConditionReadsBackExactlyWhen | src/ctrlrun/grammar.py:468-534 | a stored constraint reads back exactly when it names an argument that is not reserved and its operator can read its operand, and then as itself |
| BuiltGrants.ReadBackIsValid | src/ctrlrun/authority.py:735-778 | what the constructor accepts and the store reads back is a grant as the laws of containment and evaluation need one |
| BuiltGrants.CreationDecidesContainment | src/ctrlrun/authority.py:1100-1129 | on a grant that reads back, creation's comparison of unchecked operands raises nothing and decides the containment every later re-check decides |
| Chains.WalkToRoot | src/ctrlrun/authority.py:1773-1809 | the loop with its `seen` set ends, over any store, with the walk the chain laws are about |
| Chains.WalkKeepsReadable | src/ctrlrun/authority.py:735-809 | where each row that reads back was validated as the loader validates one, every node kept and every root reached is such a grant |
| Chains.ChecksExactlyStanding | src/ctrlrun/authority.py:1811-1893 | the re-check passes exactly the chains that are rooted, unrevoked, unexpired above the leaf, contained at every link, delegable above, within depth and within the envelope's `max_ttl` |
| Chains.FirstViolationFinds | src/ctrlrun/authority.py:1842-1847 | no row is violated exactly when every parent and child on the chain are contained |
| Chains.NoEscalation | src/ctrlrun/authority.py:1773-1893 | where a chain passes and its leaf covers the action, the document root covers it too, and beneath an envelope it is in time |
| Chains.RevocationCutsTheChain | src/ctrlrun/authority.py:1831-1832 | a chain with a revoked node anywhere never passes |
| Evaluation.Evaluate | src/ctrlrun/authority.py:1300-1406 | the loops that collect passes and failures decide what the whole list of verdicts decides |
| Evaluation.Choose | src/ctrlrun/authority.py:1334-1406 | collecting verdict by verdict, aborting at an unreadable chain, is choosing over all of them |
| Evaluation.LeastIsLeast | src/ctrlrun/authority.py:1198-1202 | the grant named is one of those that qualify and no other id comes before it |
| Evaluation.SelectIsOfTheSet | src/ctrlrun/authority.py:1397-1406 | decision, reason and grant id depend on the set of verdicts and not on their order |
| Evaluation.SelectPassesWhenOneDoes | src/ctrlrun/authority.py:1397-1406 | among readable verdicts, evaluation passes exactly when one verdict does |
| Evaluation.RefusalNamesTheFirstReason | src/ctrlrun/authority.py:97-113 | a refusal names the first reason in precedence that any grant failed for, and the first grant id among those |
| EvaluationLaws.JudgePassesWhenAdmitted | src/ctrlrun/authority.py:1348-1396 | a candidate passes exactly when it covers the action, agent included, under a passing chain |
| EvaluationLaws.PassesExactlyWhenAdmitted | src/ctrlrun/authority.py:1300-1406 | over any store, evaluation without a hop passes exactly when every row can be read and some grant of the document or the store admits the action |
| EvaluationLaws.UnreadableRowRefusesEveryone | src/ctrlrun/authority.py:1763-1771 | one row that cannot be read refuses every evaluation that presents no hop, as unreadable and by that row's id |
| EvaluationLaws.EvaluationNeverEscalates | src/ctrlrun/authority.py:1300-1406 | over any store, a pass on a delegation is addressed to the acting agent and its chain stands on a root covering the action |
| EvaluationLaws.EvaluationIsOrderFree | src/ctrlrun/authority.py:1763-1771 | over any store, reordering the document or the store changes neither decision, reason nor grant id |
| EvaluationLaws.MoreGrantsNeverRefuse | src/ctrlrun/authority.py:1397-1402 | adding a document grant with a fresh id never turns a pass into a refusal |
| EvaluationLaws.HopIsDecidedByItsChain | src/ctrlrun/authority.py:1731-1761 | under a hop, documents and stores that agree along its chain give the same result |
| EvaluationLaws.RevokedNeverDecides | src/ctrlrun/authority.py:1811-1832 | no pass is on a delegation whose chain goes through a revoked or unreadable one |
| Charges.PriceLinks | src/ctrlrun/authority.py:1438-1450 | the nested loops price every budget of every link, or stop at the first that cannot be measured |
| Charges.ChargesFor | src/ctrlrun/control.py:3592-3635 | what an action spends is its whole chain's budgets, refused where unmeasurable or where no effect key would be charged |
| Charges.PricingIsWhole | src/ctrlrun/authority.py:1408-1450 | every budget on the chain is charged what its metric reads off the action, and nothing else is charged |
| Charges.WholeChainPays | src/ctrlrun/authority.py:1408-1450 | an action that passed on a delegation charges every grant from that delegation up to the document root |
| Authorities.Redecide | src/ctrlrun/control.py:2471-2495 | the re-decision before a reservation is held reads the credential and then the whole of evaluation, the task dimension not evaluated |
| Authorities.HeldExactlyWhenTheHopAdmits | src/ctrlrun/control.py:2483-2511 | under a hop a reservation is held exactly while the credential lives and that delegation admits the action under a chain standing now |
| Authorities.CutHopIsNotHeld | src/ctrlrun/control.py:2495-2511 | one revocation anywhere on the hop's chain stops the holding of whatever is in flight beneath it |
| Authorities.HeldExactlyWhenSomeGrantAdmits | src/ctrlrun/control.py:2494-2511 | without a hop, held exactly while the credential lives, every row can be read and some grant admits the action |
| Approvals.GrantCountsPrincipals | src/ctrlrun/approval.py:248-289 | a grant adds one principal at most, keeps everyone else, and reaches the threshold at that many distinct principals |
| Approvals.SatisfiedExactlyWhen | src/ctrlrun/approval.py:329-344 | requirements are satisfied exactly when each required control has a held role of its own |
| Approvals.SatisfactionMeansEveryRoleExactlyWhen | src/ctrlrun/approval.py:329-344 | satisfied implies every required role held, for all sets held, exactly when each required role is the only role of some control listed |
| Approvals.TwoRolesMayStillBeInsisted | src/ctrlrun/approval.py:329-344 | a list with a two-role control on which satisfied still implies every role held |
| Approvals.OneRoleAControlIsExact | src/ctrlrun/approval.py:329-344 | holding every role satisfies, and with one role a control the two are the same |
| Approvals.OneRoleCoversItsControl | src/ctrlrun/approval.py:329-344 | an approver lacking one of a control's two roles still satisfies the requirements |
| Approvals.UnsatisfiedFinds | src/ctrlrun/approval.py:334-344 | the role reported missing is required and uncovered, and none is reported exactly when all are covered |
| Approvals.RefuseApprover | src/ctrlrun/control.py:4018-4058 | the two loops name the refusal of the first rule that fails: nobody verified, an unentitled approver, the requester |
| Approvals.ApproversStandExactlyWhen | src/ctrlrun/control.py:4018-4058 | approvers are not refused exactly when there is one, each is entitled to every role and none is the requester |
| Approvals.Recheck | src/ctrlrun/control.py:3906-4016 | one read of the record decides the approver rules first, then its own refusal, then the fingerprints, and writes nothing |
| Approvals.RecheckPassesExactlyWhen | src/ctrlrun/control.py:3906-4110 | a live grant passes exactly when its approvers stand and both fingerprints are absent or the same, one side alone never skipping |
| Delegations.OpenerHoldsEveryRole | src/ctrlrun/control.py:4397-4470 | an envelope opens only for a resolved principal holding the role of every control it cites, each resolving |
| Delegations.DelegationControl.Delegate | src/ctrlrun/control.py:4541-4595 | the row planned is written as it will read back, and every refusal writes none and records its reason unless the call was malformed or an operand could not be compared |
| Delegations.DelegationControl.BreakGlass | src/ctrlrun/control.py:4329-4470 | the row planned for an entitled opener is written as it will read back, and every refusal writes none and records its reason unless the call was malformed or an operand could not be compared |
| Delegations.DelegationControl.Revoke | src/ctrlrun/control.py:4518-4539 | one row is marked revoked, once, with one event |
| Delegations.DelegationControl.Write | src/ctrlrun/state.py:1185-1189 | an id already stored is refused and nothing is overwritten |
| DelegationRuns.DelegationIsPlannedExactlyWhen | src/ctrlrun/authority.py:1553-1619 | whatever grant the constructor accepts is planned exactly when each creation rule holds, the last being containment where it reads back |
| DelegationRuns.ParentIsUsableExactlyWhen | src/ctrlrun/authority.py:1633-1729 | in a reachable store a delegation may be delegated beneath exactly when it can be read, is delegable, unexpired and its chain passes the re-check |
| DelegationRuns.EveryRowIsRooted | src/ctrlrun/authority.py:1773-1809 | in a reachable store every walk ends at a document root after exactly the recorded depth, within the bound |
| DelegationRuns.EveryChainAttenuates | src/ctrlrun/authority.py:1811-1893 | in a reachable store every edge of a readable row's chain is contained, from a delegable parent, within the envelope's `max_ttl` |
| DelegationRuns.StepKeepsTheForest | src/ctrlrun/authority.py:1454-1619 | delegate, break-glass, revoke and clock steps keep the forest, whether or not what they store can be read |
| DelegationRuns.ReachableStoresAreForests | src/ctrlrun/authority.py:1454-1619 | in every store any run reaches from the empty one, each row is rooted in the document at its recorded depth, and each readable one by a contained, delegable chain |
| DelegationRuns.DelegatingPassesTheRecheck | src/ctrlrun/authority.py:1553-1619 | whatever `delegate` creates can be read and passes the re-check at that instant exactly when its grant reads back |
| DelegationRuns.OpeningPassesTheRecheck | src/ctrlrun/authority.py:1454-1551 | whatever `break_glass` opens can be read and passes it exactly when its grant reads back and the envelope has not expired |
| DelegationRuns.AnExpiredEnvelopeOpens | src/ctrlrun/authority.py:1454-1551 | a concrete envelope past its expiry whose grant is planned and refused by the re-check at the same instant |
| DelegationRuns.AReservedNameRefusesEveryone | src/ctrlrun/authority.py:522-533 | a concrete grant constrained on the agent that both calls plan, whose row nobody's evaluation survives and no revocation changes |
| DelegationRuns.UnreadableIsForEver | src/ctrlrun/authority.py:1621-1631 | in every run a row that cannot be read is never changed again, and every later evaluation that presents no hop is refused as unreadable |
| DelegationRuns.RevocationIsPermanent | src/ctrlrun/state.py:1209-1217 | no later step of any run changes a revoked row |
| DelegationRuns.RevocationIsPermanentAndTransitive | src/ctrlrun/control.py:4518-4539 | after one revocation no evaluation in any later state passes on that row or on anything beneath it |
| Effects.ResolutionKeepsTheUnknown | src/ctrlrun/state.py:341-360 | a resolution keeps holder, attempt and result, and the error that made the record ambiguous |
| Ledgers.CheckCharges | src/ctrlrun/state.py:575-619 | charges are refused for mixed amounts, or at the first whose window would pass its limit |
| Ledgers.ChargeAll | src/ctrlrun/state.py:1417-1442 | one row is written for each effect key, attempt, grant and metric |
| Stores.StateStore.AuthorizeAndReserve | src/ctrlrun/state.py:1341-1376 | approval, reservation and charges are decided first and written together, the lapses aside |
| Stores.StateStore.Move | src/ctrlrun/state.py:1569-1596 | an outcome is written only by the holder from the expected state, and a refused one releases nothing |
| Stores.StateStore.ResolveEffect | src/ctrlrun/state.py:1505-1517 | a resolution moves an ambiguous record to one of two answers and releases its charges on `FAILED` |
| Stores.StateStore.Grant | src/ctrlrun/state.py:1251-1272 | a grant counts, and a lapsed request is marked as it is refused |
| Stores.StateStore.Deny | src/ctrlrun/state.py:1274-1285 | a denial ends the request and lists its verified denier |
| Stores.StateStore.Hold | src/ctrlrun/state.py:1526-1537 | a suspension extends the lease, counts a round and keeps held tokens distinct |
| Stores.StateStore.TakeHeldContinuation | src/ctrlrun/state.py:1539-1547 | the loop finds the one suspension the token names and spends the token, or refuses |
| Protocol.StepKeeps | src/ctrlrun/control.py:1598-1704 | every step of every interleaving keeps, for every key, the agreement of record, callers and history |
| ProtocolLaws.StartsAtMostOnceBeyondFailures | src/ctrlrun/control.py:1642-1704 | over every interleaving, the attempts that start on a key are at most one more than its transitions into `FAILED` |
| ProtocolLaws.OneAttemptActs | src/ctrlrun/effect.py:250-317 | where every declared failure was true, everything the remote did for a key was done by one attempt of one action |
| ProtocolLaws.StartsWithinTheCeiling | src/ctrlrun/control.py:2996-3107 | however callers race, no more attempts start than `max_attempts` allows |
| ProtocolLaws.AttemptNumbersIncrease | src/ctrlrun/effect.py:294-298 | the numbers the store assigns a key strictly increase, refused attempts spending theirs |
| ProtocolLaws.OneCommittedReceipt | src/ctrlrun/control.py:2409-2440 | at most one committed receipt is written for a key, and only where the record is committed |
| ProtocolLaws.CommittedStaysCommitted | src/ctrlrun/state.py:257-296 | a committed record is never changed again |
| ProtocolLaws.AmbiguityIsResolvedOnly | src/ctrlrun/effect.py:161-167 | an ambiguous record leaves that state only by a resolution, to one of its two answers |
| ProtocolLaws.AmbiguousRecordsHoldNoLease | src/ctrlrun/state.py:299-319 | no run leaves an ambiguous record a lease that could be extended |
| ProtocolLaws.LiveLeaseIsTheHolders | src/ctrlrun/effect.py:212-220 | while a lease is live no step by another action changes the record |
| ProtocolLaws.OneResumptionASuspension | src/ctrlrun/state.py:1539-1547 | in every run a key is resumed at most as often as it was suspended |
| ProtocolLaws.StaleContinuationRunsBesideItsSuccessor | src/ctrlrun/control.py:2008-2031 | a concrete run in which a superseded call resumes beside its successor |
| ResumptionLaws.ResumesBesideASuccessorExactlyWhen | src/ctrlrun/state.py:2947-2970 | in every reachable world an admitted resumption runs beside a successor exactly when another action holds the record, its own attempt then being one declared failed |
| ResumptionLaws.HoldsTheRecordExactlyWhen | src/ctrlrun/effect.py:250-317 | in every reachable world a call holds its key's record exactly while it is the last the store numbered |
| ResumptionLaws.ResumedReturnIsCommittedExactlyWhen | src/ctrlrun/state.py:1539-1547 | over every run, what a resumed call returns is committed exactly when it has no successor |
| ResumptionLaws.SupersededOutcomeIsRefused | src/ctrlrun/control.py:2409-2440 | a superseded call's outcome changes no record and no charge, and is evidenced as ambiguous |
| Conservation.SpendBeneathIsConserved | src/ctrlrun/state.py:1402-1463 | over every run whose claims present whole chains, in any interval of a budget's window the unfailed actions whose chain goes through the grant spend together no more than its limit |
| Conservation.GrantsAndDescendantsKeepTheirBudgets | src/ctrlrun/control.py:3592-3635 | under one document and the rows it leaves, for every grant, envelope or delegation and every budget on it, all actions authorised on it or beneath it spend together no more than the limit |
| Conservation.BookedIsSpent | src/ctrlrun/authority.py:1408-1450 | a claim books on a budgeted grant the action's metric value where its chain goes through the grant, and nothing elsewhere |
| Conservation.DecidedOnIsBudgeted | src/ctrlrun/authority.py:1408-1450 | every grant on an authorised action's chain has the budgets the document or the store gives that id |
| Conservation.BeneathMeansOnTheWalk | src/ctrlrun/authority.py:1773-1809 | the actions summed beneath a grant are those decided on it or on a delegation whose walk to the root meets it |
| Conservation.RunKeepsRows | src/ctrlrun/state.py:1185-1217 | every run of delegations keeps the rows it has, with the grants they had |
| BudgetLaws.BudgetsAreConserved | src/ctrlrun/state.py:1402-1463 | over every run, what claims book on a grant in any interval of a budget's window is what the ledger holds and never exceeds the limit |
| BudgetLaws.WholeChainsAreComplete | src/ctrlrun/authority.py:1408-1450 | charging a whole chain books on each of its grants the action's metric value against every budget it has |
| BudgetLaws.FreshChargesAreWritten | src/ctrlrun/state.py:1417-1442 | the key that stops a double charge never drops a charge of a new attempt |
| BudgetLaws.ReleasingKeepsTheLedger | src/ctrlrun/state.py:1444-1467 | releasing by key frees exactly the rows of the attempt that failed |
| BudgetLaws.StepIsSound | src/ctrlrun/state.py:1341-1467 | every step keeps every window within its limit |
| ApprovalLaws.ConsumedAtMostOnce | src/ctrlrun/approval.py:557-599 | an approval is consumed at most once in any run |
| ApprovalLaws.ConsumedForItsOwnAction | src/ctrlrun/approval.py:557-599 | the step that spends an approval presents it, granted and unexpired, for its own action hash |
| ApprovalLaws.GrantsAreByDistinctPrincipals | src/ctrlrun/approval.py:248-289 | in every run approvers of a record not denied are distinct, and a threshold above one is reached only by that many |
| ApprovalLaws.GrantedApproversAreFrozen | src/ctrlrun/state.py:1251-1272 | from the grant on, the request and its approvers never change |
| ApprovalLaws.SpentApproversWereRechecked | src/ctrlrun/control.py:3906-4058 | an approval granted at the re-check's read and then spent was granted by exactly the approvers that passed it |
| ApprovalLaws.DenialKeepsDistinctExactlyWhen | src/ctrlrun/state.py:1274-1285 | after a denial the list is distinct exactly when the denier had not answered |
| ApprovalLaws.DenialRepeatsAnApprover | src/ctrlrun/state.py:1274-1285 | a concrete record on which one principal is listed twice |
| Controls.Reconciler.Ask | src/ctrlrun/control.py:514-555 | a call's right to ask its hook is spent before the hook runs, so it is asked at most once |
| Controls.Control.Reconcile | src/ctrlrun/control.py:2877-2938 | the record moves only where the answer points, resolved by that action's hook by name, and an unavailable hook changes nothing |
| Controls.Control.Suspend | src/ctrlrun/control.py:2442-2521 | a reservation is held across a round trip only with a key, and only where the credential lives and evaluation without the task still passes |
| Controls.Control.Outcome | src/ctrlrun/control.py:2223-2440 | exactly one terminal receipt unless the executor suspends, `ambiguous` wherever the store refused the outcome |
| Controls.Control.Pass | src/ctrlrun/control.py:2654-2685 | one pass is the re-check and then, with nothing between, the claim |
| Controls.Control.Secure | src/ctrlrun/control.py:2588-2815 | at most two passes, the second only after a hook moved an ambiguous record, and a receipt for every refusal but a malformed call |
| Controls.RefusedCallLeavesTheGrant | src/ctrlrun/control.py:2603-2606 | however a call is refused, reconciled in between or not, a live grant it presented stays granted |
| Controls.SecuredMeansRechecked | src/ctrlrun/control.py:2654-2668 | a call is secured only where the approval it presents passed the re-check and is live |
| Controls.Control.RefuseCeiling | src/ctrlrun/control.py:3025-3107 | the evidence is written and the reservation released as failed, with no start recorded |
| Controls.Control.Run | src/ctrlrun/control.py:1643-1704 | a secured call past the ceiling is released, one whose key was lost is refused, and any other starts once and is mapped once |
| Controls.Control.Execute | src/ctrlrun/control.py:1630-1704 | an executor starts only where the call was secured, within the ceiling, on a reservation that became executing |
| Controls.Control.Resume | src/ctrlrun/control.py:2008-2161 | a resumption takes one suspension and runs the same outcome mapping under the record's number |
| Controls.ReceiptAgreesWithTheRecord | src/ctrlrun/control.py:2285-2440 | a receipt says committed or failed exactly where the attempt held an executing record, and the record then agrees |
| Controls.HookMovesOnlyAmbiguity | src/ctrlrun/control.py:2877-2938 | a hook's answer moves only an ambiguous record, and `unknown` moves nothing |
| PathRuns.ExecuteIsARun | src/ctrlrun/control.py:1630-1704 | one `execute` on a key, with any re-check, hook, clock readings, ceiling and executor, leaves the store, the start and the terminal receipt a run of the protocol leaves |
| PathRuns.ResumeIsARun | src/ctrlrun/control.py:2008-2161 | so does one `resume`, its receipt under the number of the record it found |
| PathRuns.SecuringRuns | src/ctrlrun/control.py:2588-2815 | securing with a hook is a claim, the answer's resolution, and the claim that answer earned |
| PathRuns.OutcomeIsTheStep | src/ctrlrun/control.py:2223-2440 | the imperative outcome mapping is the protocol's finishing step, receipt included |
| PathRuns.ReleaseIsTwoSteps | src/ctrlrun/control.py:3092-3107 | the ceiling's release is the protocol's two steps, and starts nothing |
| Anchors.VerifyAnchors | src/ctrlrun/anchor.py:401-603 | the loop over what the provider holds reports what the whole list entails |
| Anchors.ChainHashes | src/ctrlrun/anchor.py:606-620 | each seq in the map has the hash of the last receipt that carries the seq with one, and every such receipt's seq is there |
| Anchors.TheLastHashStands | src/ctrlrun/anchor.py:606-620 | a seq is in the map exactly when some receipt carries it with a hash, and what stands is the last one's |
| Anchors.BrokenExactlyWhen | src/ctrlrun/anchor.py:520-550 | a seq is reported broken exactly when the provider anchored it and the chain altered it, or lost it with no anchored checkpoint pair at or above |
| Anchors.BrokenIgnoresTheCache | src/ctrlrun/anchor.py:401-430 | the broken seqs are the same for every local anchor table |
| Anchors.GrowthChangesNothing | src/ctrlrun/anchor.py:420-425 | receipts appended above every anchored seq change nothing in the report |
| Anchors.OkExactlyWhen | src/ctrlrun/anchor.py:401-603 | a report is ok exactly when everything held is reproduced and vouched for or superseded, `latest()` is among it, and something is held or cached |
| Anchors.EmptyProviderIsOkWhenTheCacheIsNot | src/ctrlrun/anchor.py:444-463 | a provider holding nothing is reported exactly while the local table is empty |
| Anchors.APlantedRowHidesAnEmptyProvider | src/ctrlrun/anchor.py:444-463 | a concrete chain, planted row and empty provider vouching for nothing that report `ok` |
| Anchors.SortedIsInOrder | src/ctrlrun/anchor.py:491-491 | anchors are examined in order of seq and kind |
| Anchors.SortedKeeps | src/ctrlrun/anchor.py:491-491 | and every anchor held is examined once |
| Anchors.AnchorCache.MakeAnchor | src/ctrlrun/anchor.py:286-398 | over any local table, an anchor is cached exactly with a good answer, above its kind and not back in time, and an ordered table stays ordered |
| ExecutorRuns.ExecutorRun.Mark | src/ctrlrun/effect.py:91-95 | marking a run marks every run that contains it, and ends |
| ExecutorRuns.EnclosingComposes | src/ctrlrun/effect.py:87-95 | what contains a containing run contains the run |
| ExecutorRuns.Register.OpenRun | src/ctrlrun/control.py:2268-2270 | a new run is marked exactly when it resumes, and no earlier send reaches it |
| ExecutorRuns.Register.Offered | src/ctrlrun/effect.py:133-138 | after every send a run is marked exactly when it started resumed or some send reaches it |
| ExecutorRuns.Register.MarkEveryOpen | src/ctrlrun/effect.py:125-130 | a send belonging to no run marks every open run and every run containing one |
| Effects.OnlyFailureIsRetried | src/ctrlrun/effect.py:250-317 | helper, one call only: a key is reserved exactly where it is new or failed, one attempt on, and a lapsed unfinished record is exactly what becomes ambiguous |
| Effects.WonReservationIsLive | src/ctrlrun/state.py:363-378 | helper, one call only: a won reservation holds a live lease to its last instant, keeps the effect's creation time, and excludes another |
| Effects.ExtendedExactlyWhen | src/ctrlrun/effect.py:425-506 | helper, one call only: an extension is accepted exactly for its own executing attempt on a live lease and not earlier, and changes only the expiry |
| Stores.TakeOnEffects | src/ctrlrun/state.py:1341-1400 | helper, one call only: a refused claim writes no reservation, and a won one writes exactly its record |
| Stores.TransitionOnEffects | src/ctrlrun/state.py:257-319 | helper, one call only: a transition is accepted exactly for the holder in an expected state, and a refused one changes nothing |
| Stores.ResolveOnEffects | src/ctrlrun/state.py:322-360 | helper, one call only: a resolution is accepted exactly on an ambiguous record for one of the two answers |
| ApprovalLaws.RefusedClaimLeavesTheGrant | src/ctrlrun/state.py:1356-1376 | helper, one call only: a claim refused for its key, budget or hash leaves a live grant granted |
| Approvals.OtherRefusalsKeepTheirReason | src/ctrlrun/control.py:3992-3999 | helper, one call only: a denial, a replay, a moved hash or a pending request is refused for that reason and never as an approver problem |

## Left out

- Observe mode, policy evaluation, scope providers and upstream pins: policy is an input, and the others are comparisons of values an operator's code returns. A precondition provider's fingerprint is an input.
- Controls.Control.Execute: begins after the policy decision and the ceiling's fast path; the fast path reads and writes nothing the protocol depends on.
- Controls.Control.Outcome: the store is read as the executor left it, so what other callers did meanwhile is the protocol's interleaving and not this method's.
- Controls.Control.Secure: both passes read one clock instant, and the events a refusal leaves are named by kind, without their data.
- PathRuns.ExecuteIsARun: is for calls that reserve a key, and compares the store, the starts and the executors' terminal receipts; the blocked and denied receipts of a call that never started are the path's alone.
- ApprovalLaws.SpentApproversWereRechecked: speaks of records already granted at the re-check's read; a grant landing between that read and the claim is not covered.
- ProtocolLaws.OneAttemptActs: counts a resumed leg as the action that reserved, so truthfulness includes that a superseded action does not act again.
- Conservation.GrantsAndDescendantsKeepTheirBudgets: takes the document as fixed, and each action as authorised against rows later rows keep.
- BuiltGrants.FitUnder: where one constraint cannot be compared and another is looser, the source stops at whichever its parent lists first; the model takes the error, which records no event. Neither writes a row.
- BuiltGrants.ReadBack: an operand JSON cannot print raises before anything is written, and one with a mapping whose keys are not strings is printed with strings for keys; neither is among the operands; the keys of a stored operand keep their order, which no comparison reads (`Values.EqualIsNormalEquality`).
- Grants.ContainmentAttenuates: is for grants that were read, by the loader or back from the store; a document built in code with a constraint whose operand does not fit is not modelled, nor for the next three.
- Grants.ContainmentComposes: the same.
- Grants.ConstraintsCover: the same.
- Conditions.StricterImplies: the same, of one condition.
- Authorities.Redecide: reads the clock and the stored rows at one instant.
- Chains.WalkToRoot: a row that cannot be parsed is a row without a grant; of the reasons why, `BuiltGrants` has those a grant built in code can bring about.
- The SQLite and PostgreSQL stores, their schemas, retries and locks, and pruning by retention: the model is the store in memory.
- Storage of grants and events as JSON and YAML loading: what reaches the model is what those loaders accept.
- Principal claims and how roles are read off them: a principal's roles are given as the set it holds.
- Action results and error texts are opaque strings, and an effect template's rendering is not modelled.
- SHA-256 and token derivation: bytes are proved injective, hashes are not assumed to be.
- Identity providers, adapters, the command line, telemetry, logging and event sinks.
- The local anchor table is a sequence in the order rows were cached; a store that returns it sorted gives the same reports, which read only its tokens.
