# AgentPay: a verified model of the protocol

AgentPay lets an agent pay per call with signed cumulative claims. A gateway admits
or refuses each claim under a high-water mark, appends every decision to a
hash-chained evidence log, and later settles the highest claim through an escrow
program, which pays the provider and lets the agent take back the rest. This project
models those parts in Dafny and proves what they promise each other.

Run `dafny verify dfyconfig.toml`.

## How the model is laid out

| file | models |
|---|---|
| `Wrappers.dfy`, `Bytes.dfy` | option and result types; machine integers, bytes and little-endian encodings |
| `Claims.dfy` | the claim and its three encoders (gateway, program, SDK) |
| `Evidence.dfy`, `Merkle.dfy`, `RootBinding.dfy` | the hash chain, the Merkle tree and its proofs, and what a root pins down |
| `Admission.dfy` | the claim-ordering rule and the in-memory store |
| `Postgres.dfy`, `Transactions.dfy`, `AuditTrail.dfy` | the three tables, one admission as a transaction, interleaved and crashing transactions, and what the committed log proves |
| `SessionAccounts.dfy`, `Ed25519.dfy` | the session account's two layouts and reconciliation; the signature-precompile instruction |
| `Escrow.dfy`, `Payouts.dfy` | the escrow program; gateway and program together, the settle route step by step |
| `Policies.dfy`, `Planning.dfy` | the permission envelope and the affordability walk |
| `Approvals.dfy`, `Spending.dfy`, `Purchases.dfy`, `SdkClient.dfy` | human approvals, derived spend, the order of steps in a purchase, and the SDK's counters |
| `RateLimiting.dfy` | the token bucket with eviction |
| `Base58.dfy`, `Base64.dfy` | the two text codecs |

Code that changes state is a class or a method with loops, proved equal to a
specification function of the same name or nearly so (`AdmitClaim` to `StoreStep`,
`UpsertClaimHighWaterMark` to `AdmitAlone`, `Settle` to `SettleSession`, `CheckAt` to
`Check`, `BuyNow` to `Buy`); the theorems are about those functions and runs of them.

SHA-256 is an arbitrary function from byte strings to 32 bytes. Every such function
has collisions, so the binding theorems never assume otherwise: they speak of the
finite set of byte strings hashed in the objects at hand, and say that two of them
collide, or one of them hashes to the zero digest, or the conclusion holds. Ed25519 is
an arbitrary relation, the same for the gateway and the precompile.

## Where the code and its documentation or promises disagree

- `gateway/src/evidence.rs:16-20` says each leaf commits to its own sequence position.
  The hashed bytes hold no position (`gateway/src/evidence.rs:93-107`). The conclusion
  drawn there still holds, through the chain of predecessors: `RootBinding.RootBindsLog`.
  `Merkle.RepeatedTailKeepsRoot` shows the weakness the chain has to close.
- `docs/decisions.md` (D13) calls the committed root frozen. The settle route loads the
  leaves first, then reads the record, submits, and marks the session settled last
  (`gateway/src/routes.rs:1038-1204`), with admissions possible in between. The committed
  root is the root of the log held from then on exactly when no attempt on the session was
  recorded between loading and marking, barring a hash clash (`Payouts.RootHoldsIff`,
  `AuditTrail.CommittedRootIsHeldRootIff`); `AuditTrail.LateAttemptRun` is a run where it is
  not. Likewise a claim admitted between reading the record and marking is charged but not
  settled by that call, and the route then refuses the session
  (`Payouts.PayoutIsExact`, `Payouts.SettledForGood`).
- `gateway/src/control.rs:672-674` says the plan's count cannot disagree with what will be
  admitted. `Purchases.PlanAgreesWithBuying` gives the exact condition, for agents with and
  without an envelope; whatever else it asks for can make buying refuse what the plan
  counted. Three such cases are stated on their own: a free resource is planned for but
  never sold, since its claim does not raise the mark (`Purchases.FreeIsPlannedNeverSold`);
  the planner does not look at the session's deposit (`Purchases.DepositIsNotPlanned`); and
  an agent without an envelope is planned for in full even when it is suspended or an
  envelope is demanded, and then sold nothing (`Purchases.NoEnvelopeIsPlannedNotSold`).
  The rest are the session's expiry, settlement and nonce, and a missing approval, which
  the plan announces.
- `gateway/src/routes.rs:792-794` says a purchase proceeds when an approval is waiting. The
  approval is spent before the admission, which may still refuse: for a stale nonce, a
  settled or expired session or a passed deposit the approval is gone and nothing is charged
  (`Purchases.BurnsExactly`). `Purchases.ApprovalsAccounted` says where every approval goes.
- Log amounts are clamped to the signed range before hashing. That changes no re-derived
  decision exactly when the deposit and the last admitted nonce are below the largest
  signed value (`AuditTrail.ClampHarmlessIff`); beyond it some refusal is recorded that an
  auditor would re-derive differently (`AuditTrail.NextEntryExplainedIff`,
  `AuditTrail.ReplayFailsAtMaxDeposit`, `AuditTrail.ReplayFailsAtMaxNonce`), against
  `gateway/src/db.rs:621-623`.
- The two stores differ on three kinds of input. An accepted nonce above the signed range
  is admitted in memory and is an error in Postgres, as is an attempt once a session's
  sequence numbers are used up (`Postgres.AdmitFailsExactlyWhen`); and Postgres opens no
  session with a deposit of zero or above the signed range (`Postgres.OpenRefinesStore`).
- `open_session` accepts an expiry to which the clock skew cannot be added
  (`programs/agentpay/src/lib.rs:65-72`); neither party can then ever move the money
  (`Escrow.RecoverableIff`, `Escrow.EndOfTimeSessionIsStuck`). The bound on session
  length puts such sessions within thirty days of the end of representable time.
- The instruction builder truncates the message length to 16 bits
  (`gateway/src/settle.rs:112`); it is accepted exactly up to that length
  (`Ed25519.BuiltInstructionAccepted`). Claim messages are always shorter.
- The empty byte string encodes to `1` in base 58, which decodes to one zero byte
  (`Base58.DecodeInvertsEncode`).
- A charged purchase whose answer never reaches the client, because the provider failed or
  the reply was lost on the way, leaves the SDK's counters behind, and every later attempt
  is refused until `resume` (`SdkClient.SyncIsKeptExactlyWhen`,
  `SdkClient.BehindBuysNothing`).

## Model

| member | source | states |
|---|---|---|
| `Bytes.I64RoundTrip` | gateway/src/claim.rs:49-57 | two's-complement little-endian bytes give back every signed value |
| `Bytes.U64LeWorth` | gateway/src/claim.rs:49-57 | the eight place values of a little-endian integer, the first byte worth least |
| `Claims.Claim.SigningBytes` | gateway/src/claim.rs:49-57 | the gateway's buffer, filled slice by slice, is byte for byte the program's message |
| `Claims.ClaimMessage` | sdk/src/claim.ts:42-67 | the SDK's encoder succeeds exactly on a 32-byte session and integers in range, and then agrees with the program's; which error each bad input gets |
| `Claims.DecodeInvertsEncode` | programs/agentpay/src/lib.rs:401-416 | every claim, at every u64 and i64 value, can be read back from its message |
| `Claims.EncodeInvertsDecode` | programs/agentpay/src/lib.rs:401-416 | every 73-byte string under the domain is the message of the claim it decodes to |
| `Claims.MessageInjective` | programs/agentpay/src/lib.rs:407-408 | no two distinct claims share a signed message |
| `Claims.MessageLayout` | gateway/src/claim.rs:49-57 | the domain letter by letter, and amount, nonce and expiry read back at their own offsets of the 73 bytes |
| `Claims.ExpiredExactly` | gateway/src/claim.rs:61-67 | expired exactly from the 31st second past the expiry on, and never when that lies beyond the last second |
| `Evidence.ParsePrints` | gateway/src/evidence.rs:55-76 | parsing inverts the five frozen decision strings |
| `Evidence.EntryPreimageInjective` | gateway/src/evidence.rs:93-107 | the hashed bytes determine predecessor, session, amount, nonce and decision |
| `Evidence.DecisionWording` | gateway/src/evidence.rs:55-64 | which of the five frozen strings each decision is |
| `Evidence.PreimageLayout` | gateway/src/evidence.rs:93-107 | predecessor, session, amount, nonce and decision sit at bytes 0, 32, 64, 72 and 80, and no other string has them there |
| `Evidence.VerifyChain` | gateway/src/evidence.rs:137-169 | the loop accepts exactly the logs numbered from zero, linked, and hashed over each entry's fields at their places, and otherwise reports the first fault |
| `Evidence.ChainOkExactly` | gateway/src/evidence.rs:137-169 | being sound is that every entry has its number, its predecessor and a hash of a string holding exactly its fields at those bytes |
| `Evidence.ChainExtends` | gateway/src/evidence.rs:137-169 | a sound log stays sound under one more entry exactly as appended |
| `Evidence.ChainHashesDistinct` | gateway/src/evidence.rs:16-20 | no two entries of a sound chain carry one hash, barring a collision or a zero preimage |
| `Merkle.NewTree` | gateway/src/evidence.rs:204-225 | the level-by-level loop builds exactly the recursively specified levels |
| `Merkle.MerkleTree.Proof` | gateway/src/evidence.rs:250-270 | the proof is the recursively specified sibling path, absent exactly out of range |
| `Merkle.LevelsFacts` | gateway/src/evidence.rs:228-234 | the last level is the recursively specified root |
| `Merkle.VerifyProof` | gateway/src/evidence.rs:277-286 | the loop accepts exactly when climbing the proof reaches the root |
| `Merkle.ProofReachesRoot` | gateway/src/evidence.rs:250-286 | every leaf's own proof verifies against the root, and its length is the tree's height |
| `Merkle.HeightIsLeast` | gateway/src/evidence.rs:250-270 | that height is the least k with leaf count at most 2 to the k |
| `Merkle.PairLayout` | gateway/src/evidence.rs:196-201 | the left child is hashed first |
| `Merkle.ClimbStep` | gateway/src/evidence.rs:277-286 | a sibling on the right is hashed second, one on the left first |
| `Merkle.SmallRoots` | gateway/src/evidence.rs:204-234 | the roots of no, one and two leaves |
| `Merkle.EvidenceProof` | gateway/src/routes.rs:1359-1425 | the proof endpoint never serves a proof that does not verify, and always has one for an index in range |
| `Merkle.RootIsSplitRoot` | gateway/src/evidence.rs:204-234 | the bottom-up root equals the top-down definition that splits leaves at the largest power of two and hashes the left half's root before the right's |
| `Merkle.RepeatedTailKeepsRoot` | gateway/src/evidence.rs:16-20 | wherever the nodes at some depth number odd and cover the leaves exactly, repeating the leaves under the last of them keeps the root |
| `RootBinding.SameHeightBinds` | gateway/src/evidence.rs:204-225 | distinct leaves under one root at one height are the same leaves, barring a collision |
| `RootBinding.HeightsAgree` | gateway/src/evidence.rs:93-107 | two sound logs under one root have trees of one height, since entry preimages are longer than 64 bytes |
| `RootBinding.RootBindsLog` | gateway/src/evidence.rs:8-20 | two sound logs of any lengths with one root are the same log, entry by entry, barring a collision or a zero preimage |
| `RootBinding.FullProofNamesLeaf` | gateway/src/evidence.rs:277-286 | a proof as long as the tree is high that reaches the root starts from a leaf |
| `RootBinding.InclusionSound` | gateway/src/evidence.rs:277-286 | an entry hash accepted with a proof of any length and sides is one of the leaves, barring a collision |
| `Admission.InMemorySessionStore.Open` | gateway/src/state.rs:233-240 | a duplicate is refused and nothing changes; otherwise exactly this record is added |
| `Admission.InMemorySessionStore.AdmitClaim` | gateway/src/state.rs:247-272 | decides by the rule on the stored record and moves mark, nonce and retained claim together, only on acceptance |
| `Admission.InMemorySessionStore.MarkSettled` | gateway/src/state.rs:274-279 | sets one flag of one known session |
| `Admission.InMemorySessionStore.MarkChainVerified` | gateway/src/state.rs:281-287 | sets one flag of one known session |
| `Admission.EvaluatesExactly` | gateway/src/state.rs:147-192 | each verdict, acceptance included, is an if-and-only-if in plain arithmetic: the first failing check of five, expiry thirty seconds late or never past the last second |
| `Admission.RecordAfter` | gateway/src/state.rs:233-287 | what each operation leaves in every session's record, and which sessions are known after it |
| `Admission.MarksOnlyRise` | gateway/src/state.rs:147-192 | in every run of every store, marks, nonces and flags only rise and the terms never change |
| `Admission.AcceptedClaimsIncrease` | gateway/src/state.rs:147-192 | a later accepted claim is above an earlier one in amount and nonce, so identical claims are admitted at most once |
| `Admission.MarkIsSumOfCharges` | gateway/src/state.rs:166-191 | after any run the mark is the sum of all admitted deltas, within the deposit, and the retained claim is exactly the mark |
| `Admission.ChargedSince` | gateway/src/state.rs:166-191 | the sum of charges only rises, and stands still exactly while nothing is admitted |
| `Admission.PlanningClaimNeverAdmitted` | gateway/src/control.rs:1096-1109 | a claim at the current mark and nonce is admitted in no later state of the gateway |
| `Postgres.Transaction.AppendEvidence` | gateway/src/db.rs:582-656 | the row written continues the session's numbering and chain, holds the clamped amount and nonce, the decision and the signature, and is hashed over exactly those fields at their places; or nothing is written |
| `Postgres.NextRowHolds` | gateway/src/db.rs:582-656 | the row's number, link and clamped fields, and a hash of a string holding exactly those fields |
| `Postgres.Database.UpsertClaimHighWaterMark` | gateway/src/db.rs:435-573 | statement by statement with its commits and rollbacks, one uninterrupted admission of the specification |
| `Postgres.AdmitShape` | gateway/src/db.rs:498-573 | on sound tables exactly one row is appended and, on acceptance, the ticket replaced; settled sessions are left alone |
| `Postgres.AdmitKeepsTablesOk` | gateway/src/db.rs:435-573 | an admission keeps every chain sound, touches only its session, and an error changes nothing |
| `Postgres.AdmitRefinesStore` | gateway/src/db.rs:435-573 | whenever it commits, the tables seen through the record reader move as the in-memory rule does, with the same verdict |
| `Postgres.AdmitFailsExactlyWhen` | gateway/src/db.rs:533-570 | it fails, changing nothing, exactly for an unknown session, an accepted nonce above the signed range or an exhausted sequence |
| `Postgres.OpenRefinesStore` | gateway/src/db.rs:147-170 | opening refines the in-memory store for exactly the deposits from one to the largest signed value |
| `Postgres.SavedRow` | gateway/src/db.rs:147-170 | a new row holds the record's terms, column by column, unsettled |
| `Postgres.UpdatesRefineStore` | gateway/src/db.rs:216-229 | the flag updates are the in-memory ones, seen through the record reader |
| `Postgres.SoundLogVerifies` | gateway/src/db.rs:386-423 | a sound log loads in order and passes the chain check |
| `Transactions.Serializable` | gateway/src/db.rs:435-573 | after any interleaving and any crashes the tables are those of the committed operations run one at a time in commit order, and every committed reply is that run's reply |
| `Transactions.EveryAnswerIsSerial` | gateway/src/db.rs:435-573 | under any interleaving each thread's transaction ends with the answer, verdict or error, and the tables, that its admission run alone at that moment would give |
| `Transactions.NoDeadlock` | gateway/src/db.rs:435-573 | after any interleaving and any crashes every transaction under way can still be finished within eleven statements, its lock holder's and its own |
| `Transactions.FinishesAlone` | gateway/src/db.rs:435-573 | a transaction that can take its lock ends within six statements of its own, with the tables of its admission run alone, and frees the lock |
| `Transactions.HistoryGrows` | gateway/src/db.rs:435-573 | the commit history is only ever extended |
| `Transactions.ConcurrentMarksOnlyRise` | gateway/src/db.rs:548-570 | under every interleaving marks and nonces only rise |
| `Transactions.AtMostOneAdmitted` | gateway/src/db.rs:1146-1208 | of any number of identical concurrent claims at most one commits as accepted |
| `Transactions.UniqueNeverFires` | gateway/src/db.rs:582-656 | under every interleaving the next sequence number is free when the row is inserted |
| `Transactions.UpsertAlwaysWrites` | gateway/src/db.rs:533-570 | under every interleaving the conditional upsert after an accept never writes zero rows |
| `AuditTrail.EveryChainVerifies` | gateway/src/db.rs:386-423 | after every run every session's log loads and passes the chain check |
| `AuditTrail.EveryConcurrentChainVerifies` | gateway/src/db.rs:1572-1604 | and so after every interleaving and crash |
| `AuditTrail.LogOnlyExtends` | gateway/src/db.rs:501-531 | a log is only extended; from settlement on it, the ticket and the root are constant |
| `AuditTrail.CommittedRootBindsLog` | gateway/src/routes.rs:1032-1052 | any sound log with the root of the leaves as loaded is the log as loaded, a start of any later one, and all of the later one exactly when nothing was recorded since, barring a clash |
| `AuditTrail.RootUnchangedIff` | gateway/src/routes.rs:1038-1052 | the root moves exactly when an attempt on the session is recorded, barring a clash |
| `AuditTrail.CommittedRootIsHeldRootIff` | gateway/src/routes.rs:1038-1204 | the root loaded first is that of the log held after marking settled exactly when no attempt was recorded in between, barring a clash |
| `AuditTrail.LateAttemptBreaksRoot` | gateway/src/routes.rs:1038-1204 | any attempt decided between the two leaves the committed root behind the log for good, barring a clash |
| `AuditTrail.LateAttemptRun` | gateway/src/routes.rs:1038-1204 | such a run from empty tables |
| `AuditTrail.ConcurrentRootUnchangedIff` | gateway/src/db.rs:435-573 | the same under every interleaving and crash |
| `AuditTrail.SettledRecordsNothing` | gateway/src/db.rs:498-531 | once a session is settled no attempt on it is recorded |
| `AuditTrail.OneEntryPerDecision` | gateway/src/db.rs:498-531 | over any run a log grows by exactly as many entries as there were decided attempts on the unsettled session |
| `AuditTrail.ClampHarmlessIff` | gateway/src/db.rs:615-626 | clamping never changes a re-derived decision exactly when deposit and last admitted nonce are below the largest signed value |
| `AuditTrail.DeltasTelescope` | gateway/src/state.rs:186-191 | the allowed deltas of a log add up to the last allowed amount |
| `AuditTrail.LogExplainsItself` | gateway/src/db.rs:498-531 | from the log and the deposit alone every decision but expiry is re-derived, and the last allowed entry is the retained ticket |
| `AuditTrail.NextEntryExplainedIff` | gateway/src/db.rs:615-626 | after any run every attempt that can be recorded next leaves a re-derived or expired entry exactly when deposit and last admitted nonce are below the largest signed value |
| `AuditTrail.ReplayFailsAtMaxDeposit` | gateway/src/db.rs:615-626 | a run from empty tables whose refusal over a deposit of the largest signed value is stored clamped and re-derived as allowed |
| `AuditTrail.ReplayFailsAtMaxNonce` | gateway/src/db.rs:615-626 | a run from empty tables whose refusal over the deposit, after a nonce of the largest signed value, is stored clamped and re-derived as a refusal of the nonce, or of the amount when the mark is at that value too |
| `SessionAccounts.ParseInvertsSerialize` | gateway/src/chain.rs:246-360 | of either version, the session the program writes is the session the gateway reads |
| `SessionAccounts.SerializeInvertsParse` | gateway/src/chain.rs:246-360 | bytes that parse are the serialization of what was parsed, so the two layouts never overlap |
| `SessionAccounts.AccountLayout` | gateway/src/chain.rs:246-360 | where every field of both versions sits |
| `SessionAccounts.ReconcilesExactly` | gateway/src/chain.rs:418-507 | reconciliation succeeds exactly when a known program holds there an unsettled session with the claimed terms |
| `SessionAccounts.ReconcileAnswers` | gateway/src/chain.rs:418-507 | which disagreement between account and claimed terms is reported, the first of them |
| `Ed25519.BuildEd25519Instruction` | gateway/src/settle.rs:98-125 | field by field, the specified header, key, signature and message |
| `Ed25519.AcceptsExactlyTheCheckedTuple` | programs/agentpay/src/lib.rs:425-497 | for arbitrary bytes, the program accepts exactly when the one tuple the precompile checks is this agent and this message |
| `Ed25519.BuiltInstructionAccepted` | gateway/src/settle.rs:98-125 | a built instruction is accepted for its signer and message exactly when the length fits 16 bits |
| `Ed25519.ClaimInstructionAccepted` | programs/agentpay/src/lib.rs:425-497 | over a claim's message it always is, and the precompile checks exactly that signature |
| `Ed25519.HeaderBytes` | gateway/src/settle.rs:98-125 | the sixteen header bytes by value, then key, signature and message |
| `Escrow.Program.Open` | programs/agentpay/src/lib.rs:54-115 | every check in order, then the session and the deposit move together, or nothing does |
| `Escrow.Program.Settle` | programs/agentpay/src/lib.rs:117-316 | every check in order, then transfer, fields and receipt together, or nothing |
| `Escrow.Program.Refund` | programs/agentpay/src/lib.rs:319-395 | every check in order, then transfer and field together, or nothing |
| `Escrow.OpensExactly` | programs/agentpay/src/lib.rs:54-115 | opening succeeds exactly for a positive deposit the agent holds and an expiry at most thirty days off; the session then has the parties, terms and deposit asked for, and exactly the deposit moved |
| `Escrow.SettlesExactly` | programs/agentpay/src/lib.rs:117-316 | settling succeeds exactly on the listed conditions; then precisely the difference moved to the provider and the receipt names claim, root, time and amount |
| `Escrow.RefundsExactly` | programs/agentpay/src/lib.rs:319-395 | refunding succeeds exactly past expiry and skew, or for the agent once settled, and moves precisely the rest |
| `Escrow.OpenAnswers` | programs/agentpay/src/lib.rs:54-115 | which refusal each failing opening gets |
| `Escrow.SettleAnswers` | programs/agentpay/src/lib.rs:117-316 | which refusal each failing settlement gets: caller first, then expiries, amount and signature |
| `Escrow.RefundAnswers` | programs/agentpay/src/lib.rs:319-395 | which refusal each failing refund gets |
| `Escrow.OpenerIsServed` | programs/agentpay/src/lib.rs:54-395 | in every run the session is that of the one opening: its agent signed whatever was settled and alone is refunded before expiry, its provider or authority alone settles |
| `Escrow.Conservation` | programs/agentpay/src/lib.rs:163-220 | after any instructions by anyone, vault is deposit less settled less refunded plus donations, payouts equal the session's fields and never exceed the deposit |
| `Escrow.OnlySignedAmountsSettle` | programs/agentpay/src/lib.rs:418-497 | over any run of transactions whose precompiles pass, whoever sends them, what is settled is an amount the agent signed for this session |
| `Escrow.RefundIsFinal` | programs/agentpay/src/lib.rs:345-387 | after a refund no settlement or refund ever succeeds again |
| `Escrow.RefundTakesEverything` | programs/agentpay/src/lib.rs:345-387 | a refund empties the entitlement in one step |
| `Escrow.SettleAndStrangerRefundExclude` | programs/agentpay/src/lib.rs:148-162 | at no moment can a settlement and a stranger's refund both succeed |
| `Escrow.StrangerRecovers` | programs/agentpay/src/lib.rs:323-387 | from every reachable state with money left, after expiry and skew anyone's refund succeeds and empties it |
| `Escrow.RecoverableIff` | programs/agentpay/src/lib.rs:323-343 | such a moment exists exactly when the expiry plus skew is below the last representable second |
| `Escrow.EndOfTimeSessionIsStuck` | programs/agentpay/src/lib.rs:65-72 | an accepted session whose expiry cannot take the skew stays as it is through any actions: no settlement and no refund ever succeeds |
| `Escrow.BatchingIsIrrelevant` | programs/agentpay/src/lib.rs:189-220 | any batching of settlements ending at one cumulative amount leaves the same balances |
| `Payouts.ReconciledTerms` | gateway/src/routes.rs:285-322 | a session reconciled at open carries exactly the escrow's terms |
| `Payouts.ReconciledIsMarked` | gateway/src/routes.rs:285-322 | a session opened through reconciliation is stored with its terms and marked verified, one opened without it is not, and a failed reconciliation stores nothing |
| `Payouts.ReadsExactly` | gateway/src/routes.rs:1071-1085 | a settle call goes on exactly for a tracked, unsettled session with a claim |
| `Payouts.OnlyValidClaimsReachStore` | gateway/src/routes.rs:389-438 | a claim changes anything only in time and signed by its session's agent |
| `Payouts.RunsStayLinked` | gateway/src/routes.rs:389-438 | in every composed run the retained claim is signed by the agent, a verified record repeats the escrow's terms, the tables read back as the store, and each settle call holds what was committed when it read it |
| `Payouts.OnlySignedIsPaid` | programs/agentpay/src/lib.rs:418-497 | and so in every composed run, through the gateway or around it |
| `Payouts.SettlesExactlyWhen` | gateway/src/routes.rs:1071-1189 | for a verified session the claim a settle call has read settles exactly when the settler is entitled, both expiries are in time and nobody already settled as much or refunded, whatever happened since the reading |
| `Payouts.PayoutIsExact` | gateway/src/routes.rs:1169-1189 | then the provider has been paid the sum of the deltas admitted up to the reading, which is the sum of all exactly if none was admitted since, and the receipt holds the root of the log as loaded |
| `Payouts.RefundIsTheRest` | programs/agentpay/src/lib.rs:319-395 | the agent's refund is then exactly the rest of the deposit, if there is any |
| `Payouts.SettledForGood` | gateway/src/routes.rs:1191-1204 | once a settle call has marked the session nothing more is admitted, and everything admitted was settled by that call's reading exactly if nothing was admitted between reading and marking |
| `Payouts.RootHoldsIff` | gateway/src/routes.rs:1038-1204 | the root a settle call committed is that of the log held for good exactly when no attempt was recorded between loading and marking, barring a clash |
| `Payouts.HonestRunAlwaysSettles` | gateway/src/routes.rs:1071-1189 | with no settlement behind the gateway's back and no other settle call confirmed, only the two expiries decide |
| `Policies.EvaluatesExactly` | gateway/src/policy.rs:171-233 | the refusal is the first of the five rules broken; otherwise a human is asked exactly in human mode or from the threshold on |
| `Policies.BuyableExactly` | gateway/src/policy.rs:171-233 | the branches amount to a history-free condition and two bounds in unbounded arithmetic |
| `Policies.BuyableDownward` | gateway/src/policy.rs:171-233 | a later purchase being allowed means every earlier one at that price was |
| `Policies.ApprovalIndependentOfHistory` | gateway/src/policy.rs:218-232 | whether a human is asked is the same for every purchase of a plan |
| `Planning.Walk` | gateway/src/control.rs:680-702 | the greatest number of consecutive purchases up to the request that are not refused, with exact sums |
| `Planning.Describe` | gateway/src/control.rs:652-715 | an option's count, saturated cost, refusing rule and approval flag, stated without the walk |
| `Planning.Recommend` | gateway/src/control.rs:718-722 | the first of the cheapest options that afford a call, none only when none do |
| `Planning.MatchingSplits` | gateway/src/control.rs:636-650 | what is kept of two lists of offers is what is kept of the first, then of the second |
| `Planning.MatchingKeeps` | gateway/src/control.rs:636-650 | every offer for the resource at a readable price is kept, as often as listed, and no other |
| `Planning.PlanOptions` | gateway/src/control.rs:629-725 | one such option per matching offer with a readable price, in order, and that recommendation |
| `Planning.PlanIsExact` | gateway/src/control.rs:680-702 | for a positive price the count is the least of request, budget quotient and remaining calls |
| `Planning.FreePlanIsExact` | gateway/src/control.rs:680-702 | for a free resource it is the least of request and remaining calls within an unexceeded budget |
| `Approvals.ControlDb.Create` | gateway/src/control_db.rs:618-645 | appends one pending proposal, or errors above the signed range |
| `Approvals.ControlDb.Decide` | gateway/src/control_db.rs:703-733 | moves a row exactly when it is pending |
| `Approvals.ControlDb.Consume` | gateway/src/control_db.rs:744-769 | spends the earliest granted approval of exactly this agent, resource and price |
| `Approvals.DecidesExactly` | gateway/src/control_db.rs:703-733 | the pending row decided becomes approved or rejected as decided, and no other row changes |
| `Approvals.DecideGrants` | gateway/src/control_db.rs:703-733 | a decision adds one grant exactly when it approves a pending proposal |
| `Approvals.ConsumeSpends` | gateway/src/control_db.rs:744-769 | consuming succeeds exactly when a grant is left, and spends exactly one of that proposal's |
| `Spending.ReadAgentSpend` | gateway/src/control_db.rs:455-491 | the sum of the agent's marks and the count of its admitted entries, with the cast's error and the cap |
| `Spending.AdmissionByAgent` | gateway/src/control_db.rs:455-491 | an admission moves its agent's totals by its delta and one call when accepted, nobody else's ever |
| `Spending.OpeningCommitsNothing` | gateway/src/control_db.rs:455-491 | opening a session changes no agent's spend |
| `Purchases.Gateway.EnforceAgentPolicy` | gateway/src/routes.rs:697-854 | the envelope with its early returns, and exactly what it does to the approvals |
| `Purchases.Gateway.BuyNow` | gateway/src/routes.rs:1669-1876 | the purchase step by step: nothing is admitted unless every earlier check passed |
| `Purchases.PrecheckExactly` | gateway/src/routes.rs:1722-1755 | each early denial, and passing, is an if-and-only-if on clock, session row, ticket, signature and price |
| `Purchases.ChargedIsSigned` | gateway/src/routes.rs:1734-1737 | whatever is charged was signed by the session's agent and in time |
| `Purchases.TicketsAreSigned` | gateway/src/routes.rs:1734-1814 | after every run from empty tables every ticket holds a claim its session's agent signed |
| `Purchases.ChargeAnswers` | gateway/src/routes.rs:1770-1814 | the caller hears the refusal of the claim rule exactly, or of the store, or is charged what the rule computed |
| `Purchases.ProposesExactly` | gateway/src/routes.rs:791-848 | a proposal is made exactly when none is granted or pending and the price fits its column |
| `Purchases.NoDuplicateProposals` | gateway/src/routes.rs:791-848 | over every run no two proposals of one kind are pending at once |
| `Purchases.BuyMovesByPrice` | gateway/src/routes.rs:1739-1814 | a charged purchase moves its agent's marks by exactly the price and one call; a denied one moves nothing |
| `Purchases.SpendIsWhatWasCharged` | gateway/src/control_db.rs:447-454 | over any run the derived spend rises by exactly what was charged |
| `Purchases.EnvelopeHolds` | gateway/src/policy.rs:171-233 | over any run, across all its sessions, an agent's marks never pass its total nor its purchases their limit |
| `Purchases.ApprovalsCoverCharges` | gateway/src/control_db.rs:735-769 | purchases that needed a human never outnumber the human approvals for that agent, resource and price |
| `Purchases.BurnsExactly` | gateway/src/routes.rs:791-806 | an approval is spent without a charge exactly when a purchase reaches one and the session then refuses |
| `Purchases.ApprovalsAccounted` | gateway/src/routes.rs:791-806 | over any run every human approval is left, or paid for a charge, or was spent on a purchase the session refused |
| `Purchases.DecisionsAreFinal` | gateway/src/control_db.rs:701-733 | over any run a rejected or spent approval stays so and no row is rewritten |
| `Purchases.BuyChargesExactly` | gateway/src/routes.rs:1722-1814 | a purchase is charged exactly when its claim pays the price, the session allows it and the envelope lets it through |
| `Purchases.EnforceExactly` | gateway/src/routes.rs:750-848 | the envelope passes exactly what it does not refuse and, where a human decides, has an approval left |
| `Purchases.EnforceWithoutEnvelope` | gateway/src/routes.rs:741-767 | without an envelope only the status and the demand for one decide |
| `Purchases.UnrecordedAgentBuys` | gateway/src/routes.rs:697-740 | an agent not recorded is charged exactly when the session sells and no envelope is demanded of everyone |
| `Purchases.RecordedAgentBuys` | gateway/src/routes.rs:1722-1814 | a recorded agent's purchase is charged exactly when the session sells it, its envelope, if any, does not refuse it, and it is let through |
| `Purchases.PlanAgreesWithBuying` | gateway/src/control.rs:660-702 | for every recorded agent, after n charges, under an envelope at one price, the next purchase is charged exactly when the plan counted it, its claim pays, the session allows it (positive price, within the deposit, in time, unsettled, fresh nonce), and it is let through: an approval left where one is needed, and without an envelope an active status and none demanded |
| `Purchases.OptionCounts` | gateway/src/control.rs:652-715 | an option's affordable calls are exactly the purchases counted |
| `Purchases.NoEnvelopeIsPlannedNotSold` | gateway/src/control.rs:653-656 | without an envelope everything is planned for, and a suspended agent, or any where one is demanded, is sold nothing |
| `Purchases.FreeIsPlannedNeverSold` | gateway/src/control.rs:671-702 | at price zero the plan counts purchases that buying never charges |
| `Purchases.DepositIsNotPlanned` | gateway/src/control.rs:645-651 | beyond the deposit nothing is charged, and some envelope's plan counts the purchase all the same |
| `RateLimiting.RateLimiter.CheckAt` | gateway/src/ratelimit.rs:98-150 | the in-place update, eviction and cap are one step of the specification |
| `RateLimiting.KeptExactly` | gateway/src/ratelimit.rs:107-111 | below fifty thousand clients nothing is forgotten, from there on exactly the clients silent for five minutes |
| `RateLimiting.RefillsExactly` | gateway/src/ratelimit.rs:41-61 | a period refills the capacity, part of one its share, and a clock gone back nothing |
| `RateLimiting.DelayIsLeast` | gateway/src/ratelimit.rs:124-148 | the delay reported is the least whole number of seconds, at least one, in which the missing part of a token accrues |
| `RateLimiting.OrdinaryQuotas` | gateway/src/ratelimit.rs:35-61 | for capacity at least one and a period up to the idle limit, an evictable bucket is full |
| `RateLimiting.NeverOverCap` | gateway/src/ratelimit.rs:107-111 | in every run the map holds at most the cap |
| `RateLimiting.TokensInRange` | gateway/src/ratelimit.rs:113-131 | tokens stay between zero and the capacity |
| `RateLimiting.CheckSpends` | gateway/src/ratelimit.rs:98-150 | every decision is a function of one number per client, which the step spends from |
| `RateLimiting.RateBound` | gateway/src/ratelimit.rs:41-61 | in any window of length T one client is admitted at most capacity + T * capacity / period times |
| `RateLimiting.ZeroCapacityAdmitsTheFirst` | gateway/src/ratelimit.rs:132-148 | the bound needs a capacity of at least one, which configuration ensures (`gateway/src/config.rs:273-280`) |
| `RateLimiting.LoneRetry` | gateway/src/ratelimit.rs:124-148 | a client refused for whatever reason and then silent is admitted after the reported delay exactly when it does not meet a full map, and refused while a whole second of the delay is left |
| `RateLimiting.EvictionUnobservable` | gateway/src/ratelimit.rs:107-111 | while no newcomer meets a full map, every decision is that of a limiter that never evicts |
| `Base58.Base58Decode` | sdk/src/client.ts:212-230 | the loops compute the specified decoding, failing exactly outside the alphabet |
| `Base58.Base58Encode` | sdk/src/client.ts:232-245 | the loops compute the specified encoding |
| `Base58.RecodeInverts` | sdk/src/client.ts:212-245 | rewriting digits with their leading zeros in another base and back is the identity, for any two bases |
| `Base58.RecodeKeepsNumber` | sdk/src/client.ts:212-245 | and names the same number behind as many zeros |
| `Base58.DecodeInvertsEncode` | sdk/src/client.ts:212-245 | decoding inverts encoding exactly on the non-empty byte strings |
| `Base58.EncodeInvertsDecode` | sdk/src/client.ts:212-245 | encoding inverts decoding exactly on the non-empty strings over the alphabet |
| `Base58.TableReads` | sdk/src/client.ts:211 | the alphabet and its order |
| `Base64.Base64Decode` | gateway/src/routes.rs:1879-1901 | the chunk loops compute the specified decoding |
| `Base64.DecodeInvertsEncode` | gateway/src/routes.rs:1879-1901 | decoding inverts the encoding of section 4 of RFC 4648 on every byte string |
| `Base64.DecodeIgnoresLayout` | gateway/src/routes.rs:1881-1884 | and still does without padding or with white space anywhere |
| `Base64.RefusesExactly` | gateway/src/routes.rs:1886-1890 | a text is refused exactly when some byte is neither ignored nor in the alphabet |
| `Base64.BytesOfChunk` | gateway/src/routes.rs:1891-1900 | which bits of which symbol each decoded byte takes, for whole groups and for a short last one |
| `Base64.AlphabetReads` | gateway/src/routes.rs:1879-1901 | the symbol of each six-bit value |
| `Base64.SymbolsOfGroup` | gateway/src/routes.rs:1879-1901 | which bits of which byte each symbol carries |
| `Base64.EncodesByGroups` | gateway/src/routes.rs:1879-1901 | three bytes at a time, the last one or two padded to four symbols |
| `SdkClient.AgentPayClient.Buy` | sdk/src/client.ts:394-425 | one purchase at the quoted price; the counters advance only on a successful answer that arrives |
| `SdkClient.AsksForNext` | sdk/src/client.ts:394-425 | a client in step asks for exactly the mark plus the quote under the next nonce |
| `SdkClient.AgentPayClient.BuyMany` | sdk/src/client.ts:436-471 | buys until a refusal or an unsuccessful answer; what it reports as spent is the sum of the quotes bought |
| `SdkClient.SyncIsKeptExactlyWhen` | sdk/src/client.ts:381-425 | the counters keep equal to the gateway's through every outcome but a charge whose answer is lost, in the provider or on the way |
| `SdkClient.BehindBuysNothing` | gateway/src/routes.rs:1739-1755 | a client left behind is charged nothing more, whatever it is quoted |
| `SdkClient.BehindLeavesNoTrace` | gateway/src/routes.rs:1739-1755 | and while its quotes are current its attempts change no table and no approval |
| `SdkClient.ResumeRestores` | sdk/src/client.ts:286-303 | what resuming reads back is the ticket's two columns, so for every tracked session it gives the counters in step and no others |

## Left out

- SHA-256 and Ed25519 themselves: arbitrary functions, as said above.
- PDA derivation, account constraints, rent, CPI and events: token transfers are guarded balance updates on a state whose accounts are the right ones; agent and provider are different wallets.
- SQL, pools, migrations, HTTP, RPC, logging and upstream forwarding: only table states, RPC answers and the order of steps. Stored keys are bytes, not base 58 text, and locks are never poisoned.
- Transactions: a read of the session row takes its lock, as `SELECT .. FOR UPDATE` does; other statements of the gateway are single steps.
- Postgres.OpenRefinesStore: for the records the open route makes, since the insert ignores a record's marks.
- Postgres.UpdatesRefineStore: about the tables; marking an unknown session settled is reported as success by Postgres and as an error by the in-memory store.
- AuditTrail.LogExplainsItself: re-derivation covers the entries reached with the deposit and the last admitted nonce below the largest signed value, which is exactly where clamping is harmless, and no expiry refusals, which the log cannot explain.
- Payouts.PayoutIsExact: version 2 sessions only, with the evidence store; without one the caller supplies the root.
- Payouts.RunsStayLinked: each settle call's steps are atomic, as is each other operation; a call that stops is one whose next step never comes.
- Merkle.MerkleTree.Proof: a tree never changes once built, so it is a value with the loops as methods.
- Escrow.Program: the settlement record's account checks are part of the state; only its fields are modelled.
- RateLimiting.RateBound: tokens and times are reals rather than floats, and times presented in order; `CheckAt` itself takes any times, an earlier one counting as no time passed.
- Base58.Base58Decode: one method per loop of the SDK's function, and likewise for the encoder.
- Base64.Base64Decode: shifts and masks are arithmetic.
- Policies.BuyableExactly: resource names are already normalised.
- Planning.PlanOptions: the recommendation is an index into the options; offers come from a registry that is a parameter.
- Purchases.EnvelopeHolds: purchases do not overlap, policies stay fixed, and every claim comes through `buy`; the bare verify endpoint and concurrent purchases on one session do not consult or can outrun the envelope.
- Purchases.PlanAgreesWithBuying: for a total within the signed range, which is all the policy column can hold.
- SdkClient.AgentPayClient.Buy: `delivered` says whether the provider was reached and `heard` whether the gateway's answer came back; retries are off, and a claim's text encoding is not composed in, which the codec round trips cover.
- Spending.ReadAgentSpend: an agent's id stands one to one for its key, here and in the approvals.
- Authentication, operators, tenants, the provider registry, usage metering, configuration, reason-code tables, the console, `X-Forwarded-For` walking and amount formatting: one-branch facts or plumbing.
