# Shared expenses and settlement: a verified model

This project models the domain core of a shared-expense and settlement backend and proves what its parts promise, alone
and together.

- **Minimum transfers** (`Transfers`, `MinimalTransfers`, `CanonicalTransfers`, `CandidateOrder`, `TransferSearch`). Zero-sum balances are
  settled by a memoised exhaustive search. No transfer list of any kind is shorter than its answer, and the answer is the
  one first in join order among the shortest direct settlements.
- **Settlement** (`SnapshotContent`, `SnapshotFactory`, `SnapshotProperties`, `SnapshotOutcomes`, `SettlementCase`,
  `CaseInvariants`, `CaseTheorems`, `CaseSubmissions`, `CaseOutcomes`, `CaseCancellations`, `CaseOperations`). Expenses are folded into balances, candidates and approvers; a case then runs through revisions,
  approvals, payment reports, receipts, returns and cancellation. The main result is conservation: when a case is
  archived everybody has paid exactly what they bear.
- **Receipts and expenses** (`Apportionment`, `ReceiptAdjustments`, `AdjustmentProperties`, `AdjustmentOutcomes`,
  `ReceiptAdjustmentAllocation`, `GroupExpenses`, `ExpenseProperties`, `ExpenseRegistration`, `SelectedExpenses`,
  `ExpenseRoot`, `ExpenseOutcomes`, `ExpenseFollowing`, `ReceiptRoot`, `ReceiptInvariants`, `ReceiptSteps`,
  `ReceiptLock`, `ReceiptInStep`, `ReceiptSystem`, `ReceiptJoint`, `ReceiptOutcomes`, `ReceiptCorrections`,
  `ReceiptOperations`). Two largest-remainder allocators, the receipt with bundles, permanent lock and corrections, and the
  expenses that have to follow it.
- **Groups and commands** (`GroupRoot`, `GroupRuns`, `GroupClosing`, `GroupChecks`, `GroupRules`, `GroupTransitions`,
  `GroupMembers`, `GroupOutcomes`, `CommandSystem`, `CommandSafety`, `CommandTheorems`, `CommandOutcomes`,
  `GroupCommitKernel`). The group lifecycle, and a transition system of concurrent clients and
  transactions with row locks, unique keys, lost connections and commits of unknown outcome.
- **Encodings and the deletion ledger** (`Base64Url`, `RecipientCodeSecret`, `Utf8`, `Tlv`, `TlvCodec`,
  `RecipientCodeRecords`, `EncodingRules`, `DeletionLedger`, `LedgerEvidence`, `LedgerBodies`, `LedgerChains`).

The modules named `...Outcomes`, `...Rules`, `...Corrections`, `...Operations`, `...Bodies` and `...Chains` say of each
operation exactly when it is accepted and exactly what follows, in terms of the data alone.

`Outcomes`, `Text`, `TextRules`, `Sorting` and `Sequences` hold what the others share. Exceptions are `Result` or `Check` values;
identifiers are strings compared by value; instants are integers, and a date that is no instant is `None`; amounts are
unbounded integers with the bound 2^53-1 written out where the source checks it. Code that computes is a function; code
that loops over buffers, sets and arrays is a method proved against such a function.

Two properties fail for some inputs; each has its exact condition and an input that shows it:

- A cancellation of a closing group that is reserved before both contexts' fence receipts were recorded can never be
  completed; it can be completed exactly when both are there before the call and the access policy version has room for
  four steps (`GroupClosing.CancellationCanFinish`). `GroupClosing.StuckFromCreation` gives the run of a new group that
  gets stuck.
- A ledger append is confirmed exactly when it is stored and the deletion it prepared has not been completed meanwhile
  (`LedgerEvidence.AppendConfirmed`). `LedgerEvidence.StoredButRefused` is the stored append that is refused.

Assumptions about what lies outside: a command's fingerprint determines the command, since it is the serialised list of
its parts; statements of one transaction wait for the row locks and unique keys that other open transactions hold; a
commit is atomic; the ledger's entry hash is injective.

## Model

| member | source | states |
|---|---|---|
| MinimalTransfers.SolveIsShortest | apps/api/src/settlement/domain/payment-instruction-derivation.ts:76-102 | No list of transfers that settles the balances, whatever its payers, payees and amounts, is shorter than the search result. |
| MinimalTransfers.SolveCorrect | apps/api/src/settlement/domain/payment-instruction-derivation.ts:76-102 | For every zero-sum vector the result brings each balance to zero by positive debtor-to-creditor transfers, is in join order, is empty exactly when all balances are zero, and has fewer transfers than non-zero balances. |
| MinimalTransfers.SolveWithinBlocks | apps/api/src/settlement/domain/payment-instruction-derivation.ts:92-97 | Upper bound: at most (open positions - open zero-sum parts) transfers, for any division into zero-sum parts. |
| MinimalTransfers.ConnectedParts | apps/api/src/settlement/domain/payment-instruction-derivation.ts:92 | Lower bound: k transfers leave all but k of the open positions in separate connected parts. |
| MinimalTransfers.SettledBlocks | apps/api/src/settlement/domain/payment-instruction-derivation.ts:92 | Every connected part of a settling transfer list sums to zero. |
| CanonicalTransfers.SolveIsFirst | apps/api/src/settlement/domain/payment-instruction-derivation.ts:22-35 | Among the shortest direct settlements none comes before the search result in the candidate order. |
| CanonicalTransfers.SolveIsUnique | apps/api/src/settlement/domain/payment-instruction-derivation.ts:25-35 | A direct settlement that ties with the result is the result, amounts included. |
| CanonicalTransfers.PairsDetermineAmounts | apps/api/src/settlement/domain/payment-instruction-derivation.ts:92 | Two direct settlements over the same debtor-creditor pairs, a forest without repeated pairs, have the same amounts. |
| CanonicalTransfers.SolveIsForest | apps/api/src/settlement/domain/payment-instruction-derivation.ts:92 | The support of the result is a forest: every non-empty part of it has an end. |
| CanonicalTransfers.SolveDistinct | apps/api/src/settlement/domain/payment-instruction-derivation.ts:92-97 | No debtor-creditor pair occurs twice in the result. |
| TransferSearch.KeyInjective | apps/api/src/settlement/domain/payment-instruction-derivation.ts:78 | The memo key of comma-joined decimals tells any two vectors of one length apart. |
| TransferSearch.CompareCandidates | apps/api/src/settlement/domain/payment-instruction-derivation.ts:25-35 | The looping comparison is the order the optimality statements use: length first, then edge by edge. |
| TransferSearch.Search.Solve | apps/api/src/settlement/domain/payment-instruction-derivation.ts:75-102 | The memoised search terminates, keeps every saved answer true, and answers what the plain recursion does. |
| TransferSearch.Search.StartingWith | apps/api/src/settlement/domain/payment-instruction-derivation.ts:86-95 | One turn of the pair loop builds the candidate that cancels the pair first and sorts it in. |
| TransferSearch.DerivePaymentInstructionCandidates | apps/api/src/settlement/domain/payment-instruction-derivation.ts:43-114 | Accepts exactly inputs with unique participants and join orders that total zero, and returns the search result over join order. |
| TransferSearch.DerivationForgetsOrder | apps/api/src/settlement/domain/payment-instruction-derivation.ts:71-73 | Every permutation of the input array gives the same candidates. |
| TransferSearch.CandidatesCloseBalances | apps/api/src/settlement/domain/payment-instruction-derivation.ts:104-113 | The named instructions bring every participant's balance to exactly zero. |
| CandidateOrder.CompareMeans | apps/api/src/settlement/domain/payment-instruction-derivation.ts:22-35 | The comparison is negative exactly when the left list is shorter, or equally long and ahead at the first place where the pairs differ: a smaller payer, or the same payer and a smaller payee; it is zero exactly for the same pairs. |
| CandidateOrder.SolveAscends | apps/api/src/settlement/domain/payment-instruction-derivation.ts:93-97 | The result is listed by strictly ascending payer, and by payee for the same payer. |
| CandidateOrder.SolveIsAhead | apps/api/src/settlement/domain/payment-instruction-derivation.ts:25-35 | Any other direct settlement of the same length in that order differs first at a pair with the larger payer, or the same payer and the larger payee. |
| CandidateOrder.InstructionsAscend | apps/api/src/settlement/domain/payment-instruction-derivation.ts:104-113 | So are the named instructions, by the join orders of the participants they name. |
| SnapshotFactory.From | apps/api/src/settlement/domain/value-objects/settlement-snapshot-content.ts:78-230 | The aggregation accepts exactly the admissible selections, names a real violation otherwise, and returns the content determined by the selection; no rejection inside the derivation is reachable. |
| SnapshotOutcomes.SelectionExact | apps/api/src/settlement/domain/value-objects/settlement-snapshot-content.ts:78-195 | The accepted selections, list by list: a lower-case UUID, expenses with different written identifiers, each of the group with one to four different participants at 0 to 100 percent in tens, shares of 100 percent and of the amount, its payer among them, and one join order per participant throughout. |
| SnapshotOutcomes.ContentExact | apps/api/src/settlement/domain/value-objects/settlement-snapshot-content.ts:196-230 | What the content lists: every expense once by UTF-16 order of identifiers with allocations by join order; everyone who takes part once by join order with paid minus borne; and the approvers, who pay or bear a positive share, in that order. |
| TextRules.StringOrder | apps/api/src/settlement/domain/value-objects/settlement-snapshot-content.ts:214-230 | Expense identifiers are compared by their UTF-16 code units. |
| SnapshotFactory.Aggregation.Allocate | apps/api/src/settlement/domain/value-objects/settlement-snapshot-content.ts:96-195 | Folding one allocation keeps every accumulated balance, order table and approver set equal to what the expenses so far determine. |
| SnapshotFactory.Aggregation.Credit | apps/api/src/settlement/domain/value-objects/settlement-snapshot-content.ts:96-195 | Crediting the payer keeps the same. |
| SnapshotFactory.BalancesTotalZero | apps/api/src/settlement/domain/value-objects/settlement-snapshot-content.ts:96-230 | The aggregated balances always total zero. |
| SnapshotContent.CanonicalForgetsOrder | apps/api/src/settlement/domain/value-objects/settlement-snapshot-content.ts:78-230 | Acceptance and canonical content depend neither on the order of the expenses nor on the order of the allocations inside any of them. |
| SnapshotProperties.ContentForgetsOrder | apps/api/src/settlement/domain/value-objects/settlement-snapshot-content.ts:78-230 | Two contents made from selections that differ only in those orders are equal. |
| SnapshotProperties.EqualsIsEquality | apps/api/src/settlement/domain/value-objects/settlement-snapshot-content.ts:237-260 | The comparison of group and expenses holds exactly when balances, candidates and approvers are equal too. |
| SnapshotProperties.ApproverIs | apps/api/src/settlement/domain/value-objects/settlement-snapshot-content.ts:194-229 | A required approver is exactly someone who pays an expense or bears a positive percentage. |
| SnapshotProperties.ApproversDistinct | apps/api/src/settlement/domain/value-objects/settlement-snapshot-content.ts:194-229 | There is at least one required approver and none is listed twice. |
| SnapshotProperties.CandidatePartiesApprove | apps/api/src/settlement/domain/value-objects/settlement-snapshot-content.ts:194-229 | Payer and payee of every candidate are required approvers. |
| SnapshotProperties.SoleApproverIsEven | apps/api/src/settlement/domain/value-objects/settlement-snapshot-content.ts:194-229 | A sole required approver forces all balances to zero. |
| SnapshotProperties.NoCandidatesIffZero | apps/api/src/settlement/domain/value-objects/settlement-snapshot-content.ts:208-223 | There is no candidate exactly when all balances are zero. |
| SnapshotProperties.CandidatesConserve | apps/api/src/settlement/domain/value-objects/settlement-snapshot-content.ts:96-230 | For everyone, paid plus sent minus taken by the candidates is the burden. |
| CaseTheorems.ReachableSound | apps/api/src/settlement/domain/settlement-case.ts:233-879 | Every reachable case keeps all parts of the run invariant: chained revisions, one judgement per approver and revision, numbered reports and requests, and a status that says which of them exist. |
| CaseTheorems.LaterGrows | apps/api/src/settlement/domain/settlement-case.ts:836-879 | No later state drops or rewrites a revision, approval, payment attempt or cancellation decision. |
| CaseTheorems.VersionServesOnce | apps/api/src/settlement/domain/settlement-case.ts:777-789 | In any run at most one of the operations that name the same version is accepted, and what it named is the version and snapshot of the case it was applied to. |
| CaseTheorems.TerminalIsFinal | apps/api/src/settlement/domain/settlement-case.ts:344-432 | Archived, Withdrawn and Cancelled accept no further operation in any run. |
| CaseTheorems.PaymentNeedsUnanimity | apps/api/src/settlement/domain/settlement-case.ts:468-480 | PaymentActive, CancellationPending, Cancelled and Archived hold only when every required approver approved the latest revision and nobody rejected it. |
| CaseTheorems.StartOutcome | apps/api/src/settlement/domain/settlement-case.ts:233-242 | A new case is archived at once exactly when its applicant is the only required approver, and otherwise waits. |
| CaseTheorems.IdentifiersServeOnce | apps/api/src/settlement/domain/settlement-case.ts:344-405 | Over a run the revisions keep one group and expense set and share no snapshot or instruction identifier. |
| CaseTheorems.ReportRulesOutCancellation | apps/api/src/settlement/domain/settlement-case.ts:645-676 | After the first payment report no cancellation request is ever recorded, answered or in force again. |
| CaseTheorems.CancelledMeans | apps/api/src/settlement/domain/entities/settlement-cancellation-request.ts:151-198 | A cancelled case never saw a payment report; every required approver agreed and earlier requests were declined. |
| CaseTheorems.ReportsNumbered | apps/api/src/settlement/domain/entities/payment-attempt.ts:168-198 | Attempts of one instruction are numbered 1..k, all but the last were returned, and at most one was received. |
| CaseTheorems.ArchivedConserves | apps/api/src/settlement/domain/settlement-case.ts:607-637 | End to end: in an archived case paid + received-from - received-by is the burden, for every participant. |
| CaseTheorems.NoPaymentMeansEven | apps/api/src/settlement/domain/settlement-case.ts:496-501 | The archive reason is NoPaymentRequired exactly when all balances are zero, and then nothing was reported. |
| CaseTheorems.OnlyTheActorSpeaks | apps/api/src/settlement/domain/settlement-case.ts:811-834 | A step adds judgements, reports, receipts and consents only in the name of the participant it is made for; only the payee answers a report. |
| CaseInvariants.StartSound | apps/api/src/settlement/domain/settlement-case.ts:233-293 | Starting a case establishes the run invariant. |
| CaseInvariants.ResubmitSound | apps/api/src/settlement/domain/settlement-case.ts:344-405 | Resubmission keeps it and only adds to the histories. |
| CaseInvariants.RecordSound | apps/api/src/settlement/domain/settlement-case.ts:811-834 | Recording a judgement keeps it and only adds one. |
| CaseInvariants.WithdrawSound | apps/api/src/settlement/domain/settlement-case.ts:407-432 | Withdrawal keeps it and never drops a non-empty attempt or cancellation history. |
| CaseInvariants.ReportSound | apps/api/src/settlement/domain/settlement-case.ts:509-532 | A payment report keeps it. |
| CaseInvariants.ConfirmSound | apps/api/src/settlement/domain/settlement-case.ts:539-541 | Confirming a receipt keeps it; what it records is stated by CaseOutcomes.ConfirmExact. |
| CaseInvariants.ReturnSound | apps/api/src/settlement/domain/settlement-case.ts:550-552 | Returning a payment keeps it; what it records is stated by CaseOutcomes.ReturnExact. |
| CaseInvariants.RequestCancellationSound | apps/api/src/settlement/domain/settlement-case.ts:645-671 | Requesting cancellation keeps it. |
| CaseInvariants.DecideCancellationSound | apps/api/src/settlement/domain/settlement-case.ts:677-757 | Deciding on a cancellation keeps it. |
| CaseOperations.OperationExact | apps/api/src/settlement/domain/settlement-case.ts:233-879 | Every operation on a case with a revision is accepted exactly under its own conditions on actor, version, snapshot, status and input, and leads to exactly the case it says. |
| CaseSubmissions.StartExact | apps/api/src/settlement/domain/settlement-case.ts:233-293 | A case starts exactly for written identifiers that differ and an applicant who approves; it has one revision, the applicant's approval if required, and the status that follows. |
| CaseSubmissions.ResubmitExact | apps/api/src/settlement/domain/settlement-case.ts:344-405 | A rejected case is resubmitted exactly with the same expenses and fresh identifiers; the new revision comes last. |
| CaseSubmissions.WithdrawExact | apps/api/src/settlement/domain/settlement-case.ts:407-432 | Withdrawing is accepted exactly from a rejected case with a reason, and records who withdrew, when and why. |
| CaseOutcomes.ApproveExact | apps/api/src/settlement/domain/settlement-case.ts:321-330 | An accepted approval adds the one judgement Approved at its time, and the case leaves approval exactly when everyone required has approved. |
| CaseOutcomes.RejectExact | apps/api/src/settlement/domain/settlement-case.ts:332-342 | An accepted rejection adds the one judgement Rejected with its reason, and the case is rejected. |
| CaseOutcomes.ReportExact | apps/api/src/settlement/domain/settlement-case.ts:509-532 | An accepted report adds one attempt with the instruction's payer, payee and amount and the next number. |
| CaseOutcomes.ConfirmExact | apps/api/src/settlement/domain/settlement-case.ts:539-541 | An accepted confirmation gives the named attempt a Received receipt at its time without a reason and leaves every other attempt; the case is archived exactly when the last report of every instruction is received. |
| CaseOutcomes.ReturnExact | apps/api/src/settlement/domain/settlement-case.ts:550-552 | An accepted return gives it a Returned receipt with the reason, likewise. |
| CaseCancellations.RequestExact | apps/api/src/settlement/domain/settlement-case.ts:645-671 | An accepted cancellation request is the one added, numbered next, and makes the case wait. |
| CaseCancellations.DecideExact | apps/api/src/settlement/domain/settlement-case.ts:677-757 | An accepted answer is added to the last request only; the case is cancelled when all required approvers agreed, active again when one declined, and waits otherwise. |
| Apportionment.ApportionedUnique | apps/api/src/expense-recording/domain/receipt-adjustment.ts:188-197 | Largest-remainder shares with different tie-break places are determined: no other shares meet the rule. |
| Apportionment.SpareHasTakers | apps/api/src/expense-recording/domain/receipt-adjustment.ts:187-203 | There are never more spare yen than claims with a remainder, so every yen finds a taker. |
| Apportionment.NoRemainderNoExtra | apps/api/src/expense-recording/domain/receipt-adjustment.ts:192-197 | A claim without remainder, such as one of weight zero, gets exactly its quota. |
| ReceiptAdjustments.SharesApportion | apps/api/src/expense-recording/domain/receipt-adjustment.ts:174-203 | The shares of a whole-receipt adjustment give out the amount exactly, floor or one more, larger remainders and earlier items first. |
| ReceiptAdjustments.SharesUnique | apps/api/src/expense-recording/domain/receipt-adjustment.ts:174-203 | No other list of yen gives out the amount by largest remainders with earlier items first. |
| AdjustmentProperties.SpreadExact | apps/api/src/expense-recording/domain/receipt-adjustment.ts:127-221 | Every adjustment is spread over the items exactly to its amount. |
| AdjustmentProperties.ShareNearQuota | apps/api/src/expense-recording/domain/receipt-adjustment.ts:178-208 | A share is less than one yen from the exact quota, exact when the quota is whole, zero for a zero item, and never of the opposite sign. |
| AdjustmentProperties.ExtraYenRanked | apps/api/src/expense-recording/domain/receipt-adjustment.ts:188-197 | Of two items the larger remainder gets the extra yen first, and on a tie the earlier item. |
| AdjustmentProperties.CalculationConserves | apps/api/src/expense-recording/domain/receipt-adjustment.ts:216-247 | The adjusted total is the original total plus all adjustments, and no adjusted item leaves 0..2^53-1. |
| AdjustmentProperties.CorrectionMovesTotal | apps/api/src/expense-recording/domain/receipt.ts:959-973 | Correcting one adjustment moves the total by exactly the change of its amount. |
| AdjustmentProperties.CalculateAccepts | apps/api/src/expense-recording/domain/receipt-adjustment.ts:97-247 | The exact condition of acceptance: well-formed distinct items, valid signs and targets, a positive basis, and adjusted amounts in range. |
| AdjustmentOutcomes.CalculateExact | apps/api/src/expense-recording/domain/receipt-adjustment.ts:97-248 | A calculation is made exactly for well-formed items and adjustments with the sign of their kind, and is the one in which an item's adjustment rests on it alone, a receipt's is given out by floors and largest remainders with earlier items first, and every item stays in range. |
| ReceiptAdjustmentAllocation.AllocateWhole | apps/api/src/expense-recording/domain/receipt-adjustment.ts:174-203 | The in-place loops leave the array with the apportioned shares; the last rejection of the source cannot happen. |
| ReceiptAdjustmentAllocation.Run | apps/api/src/expense-recording/domain/receipt-adjustment.ts:97-248 | The whole service computes the specified calculation or the first rejection in the source's order. |
| ExpenseProperties.BurdensExact | apps/api/src/expense-recording/domain/group-expense.ts:875-899 | Burdens add up to the total; each is floor or ceiling of its percentage quota; 0% bears nothing. |
| ExpenseProperties.ExtraYenOrder | apps/api/src/expense-recording/domain/group-expense.ts:890-899 | Of equal remainders the payer gets the extra yen first, then the earlier participant. |
| ExpenseProperties.RegisterForgetsOrder | apps/api/src/expense-recording/domain/group-expense.ts:890-909 | Acceptance and facts do not depend on the order of the participant array. |
| GroupExpenses.RegisterAccepts | apps/api/src/expense-recording/domain/group-expense.ts:792-873 | The exact condition under which a registration is accepted. |
| ExpenseOutcomes.RegisterExact | apps/api/src/expense-recording/domain/group-expense.ts:792-922 | The accepted registrations field by field, down to the calendar of the date, and the facts: the same participants by join order, each bearing the floor of their percentage or one yen more, with extra yen by remainder, payer and join order. |
| ExpenseOutcomes.FairUnique | apps/api/src/expense-recording/domain/group-expense.ts:875-899 | No two lists of such burdens for the same participants differ. |
| ExpenseRegistration.Run | apps/api/src/expense-recording/domain/group-expense.ts:792-922 | The step-by-step registration computes the specified facts or the first rejection in the source's order. |
| SelectedExpenses.RegisteredAdmissible | apps/api/src/settlement/domain/value-objects/settlement-snapshot-content.ts:96-195 | Over a whole run of one group: any non-empty selection of expenses with distinct ids, each registered for participants the group had at some time of the run, passes every check of the snapshot factory. |
| ReceiptLock.ReachableSound | apps/api/src/expense-recording/domain/receipt.ts:537-1250 | Every receipt a draft can lead to is sound: unique items, non-empty disjoint bundles of one group drawn from them, unique bundle and expense references, allocations of a fresh calculation, declared total as adjusted sum, chained history with version = length + 1. |
| ReceiptSteps.ConfirmSound | apps/api/src/expense-recording/domain/receipt.ts:537-627 | Confirmation establishes the confirmed part of the invariant. |
| ReceiptSteps.RegisterSound | apps/api/src/expense-recording/domain/receipt.ts:635-716 | Registering a bundle keeps it. |
| ReceiptSteps.MoveSound | apps/api/src/expense-recording/domain/receipt.ts:1127-1194 | Moving items keeps bundles non-empty, disjoint and drawn from the items. |
| ReceiptInvariants.MovedBundlesSound | apps/api/src/expense-recording/domain/receipt.ts:1153-1175 | After a move the first bundle holds its items without the moved ones, the second its items and the moved ones, every other bundle its own; all stay disjoint and non-empty. |
| ReceiptSteps.CategorySound | apps/api/src/expense-recording/domain/receipt.ts:724-792 | Correcting a category keeps it. |
| ReceiptSteps.CandidateSound | apps/api/src/expense-recording/domain/receipt.ts:939-1043 | A financial candidate of a sound receipt is sound. |
| ReceiptLock.BundleSumSafe | apps/api/src/expense-recording/domain/receipt.ts:1267-1288 | Every bundle sum lies between zero and the declared total, so it is a safe integer. |
| ReceiptLock.PermanentLock | apps/api/src/expense-recording/domain/receipt.ts:1063-1105 | Once a bundle is selected, its items and selection never change in any later state, and each step that changes a category, amount or allocation of its items carries a rejected case of its expense. |
| ReceiptLock.UntouchedKept | apps/api/src/expense-recording/domain/receipt.ts:974-990 | A bundle outside the computed affected set keeps every financial value of its items. |
| ReceiptInStep.PairAmountIs | apps/api/src/expense-recording/domain/group-expense.ts:702-722 | The expense's own sum over item references equals the receipt's bundle amount. |
| ReceiptInStep.RegisterInStep | apps/api/src/expense-recording/domain/receipt.ts:677-701 | A newly registered bundle is in step with its expense and the others stay so. |
| ReceiptInStep.SplitInStep | apps/api/src/expense-recording/domain/group-expense.ts:268-344 | Changing payer and percentages keeps the expense in step with its bundle. |
| ExpenseOutcomes.SplitExact | apps/api/src/expense-recording/domain/group-expense.ts:268-344 | A split is changed exactly for valid percentages of the same participants that add up to 100; then payer and percentages are those asked for, places and total those of before, the version is one more and the change is noted, and nothing changes exactly when they were so already. |
| ExpenseFollowing.MovementExact | apps/api/src/expense-recording/domain/group-expense.ts:352-429 | A move is followed exactly when the facts are one receipt version on and otherwise the same; the same shares then bear the new amount. |
| ExpenseFollowing.FinancialExact | apps/api/src/expense-recording/domain/group-expense.ts:437-693 | A correction is followed exactly when it concerns the expense, its bundle and its rejected case alone and the actor may correct; the same shares then bear the bundle's new amount. |
| ReceiptOperations.OperationExact | apps/api/src/expense-recording/domain/receipt.ts:496-1250 | Every operation on a sound receipt is accepted exactly under its own conditions and leads to exactly the receipt it says, with the step noted. |
| ReceiptOutcomes.ConfirmExact | apps/api/src/expense-recording/domain/receipt.ts:537-627 | A draft is confirmed exactly for a calendar date, reviewed items and a calculation that adds up to the declared total, and keeps the items with their calculated amounts. |
| ReceiptOutcomes.MoveExact | apps/api/src/expense-recording/domain/receipt.ts:1127-1194 | Items move exactly between two unlocked bundles, leaving some behind; both bundles list theirs in receipt order. |
| ReceiptOutcomes.SelectExact | apps/api/src/expense-recording/domain/receipt.ts:1202-1250 | A bundle is selected once, with its own expense and group; the same selection again changes nothing. |
| ReceiptCorrections.CategoryExact | apps/api/src/expense-recording/domain/receipt.ts:724-792 | The item has the new category and everything else is as before, exactly where its bundle has no case or a rejected one. |
| ReceiptCorrections.CandidateExact | apps/api/src/expense-recording/domain/receipt.ts:939-1043 | A revaluation is accepted exactly when the new calculation adds up to the declared total and the named cases are those of the affected bundles, each once; it lists them by bundle. |
| ReceiptCorrections.ItemAmountExact | apps/api/src/expense-recording/domain/receipt.ts:800-858 | An item's amount is corrected exactly where the receipt can be revalued with it. |
| ReceiptCorrections.AdjustmentAmountExact | apps/api/src/expense-recording/domain/receipt.ts:866-937 | An adjustment's amount likewise, including the bundles that carry an unchanged adjustment. |
| ReceiptInStep.EditingFactsAccepted | apps/api/src/expense-recording/domain/group-expense.ts:743-769 | The facts the receipt hands out about an editable bundle are accepted by the expense in step with it. |
| ReceiptSystem.MoveFollowed | apps/api/src/expense-recording/domain/group-expense.ts:352-429 | Both expenses of a move accept the receipt's facts before and after, and are in step with the moved bundles. |
| ReceiptSystem.FinancialFollowed | apps/api/src/expense-recording/domain/group-expense.ts:463-693 | Every expense of an affected bundle accepts the recorded correction and is in step again. |
| ReceiptSystem.FinancialRefused | apps/api/src/expense-recording/domain/group-expense.ts:578-581 | Every other expense of the receipt refuses it, and is in step without it. |
| ReceiptSystem.ItemAmountCorrecting | apps/api/src/expense-recording/domain/receipt.ts:800-858 | An accepted item amount correction is recorded as a change that meets everything the expenses check about it. |
| ReceiptSystem.AdjustmentAmountCorrecting | apps/api/src/expense-recording/domain/receipt.ts:866-937 | An accepted adjustment amount correction is recorded so too. |
| ReceiptJoint.AlwaysInStep | apps/api/src/expense-recording/domain/group-expense.ts:352-429 | In every state of every run of register, split change, move and correction, each bundle's expense total is the adjusted sum of its items. |
| ReceiptJoint.AcceptedMoveCommits | apps/api/src/expense-recording/domain/group-expense.ts:352-429 | A move the receipt accepts has its commit exactly when both expenses have room for one more version. |
| ReceiptJoint.AcceptedCorrectionCommits | apps/api/src/expense-recording/domain/group-expense.ts:463-693 | A correction the receipt accepts has its commit exactly when every expense it concerns has room for one more version. |
| ReceiptJoint.CompleteTotals | apps/api/src/expense-recording/domain/receipt.ts:1314-1322 | With every item assigned, the expense totals add up to the declared total. |
| GroupRuns.TransferRestores | apps/api/src/group-management/domain/group.ts:420-472 | The transfer that skips the restoring checks leads to a group that passes them all. |
| GroupRuns.StepRestores | apps/api/src/group-management/domain/group.ts:270-401 | Every accepted transition leads from a restorable group to a restorable group. |
| GroupRuns.MembershipsLast | apps/api/src/group-management/domain/group.ts:520-534 | Over a run no participant is removed, renamed or reactivated, and each change raises the access policy version by one. |
| GroupRuns.MembershipEndsByLeaving | apps/api/src/group-management/domain/group.ts:474-534 | Over a run a membership ends only by its holder's own leaving, and stays ended as it was left. |
| GroupRuns.OwnershipMoves | apps/api/src/group-management/domain/group.ts:420-472 | Over a run the owner changes only by a transfer or an archive of the owner at that time, and the last of them names who owns the group. |
| GroupRuns.OwnedAndBounded | apps/api/src/group-management/domain/group.ts:285-325 | A group that is not archived has one to four active participants, one of them its owner. |
| GroupRuns.JoinOrdersIncrease | apps/api/src/group-management/domain/group.ts:662-697 | Join orders strictly increase with admission. |
| GroupRuns.ConsumedOnce | apps/api/src/group-management/domain/group.ts:682-694 | Different consumed invitations name different participants. |
| GroupChecks.AssertParticipants | apps/api/src/group-management/domain/group.ts:883-953 | The looping participant check answers the specified first rejection, and passes exactly when ids, active subjects and join orders are distinct and leave times fit the statuses. |
| GroupChecks.AssertInvitations | apps/api/src/group-management/domain/group.ts:955-1018 | The loop with its set of seen identifiers answers the specified first rejection; given distinct participants it passes exactly when every invitation has its own identifier, lasts a week, was issued by a participant of that time, and is consumed by its target joining in that week or not at all. |
| GroupChecks.AssertClosing | apps/api/src/group-management/domain/group.ts:1020-1080 | The looping closing checks answer the specified first rejection, and pass exactly when each context has at most one fence and one unfence receipt of this closing, each unfence answers its fence, and unfencing happens only while cancelling. |
| GroupClosing.ArchiveXorReserve | apps/api/src/group-management/domain/group.ts:747-797 | In a run that starts each close intent at most once, archiving and reserving the cancellation never both happen under one intent. |
| GroupClosing.ArchivedBy | apps/api/src/group-management/domain/group.ts:747-781 | A group found archived was archived by its last transition, under the intent it was closing. |
| GroupClosing.ArchivedIsFinal | apps/api/src/group-management/domain/group.ts:1244-1251 | An archived group accepts no transition. |
| GroupClosing.ReservedTooEarly | apps/api/src/group-management/domain/group.ts:799-816 | A cancellation reserved before both fence receipts were recorded stays in cancelling for ever. |
| GroupClosing.CancellationCanFinish | apps/api/src/group-management/domain/group.ts:783-866 | Reserving a cancellation lets it finish exactly when, before the call, both fence receipts are recorded and the access policy version has room for four more steps. |
| GroupClosing.ReservingAtOnceSticks | apps/api/src/group-management/domain/group.ts:699-797 | The owner of any active group whose access policy version has room for both steps can start closing and reserve its cancellation at once; no run then leads out of cancelling. |
| GroupClosing.StuckFromCreation | apps/api/src/group-management/domain/group.ts:699-797 | The run that shows it, from the creation of any group. |
| GroupChecks.ValidateFenceReceipts | apps/api/src/group-management/application/group-close-coordinator.ts:88-125 | The coordinator goes on exactly when both contexts' receipts name the reserved group and intent under one cutoff. |
| GroupRules.RestorableExact | apps/api/src/group-management/domain/group.ts:270-401 | The restoring checks accept exactly the groups that meet the rules said of their lists: participants, one to four active with the owner among them, invitations, closing state and archive facts. |
| GroupOutcomes.TransitionExact | apps/api/src/group-management/domain/group.ts:420-866 | A group that meets the rules accepts each transition exactly under its own conditions and becomes exactly what the transition says; restoring the result refuses nothing more. |
| GroupOutcomes.CreateExact | apps/api/src/group-management/domain/group.ts:246-268 | A new group has its creator as only participant and owner, at policy version 1. |
| GroupMembers.LeaveExact | apps/api/src/group-management/domain/group.ts:474-534 | Leaving is refused, apart from the checks on the leaver, exactly for an invitation they issued at that time or later. |
| GroupMembers.AcceptExact | apps/api/src/group-management/domain/group.ts:613-697 | An accepted invitation is consumed by the new participant, who joins behind everyone. |
| GroupOutcomes.ArchiveExact | apps/api/src/group-management/domain/group.ts:747-781 | Archiving is accepted exactly from the owner under the intent in force with both contexts eligible, and ends the closing. |
| CommandTheorems.AlwaysSound | apps/api/src/group-management/infrastructure/postgres/group-commit-kernel.ts:147-314 | Every state of every interleaving of clients, statements, commits, rollbacks and lost connections keeps the invariant. |
| CommandTheorems.OneEffectPerOperation | apps/api/src/group-management/infrastructure/postgres/group-commit-kernel.ts:299-313 | No two commits belong to the same actor and operation identifier. |
| CommandTheorems.RepliesAgree | apps/api/src/group-management/application/group-command-service.ts:813-907 | All successful replies for one operation are equal and stem from a commit, and a different fingerprint never gets that result. |
| CommandTheorems.SavedKindFits | apps/api/src/group-management/application/group-command-service.ts:976-988 | A saved result always has a kind its command accepts, so a replay is never refused for its kind. |
| CommandOutcomes.SavedTells | apps/api/src/group-management/application/group-command-service.ts:161-811 | In every execution each saved result was saved by one commit, which appended the command's own transition, in the actor's name, to the group it names at the version it names, or left the store alone where nothing changed; and the result tells what became of the group: who was admitted, invited, left or owns it, and under which intent it was closed, archived or reopened. |
| CommandOutcomes.PrepareExact | apps/api/src/group-management/application/group-command-service.ts:850-868 | A request is drawn up exactly for a creation, or for a group at the named version that may do what the command says. |
| CommandOutcomes.LookupTells | apps/api/src/group-management/application/group-command-service.ts:813-848 | A saved operation is answered with its result for the same command and refused for another. |
| CommandTheorems.VersionCountsChanges | apps/api/src/group-management/infrastructure/postgres/group-state-writer.ts:88-133 | The aggregate version is the number of committed state changes, creation included. |
| CommandTheorems.StoredGroupIsRun | apps/api/src/group-management/infrastructure/postgres/group-state-writer.ts:50-133 | Every stored group is the last state of a run of accepted transitions from its creation, and is restorable. |
| CommandTheorems.ArchiveXorReservation | apps/api/src/group-management/infrastructure/postgres/group-commit-kernel.ts:212-226 | In no interleaving do archive and cancellation reservation both commit for one close intent. |
| CommandTheorems.RemovedFenceNeverArchived | apps/api/src/group-management/application/group-close-coordinator.ts:56-86 | Once a context's fence for an intent is removed, the group is not archived under that intent, before or after. |
| CommandSafety.CheckKeeps | apps/api/src/group-management/infrastructure/postgres/group-state-writer.ts:50-87 | The version check under the row lock keeps the invariant. |
| CommandSafety.RegisterKeeps | apps/api/src/group-management/infrastructure/postgres/group-commit-kernel.ts:212-226 | Registering the close intent under its unique key keeps it. |
| CommandSafety.LocateKeeps | apps/api/src/group-management/infrastructure/postgres/group-commit-kernel.ts:299-313 | Inserting the locator under its unique key keeps it. |
| CommandSafety.CommitKeeps | apps/api/src/group-management/infrastructure/postgres/group-repository.ts:120-132 | A commit, known or unknown to its client, keeps it. |
| GroupCommitKernel.Storage.Persist | apps/api/src/group-management/infrastructure/postgres/group-state-writer.ts:50-133 | Compare-and-set of the version, and the new stored group exactly when something changed. |
| GroupCommitKernel.Storage.Stage | apps/api/src/group-management/infrastructure/postgres/group-commit-kernel.ts:147-314 | The ordered statements answer replay, mismatch, conflict or success, and on success leave all three writes. |
| GroupCommitKernel.Storage.Commit | apps/api/src/group-management/infrastructure/postgres/group-repository.ts:82-133 | A refusal leaves no trace of earlier statements, a success leaves all of them. |
| GroupCommitKernel.RetryReplays | apps/api/src/group-management/infrastructure/postgres/group-commit-kernel.ts:191-211 | Whatever is saved in between, a retry of a saved request is answered with the saved result, another command under its key is refused, and neither writes. |
| GroupCommitKernel.EveryCommitIsKernel | apps/api/src/group-management/infrastructure/postgres/group-commit-kernel.ts:147-314 | In every interleaving each step leaves the database alone or commits exactly what the kernel saves on it at that instant, and a statement ends a transaction only where the kernel refuses its request. |
| GroupCommitKernel.KernelFollowsProtocol | apps/api/src/group-management/infrastructure/postgres/group-commit-kernel.ts:147-314 | A request the kernel saves can be saved statement by statement by an undisturbed transaction, with the same database and the reply told to its client. |
| Base64Url.EncodeAccepted | apps/api/src/shared/infrastructure/authentication/canonical-authentication.ts:115-122 | Every 32-byte value has an accepted 43-character string that stands for it (RFC 4648, section 5). |
| Base64Url.AcceptedIsEncoding | apps/api/src/shared/application/authentication/recipient-code-input.ts:31-40 | An accepted string is the encoding of what it stands for, so the decoder is a bijection. |
| Base64Url.OneMeaning | apps/api/src/shared/application/authentication/recipient-code-input.ts:31-40 | An accepted string stands for at most one value. |
| Base64Url.LenientStandsFor | apps/api/src/shared/infrastructure/authentication/canonical-authentication.ts:118-120 | The lenient decoding of any 43 characters of the alphabet is what they stand for. |
| Base64Url.ReencodeTest | apps/api/src/shared/infrastructure/authentication/canonical-authentication.ts:115-122 | On every string, decoding leniently and comparing the re-encoding accepts exactly what the pattern accepts, and gives the same bytes (RFC 4648, section 3.5). |
| RecipientCodeSecret.Secret.constructor | apps/api/src/shared/application/authentication/recipient-code-input.ts:8-24 | The bit-buffer loop writes the 32 bytes the string stands for. |
| RecipientCodeSecret.Parse | apps/api/src/shared/application/authentication/recipient-code-input.ts:31-40 | A secret exactly for accepted strings, and the one value whose encoding the string is. |
| Utf8.DecodeOfEncode | apps/api/src/shared/infrastructure/authentication/canonical-authentication.ts:7-8 | Strict decoding gives encoded text back. |
| Utf8.EncodeOfDecode | apps/api/src/shared/infrastructure/authentication/canonical-authentication.ts:7-8 | Bytes accepted by the strict decoder are the one encoding of their text. |
| Tlv.DecodeInvertsEncode | apps/api/src/shared/infrastructure/authentication/canonical-authentication.ts:237-312 | Decoding an encoded value list with fitting kinds gives the values back. |
| Tlv.EncodeInvertsDecode | apps/api/src/shared/infrastructure/authentication/canonical-authentication.ts:275-312 | Every accepted byte string re-encodes to itself. |
| Tlv.AcceptsExactlyEncodings | apps/api/src/shared/infrastructure/authentication/canonical-authentication.ts:275-312 | The decoder accepts exactly the encodings of fitting values. |
| Tlv.EncodeInjective | apps/api/src/shared/infrastructure/authentication/canonical-authentication.ts:237-266 | Different value lists of one layout never share an encoding. |
| TlvCodec.EncodeTlv | apps/api/src/shared/infrastructure/authentication/canonical-authentication.ts:237-266 | The chunk and buffer loops write the specified bytes. |
| TlvCodec.DecodeTlv | apps/api/src/shared/infrastructure/authentication/canonical-authentication.ts:275-312 | The offset loop reads what the specification reads. |
| RecipientCodeRecords.DecimalParses | apps/api/src/shared/infrastructure/authentication/canonical-recipient-code.ts:99-104 | The decimal reader inverts the decimal writer on 0..2^53-1. |
| RecipientCodeRecords.DecodeInvertsEncodeRecord | apps/api/src/shared/infrastructure/authentication/canonical-recipient-code.ts:78-149 | Every valid record has an encoding, and decoding gives the record back. |
| RecipientCodeRecords.EncodeInvertsDecodeRecord | apps/api/src/shared/infrastructure/authentication/canonical-recipient-code.ts:112-149 | Every accepted byte string is the encoding of its record. |
| EncodingRules.TextExact | apps/api/src/shared/infrastructure/authentication/canonical-authentication.ts:51-69 | The accepted texts: not empty, no white space at either end, no C0, C1 or delete character. |
| EncodingRules.EncodeExact | apps/api/src/shared/infrastructure/authentication/canonical-authentication.ts:237-266 | The encoding of 1 to 255 values is the one row of chunks: field number from 1, presence, four length bytes with the most significant first, and content. |
| EncodingRules.RecordExact | apps/api/src/shared/infrastructure/authentication/canonical-recipient-code.ts:78-149 | A recipient-code record is written as its 13 fields in their places, and exactly those bytes read as it, for records that meet the rules on identifiers, ten-minute lifetime, status and end. |
| DeletionLedger.BodiesTell | apps/api/src/shared/infrastructure/authentication/authentication-ledger-evidence.ts:101-126 | Entries with the same body agree in sequence, previous hash, record and key version. |
| LedgerBodies.BodyExact | apps/api/src/shared/infrastructure/authentication/authentication-ledger-evidence.ts:101-126 | The body of a valid entry is the only byte string that decodes to application, purpose, namespace, sequence, previous hash, kind, operation, key version and then the 6 facts of a deletion or the 3 of a recovery, place by place. |
| LedgerBodies.EntryExact | apps/api/src/shared/infrastructure/authentication/authentication-ledger-evidence.ts:279-299 | The valid entries, field by field. |
| LedgerChains.WalkExact | apps/api/src/shared/infrastructure/authentication/authentication-ledger-evidence.ts:300-326 | The walk accepts exactly the ledgers whose every entry is valid, numbered next, names its predecessor's hash, verifies over its body and hashes it, and whose deletions are prepared once and then completed at most once. |
| LedgerChains.RecordsAre | apps/api/src/shared/infrastructure/authentication/authentication-ledger-evidence.ts:140-156 | The walk remembers every deletion by the last entry about it. |
| LedgerChains.AppendedExact | apps/api/src/shared/infrastructure/authentication/authentication-ledger-evidence.ts:381-400 | An entry is drawn up exactly for a valid record that goes on with its deletion's story, as the chain's next entry. |
| LedgerChains.WholeChainExact | apps/api/src/shared/infrastructure/authentication/authentication-ledger-evidence.ts:254-352 | The chain behind the latest head, said of the entries: it meets the rules, is read in pages of 1 to 128 entries asked for in order, ends at the head, and the backup's head is that of one of its prefixes. |
| LedgerChains.HeadExact | apps/api/src/shared/infrastructure/authentication/authentication-ledger-evidence.ts:46-51 | The valid heads; at the origin the hash is 64 zeros. |
| DeletionLedger.SameHeadSameEntries | apps/api/src/shared/infrastructure/authentication/authentication-ledger-evidence.ts:300-326 | With an injective entry hash, two verified ledgers whose heads share a hash have the same entries. |
| DeletionLedger.CheckpointIsPrefix | apps/api/src/shared/infrastructure/authentication/authentication-ledger-evidence.ts:254-275 | An accepted backup checkpoint is the head of a prefix, and a ledger verified with it earlier is that prefix. |
| DeletionLedger.DeletionStory | apps/api/src/shared/infrastructure/authentication/authentication-ledger-evidence.ts:140-156 | A deletion goes from prepared version 1 to at most one complete version 2 with fixed facts. |
| LedgerEvidence.Latest | apps/api/src/shared/infrastructure/authentication/authentication-ledger-evidence.ts:240-352 | The page loop returns a head exactly when both sources agree and are attested before and after and the pages asked for hold a verified chain up to that head with the backup's checkpoint on it; the result is the walk over that chain. |
| LedgerEvidence.WalkPage | apps/api/src/shared/infrastructure/authentication/authentication-ledger-evidence.ts:300-326 | The loop over one page succeeds exactly when the page continues the verified chain up to the expected sequence, and finds the checkpoint exactly when it is met on the page. |
| LedgerEvidence.AppendExtends | apps/api/src/shared/infrastructure/authentication/authentication-ledger-evidence.ts:381-400 | An appended entry extends the verified chain by exactly itself. |
| LedgerEvidence.AppendConfirmed | apps/api/src/shared/infrastructure/authentication/authentication-ledger-evidence.ts:401-413 | With an injective entry hash, the refetched ledger confirms an append exactly when the earlier entries followed by the appended one are its prefix and the appended deletion is still the latest word on it. |
| LedgerEvidence.StoredButRefused | apps/api/src/shared/infrastructure/authentication/authentication-ledger-evidence.ts:401-412 | A prepared deletion that was stored is refused by its own append when it was completed before the ledger was read again. |

## Left out

- User interface, GraphQL and HTTP adapters, configuration, migrations and the text of SQL statements.
- Values of the wrong dynamic type: the declared types are taken as given, so checks for non-numbers, sparse arrays,
  negative zero, accessors and prototypes have no counterpart.
- Trimming and regular expressions are predicates on characters; surrogate code units are excluded by the character type.
- GroupRoot.DeleteEligibleAt: one calendar year in Tokyo is some later instant, the same for the same archive instant.
- GroupExpense.correctAmount for manual expenses: it changes an expense without its bundle by design, so it is not a step
  of the joint system.
- Category, authorisation of readers, and the retention and deletion evidence services around the ledger.
- CommandSystem: one locator key version, no operation of the recipient-code invitation that shares the key space, and
  protected-record encryption as identity. Rows of participants, invitations, access index and history are part of the
  stored group.
- SettlementCase: read-only views derived from the state, such as instruction status and the expenses to release.
- CommandSystem: a refused command and its reason are one `Failed` phase; replies carry full results.
- GroupCommitKernel.Storage: one transaction at a time; interleavings are the subject of CommandSystem.
- LedgerEvidence.Latest: provider, attestation and MAC answers are parameters, and handles are the values they stand for.
- ReceiptJoint: the authorisation facts and clock values that accompany a commit are its parameters; which requests arrive is arbitrary.
- The header and row encodings other than the recipient-code record, which use the same tag-length-value form.
- Eventual completion: only safety is proved for closing, apart from the exact conditions under which a reserved cancellation can finish and an accepted receipt change can commit.
