/** Whole runs of a receipt together with its expenses, each commit taking all the roots it concerns or none. */
module ReceiptJoint {
  import opened Outcomes
  import opened Sequences
  import opened Text
  import opened ReceiptAdjustments
  import opened GroupExpenses
  import opened ExpenseRoot
  import opened ReceiptRoot
  import opened ReceiptInvariants
  import opened ReceiptSteps
  import opened ReceiptLock
  import opened ReceiptInStep
  import opened ReceiptSystem

  datatype Joint = Joint(receipt: Receipt, expenses: map<string, GroupExpense>)

  /** What one commit asks for. */
  datatype Request =
    | ReceiptOnly(op: Operation)
    | SplitChanged(expectedVersion: int, actorSubject: string, at: Clock, bundleId: string, payer: string,
                   splits: seq<Split>)

  ghost predicate Concerned(f: ConfirmedFacts, c: FinancialChange, expenseId: string) {
    exists b :: b in f.bundles && b.expenseId == expenseId && EntriesFor(c.affected, b.id) != []
  }

  ghost predicate RegisterCommit(s: Joint, op: Operation, s': Joint) {
    && op.OpRegisterBundle? && Apply(s.receipt, op).Ok?
    && s' == Joint(Apply(s.receipt, op).value, s.expenses[op.expense.facts.id := op.expense])
  }

  /** Draft edits, confirmation, snapshot selection and category corrections leave the expenses alone. */
  ghost predicate QuietCommit(s: Joint, op: Operation, s': Joint) {
    && (op.OpEditDraft? || op.OpConfirm? || op.OpSelect? || op.OpCategory?) && Apply(s.receipt, op).Ok?
    && s' == Joint(Apply(s.receipt, op).value, s.expenses)
  }

  function ExpenseOf(r: Receipt, v: int, a: string, bundleId: string): string {
    var fact := BundleEditingFacts(r, v, a, bundleId);
    if fact.Ok? then fact.value.expenseId else ""
  }

  ghost predicate MoveCommit(s: Joint, op: Operation, s': Joint) {
    && op.OpMove? && Apply(s.receipt, op).Ok?
    && var r, r' := s.receipt, Apply(s.receipt, op).value;
       var x, y := ExpenseOf(r, op.expectedVersion, op.actorSubject, op.fromBundleId),
                   ExpenseOf(r, op.expectedVersion, op.actorSubject, op.toBundleId);
    && x in s.expenses && y in s.expenses
    && var e := FollowMove(s.expenses[x], r, r', op.expectedVersion, op.actorSubject, op.at, op.fromBundleId);
       var g := FollowMove(s.expenses[y], r, r', op.expectedVersion, op.actorSubject, op.at, op.toBundleId);
    && e.Ok? && g.Ok? && s' == Joint(r', s.expenses[x := e.value][y := g.value])
  }

  ghost predicate CorrectionCommit(s: Joint, op: Operation, s': Joint) {
    && (op.OpItemAmount? || op.OpAdjustmentAmount?) && Apply(s.receipt, op).Ok?
    && var r, r' := s.receipt, Apply(s.receipt, op).value;
       if r' == r then s' == s
       else
         && Corrected(r, r') && s'.receipt == r'
         && CorrectionFollowed(s.expenses, r.current.facts, LastCorrection(r, r'), s')
  }

  /** Every concerned expense reflects the correction; the others are not touched. */
  ghost predicate CorrectionFollowed(es: map<string, GroupExpense>, f: ConfirmedFacts, c: FinancialChange, s': Joint) {
    && s'.expenses.Keys == es.Keys
    && forall id | id in es ::
         if Concerned(f, c, id)
         then ReflectFinancial(es[id], es[id].version, c.previousVersion, c) == Ok(s'.expenses[id])
         else s'.expenses[id] == es[id]
  }

  ghost predicate SplitCommit(s: Joint, q: Request, s': Joint) {
    && q.SplitChanged?
    && var fact := BundleEditingFacts(s.receipt, q.expectedVersion, q.actorSubject, q.bundleId);
    && fact.Ok? && fact.value.expenseId in s.expenses
    && var e := s.expenses[fact.value.expenseId];
       var e' := ChangeBundleSplit(e, e.version, q.expectedVersion, fact.value, q.actorSubject, q.at, q.payer,
                                   q.splits);
    && e'.Ok? && s' == Joint(s.receipt, s.expenses[fact.value.expenseId := e'.value])
  }

  /** One commit, or none: a refused request changes nothing. */
  ghost predicate Commit(s: Joint, q: Request, s': Joint) {
    || s' == s
    || SplitCommit(s, q, s')
    || (q.ReceiptOnly? && Supplied(q.op) &&
        (RegisterCommit(s, q.op, s') || QuietCommit(s, q.op, s') || MoveCommit(s, q.op, s') ||
         CorrectionCommit(s, q.op, s')))
  }

  ghost predicate JointSound(s: Joint) {
    ReceiptSound(s.receipt) && (s.receipt.current.Confirmed? ==> InStep(s.receipt.current.facts, s.expenses))
  }

  // ---- every commit keeps the receipt and its expenses in step ----

  lemma RegisterKeeps(s: Joint, op: Operation, s': Joint)
    requires JointSound(s) && Supplied(op) && RegisterCommit(s, op, s')
    ensures JointSound(s')
  {
    hide RegisterBundle, ReceiptSound, ExpenseGenuine, InStep;
    assert s.receipt.current.Confirmed? by {
      RegisterAccepted(s.receipt, op.expectedVersion, op.actorSubject, op.at, op.bundleId, op.itemIds, op.expense);
    }
    RegisterSound(s.receipt, op.expectedVersion, op.actorSubject, op.at, op.bundleId, op.itemIds, op.expense);
    RegisterInStep(s.receipt, op.expectedVersion, op.actorSubject, op.at, op.bundleId, op.itemIds, op.expense,
                   s.expenses);
  }

  lemma SameAmounts(f: ConfirmedFacts, f': ConfirmedFacts, es: map<string, GroupExpense>)
    requires InStep(f, es) && f'.bundles == f.bundles && f'.uploaderSubject == f.uploaderSubject &&
             f'.occurredOn == f.occurredOn
    requires |f'.items| == |f.items|
    requires forall k | 0 <= k < |f.items| ::
             f'.items[k].id == f.items[k].id && f'.items[k].adjustedAmount == f.items[k].adjustedAmount
    ensures InStep(f', es)
  {
    hide InStepWith;
    forall b | b in f'.bundles ensures b.expenseId in es && InStepWith(f', b, es[b.expenseId]) {
      SumsAlike(f'.items, f.items, Within(b.itemIds), Within(b.itemIds));
      assert BundleAmount(f', b) == BundleAmount(f, b);
      StaysInStep(f, f', b, es[b.expenseId]);
    }
  }

  lemma ConfirmedEmpty(r: Receipt, v: int, a: string, at: Clock, day: string, total: int, items: seq<CandidateItem>,
                       adjustments: seq<Adjustment>)
    requires Confirm(r, v, a, at, day, total, items, adjustments).Ok?
    ensures var r' := Confirm(r, v, a, at, day, total, items, adjustments).value;
            r'.current.Confirmed? && r'.current.facts.bundles == []
  {
    hide Calculate, ReviewedCheck, CalendarDay, Nonempty;
  }

  lemma CategoryAmounts(r: Receipt, v: int, a: string, o: string, at: Clock, g: string, i: string, c: string,
                        cv: Option<int>, fact: Option<CaseFact>, es: map<string, GroupExpense>)
    requires r.current.Confirmed? ==> InStep(r.current.facts, es)
    requires CorrectItemCategory(r, v, a, o, at, g, i, c, cv, fact).Ok?
    ensures var r' := CorrectItemCategory(r, v, a, o, at, g, i, c, cv, fact).value;
            r'.current.Confirmed? ==> InStep(r'.current.facts, es)
  {
    hide CorrectItemCategory, InStep, CorrectionCaseCheck;
    if CorrectItemCategory(r, v, a, o, at, g, i, c, cv, fact).value != r {
      var k, b := CategoryAccepted(r, v, a, o, at, g, i, c, cv, fact);
      SameAmounts(r.current.facts, CorrectItemCategory(r, v, a, o, at, g, i, c, cv, fact).value.current.facts, es);
    }
  }

  lemma SelectAmounts(r: Receipt, v: int, sel: Selection, at: Clock, es: map<string, GroupExpense>)
    requires r.current.Confirmed? ==> InStep(r.current.facts, es)
    requires RecordSelection(r, v, sel, at).Ok?
    ensures var r' := RecordSelection(r, v, sel, at).value;
            r'.current.Confirmed? ==> InStep(r'.current.facts, es)
  {
    hide RecordSelection, InStep;
    if RecordSelection(r, v, sel, at).value != r {
      SelectAccepted(r, v, sel, at);
      hide FindBundle, SelectionOf;
      SameAmounts(r.current.facts, RecordSelection(r, v, sel, at).value.current.facts, es);
    }
  }

  lemma QuietKeeps(s: Joint, op: Operation, s': Joint)
    requires JointSound(s) && Supplied(op) && QuietCommit(s, op, s')
    ensures JointSound(s')
  {
    hide *;
    JointParts(s);
    JointParts(s');
    QuietIs(s, op, s');
    StepSound(s.receipt, op);
    QuietAmounts(s.receipt, op, s.expenses);
  }

  lemma JointParts(s: Joint)
    ensures JointSound(s) <==>
            ReceiptSound(s.receipt) && (s.receipt.current.Confirmed? ==> InStep(s.receipt.current.facts, s.expenses))
  {
    hide ReceiptSound, InStep;
  }

  lemma QuietIs(s: Joint, op: Operation, s': Joint)
    requires QuietCommit(s, op, s')
    ensures (op.OpEditDraft? || op.OpConfirm? || op.OpSelect? || op.OpCategory?) && Apply(s.receipt, op).Ok?
    ensures s' == Joint(Apply(s.receipt, op).value, s.expenses)
  {
    hide Apply;
  }

  /** What leaves the expenses alone leaves the amounts of the bundles alone. */
  lemma QuietAmounts(r: Receipt, op: Operation, es: map<string, GroupExpense>)
    requires (op.OpEditDraft? || op.OpConfirm? || op.OpSelect? || op.OpCategory?) && Apply(r, op).Ok?
    requires r.current.Confirmed? ==> InStep(r.current.facts, es)
    ensures Apply(r, op).value.current.Confirmed? ==> InStep(Apply(r, op).value.current.facts, es)
  {
    hide Confirm, CorrectItemCategory, RecordSelection, InStepWith;
    match op
    case OpEditDraft(v, a, at, day, total, items, adjustments) =>
    case OpConfirm(v, a, at, day, total, items, adjustments) =>
      ConfirmedEmpty(r, v, a, at, day, total, items, adjustments);
    case OpSelect(v, sel, at) => SelectAmounts(r, v, sel, at, es);
    case OpCategory(v, a, o, at, g, i, c, cv, f) => CategoryAmounts(r, v, a, o, at, g, i, c, cv, f, es);
    case _ =>
  }

  lemma SplitKeeps(s: Joint, q: Request, s': Joint)
    requires JointSound(s) && SplitCommit(s, q, s')
    ensures JointSound(s')
  {
    hide ReceiptSound, EditableBundle, ChangeBundleSplit, InStepWith;
    var r, f := s.receipt, s.receipt.current.facts;
    var k := EditableBundle(r, q.expectedVersion, q.actorSubject, q.bundleId).value;
    var fact := BundleEditingFacts(r, q.expectedVersion, q.actorSubject, q.bundleId).value;
    var target, e := f.bundles[k], s.expenses[fact.expenseId];
    assert fact.expenseId == target.expenseId && target in f.bundles;
    SplitInStep(f, target, e, e.version, q.expectedVersion, fact, q.actorSubject, q.at, q.payer, q.splits);
    forall b | b in f.bundles ensures b.expenseId in s'.expenses && InStepWith(f, b, s'.expenses[b.expenseId]) {
      if b.expenseId == target.expenseId {
        assert b == target by { OneBundlePerExpense(r, b, target); }
      }
    }
  }

  lemma OneBundlePerExpense(r: Receipt, b: Bundle, b': Bundle)
    requires ReceiptSound(r) && r.current.Confirmed? && b in r.current.facts.bundles && b' in r.current.facts.bundles
    requires b.expenseId == b'.expenseId
    ensures b == b'
  {
    hide HistorySound;
    FirstPair(r.current.facts, b);
    FirstPair(r.current.facts, b');
  }

  lemma MoveKeeps(s: Joint, op: Operation, s': Joint)
    requires JointSound(s) && MoveCommit(s, op, s')
    ensures JointSound(s')
  {
    hide ReceiptSound, EditableBundle, MoveBundleItems, InStepWith, FollowMove;
    var v, a, r := op.expectedVersion, op.actorSubject, s.receipt;
    MoveSound(r, v, a, op.at, op.fromBundleId, op.toBundleId, op.itemIds);
    var i, j := MoveAccepted(r, v, a, op.at, op.fromBundleId, op.toBundleId, op.itemIds);
    var f, f' := r.current.facts, s'.receipt.current.facts;
    var x, y := f.bundles[i].expenseId, f.bundles[j].expenseId;
    hide ItemIdsWellFormed, InReceiptOrder, Remaining;
    assert f'.bundles[i].expenseId == x && f'.bundles[j].expenseId == y;
    assert f.bundles[i] in f.bundles && f.bundles[j] in f.bundles;
    EndFollows(s, op, op.fromBundleId, i, s.expenses[x]);
    EndFollows(s, op, op.toBundleId, j, s.expenses[y]);
    forall b | b in f'.bundles ensures b.expenseId in s'.expenses && InStepWith(f', b, s'.expenses[b.expenseId]) {
      var k :| 0 <= k < |f'.bundles| && f'.bundles[k] == b;
      assert f.bundles[k] in f.bundles && f'.bundles[i] in f'.bundles && f'.bundles[j] in f'.bundles;
      if b.expenseId == y {
        OneBundlePerExpense(s'.receipt, b, f'.bundles[j]);
      } else if b.expenseId == x {
        OneBundlePerExpense(s'.receipt, b, f'.bundles[i]);
      } else {
        StaysInStep(f, f', b, s.expenses[b.expenseId]);
      }
    }
  }

  /** An expense that followed the move is in step with the bundle the move left. */
  lemma EndFollows(s: Joint, op: Operation, id: string, k: nat, e: GroupExpense)
    requires ReceiptSound(s.receipt) && op.OpMove? && Apply(s.receipt, op).Ok? &&
             (id == op.fromBundleId || id == op.toBundleId)
    requires EditableBundle(s.receipt, op.expectedVersion, op.actorSubject, id) == Ok(k)
    requires InStepWith(s.receipt.current.facts, s.receipt.current.facts.bundles[k], e)
    requires FollowMove(e, s.receipt, Apply(s.receipt, op).value, op.expectedVersion, op.actorSubject, op.at, id).Ok?
    ensures var r' := Apply(s.receipt, op).value;
            && r'.current.Confirmed? && k < |r'.current.facts.bundles|
            && InStepWith(r'.current.facts, r'.current.facts.bundles[k],
                          FollowMove(e, s.receipt, r', op.expectedVersion, op.actorSubject, op.at, id).value)
  {
    hide *;
    ApplyMove(s.receipt, op);
    FollowVersions(e, s.receipt, Apply(s.receipt, op).value, op.expectedVersion, op.actorSubject, op.at, id);
    MoveFollowed(s.receipt, op.expectedVersion, op.actorSubject, op.at, op.fromBundleId, op.toBundleId, op.itemIds, id,
                 e);
  }

  lemma ApplyMove(r: Receipt, op: Operation)
    requires op.OpMove?
    ensures Apply(r, op) ==
            MoveBundleItems(r, op.expectedVersion, op.actorSubject, op.at, op.fromBundleId, op.toBundleId, op.itemIds)
  {
    hide MoveBundleItems;
  }

  lemma FollowVersions(e: GroupExpense, r: Receipt, r': Receipt, v: int, a: string, at: Clock, id: string)
    requires FollowMove(e, r, r', v, a, at, id).Ok?
    ensures SafeInteger(e.version) && SafeInteger(e.version + 1)
  {
    hide BundleEditingFacts, CurrentFactCheck, FactShapeCheck, Register;
  }

  lemma ReflectVersions(e: GroupExpense, v: int, rv: int, c: FinancialChange)
    requires ReflectFinancial(e, v, rv, c).Ok?
    ensures SafeInteger(e.version) && SafeInteger(e.version + 1)
  {
    hide PairOf, PairAmount, SamePair, FinancialActorCheck, CorrectionPlausible, EntriesFor, CaseEntryCheck, Register,
         SelectedBundle;
  }

  /**
   * The correction a receipt recorded, seen by a bundle: it is affected exactly when the record has an entry for it.
   */
  lemma CorrectionStep(es: map<string, GroupExpense>, c: FinancialChange, input: FinancialInput, items: seq<Item>,
                       adjustments: seq<Adjustment>, included: set<string>, error: ReceiptError, s': Joint)
    requires |items| == |c.before.items| && Correcting(c, input, items, adjustments, included, error)
    requires InStep(c.before, es) && CorrectionFollowed(es, c.before, c, s')
    ensures InStep(c.after, s'.expenses)
  {
    hide Correcting, InStepWith, IsAffected, FactsSound, ReflectFinancial;
    CorrectionKeeps(c, input, items, adjustments, included, error);
    forall b | b in c.after.bundles
      ensures b.expenseId in s'.expenses && InStepWith(c.after, b, s'.expenses[b.expenseId]) {
      var e := es[b.expenseId];
      assert Calculate(items, adjustments).Ok? by {
        CorrectingCalculates(c, input, items, adjustments, included, error);
      }
      if IsAffected(c, items, adjustments, included, b) {
        var entry := AffectedEntry(c, input, items, adjustments, included, error, b);
        assert Concerned(c.before, c, b.expenseId);
        ReflectVersions(e, e.version, c.previousVersion, c);
        FinancialFollowed(c, input, items, adjustments, included, error, b, e);
      } else {
        NoEntry(c, input, items, adjustments, included, error, b);
        FinancialRefused(c, input, items, adjustments, included, error, b, e);
        OnlyItsBundle(c, input, items, adjustments, included, error, b);
      }
    }
  }

  lemma CorrectingCalculates(c: FinancialChange, input: FinancialInput, items: seq<Item>, adjustments: seq<Adjustment>,
                             included: set<string>, error: ReceiptError)
    requires |items| == |c.before.items| && Correcting(c, input, items, adjustments, included, error)
    ensures Calculate(items, adjustments).Ok? && FactsSound(c.before)
  {
    hide FactsSound, CorrectionPlausible, Nonempty, FinancialCandidate;
  }

  lemma OnlyItsBundle(c: FinancialChange, input: FinancialInput, items: seq<Item>, adjustments: seq<Adjustment>,
                      included: set<string>, error: ReceiptError, b: Bundle)
    requires |items| == |c.before.items| && Correcting(c, input, items, adjustments, included, error) &&
             b in c.before.bundles
    requires EntriesFor(c.affected, b.id) == []
    ensures !Concerned(c.before, c, b.expenseId)
  {
    hide Correcting, FactsSound;
    CorrectingCalculates(c, input, items, adjustments, included, error);
    forall b' | b' in c.before.bundles && b'.expenseId == b.expenseId ensures b' == b {
      FirstPair(c.before, b);
      FirstPair(c.before, b');
    }
  }

  lemma CorrectionKeepsStep(s: Joint, op: Operation, s': Joint)
    requires JointSound(s) && CorrectionCommit(s, op, s')
    ensures JointSound(s')
  {
    hide ReceiptSound, CorrectItemAmount, CorrectAdjustmentAmount, InStep, CorrectionFollowed, Correcting, Footprint;
    var r, r' := s.receipt, Apply(s.receipt, op).value;
    if r' != r {
      StepSound(r, op);
      match op
      case OpItemAmount(v, a, o, at, reason, i, n, input) =>
        ItemAmountCorrecting(r, v, a, o, at, reason, i, n, input);
        var f := r.current.facts;
        CorrectionStep(s.expenses, LastCorrection(r, r'), input,
                       Inputs(f.items)[FindItem(f.items, i).value := Item(i, n)],
                       f.adjustments, {i}, ItemAmountNotCorrectable, s');
      case OpAdjustmentAmount(v, a, o, at, reason, i, n, input) =>
        AdjustmentAmountCorrecting(r, v, a, o, at, reason, i, n, input);
        var f := r.current.facts;
        CorrectionStep(s.expenses, LastCorrection(r, r'), input, Inputs(f.items),
                       f.adjustments[i := f.adjustments[i].(amount := n)],
                       Footprint(f, i, false), AdjustmentAmountNotCorrectable, s');
      case _ =>
    }
  }

  lemma CommitKeeps(s: Joint, q: Request, s': Joint)
    requires JointSound(s) && Commit(s, q, s')
    ensures JointSound(s')
  {
    hide JointSound, SplitCommit, RegisterCommit, QuietCommit, MoveCommit, CorrectionCommit, Supplied;
    if SplitCommit(s, q, s') {
      SplitKeeps(s, q, s');
    } else if s' != s {
      if RegisterCommit(s, q.op, s') {
        RegisterKeeps(s, q.op, s');
      } else if QuietCommit(s, q.op, s') {
        QuietKeeps(s, q.op, s');
      } else if MoveCommit(s, q.op, s') {
        MoveKeeps(s, q.op, s');
      } else {
        CorrectionKeepsStep(s, q.op, s');
      }
    }
  }

  // ---- which accepted changes have their commit ----

  /** The version can be counted up once more. */
  predicate HasRoom(e: GroupExpense) {
    SafeInteger(e.version) && SafeInteger(e.version + 1)
  }

  /** The two ends of an accepted move, and that both expenses stand beside the receipt. */
  lemma MoveEnds(s: Joint, op: Operation) returns (i: nat, j: nat)
    requires JointSound(s) && op.OpMove? && Apply(s.receipt, op).Ok?
    ensures s.receipt.current.Confirmed? && i < |s.receipt.current.facts.bundles| &&
            j < |s.receipt.current.facts.bundles|
    ensures EditableBundle(s.receipt, op.expectedVersion, op.actorSubject, op.fromBundleId) == Ok(i)
    ensures EditableBundle(s.receipt, op.expectedVersion, op.actorSubject, op.toBundleId) == Ok(j)
    ensures var b, es := s.receipt.current.facts.bundles, s.expenses;
            && b[i].expenseId in es && InStepWith(s.receipt.current.facts, b[i], es[b[i].expenseId])
            && b[j].expenseId in es && InStepWith(s.receipt.current.facts, b[j], es[b[j].expenseId])
            && ExpenseOf(s.receipt, op.expectedVersion, op.actorSubject, op.fromBundleId) == b[i].expenseId
            && ExpenseOf(s.receipt, op.expectedVersion, op.actorSubject, op.toBundleId) == b[j].expenseId
  {
    hide ReceiptSound, EditableBundle, MoveBundleItems, InStepWith, ItemIdsWellFormed, InReceiptOrder, Remaining;
    i, j := MoveAccepted(s.receipt, op.expectedVersion, op.actorSubject, op.at, op.fromBundleId, op.toBundleId,
                         op.itemIds);
    assert s.receipt.current.facts.bundles[i] in s.receipt.current.facts.bundles;
    assert s.receipt.current.facts.bundles[j] in s.receipt.current.facts.bundles;
  }

  /** An accepted move has its commit exactly when both expenses have room for one more version. */
  lemma AcceptedMoveCommits(s: Joint, op: Operation)
    requires JointSound(s) && op.OpMove? && Apply(s.receipt, op).Ok?
    ensures var x, y := ExpenseOf(s.receipt, op.expectedVersion, op.actorSubject, op.fromBundleId),
                        ExpenseOf(s.receipt, op.expectedVersion, op.actorSubject, op.toBundleId);
            && x in s.expenses && y in s.expenses
            && (HasRoom(s.expenses[x]) && HasRoom(s.expenses[y]) <==> exists s' :: MoveCommit(s, op, s'))
  {
    var i, j := MoveEnds(s, op);
    var x, y := s.receipt.current.facts.bundles[i].expenseId, s.receipt.current.facts.bundles[j].expenseId;
    hide JointSound, InStepWith, EditableBundle, Apply, MoveCommit, ExpenseOf;
    if HasRoom(s.expenses[x]) && HasRoom(s.expenses[y]) {
      MoveHasCommit(s, op, x, y);
    }
    if s' :| MoveCommit(s, op, s') {
      MoveTookRoom(s, op, s');
    }
  }

  lemma MoveHasCommit(s: Joint, op: Operation, x: string, y: string)
    requires JointSound(s) && op.OpMove? && Apply(s.receipt, op).Ok?
    requires x == ExpenseOf(s.receipt, op.expectedVersion, op.actorSubject, op.fromBundleId) && x in s.expenses
    requires y == ExpenseOf(s.receipt, op.expectedVersion, op.actorSubject, op.toBundleId) && y in s.expenses
    requires HasRoom(s.expenses[x]) && HasRoom(s.expenses[y])
    ensures exists s' :: MoveCommit(s, op, s')
  {
    hide JointSound, EditableBundle, InStepWith, FollowMove, ExpenseOf, Apply, ReceiptSound, InStep;
    var i, j := MoveEnds(s, op);
    EndAccepts(s, op, op.fromBundleId, i);
    EndAccepts(s, op, op.toBundleId, j);
    var v, a, r, r' := op.expectedVersion, op.actorSubject, s.receipt, Apply(s.receipt, op).value;
    var e := FollowMove(s.expenses[x], r, r', v, a, op.at, op.fromBundleId);
    var g := FollowMove(s.expenses[y], r, r', v, a, op.at, op.toBundleId);
    assert MoveCommit(s, op, Joint(r', s.expenses[x := e.value][y := g.value]));
  }

  /** The expense at one end of an accepted move follows it, given room for one more version. */
  lemma EndAccepts(s: Joint, op: Operation, id: string, k: nat)
    requires JointSound(s) && op.OpMove? && Apply(s.receipt, op).Ok? && (id == op.fromBundleId || id == op.toBundleId)
    requires s.receipt.current.Confirmed? && k < |s.receipt.current.facts.bundles|
    requires EditableBundle(s.receipt, op.expectedVersion, op.actorSubject, id) == Ok(k)
    requires var f := s.receipt.current.facts;
             var x := f.bundles[k].expenseId;
             x in s.expenses && InStepWith(f, f.bundles[k], s.expenses[x]) && HasRoom(s.expenses[x])
    ensures FollowMove(s.expenses[s.receipt.current.facts.bundles[k].expenseId], s.receipt, Apply(s.receipt, op).value,
                       op.expectedVersion, op.actorSubject, op.at, id).Ok?
  {
    hide InStep, ReceiptSound, EditableBundle, MoveBundleItems, InStepWith, FollowMove;
    var e := s.expenses[s.receipt.current.facts.bundles[k].expenseId];
    MoveFollowed(s.receipt, op.expectedVersion, op.actorSubject, op.at, op.fromBundleId, op.toBundleId, op.itemIds, id,
                 e);
  }

  lemma MoveTookRoom(s: Joint, op: Operation, s': Joint)
    requires MoveCommit(s, op, s')
    ensures var x, y := ExpenseOf(s.receipt, op.expectedVersion, op.actorSubject, op.fromBundleId),
                        ExpenseOf(s.receipt, op.expectedVersion, op.actorSubject, op.toBundleId);
            && x in s.expenses && HasRoom(s.expenses[x]) && y in s.expenses && HasRoom(s.expenses[y])
  {
    hide FollowMove, ExpenseOf, Apply;
    var v, a, r, r' := op.expectedVersion, op.actorSubject, s.receipt, Apply(s.receipt, op).value;
    FollowVersions(s.expenses[ExpenseOf(r, v, a, op.fromBundleId)], r, r', v, a, op.at, op.fromBundleId);
    FollowVersions(s.expenses[ExpenseOf(r, v, a, op.toBundleId)], r, r', v, a, op.at, op.toBundleId);
  }

  /** Every expense the recorded correction concerns accepts it, given room for one more version. */
  lemma ConcernedAccept(es: map<string, GroupExpense>, c: FinancialChange, input: FinancialInput, items: seq<Item>,
                        adjustments: seq<Adjustment>, included: set<string>, error: ReceiptError, id: string)
    requires |items| == |c.before.items| && Correcting(c, input, items, adjustments, included, error)
    requires InStep(c.before, es) && Concerned(c.before, c, id) && id in es && HasRoom(es[id])
    ensures ReflectFinancial(es[id], es[id].version, c.previousVersion, c).Ok?
  {
    hide *;
    CorrectingCalculates(c, input, items, adjustments, included, error);
    var b := ConcernedBundle(c, id);
    if !IsAffected(c, items, adjustments, included, b) {
      NoEntry(c, input, items, adjustments, included, error, b);
    }
    InStepWithEach(c.before, es, b);
    RoomIs(es[id]);
    FinancialFollowed(c, input, items, adjustments, included, error, b, es[id]);
  }

  lemma ConcernedBundle(c: FinancialChange, id: string) returns (b: Bundle)
    requires Concerned(c.before, c, id)
    ensures b in c.before.bundles && b.expenseId == id && EntriesFor(c.affected, b.id) != []
  {
    hide EntriesFor;
    b :| b in c.before.bundles && b.expenseId == id && EntriesFor(c.affected, b.id) != [];
  }

  lemma InStepWithEach(f: ConfirmedFacts, es: map<string, GroupExpense>, b: Bundle)
    requires InStep(f, es) && b in f.bundles
    ensures b.expenseId in es && InStepWith(f, b, es[b.expenseId])
  {
    hide InStepWith;
  }

  lemma RoomIs(e: GroupExpense)
    requires HasRoom(e)
    ensures SafeInteger(e.version) && SafeInteger(e.version + 1)
  {
    hide SafeInteger;
  }

  /** The correction of an accepted request, as its expenses see it. */
  lemma CorrectionOf(s: Joint, op: Operation)
    returns (input: FinancialInput, items: seq<Item>, adjustments: seq<Adjustment>, included: set<string>,
             error: ReceiptError)
    requires JointSound(s) && (op.OpItemAmount? || op.OpAdjustmentAmount?) && Apply(s.receipt, op).Ok?
    requires Apply(s.receipt, op).value != s.receipt
    ensures Corrected(s.receipt, Apply(s.receipt, op).value)
    ensures var c := LastCorrection(s.receipt, Apply(s.receipt, op).value);
            && c.before == s.receipt.current.facts && |items| == |c.before.items|
            && Correcting(c, input, items, adjustments, included, error)
  {
    hide ReceiptSound, CorrectItemAmount, CorrectAdjustmentAmount, InStep, Correcting, Footprint;
    var r, r' := s.receipt, Apply(s.receipt, op).value;
    match op
    case OpItemAmount(v, a, o, at, reason, i, n, q) =>
      ItemAmountCorrecting(r, v, a, o, at, reason, i, n, q);
      var f := r.current.facts;
      input, items, adjustments, included, error :=
        q, Inputs(f.items)[FindItem(f.items, i).value := Item(i, n)], f.adjustments, {i}, ItemAmountNotCorrectable;
    case OpAdjustmentAmount(v, a, o, at, reason, i, n, q) =>
      AdjustmentAmountCorrecting(r, v, a, o, at, reason, i, n, q);
      var f := r.current.facts;
      input, items, adjustments, included, error :=
        q, Inputs(f.items), f.adjustments[i := f.adjustments[i].(amount := n)], Footprint(f, i, false),
          AdjustmentAmountNotCorrectable;
    case _ =>
  }

  ghost predicate ConcernedHaveRoom(es: map<string, GroupExpense>, f: ConfirmedFacts, c: FinancialChange) {
    forall id | id in es && Concerned(f, c, id) :: HasRoom(es[id])
  }

  /** The expenses as they are once the concerned ones have followed. */
  lemma FollowedTogether(es: map<string, GroupExpense>, f: ConfirmedFacts, c: FinancialChange, r': Receipt)
    requires forall id | id in es && Concerned(f, c, id) ::
             ReflectFinancial(es[id], es[id].version, c.previousVersion, c).Ok?
    ensures exists s' :: CorrectionFollowed(es, f, c, s') && s'.receipt == r'
  {
    hide Concerned, ReflectFinancial;
    var es' := map id | id in es ::
      if Concerned(f, c, id) then ReflectFinancial(es[id], es[id].version, c.previousVersion, c).value else es[id];
    assert CorrectionFollowed(es, f, c, Joint(r', es'));
  }

  lemma FollowedHadRoom(es: map<string, GroupExpense>, f: ConfirmedFacts, c: FinancialChange, s': Joint)
    requires CorrectionFollowed(es, f, c, s')
    ensures ConcernedHaveRoom(es, f, c)
  {
    hide Concerned, ReflectFinancial;
    forall id | id in es && Concerned(f, c, id) ensures HasRoom(es[id]) {
      ReflectVersions(es[id], es[id].version, c.previousVersion, c);
    }
  }

  /** An accepted correction has its commit exactly when every expense it concerns has room for one more version. */
  lemma AcceptedCorrectionCommits(s: Joint, op: Operation)
    requires JointSound(s) && (op.OpItemAmount? || op.OpAdjustmentAmount?) && Apply(s.receipt, op).Ok?
    ensures var r, r' := s.receipt, Apply(s.receipt, op).value;
            if r' == r then CorrectionCommit(s, op, s)
            else Corrected(r, r') && (ConcernedHaveRoom(s.expenses, r.current.facts, LastCorrection(r, r')) <==>
                                      exists s' :: CorrectionCommit(s, op, s'))
  {
    hide *;
    CorrectionCommitIs(s, op);
    var r, r', es := s.receipt, Apply(s.receipt, op).value, s.expenses;
    if r' != r {
      JointParts(s);
      var input, items, adjustments, included, error := CorrectionOf(s, op);
      var f, c := r.current.facts, LastCorrection(r, r');
      if ConcernedHaveRoom(es, f, c) {
        AllAccept(es, c, input, items, adjustments, included, error);
        FollowedTogether(es, f, c, r');
        var s' :| CorrectionFollowed(es, f, c, s') && s'.receipt == r';
        assert CorrectionCommit(s, op, s');
      }
      if s' :| CorrectionCommit(s, op, s') {
        FollowedHadRoom(es, f, c, s');
      }
    }
  }

  /** When a correction is committed. */
  lemma CorrectionCommitIs(s: Joint, op: Operation)
    requires (op.OpItemAmount? || op.OpAdjustmentAmount?) && Apply(s.receipt, op).Ok?
    ensures Apply(s.receipt, op).value == s.receipt ==> CorrectionCommit(s, op, s)
    ensures Apply(s.receipt, op).value != s.receipt && Corrected(s.receipt, Apply(s.receipt, op).value) ==>
            s.receipt.current.Confirmed? && forall s' ::
              CorrectionCommit(s, op, s') <==>
              s'.receipt == Apply(s.receipt, op).value &&
              CorrectionFollowed(s.expenses, s.receipt.current.facts,
                                 LastCorrection(s.receipt, Apply(s.receipt, op).value), s')
  {
    hide Apply, CorrectionFollowed, LastCorrection;
  }

  lemma AllAccept(es: map<string, GroupExpense>, c: FinancialChange, input: FinancialInput, items: seq<Item>,
                  adjustments: seq<Adjustment>, included: set<string>, error: ReceiptError)
    requires |items| == |c.before.items| && Correcting(c, input, items, adjustments, included, error)
    requires InStep(c.before, es) && ConcernedHaveRoom(es, c.before, c)
    ensures forall id | id in es && Concerned(c.before, c, id) ::
            ReflectFinancial(es[id], es[id].version, c.previousVersion, c).Ok?
  {
    hide Correcting, InStep, Concerned, ReflectFinancial;
    forall id | id in es && Concerned(c.before, c, id)
      ensures ReflectFinancial(es[id], es[id].version, c.previousVersion, c).Ok?
    {
      ConcernedAccept(es, c, input, items, adjustments, included, error, id);
    }
  }

  // ---- whole runs ----

  ghost predicate JointRun(ss: seq<Joint>, qs: seq<Request>) {
    |ss| == |qs| + 1 && forall k | 0 <= k < |qs| :: Commit(ss[k], qs[k], ss[k + 1])
  }

  /**
   * From a fresh draft on, in every state of every run, each bundle's expense total is the adjusted sum of its items.
   */
  lemma {:induction false} AlwaysInStep(ss: seq<Joint>, qs: seq<Request>, k: nat)
    requires JointRun(ss, qs) && k <= |qs| && Drafted(ss[0].receipt)
    ensures JointSound(ss[k])
  {
    hide JointSound, Commit, Drafted;
    if k == 0 {
      DraftInStep(ss[0]);
    } else {
      AlwaysInStep(ss, qs, k - 1);
      CommitKeeps(ss[k - 1], qs[k - 1], ss[k]);
    }
  }

  lemma DraftInStep(s: Joint)
    requires Drafted(s.receipt)
    ensures JointSound(s)
  {
    DraftedSound(s.receipt);
    hide ReceiptSound, InStep, Nonempty;
  }

  // ---- the whole receipt ----

  function HolderOf(bundles: seq<Bundle>): ConfirmedItem -> string {
    (i: ConfirmedItem) => if BundleHolding(bundles, i.id).Some? then bundles[BundleHolding(bundles, i.id).value].id
      else ""
  }

  function TotalFor(es: map<string, GroupExpense>): Bundle -> int {
    (b: Bundle) => if b.expenseId in es then es[b.expenseId].facts.total else 0
  }

  lemma HoldersAre(f: ConfirmedFacts, b: Bundle, i: ConfirmedItem)
    requires FactsSound(f) && b in f.bundles && HasHolder(f, i)
    ensures HolderOf(f.bundles)(i) == b.id <==> i.id in b.itemIds
  {
    hide FactsSound;
    var m := BundleHolding(f.bundles, i.id).value;
    assert f.bundles[m] in f.bundles;
    if i.id in b.itemIds {
      HoldsOnce(f, b, f.bundles[m], i.id);
    } else if f.bundles[m].id == b.id {
      FirstBundle(f, b);
      FirstBundle(f, f.bundles[m]);
    }
  }

  ghost predicate HasHolder(f: ConfirmedFacts, i: ConfirmedItem) {
    exists b :: b in f.bundles && i.id in b.itemIds
  }

  /** When every item is assigned, the expense totals of the bundles add up to the declared total of the receipt. */
  lemma CompleteTotals(s: Joint)
    requires JointSound(s) && HasCompleteBundleRegistration(s.receipt)
    ensures Sum(s.receipt.current.facts.bundles, TotalFor(s.expenses)) == s.receipt.current.facts.declaredTotal
  {
    var f := s.receipt.current.facts;
    hide HistorySound;
    assert FactsSound(f) && InStep(f, s.expenses);
    assert f.declaredTotal == Sum(f.items, ConfirmedAmountOf) by { DeclaredIsSum(f); }
    forall i | i in f.items ensures HasHolder(f, i) {
    }
    hide FactsSound, JointSound, HasCompleteBundleRegistration, ReceiptSound, InStepWith, HasHolder;
    forall i | i in f.items ensures exists b :: b in f.bundles && BundleIdOf(b) == HolderOf(f.bundles)(i) {
      HolderExists(f, i);
    }
    BundlesDistinct(f);
    HoldersShareAll(f.bundles, BundleIdOf, f.items, HolderOf(f.bundles), ConfirmedAmountOf);
    forall b | b in f.bundles
      ensures TotalFor(s.expenses)(b) == KeyedSum(f.items, HolderOf(f.bundles), ConfirmedAmountOf, BundleIdOf)(b)
    {
      BundleShare(f, b);
      TotalIs(f, b, s.expenses[b.expenseId]);
    }
    SumEqual(f.bundles, TotalFor(s.expenses), KeyedSum(f.items, HolderOf(f.bundles), ConfirmedAmountOf, BundleIdOf));
  }

  lemma HolderExists(f: ConfirmedFacts, i: ConfirmedItem)
    requires FactsSound(f) && HasHolder(f, i)
    ensures exists b :: b in f.bundles && BundleIdOf(b) == HolderOf(f.bundles)(i)
  {
    hide FactsSound;
    var b :| b in f.bundles && i.id in b.itemIds;
    HoldersAre(f, b, i);
    assert BundleIdOf(b) == HolderOf(f.bundles)(i);
  }

  lemma DeclaredIsSum(f: ConfirmedFacts)
    requires FactsSound(f)
    ensures f.declaredTotal == Sum(f.items, ConfirmedAmountOf)
  {
    hide BundlesSound, SelectionsSound, Calculate;
  }

  lemma TotalIs(f: ConfirmedFacts, b: Bundle, e: GroupExpense)
    requires InStepWith(f, b, e)
    ensures e.facts.total == BundleAmount(f, b)
  {
    hide ExpenseGenuine, BundleAmount;
  }

  lemma BundleShare(f: ConfirmedFacts, b: Bundle)
    requires FactsSound(f) && b in f.bundles && forall i | i in f.items :: HasHolder(f, i)
    ensures BundleAmount(f, b) == Sum(f.items, Keyed(HolderOf(f.bundles), ConfirmedAmountOf, b.id))
  {
    hide FactsSound, HasHolder;
    forall i | i in f.items ensures Within(b.itemIds)(i) == Keyed(HolderOf(f.bundles), ConfirmedAmountOf, b.id)(i) {
      HoldersAre(f, b, i);
      assert ConfirmedAmountOf(i) == i.adjustedAmount;
    }
    SumEqual(f.items, Within(b.itemIds), Keyed(HolderOf(f.bundles), ConfirmedAmountOf, b.id));
  }
}
