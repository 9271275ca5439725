/** One outcome per close intent: archived, or cancelled, never both; and when a reserved cancellation can finish. */
module GroupClosing {
  import opened Outcomes
  import opened Sequences
  import opened Text
  import opened GroupRoot
  import opened GroupRuns

  ghost predicate ClosingUnder(g: Group, intent: string) {
    g.status == Closing && g.closing.Some? && g.closing.value.closeIntentId == intent
  }

  ghost predicate CancelingUnder(g: Group, intent: string) {
    ClosingUnder(g, intent) && g.closing.value.phase == Canceling
  }

  /** How a transition moves the closing state. */
  lemma ClosingStep(g: Group, t: Transition, g': Group, intent: string)
    requires Step(g, t, g')
    ensures ClosingUnder(g', intent) && !ClosingUnder(g, intent) ==> t.ToStartClosing? && t.closeIntentId == intent
    ensures CancelingUnder(g, intent) && ClosingUnder(g', intent) ==> CancelingUnder(g', intent)
    ensures t.ToArchive? && t.closeIntentId == intent ==>
            ClosingUnder(g, intent) && !CancelingUnder(g, intent) && g'.status == Archived
    ensures t.ToReserve? && t.closeIntentId == intent ==> ClosingUnder(g, intent) && CancelingUnder(g', intent)
    ensures g.status != Archived
  {
    hide StatusCheck, ParticipantsCheck, InvitationsCheck, FindInvitation, ActiveCount, ActiveSubject, OwnerFor,
         Answers, FindFence, FindUnfence, FindParticipant, Map, WithInvitation, Leaving, LastJoinOrder, FenceFits,
         FenceShaped;
  }

  ghost predicate StartsClosing(t: Transition, intent: string) {
    t.ToStartClosing? && t.closeIntentId == intent
  }

  /** No close intent is started twice. */
  ghost predicate FreshIntents(ts: seq<Transition>) {
    forall i, j | 0 <= i < j < |ts| && ts[i].ToStartClosing? && ts[j].ToStartClosing? ::
      ts[i].closeIntentId != ts[j].closeIntentId
  }

  /** Since its start at `m` the group has been closing under the intent. */
  ghost predicate ClosingSince(gs: seq<Group>, ts: seq<Transition>, m: nat, k: nat, intent: string)
    requires |gs| == |ts| + 1 && k < |gs|
  {
    m < k && StartsClosing(ts[m], intent) && forall n | m < n <= k :: ClosingUnder(gs[n], intent)
  }

  lemma {:induction false} ClosingBegan(gs: seq<Group>, ts: seq<Transition>, k: nat, intent: string) returns (m: nat)
    requires Run(gs, ts) && k < |gs| && !ClosingUnder(gs[0], intent) && ClosingUnder(gs[k], intent)
    ensures ClosingSince(gs, ts, m, k, intent)
  {
    hide Step, ClosingUnder;
    ClosingStep(gs[k - 1], ts[k - 1], gs[k - 1 + 1], intent);
    if ClosingUnder(gs[k - 1], intent) {
      m := ClosingBegan(gs, ts, k - 1, intent);
    } else {
      m := k - 1;
    }
  }

  lemma {:induction false} CancelingStays(gs: seq<Group>, ts: seq<Transition>, i: nat, k: nat, intent: string)
    requires Run(gs, ts) && i <= k < |gs| && CancelingUnder(gs[i], intent)
    requires forall n | i <= n <= k :: ClosingUnder(gs[n], intent)
    ensures CancelingUnder(gs[k], intent)
  {
    hide Step, ClosingUnder, CancelingUnder;
    if i < k {
      CancelingStays(gs, ts, i, k - 1, intent);
      ClosingStep(gs[k - 1], ts[k - 1], gs[k - 1 + 1], intent);
    }
  }

  lemma SameStart(gs: seq<Group>, ts: seq<Transition>, m: nat, k: nat, m': nat, k': nat, intent: string)
    requires |gs| == |ts| + 1 && k < |gs| && k' < |gs| && FreshIntents(ts)
    requires ClosingSince(gs, ts, m, k, intent) && ClosingSince(gs, ts, m', k', intent)
    ensures m == m'
  {
    hide ClosingUnder;
  }

  /**
   * In a run that starts every close intent at most once, archiving and reserving the cancellation exclude one another:
   * under one intent at most one of the two ever happens, in whatever order they are tried.
   */
  lemma ArchiveXorReserve(gs: seq<Group>, ts: seq<Transition>, i: nat, j: nat, intent: string)
    requires Run(gs, ts) && FreshIntents(ts) && !ClosingUnder(gs[0], intent) && i < |ts| && j < |ts|
    requires ts[i].ToReserve? && ts[i].closeIntentId == intent
    ensures !(ts[j].ToArchive? && ts[j].closeIntentId == intent)
  {
    hide Step, ClosingUnder, CancelingUnder, FreshIntents;
    if ts[j].ToArchive? && ts[j].closeIntentId == intent {
      assert Step(gs[i], ts[i], gs[i + 1]) && Step(gs[j], ts[j], gs[j + 1]);
      ClosingStep(gs[i], ts[i], gs[i + 1], intent);
      ClosingStep(gs[j], ts[j], gs[j + 1], intent);
      UnderIsClosing(gs[j + 1], intent);
      var m := ClosingBegan(gs, ts, i, intent);
      var m' := ClosingBegan(gs, ts, j, intent);
      SameStart(gs, ts, m, i, m', j, intent);
      if i < j {
        CancelingStays(gs, ts, i + 1, j, intent);
      }
    }
  }

  lemma UnderIsClosing(g: Group, intent: string)
    ensures ClosingUnder(g, intent) ==> g.status == Closing
  {
  }

  /** An archived group never changes again. */
  lemma ArchivedIsFinal(g: Group, t: Transition)
    requires g.status == Archived
    ensures Apply(g, t).Err?
  {
    hide StatusCheck, ParticipantsCheck, InvitationsCheck, FindInvitation, ActiveCount, ActiveSubject, OwnerFor,
         Answers, FindFence, FindUnfence, FindParticipant, Map, WithInvitation, Leaving, LastJoinOrder, FenceFits,
         FenceShaped;
  }

  lemma OnlyArchiveArchives(g: Group, t: Transition, g': Group)
    requires Step(g, t, g') && g'.status == Archived
    ensures t.ToArchive? && ClosingUnder(g, t.closeIntentId)
  {
    hide StatusCheck, ParticipantsCheck, InvitationsCheck, FindInvitation, ActiveCount, ActiveSubject, OwnerFor,
         Answers, FindFence, FindUnfence, FindParticipant, Map, WithInvitation, Leaving, LastJoinOrder, FenceFits,
         FenceShaped;
  }

  /** A group found archived was archived by its last transition, under some close intent. */
  lemma ArchivedBy(gs: seq<Group>, ts: seq<Transition>)
    requires Run(gs, ts) && gs[0].status != Archived && gs[|ts|].status == Archived
    ensures ts != [] && ts[|ts| - 1].ToArchive? && ClosingUnder(gs[|ts| - 1], ts[|ts| - 1].closeIntentId)
  {
    hide Step, ClosingUnder;
    assert Step(gs[|ts| - 1], ts[|ts| - 1], gs[|ts| - 1 + 1]);
    OnlyArchiveArchives(gs[|ts| - 1], ts[|ts| - 1], gs[|ts|]);
  }

  // ---- finishing a reserved cancellation ----

  ghost predicate BothFences(g: Group)
    requires g.closing.Some?
  {
    FindFence(g.closing.value.fenceReceipts, ExpenseRecording).Some? &&
      FindFence(g.closing.value.fenceReceipts, Settlement).Some?
  }

  /** While cancelling, the fence receipts are frozen, and each unfence receipt answers one of them. */
  lemma CancelingStep(g: Group, t: Transition, g': Group, intent: string)
    requires Restorable(g) && Step(g, t, g') && CancelingUnder(g, intent)
    ensures t.ToComplete? || (CancelingUnder(g', intent) &&
                              g'.closing.value.fenceReceipts == g.closing.value.fenceReceipts)
    ensures t.ToComplete? ==> BothFences(g)
  {
    StepAccepts(g, t, g', intent);
    hide *;
    CancelingAccepts(g, t);
    if t.ToComplete? {
      CompleteMeans(g, t);
      UnfencesAnswer(g);
      AnsweredFences(g);
    } else {
      RecordsUnfence(g, t.unfence, g', intent);
    }
  }

  lemma StepAccepts(g: Group, t: Transition, g': Group, intent: string)
    requires Step(g, t, g') && CancelingUnder(g, intent)
    ensures Apply(g, t) == Ok(g') && g.status == Closing && g.closing.Some? && g.closing.value.phase == Canceling
  {
    hide Apply;
  }

  lemma AnsweredFences(g: Group)
    requires g.closing.Some? && FindUnfence(g.closing.value.unfenceReceipts, ExpenseRecording).Some?
    requires FindUnfence(g.closing.value.unfenceReceipts, Settlement).Some?
    requires forall f | f in g.closing.value.unfenceReceipts ::
               FindFence(g.closing.value.fenceReceipts, f.context).Some?
    ensures BothFences(g)
  {
    hide FindFence, FindUnfence;
  }

  lemma RecordsUnfence(g: Group, f: Fence, g': Group, intent: string)
    requires Apply(g, ToRecordUnfence(f)) == Ok(g') && CancelingUnder(g, intent)
    ensures CancelingUnder(g', intent) && g'.closing.value.fenceReceipts == g.closing.value.fenceReceipts
  {
    hide Restore, FenceFits, FenceShaped, Answers, FindFence, FindUnfence;
  }

  lemma CancelingAccepts(g: Group, t: Transition)
    requires Apply(g, t).Ok? && g.status == Closing && g.closing.Some? && g.closing.value.phase == Canceling
    ensures t.ToRecordUnfence? || t.ToComplete?
  {
    hide StatusCheck, ParticipantsCheck, InvitationsCheck, FindInvitation, ActiveCount, ActiveSubject, OwnerFor,
         Answers, FindFence, FindUnfence, FindParticipant, Map, WithInvitation, Leaving, LastJoinOrder, FenceFits,
         FenceShaped;
  }

  lemma {:induction false} UnfencesPass(groupId: string, closing: ClosingState, k: nat, n: nat)
    requires k <= n < |closing.unfenceReceipts| && UnfencesCheck(groupId, closing, k).Pass?
    ensures Answers(closing.unfenceReceipts[n], FindFence(closing.fenceReceipts, closing.unfenceReceipts[n].context))
    decreases n - k
  {
    hide FenceFits, FenceShaped, Answers, FindFence, FindUnfence;
    if k < n {
      UnfencesPass(groupId, closing, k + 1, n);
    }
  }

  lemma UnfencesAnswer(g: Group)
    requires Restorable(g) && g.status == Closing && g.closing.Some?
    ensures forall f | f in g.closing.value.unfenceReceipts :: FindFence(g.closing.value.fenceReceipts, f.context).Some?
  {
    hide ParticipantsCheck, InvitationsCheck, OwnerCheck, FencesCheck, UnfencesCheck;
    var closing := g.closing.value;
    assert UnfencesCheck(g.id, closing, 0).Pass?;
    forall f | f in closing.unfenceReceipts ensures FindFence(closing.fenceReceipts, f.context).Some? {
      var n :| 0 <= n < |closing.unfenceReceipts| && closing.unfenceReceipts[n] == f;
      UnfencesPass(g.id, closing, 0, n);
    }
  }

  /**
   * A cancellation reserved before both fence receipts were recorded can never finish: in every later state the group
   * is still cancelling under the same intent.
   */
  lemma {:induction false} ReservedTooEarly(gs: seq<Group>, ts: seq<Transition>, k: nat, intent: string)
    requires Run(gs, ts) && k <= |ts| && Restorable(gs[0]) && CancelingUnder(gs[0], intent) && !BothFences(gs[0])
    ensures CancelingUnder(gs[k], intent) && gs[k].closing.value.fenceReceipts == gs[0].closing.value.fenceReceipts
  {
    hide Step, Restorable;
    if k > 0 {
      ReservedTooEarly(gs, ts, k - 1, intent);
      RunRestores(gs, ts, k - 1);
      CancelingStep(gs[k - 1], ts[k - 1], gs[k - 1 + 1], intent);
    }
  }

  lemma {:induction false} FencesPass(groupId: string, closing: ClosingState, k: nat, n: nat)
    requires k <= n < |closing.fenceReceipts| && FencesCheck(groupId, closing, k).Pass?
    ensures FenceShaped(closing.fenceReceipts[n].fence) && FenceFits(closing.fenceReceipts[n].fence, groupId, closing)
    decreases n - k
  {
    hide FenceFits, FenceShaped, FindFence;
    if k < n {
      FencesPass(groupId, closing, k + 1, n);
    }
  }

  lemma {:induction false} FencesSame(groupId: string, closing: ClosingState, closing': ClosingState, k: nat)
    requires closing' == closing.(unfenceReceipts := closing'.unfenceReceipts) && k <= |closing.fenceReceipts|
    ensures FencesCheck(groupId, closing', k) == FencesCheck(groupId, closing, k)
    decreases |closing.fenceReceipts| - k
  {
    if k < |closing.fenceReceipts| {
      FencesSame(groupId, closing, closing', k + 1);
    }
  }

  lemma {:induction false} UnfencesAppended(groupId: string, closing: ClosingState, f: Fence, k: nat)
    requires k <= |closing.unfenceReceipts| && UnfencesCheck(groupId, closing, k).Pass?
    requires FenceShaped(f) && FenceFits(f, groupId, closing) && Answers(f, FindFence(closing.fenceReceipts, f.context))
    requires FindUnfence(closing.unfenceReceipts, f.context).None?
    ensures UnfencesCheck(groupId, closing.(unfenceReceipts := closing.unfenceReceipts + [f]), k).Pass?
    decreases |closing.unfenceReceipts| - k
  {
    var closing' := closing.(unfenceReceipts := closing.unfenceReceipts + [f]);
    if k < |closing.unfenceReceipts| {
      assert closing'.unfenceReceipts[..k] == closing.unfenceReceipts[..k];
      UnfencesAppended(groupId, closing, f, k + 1);
    } else {
      assert closing'.unfenceReceipts[..k] == closing.unfenceReceipts;
      assert UnfencesCheck(groupId, closing', k + 1).Pass?;
    }
  }

  /** An installed fence that has not been answered yet can be answered. */
  lemma UnfenceAccepted(g: Group, context: Context)
    requires Restorable(g) && g.status == Closing && g.closing.Some? && g.closing.value.phase == Canceling
    requires FindFence(g.closing.value.fenceReceipts, context).Some? &&
             FindUnfence(g.closing.value.unfenceReceipts, context).None?
    requires SafeInteger(g.accessPolicyVersion + 1)
    ensures var f := FindFence(g.closing.value.fenceReceipts, context).value.fence;
            var closing := g.closing.value;
            Apply(g, ToRecordUnfence(f)) ==
            Ok(g.(accessPolicyVersion := g.accessPolicyVersion + 1,
                  closing := Some(closing.(unfenceReceipts := closing.unfenceReceipts + [f]))))
  {
    hide ParticipantsCheck, InvitationsCheck, OwnerCheck, FencesCheck, UnfencesCheck, FindUnfence;
    var closing := g.closing.value;
    var receipt := FindFence(closing.fenceReceipts, context).value;
    var n :| 0 <= n < |closing.fenceReceipts| && closing.fenceReceipts[n] == receipt;
    FencesPass(g.id, closing, 0, n);
    var closing' := closing.(unfenceReceipts := closing.unfenceReceipts + [receipt.fence]);
    FencesSame(g.id, closing, closing', 0);
    UnfencesAppended(g.id, closing, receipt.fence, 0);
    SameOwnerCheck(g, g.(accessPolicyVersion := g.accessPolicyVersion + 1, closing := Some(closing')));
  }

  lemma SameOwnerCheck(g: Group, g': Group)
    requires g'.participants == g.participants && g'.ownerParticipantId == g.ownerParticipantId
    ensures OwnerCheck(g') == OwnerCheck(g)
  {
  }

  lemma OwnerKnown(g: Group) returns (owner: Participant)
    requires Restorable(g) && g.status == Closing
    ensures OwnerFor(g, owner.subject) == Ok(owner)
  {
    hide *;
    ClosingRestorable(g);
    owner := OwnerFound(g);
  }

  lemma OwnerFound(g: Group) returns (owner: Participant)
    requires OwnerCheck(g).Pass?
    ensures OwnerFor(g, owner.subject) == Ok(owner)
  {
    hide ActiveCount;
    var owners := Filter(g.participants, HasId(g.ownerParticipantId.value));
    assert owners[0] in owners;
    owner := FindParticipant(g.participants, g.ownerParticipantId.value).value;
  }

  /** With both unfence receipts the owner can complete the cancellation. */
  lemma CompleteAccepted(g: Group) returns (actor: string)
    requires Restorable(g) && g.status == Closing && g.closing.Some? && g.closing.value.phase == Canceling
    requires FindUnfence(g.closing.value.unfenceReceipts, ExpenseRecording).Some?
    requires FindUnfence(g.closing.value.unfenceReceipts, Settlement).Some? && SafeInteger(g.accessPolicyVersion + 1)
    ensures Apply(g, ToComplete(actor, g.closing.value.closeIntentId))
            == Ok(g.(status := Active, accessPolicyVersion := g.accessPolicyVersion + 1, closing := None))
  {
    hide *;
    var owner := OwnerKnown(g);
    actor := owner.subject;
    ReopenedRestorable(g);
    CompleteApplies(g, actor);
  }

  lemma CompleteApplies(g: Group, actor: string)
    requires g.status == Closing && g.closing.Some? && g.closing.value.phase == Canceling && OwnerFor(g, actor).Ok?
    requires FindUnfence(g.closing.value.unfenceReceipts, ExpenseRecording).Some?
    requires FindUnfence(g.closing.value.unfenceReceipts, Settlement).Some? && SafeInteger(g.accessPolicyVersion + 1)
    requires Restorable(g.(status := Active, accessPolicyVersion := g.accessPolicyVersion + 1, closing := None))
    ensures Apply(g, ToComplete(actor, g.closing.value.closeIntentId))
            == Ok(g.(status := Active, accessPolicyVersion := g.accessPolicyVersion + 1, closing := None))
  {
    hide Restore, OwnerFor, FindUnfence, SafeInteger;
  }

  /** A closing group without its closing is a sound active group. */
  lemma ReopenedRestorable(g: Group)
    requires Restorable(g) && g.status == Closing && SafeInteger(g.accessPolicyVersion + 1)
    ensures Restorable(g.(status := Active, accessPolicyVersion := g.accessPolicyVersion + 1, closing := None))
  {
    hide *;
    var g' := g.(status := Active, accessPolicyVersion := g.accessPolicyVersion + 1, closing := None);
    ClosingRestorable(g);
    SameOwnerCheck(g, g');
    ActiveRestorable(g');
  }

  /** What the restoring checks ask of a closing group. */
  lemma ClosingRestorable(g: Group)
    requires Restorable(g) && g.status == Closing
    ensures SafeInteger(g.accessPolicyVersion) && g.accessPolicyVersion >= 1 && OwnerCheck(g).Pass?
    ensures g.closing.Some? && g.ownerAtArchive.None? && g.archivedAt.None? && g.deleteEligibleAt.None?
    ensures ParticipantsCheck(g.participants, 0).Pass? && InvitationsCheck(g.invitations, g.participants, 0).Pass?
  {
    hide SafeInteger, OwnerCheck, ClosingCheck, ParticipantsCheck, InvitationsCheck;
  }

  lemma {:induction false} UnfenceKnown(receipts: seq<Fence>, f: Fence, context: Context)
    ensures FindUnfence(receipts + [f], context)
            == if FindUnfence(receipts, context).Some? then FindUnfence(receipts, context)
               else if f.context == context then Some(f) else None
  {
    if receipts == [] {
      assert receipts + [f] == [f];
      assert FindUnfence([f], context) == if f.context == context then Some(f) else FindUnfence([], context);
    } else {
      assert (receipts + [f])[1..] == receipts[1..] + [f];
      UnfenceKnown(receipts[1..], f, context);
    }
  }

  /** Answering one context, if it has not been answered yet. */
  lemma Answered(g: Group, context: Context) returns (g': Group, ts: seq<Transition>)
    requires Restorable(g) && g.status == Closing && g.closing.Some? && g.closing.value.phase == Canceling &&
             BothFences(g)
    requires SafeInteger(g.accessPolicyVersion + 1)
    ensures |ts| <= 1 && (if ts == [] then g' == g else Step(g, ts[0], g')) && Restorable(g')
    ensures g'.status == Closing && g'.closing.Some? &&
            g'.closing.value == g.closing.value.(unfenceReceipts := g'.closing.value.unfenceReceipts)
    ensures FindUnfence(g'.closing.value.unfenceReceipts, context).Some? &&
            g'.accessPolicyVersion <= g.accessPolicyVersion + 1
    ensures forall c :: FindUnfence(g.closing.value.unfenceReceipts, c).Some? ==>
            FindUnfence(g'.closing.value.unfenceReceipts, c).Some?
  {
    if FindUnfence(g.closing.value.unfenceReceipts, context).Some? {
      g', ts := g, [];
    } else {
      var f := FindFence(g.closing.value.fenceReceipts, context).value.fence;
      UnfenceAccepted(g, context);
      StepRestores(g, ToRecordUnfence(f));
      hide Apply, Restorable;
      g', ts := Apply(g, ToRecordUnfence(f)).value, [ToRecordUnfence(f)];
      forall c
        ensures FindUnfence(g.closing.value.unfenceReceipts, c).Some? ==>
                FindUnfence(g'.closing.value.unfenceReceipts, c).Some? {
        UnfenceKnown(g.closing.value.unfenceReceipts, f, c);
      }
      UnfenceKnown(g.closing.value.unfenceReceipts, f, context);
    }
  }

  ghost predicate Reaches(g: Group, ts: seq<Transition>, g': Group)
    decreases |ts|
  {
    if ts == [] then g' == g
    else Apply(g, ts[0]).Ok? && Reaches(Apply(g, ts[0]).value, ts[1..], g')
  }

  lemma ReachesThree(a: Group, s: seq<Transition>, b: Group, t: seq<Transition>, c: Group, u: Transition, d: Group)
    requires |s| <= 1 && |t| <= 1 && (if s == [] then b == a else Step(a, s[0], b)) &&
             (if t == [] then c == b else Step(b, t[0], c))
    requires Step(c, u, d)
    ensures Reaches(a, s + t + [u], d)
  {
    hide Apply;
    assert Reaches(c, [u], d) by { assert [u][1..] == []; assert Reaches(d, [], d); }
    assert Reaches(b, t + [u], d) by { assert t != [] ==> (t + [u])[1..] == [u]; assert t == [] ==> t + [u] == [u]; }
    assert s != [] ==> (s + t + [u])[1..] == t + [u];
    assert s == [] ==> s + t + [u] == t + [u];
  }

  /** With both fences recorded and room in the version, the owner can be brought to complete the cancellation. */
  lemma FinishesWithFences(g: Group, intent: string) returns (ts: seq<Transition>, g': Group)
    requires Restorable(g) && CancelingUnder(g, intent) && BothFences(g) && SafeInteger(g.accessPolicyVersion + 3)
    ensures Reaches(g, ts, g') && g'.status == Active
  {
    PositiveVersion(g);
    hide Restorable, BothFences;
    var b, s := Answered(g, ExpenseRecording);
    SameFences(g, b);
    PositiveVersion(b);
    var c, t := Answered(b, Settlement);
    PositiveVersion(c);
    var actor := CompleteAccepted(c);
    var u := ToComplete(actor, c.closing.value.closeIntentId);
    g' := Apply(c, u).value;
    hide Apply;
    ReachesThree(g, s, b, t, c, u, g');
    ts := s + t + [u];
  }

  // ---- what finishing takes ----

  /** A recorded unfence receipt is one more receipt and one more version. */
  lemma UnfenceCounts(g: Group, t: Transition, g': Group, intent: string)
    requires Restorable(g) && Step(g, t, g') && CancelingUnder(g, intent) && t.ToRecordUnfence?
    ensures CancelingUnder(g', intent)
    ensures g' == g || (g'.accessPolicyVersion == g.accessPolicyVersion + 1 &&
                        |g'.closing.value.unfenceReceipts| == |g.closing.value.unfenceReceipts| + 1)
  {
    hide StatusCheck, ParticipantsCheck, InvitationsCheck, FenceFits, FenceShaped, Answers, FindFence, FindUnfence;
  }

  /** Completing takes both unfence receipts and one more version. */
  lemma CompleteCounts(g: Group, t: Transition, g': Group, intent: string)
    requires Restorable(g) && Step(g, t, g') && CancelingUnder(g, intent) && t.ToComplete?
    ensures |g.closing.value.unfenceReceipts| >= 2 && SafeInteger(g.accessPolicyVersion + 1)
  {
    CompleteMeans(g, t);
    hide Step;
    var receipts := g.closing.value.unfenceReceipts;
    var x, y := FindUnfence(receipts, ExpenseRecording).value, FindUnfence(receipts, Settlement).value;
    assert x in receipts && y in receipts && x != y;
  }

  lemma CompleteMeans(g: Group, t: Transition)
    requires Apply(g, t).Ok? && t.ToComplete?
    ensures g.closing.Some? && SafeInteger(g.accessPolicyVersion + 1)
    ensures FindUnfence(g.closing.value.unfenceReceipts, ExpenseRecording).Some?
    ensures FindUnfence(g.closing.value.unfenceReceipts, Settlement).Some?
  {
    hide StatusCheck, ParticipantsCheck, InvitationsCheck, OwnerFor, FindUnfence;
  }

  /** Whatever way out of the cancelling phase there is, it took both fences and the versions of the missing steps. */
  lemma {:induction false} FinishNeeds(g: Group, ts: seq<Transition>, g': Group, intent: string)
    requires Restorable(g) && CancelingUnder(g, intent) && Reaches(g, ts, g') && !CancelingUnder(g', intent)
    ensures BothFences(g) && g.accessPolicyVersion + 3 - |g.closing.value.unfenceReceipts| <= MAX_SAFE
    decreases |ts|
  {
    hide Apply, Restorable, BothFences;
    var next := Apply(g, ts[0]).value;
    StepRestores(g, ts[0]);
    CancelingStep(g, ts[0], next, intent);
    CancelingAccepts(g, ts[0]);
    if ts[0].ToComplete? {
      CompleteCounts(g, ts[0], next, intent);
    } else {
      UnfenceCounts(g, ts[0], next, intent);
      SameFences(g, next);
      FinishNeeds(next, ts[1..], g', intent);
    }
  }

  lemma ReservedIs(g: Group, actor: string, intent: string)
    requires Restorable(g) && Apply(g, ToReserve(actor, intent)).Ok?
    ensures ClosingUnder(g, intent)
    ensures var r := Apply(g, ToReserve(actor, intent)).value;
            && Restorable(r) && CancelingUnder(r, intent) &&
               r.closing.value.fenceReceipts == g.closing.value.fenceReceipts
            && r.closing.value.unfenceReceipts == [] && r.accessPolicyVersion == g.accessPolicyVersion + 1
  {
    hide *;
    StepRestores(g, ToReserve(actor, intent));
    ReserveIs(g, actor, intent);
    FencingUnanswered(g);
  }

  lemma ReserveIs(g: Group, actor: string, intent: string)
    requires Apply(g, ToReserve(actor, intent)).Ok?
    ensures ClosingUnder(g, intent) && g.status == Closing && g.closing.Some? && g.closing.value.phase == Fencing
    ensures var r := Apply(g, ToReserve(actor, intent)).value;
            && CancelingUnder(r, intent) && r.closing == Some(g.closing.value.(phase := Canceling))
            && r.accessPolicyVersion == g.accessPolicyVersion + 1
  {
    hide Restore, OwnerFor, SafeInteger;
  }

  lemma FencingUnanswered(g: Group)
    requires Restorable(g) && g.status == Closing && g.closing.Some? && g.closing.value.phase == Fencing
    ensures g.closing.value.unfenceReceipts == []
  {
    hide OwnerCheck, ParticipantsCheck, InvitationsCheck, FencesCheck, UnfencesCheck;
  }

  /**
   * Reserving a cancellation lets it finish exactly when, before the call, both contexts' fence receipts are recorded
   * and the access policy version has room for the four steps; otherwise the group is cancelling for ever.
   */
  lemma CancellationCanFinish(g: Group, actor: string, intent: string)
    requires Restorable(g) && Apply(g, ToReserve(actor, intent)).Ok?
    ensures g.closing.Some?
    ensures BothFences(g) && SafeInteger(g.accessPolicyVersion + 4) <==>
            exists ts, g' :: Reaches(Apply(g, ToReserve(actor, intent)).value, ts, g') && !CancelingUnder(g', intent)
  {
    ReservedIs(g, actor, intent);
    hide Restorable, BothFences;
    var r := Apply(g, ToReserve(actor, intent)).value;
    hide Apply;
    SameFences(g, r);
    PositiveVersion(r);
    if BothFences(g) && SafeInteger(g.accessPolicyVersion + 4) {
      var ts, g' := FinishesWithFences(r, intent);
      assert Reaches(r, ts, g') && !CancelingUnder(g', intent);
    }
    if ts, g' :| Reaches(r, ts, g') && !CancelingUnder(g', intent) {
      FinishNeeds(r, ts, g', intent);
    }
  }

  lemma PositiveVersion(g: Group)
    requires Restorable(g)
    ensures g.accessPolicyVersion >= 1
  {
    hide StatusCheck, ParticipantsCheck, InvitationsCheck;
  }

  // ---- the stuck cancellation is real ----

  lemma ActiveOwner(g: Group) returns (owner: Participant)
    requires Restorable(g) && g.status == Active
    ensures OwnerFor(g, owner.subject) == Ok(owner)
  {
    hide *;
    ActiveRestorable(g);
    owner := OwnerFound(g);
  }

  lemma StartAccepted(g: Group, actor: string, intent: string, cutoff: int)
    requires Restorable(g) && g.status == Active && OwnerFor(g, actor).Ok? && SafeInteger(g.accessPolicyVersion + 1)
    ensures Apply(g, ToStartClosing(actor, intent, cutoff)) ==
            Ok(g.(status := Closing, accessPolicyVersion := g.accessPolicyVersion + 1,
                  closing := Some(ClosingState(intent, cutoff, Fencing, [], []))))
  {
    hide ParticipantsCheck, InvitationsCheck, OwnerCheck, OwnerFor;
    SameOwnerCheck(g, g.(status := Closing, accessPolicyVersion := g.accessPolicyVersion + 1,
                         closing := Some(ClosingState(intent, cutoff, Fencing, [], []))));
  }

  lemma ReserveAccepted(g: Group, actor: string, intent: string)
    requires Restorable(g) && ClosingUnder(g, intent) && g.closing.value.phase == Fencing
    requires g.closing.value.fenceReceipts == [] && g.closing.value.unfenceReceipts == []
    requires OwnerFor(g, actor).Ok? && SafeInteger(g.accessPolicyVersion + 1)
    ensures Apply(g, ToReserve(actor, intent)).Ok?
  {
    hide ParticipantsCheck, InvitationsCheck, OwnerCheck, OwnerFor;
    SameOwnerCheck(g, g.(accessPolicyVersion := g.accessPolicyVersion + 1,
                         closing := Some(g.closing.value.(phase := Canceling))));
  }

  /** The owner of any active group can start closing and reserve its cancellation at once, and is then stuck. */
  lemma ReservingAtOnceSticks(g: Group, intent: string, cutoff: int) returns (actor: string)
    requires Restorable(g) && g.status == Active && SafeInteger(g.accessPolicyVersion + 2)
    ensures Apply(g, ToStartClosing(actor, intent, cutoff)).Ok?
    ensures var fencing := Apply(g, ToStartClosing(actor, intent, cutoff)).value;
            && Apply(fencing, ToReserve(actor, intent)).Ok?
            && forall ts, g' | Reaches(Apply(fencing, ToReserve(actor, intent)).value, ts, g') ::
               CancelingUnder(g', intent)
  {
    var owner := ActiveOwner(g);
    actor := owner.subject;
    PositiveVersion(g);
    StartAccepted(g, actor, intent, cutoff);
    StepRestores(g, ToStartClosing(actor, intent, cutoff));
    var fencing := Apply(g, ToStartClosing(actor, intent, cutoff)).value;
    hide Apply, Restorable;
    assert OwnerFor(fencing, actor).Ok?;
    ReserveAccepted(fencing, actor, intent);
    CancellationCanFinish(fencing, actor, intent);
    assert !BothFences(fencing);
  }

  /** The input that shows it: a new group, closing started and cancelled before any fence receipt was recorded. */
  lemma StuckFromCreation(id: string, participantId: string, subject: string, at: int, intent: string, cutoff: int)
    returns (gs: seq<Group>, ts: seq<Transition>)
    ensures |gs| == 3 && Run(gs, ts) && Created(gs[0]) && Create(id, participantId, subject, at) == Ok(gs[0])
    ensures |ts| == 2 && ts[0].ToStartClosing? && ts[1].ToReserve? && CancelingUnder(gs[2], intent) &&
            !BothFences(gs[2])
    ensures forall more, g' | Reaches(gs[2], more, g') :: CancelingUnder(g', intent)
  {
    NewGroup(id, participantId, subject, at);
    var g := Create(id, participantId, subject, at).value;
    CreatedIs(g);
    var actor := ReservingAtOnceSticks(g, intent, cutoff);
    var fencing := Apply(g, ToStartClosing(actor, intent, cutoff)).value;
    StepRestores(g, ToStartClosing(actor, intent, cutoff));
    var reserved := Apply(fencing, ToReserve(actor, intent)).value;
    ReservedIs(fencing, actor, intent);
    assert !BothFences(reserved) by {
      StartsWithoutFences(g, actor, intent, cutoff);
    }
    gs, ts := [g, fencing, reserved], [ToStartClosing(actor, intent, cutoff), ToReserve(actor, intent)];
    hide Apply, Create, Restorable;
    assert Step(gs[0], ts[0], gs[1]) && Step(gs[1], ts[1], gs[2]);
  }

  lemma StartsWithoutFences(g: Group, actor: string, intent: string, cutoff: int)
    requires Apply(g, ToStartClosing(actor, intent, cutoff)).Ok?
    ensures var closing := Apply(g, ToStartClosing(actor, intent, cutoff)).value.closing;
            closing.Some? && closing.value.fenceReceipts == []
  {
    hide StatusCheck, ParticipantsCheck, InvitationsCheck, OwnerFor;
  }

  lemma NewGroup(id: string, participantId: string, subject: string, at: int)
    ensures Create(id, participantId, subject, at).Ok?
  {
    var p := Participant(participantId, subject, at, 1, true, None);
    var g := Group(id, Active, Some(participantId), [p], [], 1, None, None, None, None);
    OneOwner(g, p);
    assert ParticipantsCheck([p], 0).Pass? by {
      assert [p][..0] == [] && ParticipantsCheck([p], 1).Pass?;
    }
    hide ParticipantsCheck, OwnerCheck;
    assert StatusCheck(g).Pass?;
    assert InvitationsCheck([], [p], 0).Pass?;
  }

  lemma OneOwner(g: Group, p: Participant)
    requires g.participants == [p] && p.active && g.ownerParticipantId == Some(p.id)
    ensures OwnerCheck(g).Pass?
  {
    FilterOne(p, IsActive);
    FilterOne(p, HasId(p.id));
    hide Filter;
  }

  lemma FilterOne<T(!new)>(x: T, p: T -> bool)
    requires p(x)
    ensures Filter([x], p) == [x]
  {
    assert [x][1..] == [] && Filter([], p) == [];
  }

  lemma SameFences(g: Group, g': Group)
    requires g.closing.Some? && g'.closing.Some? && g'.closing.value.fenceReceipts == g.closing.value.fenceReceipts
    ensures BothFences(g) <==> BothFences(g')
  {
  }
}
