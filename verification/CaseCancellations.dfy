/** When a whole-case cancellation is requested and answered, and the one case that follows. */
module CaseCancellations {
  import opened Sequences
  import opened Text
  import opened TransferSearch
  import opened SnapshotContent
  import opened SnapshotProperties
  import opened SettlementCase
  import opened CaseInvariants
  import opened CaseOutcomes

  // ---- requesting ----

  ghost predicate MayRequest(c: Case, v: int, s: string, a: Applicant, o: string, id: string, reason: string, at: Clock)
    requires c.revisions != []
  {
    && c.status == PaymentActive && Current(c, v, s) && MayAct(c, a, o) && c.attempts == [] && CanonicalUuid(id)
    && (forall r | r in c.cancellations :: r.cancellationId != id) && Nonempty(reason) && at.Some?
    && |c.cancellations| < MAX_SAFE
  }

  /** The request asks exactly the required approvers, and waits for all of them. */
  function RequestedCase(c: Case, a: Applicant, id: string, reason: string, at: int): Case
    requires c.revisions != []
  {
    var r := c.revisions[|c.revisions| - 1];
    c.(status := CancellationPending, version := c.version + 1,
       cancellations := c.cancellations + [Cancellation(id, r.snapshotId, |c.cancellations| + 1, a, reason, at,
                                                        r.content.requiredApproverIds, [])])
  }

  lemma ApproversNamed(r: Revision)
    requires RevisionSound(r)
    ensures r.content.requiredApproverIds != [] && !Repeats(r.content.requiredApproverIds)
    ensures forall id | id in r.content.requiredApproverIds :: Nonempty(id)
  {
    var ids := r.content.requiredApproverIds;
    ApproversDistinct(r.content);
    assert !Repeats(ids) by {
      forall i, j | 0 <= i < j < |ids| ensures ids[i] != ids[j] {
        assert Itself(ids[i]) != Itself(ids[j]);
      }
    }
    hide RevisionSound, Repeats, DistinctBy;
    forall id | id in ids ensures Nonempty(id) {
      ApproverNamed(r.content, id);
    }
  }

  lemma ApproverNamed(content: Content, id: string)
    requires Genuine(content) && id in content.requiredApproverIds
    ensures Nonempty(id)
  {
    var chosen := Filter(content.balances, MustApprove(Approving(content.expenses)));
    var i :| 0 <= i < |chosen| && IdOf(chosen[i]) == id;
    assert chosen[i] in chosen;
    var x := chosen[i];
    hide *;
    BalanceNamed(content, x);
  }

  lemma RevisionParts(r: Revision)
    requires RevisionSound(r)
    ensures Genuine(r.content) && CanonicalUuid(r.snapshotId)
  {
    hide Genuine, CanonicalUuid, DistinctBy;
  }

  lemma RequestIs(c: Case, v: int, s: string, a: Applicant, o: string, id: string, reason: string, at: Clock)
    requires c.revisions != []
    ensures RequestCancellation(c, v, s, a, o, id, reason, at).Ok? <==>
            c.status == PaymentActive && CurrentRevision(c, v, s).Pass? && CaseActor(c, a, o).Pass? &&
            c.attempts == [] && !KnownCancellation(c.cancellations, id) &&
            NewCancellation(Latest(c).snapshotId, Latest(c).content.requiredApproverIds, id, a, reason, at,
                            |c.cancellations| + 1).Ok?
    ensures RequestCancellation(c, v, s, a, o, id, reason, at).Ok? ==>
            RequestCancellation(c, v, s, a, o, id, reason, at).value ==
            WithCancellation(c, NewCancellation(Latest(c).snapshotId, Latest(c).content.requiredApproverIds, id, a,
                                                reason, at, |c.cancellations| + 1).value)
  {
    hide CurrentRevision, CaseActor, KnownCancellation, NewCancellation, WithCancellation;
  }

  lemma NewCancellationIs(snapshotId: string, approvers: seq<string>, id: string, a: Applicant, reason: string,
                          at: Clock, n: int)
    requires CanonicalUuid(snapshotId) && approvers != [] && !Repeats(approvers) && n >= 1
    requires forall p | p in approvers :: Nonempty(p)
    ensures NewCancellation(snapshotId, approvers, id, a, reason, at, n).Ok? <==>
            CanonicalUuid(id) && Nonempty(reason) && Nonempty(a.actorSubject) && Nonempty(a.participantId) &&
            n <= MAX_SAFE && at.Some?
    ensures NewCancellation(snapshotId, approvers, id, a, reason, at, n).Ok? ==>
            NewCancellation(snapshotId, approvers, id, a, reason, at, n).value ==
            Cancellation(id, snapshotId, n, a, reason, at.value, approvers, [])
  {
    hide CanonicalUuid, Nonempty, Repeats;
  }

  lemma UnknownCancellation(cancellations: seq<Cancellation>, id: string)
    ensures !KnownCancellation(cancellations, id) <==> forall r | r in cancellations :: r.cancellationId != id
  {
  }

  lemma RequestBecomes(c: Case, request: Cancellation)
    requires c.archivedAt.None? && !KnownCancellation(c.cancellations, request.cancellationId)
    requires request.decisions == [] && request.requiredApproverIds != []
    ensures WithCancellation(c, request) ==
            c.(status := CancellationPending, version := c.version + 1, cancellations := c.cancellations + [request])
  {
    hide KnownCancellation;
    assert request.requiredApproverIds[0] in request.requiredApproverIds;
  }

  lemma ActiveParts(c: Case)
    requires CaseSound(c) && (c.status == PaymentActive || c.status == CancellationPending)
    ensures c.archivedAt.None? && CancellationsSound(c.cancellations, Latest(c))
    ensures c.status == CancellationPending ==>
            c.cancellations != [] && c.cancellations[|c.cancellations| - 1].Status() == RequestPending
  {
    hide RevisionsSound, ApprovalsSound, PaymentsSound, CancellationsSound, AllReceived, AllApproved, AllEven,
         AnyRejection;
  }

  lemma MayRequestSays(c: Case, v: int, s: string, a: Applicant, o: string, id: string, reason: string, at: Clock)
    requires c.revisions != []
    ensures MayRequest(c, v, s, a, o, id, reason, at) <==>
            c.status == PaymentActive && Current(c, v, s) && MayAct(c, a, o) && c.attempts == [] && CanonicalUuid(id) &&
            (forall r | r in c.cancellations :: r.cancellationId != id) && Nonempty(reason) && at.Some? &&
            |c.cancellations| < MAX_SAFE
    ensures MayAct(c, a, o) ==> Nonempty(a.actorSubject) && Nonempty(a.participantId)
  {
    hide Current, CanonicalUuid, Nonempty;
  }

  lemma RequestedSays(c: Case, a: Applicant, id: string, reason: string, at: int)
    requires c.revisions != []
    ensures RequestedCase(c, a, id, reason, at) ==
            c.(status := CancellationPending, version := c.version + 1,
               cancellations := c.cancellations + [Cancellation(id, Latest(c).snapshotId, |c.cancellations| + 1, a,
                                                                reason, at, Latest(c).content.requiredApproverIds, [])])
  {
  }

  /** A cancellation is requested exactly while payment is due and nothing was reported, under an unused identifier. */
  lemma RequestExact(c: Case, v: int, s: string, a: Applicant, o: string, id: string, reason: string, at: Clock)
    requires CaseSound(c)
    ensures c.revisions != []
    ensures RequestCancellation(c, v, s, a, o, id, reason, at).Ok? <==> MayRequest(c, v, s, a, o, id, reason, at)
    ensures RequestCancellation(c, v, s, a, o, id, reason, at).Ok? ==>
            RequestCancellation(c, v, s, a, o, id, reason, at).value == RequestedCase(c, a, id, reason, at.value)
  {
    hide *;
    SoundParts(c);
    CurrentChecks(c, v, s);
    ActorChecks(c, a, o);
    UnknownCancellation(c.cancellations, id);
    RequestIs(c, v, s, a, o, id, reason, at);
    MayRequestSays(c, v, s, a, o, id, reason, at);
    InstructionsDistinct(c);
    RevisionParts(Latest(c));
    ApproversNamed(Latest(c));
    NewCancellationIs(Latest(c).snapshotId, Latest(c).content.requiredApproverIds, id, a, reason, at,
                      |c.cancellations| + 1);
    if RequestCancellation(c, v, s, a, o, id, reason, at).Ok? {
      ActiveParts(c);
      RequestBecomes(c, NewCancellation(Latest(c).snapshotId, Latest(c).content.requiredApproverIds, id, a, reason, at,
                                        |c.cancellations| + 1).value);
      RequestedSays(c, a, id, reason, at.value);
    }
  }

  // ---- answering a request ----

  ghost predicate MayConsent(c: Case, v: int, s: string, cid: string, p: string, at: Clock)
    requires c.revisions != []
  {
    && c.status == CancellationPending && Current(c, v, s) && at.Some? && c.cancellations != []
    && var last := c.cancellations[|c.cancellations| - 1];
       && last.cancellationId == cid && (forall d | d in last.decisions :: d.participantId != p)
       && p in c.revisions[|c.revisions| - 1].content.requiredApproverIds
  }

  ghost predicate AllAgreed(ids: seq<string>, decisions: seq<CancellationDecision>) {
    forall p | p in ids :: exists d :: d in decisions && d.participantId == p && d.decision == Agreed
  }

  /** One consent is added; a decline returns to payment, and the last agreement cancels the case. */
  ghost predicate ConsentedBy(c: Case, p: string, consent: Consent, at: int, c': Case)
    requires c.revisions != [] && c.cancellations != []
  {
    var n := |c.cancellations| - 1;
    var decisions := c.cancellations[n].decisions + [CancellationDecision(p, consent, at)];
    c' == c.(version := c.version + 1,
             cancellations := c.cancellations[n := c.cancellations[n].(decisions := decisions)],
             status := if consent == Declined then PaymentActive
                       else if AllAgreed(c.revisions[|c.revisions| - 1].content.requiredApproverIds, decisions)
                       then Status.Cancelled else CancellationPending)
  }

  lemma DecideIs(c: Case, v: int, s: string, cid: string, p: string, consent: Consent, at: Clock)
    requires c.revisions != []
    ensures DecideCancellation(c, v, s, cid, p, consent, at).Ok? <==>
            c.status == CancellationPending && CurrentRevision(c, v, s).Pass? && c.cancellations != [] &&
            var last := c.cancellations[|c.cancellations| - 1];
            && last.cancellationId == cid && last.Status() == RequestPending && s == last.snapshotId
            && p in last.requiredApproverIds && !last.Says(p, Agreed) && !last.Says(p, Declined) && at.Some?
    ensures DecideCancellation(c, v, s, cid, p, consent, at).Ok? ==>
            var last := c.cancellations[|c.cancellations| - 1];
            DecideCancellation(c, v, s, cid, p, consent, at).value ==
            WithCancellation(c, last.(decisions := last.decisions + [CancellationDecision(p, consent, at.value)]))
  {
    hide CurrentRevision, Cancellation.Status, Cancellation.Says, WithCancellation;
  }

  lemma SilentSoFar(request: Cancellation, p: string)
    ensures !request.Says(p, Agreed) && !request.Says(p, Declined) <==>
            forall d | d in request.decisions :: d.participantId != p
  {
    if d :| d in request.decisions && d.participantId == p {
      var i :| 0 <= i < |request.decisions| && request.decisions[i] == d;
      assert d.decision == Agreed || d.decision == Declined;
    }
  }

  lemma StatusAfter(request: Cancellation, d: CancellationDecision)
    requires request.Status() == RequestPending
    ensures var after := request.(decisions := request.decisions + [d]);
            after.Status() == if d.decision == Declined then RequestDeclined
                              else if AllAgreed(request.requiredApproverIds, after.decisions) then RequestAgreed
                              else RequestPending
  {
    var after := request.(decisions := request.decisions + [d]);
    assert after.decisions[|request.decisions|] == d;
    forall i | 0 <= i < |request.decisions| ensures after.decisions[i] == request.decisions[i] {
    }
    forall p ensures after.Says(p, Agreed) <==>
      exists x :: x in after.decisions && x.participantId == p && x.decision == Agreed
    {
      if x :| x in after.decisions && x.participantId == p && x.decision == Agreed {
        var i :| 0 <= i < |after.decisions| && after.decisions[i] == x;
      }
    }
    hide Cancellation.Says;
  }

  lemma {:induction false} ReplacedRequest(cs: seq<Cancellation>, request: Cancellation)
    requires DistinctBy(cs, CancellationIdOf) && cs != [] && request.cancellationId == cs[|cs| - 1].cancellationId
    ensures KnownCancellation(cs, request.cancellationId)
    ensures Map(cs, ReplacingRequest(request)) == cs[|cs| - 1 := request]
  {
    forall n | 0 <= n < |cs| ensures Map(cs, ReplacingRequest(request))[n] == cs[|cs| - 1 := request][n] {
      assert n < |cs| - 1 ==> CancellationIdOf(cs[n]) != CancellationIdOf(cs[|cs| - 1]);
    }
  }

  lemma ConsentBecomes(c: Case, p: string, consent: Consent, at: int)
    requires c.revisions != [] && c.cancellations != [] && c.archivedAt.None?
    requires DistinctBy(c.cancellations, CancellationIdOf)
    requires c.cancellations[|c.cancellations| - 1].Status() == RequestPending
    requires c.cancellations[|c.cancellations| - 1].requiredApproverIds == Latest(c).content.requiredApproverIds
    ensures var last := c.cancellations[|c.cancellations| - 1];
            ConsentedBy(c, p, consent, at,
                        WithCancellation(c, last.(decisions := last.decisions + [CancellationDecision(p, consent,
                          at)])))
  {
    var last := c.cancellations[|c.cancellations| - 1];
    var d := CancellationDecision(p, consent, at);
    StatusAfter(last, d);
    ReplacedRequest(c.cancellations, last.(decisions := last.decisions + [d]));
    hide Cancellation.Status, Map, ReplacingRequest, KnownCancellation, AllAgreed, DistinctBy;
  }

  lemma LastRequest(c: Case)
    requires CaseSound(c) && c.status == CancellationPending
    ensures c.cancellations != [] && c.archivedAt.None? && DistinctBy(c.cancellations, CancellationIdOf)
    ensures var last := c.cancellations[|c.cancellations| - 1];
            && last.Status() == RequestPending && last.snapshotId == Latest(c).snapshotId
            && last.requiredApproverIds == Latest(c).content.requiredApproverIds
  {
    ActiveParts(c);
    hide CaseSound, DistinctBy, Cancellation.Status;
    assert RequestSound(c.cancellations, |c.cancellations| - 1, Latest(c));
  }

  lemma MayConsentSays(c: Case, v: int, s: string, cid: string, p: string, at: Clock)
    requires c.revisions != []
    ensures MayConsent(c, v, s, cid, p, at) <==>
            c.status == CancellationPending && Current(c, v, s) && at.Some? && c.cancellations != [] &&
            var last := c.cancellations[|c.cancellations| - 1];
            && last.cancellationId == cid && (forall d | d in last.decisions :: d.participantId != p)
            && p in Latest(c).content.requiredApproverIds
    ensures Current(c, v, s) ==> s == Latest(c).snapshotId
  {
  }

  /** A consent is accepted exactly once from every required approver, and decides the request when it is the last. */
  lemma DecideExact(c: Case, v: int, s: string, cid: string, p: string, consent: Consent, at: Clock)
    requires CaseSound(c)
    ensures c.revisions != []
    ensures DecideCancellation(c, v, s, cid, p, consent, at).Ok? <==> MayConsent(c, v, s, cid, p, at)
    ensures DecideCancellation(c, v, s, cid, p, consent, at).Ok? ==>
            c.cancellations != [] &&
            ConsentedBy(c, p, consent, at.value, DecideCancellation(c, v, s, cid, p, consent, at).value)
  {
    hide *;
    SoundParts(c);
    CurrentChecks(c, v, s);
    DecideIs(c, v, s, cid, p, consent, at);
    MayConsentSays(c, v, s, cid, p, at);
    if c.status == CancellationPending {
      LastRequest(c);
      SilentSoFar(c.cancellations[|c.cancellations| - 1], p);
      if at.Some? {
        ConsentBecomes(c, p, consent, at.value);
      }
    }
  }
}
