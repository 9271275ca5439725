/** Registering a shared expense: the checks, and the largest-remainder burdens with the payer first among equals. */
module GroupExpenses {
  import opened Outcomes
  import opened Sorting
  import opened Sequences
  import opened Text
  import SnapshotContent

  type Allocation = SnapshotContent.Allocation

  datatype Participant = Participant(participantId: string, joinOrder: int, percentage: int)

  datatype Registration = Registration(
    id: string, groupId: string, sourceOwnerSubject: string, occurredOn: string, amount: int,
    payerParticipantId: string, participants: seq<Participant>)

  /** The facts an expense fixes at one version. */
  datatype ExpenseFacts = ExpenseFacts(
    id: string, groupId: string, sourceOwnerSubject: string, occurredOn: string, total: int,
    payerParticipantId: string, allocations: seq<Allocation>)

  datatype ExpenseError =
    | IdentifierEmpty | GroupIdInvalid | OccurredOnInvalid | AmountInvalid | ParticipantCountInvalid
    | ParticipantDuplicated | JoinOrderInvalid | JoinOrderDuplicated | PercentageInvalid | PercentageTotalInvalid
    | PayerNotParticipant | ExpenseVersionConflict | BundleFactInvalid | ReceiptVersionConflict | BundleFactMismatch
    | ActorNotUploader | ExpenseInstantInvalid | ParticipantSetMismatch | ExpenseVersionOverflow
    | ActorNotSourceOwnerOrOwner | CorrectionReasonEmpty | CaseFactMismatch | CaseReferenceInvalid
    | ExpenseCaseVersionConflict | ExpenseNotCorrectable

  function PersonOf(p: Participant): string { p.participantId }
  function JoinOrderOf(p: Participant): int { p.joinOrder }
  function PercentageOf(p: Participant): int { p.percentage }

  // ---- the calendar day ----

  predicate Digit(c: char) {
    '0' <= c <= '9'
  }

  function Decimal(s: string): int {
    if s == "" then 0 else Decimal(s[..|s| - 1]) * 10 + (s[|s| - 1] as int - '0' as int)
  }

  function DaysIn(year: int, month: int): int {
    if month == 2 then if year % 400 == 0 || (year % 4 == 0 && year % 100 != 0) then 29 else 28
    else if month == 4 || month == 6 || month == 9 || month == 11 then 30
    else 31
  }

  predicate CalendarDay(s: string) {
    && |s| == 10 && s[4] == '-' && s[7] == '-'
    && (forall i | 0 <= i < 10 && i != 4 && i != 7 :: Digit(s[i]))
    && 1 <= Decimal(s[5..7]) <= 12
    && 1 <= Decimal(s[8..]) <= DaysIn(Decimal(s[..4]), Decimal(s[5..7]))
  }

  // ---- the participants ----

  predicate PercentageAllowed(n: int) {
    0 <= n <= 100 && n % 10 == 0
  }

  function People(ps: seq<Participant>): set<string> {
    set p | p in ps :: p.participantId
  }

  function JoinOrders(ps: seq<Participant>): set<int> {
    set p | p in ps :: p.joinOrder
  }

  /** The first rejection among the participants from `k` on. */
  function ParticipantsCheck(ps: seq<Participant>, k: nat): Check<ExpenseError>
    requires k <= |ps|
    decreases |ps| - k
  {
    if k == |ps| then Pass
    else if !Nonempty(ps[k].participantId) then Fail(IdentifierEmpty)
    else if ps[k].participantId in People(ps[..k]) then Fail(ParticipantDuplicated)
    else if !(SafeInteger(ps[k].joinOrder) && ps[k].joinOrder >= 1) then Fail(JoinOrderInvalid)
    else if ps[k].joinOrder in JoinOrders(ps[..k]) then Fail(JoinOrderDuplicated)
    else if !PercentageAllowed(ps[k].percentage) then Fail(PercentageInvalid)
    else ParticipantsCheck(ps, k + 1)
  }

  function RegistrationCheck(r: Registration): Check<ExpenseError> {
    if !Nonempty(r.id) then Fail(IdentifierEmpty)
    else if !CanonicalUuid(r.groupId) then Fail(GroupIdInvalid)
    else if !Nonempty(r.sourceOwnerSubject) then Fail(IdentifierEmpty)
    else if !Nonempty(r.payerParticipantId) then Fail(IdentifierEmpty)
    else if !CalendarDay(r.occurredOn) then Fail(OccurredOnInvalid)
    else if !(SafeInteger(r.amount) && r.amount >= 0) then Fail(AmountInvalid)
    else if |r.participants| < 1 || |r.participants| > 4 then Fail(ParticipantCountInvalid)
    else if ParticipantsCheck(r.participants, 0).Fail? then ParticipantsCheck(r.participants, 0)
    else if Sum(r.participants, PercentageOf) != 100 then Fail(PercentageTotalInvalid)
    else Require(r.payerParticipantId in People(r.participants), PayerNotParticipant)
  }

  // ---- the burdens ----

  /** The share a participant starts from: the floor of their percentage. */
  function Started(amount: int): Participant -> Allocation {
    (p: Participant) => SnapshotContent.Allocation(p.participantId, p.joinOrder, p.percentage,
                                                   amount * p.percentage / 100)
  }

  function ParticipantOf(a: Allocation): Participant {
    Participant(a.participantId, a.joinOrder, a.percentage)
  }

  function RemainderOf(amount: int, a: Allocation): int {
    amount * a.percentage % 100
  }

  /** The larger remainder first; then the payer; then the earlier participant. */
  predicate Precedes(amount: int, payer: string, l: Allocation, r: Allocation) {
    if RemainderOf(amount, l) != RemainderOf(amount, r) then RemainderOf(amount, l) > RemainderOf(amount, r)
    else if (l.participantId == payer) != (r.participantId == payer) then l.participantId == payer
    else l.joinOrder <= r.joinOrder
  }

  function Ranking(amount: int, payer: string): (Allocation, Allocation) -> bool {
    (l: Allocation, r: Allocation) => Precedes(amount, payer, l, r)
  }

  function BurdenTotal(shares: seq<Allocation>): int {
    Sum(shares, SnapshotContent.BurdenOf)
  }

  /** One yen more for the first `n` shares, or for all when there are fewer. */
  function Raised(shares: seq<Allocation>, n: int): (r: seq<Allocation>)
    ensures |r| == |shares|
    ensures forall k | 0 <= k < |r| :: r[k] == if k < n then shares[k].(burden := shares[k].burden + 1) else shares[k]
  {
    seq(|shares|, k requires 0 <= k < |shares| => if k < n then shares[k].(burden := shares[k].burden + 1)
        else shares[k])
  }

  function Allocations(amount: int, payer: string, ps: seq<Participant>): seq<Allocation> {
    var shares := Map(ps, Started(amount));
    var remaining := amount - BurdenTotal(shares);
    Sort(Raised(Sort(shares, Ranking(amount, payer)), remaining), SnapshotContent.PlacedBefore)
  }

  function Register(r: Registration): Result<ExpenseFacts, ExpenseError> {
    var check := RegistrationCheck(r);
    :- check;
    Ok(ExpenseFacts(r.id, r.groupId, r.sourceOwnerSubject, r.occurredOn, r.amount, r.payerParticipantId,
                    Allocations(r.amount, r.payerParticipantId, r.participants)))
  }

  // ---- which registrations are accepted ----

  predicate ParticipantValid(p: Participant) {
    Nonempty(p.participantId) && 1 <= p.joinOrder <= MAX_SAFE && PercentageAllowed(p.percentage)
  }

  ghost predicate ParticipantsValid(ps: seq<Participant>) {
    (forall p | p in ps :: ParticipantValid(p)) && DistinctBy(ps, PersonOf) && DistinctBy(ps, JoinOrderOf)
  }

  lemma PrefixValid(ps: seq<Participant>, k: nat)
    requires k < |ps| && ParticipantsValid(ps[..k])
    ensures ParticipantsValid(ps[..k + 1]) <==>
            ParticipantValid(ps[k]) && ps[k].participantId !in People(ps[..k]) &&
              ps[k].joinOrder !in JoinOrders(ps[..k])
  {
    assert ps[..k + 1] == ps[..k] + [ps[k]];
    DistinctSnoc(ps[..k], ps[k], PersonOf);
    DistinctSnoc(ps[..k], ps[k], JoinOrderOf);
    hide ParticipantValid;
    assert ps[k] in ps[..k + 1];
    assert (exists p :: p in ps[..k] && PersonOf(p) == PersonOf(ps[k])) <==> ps[k].participantId in People(ps[..k]);
    assert (exists p :: p in ps[..k] && JoinOrderOf(p) == JoinOrderOf(ps[k])) <==>
      ps[k].joinOrder in JoinOrders(ps[..k]);
  }

  lemma InvalidPrefix(ps: seq<Participant>, k: nat)
    requires k <= |ps| && ParticipantsValid(ps)
    ensures ParticipantsValid(ps[..k])
  {
  }

  lemma {:induction false} ParticipantsPass(ps: seq<Participant>, k: nat)
    requires k <= |ps| && ParticipantsValid(ps[..k])
    ensures ParticipantsCheck(ps, k).Pass? <==> ParticipantsValid(ps)
    decreases |ps| - k
  {
    if k < |ps| {
      PrefixValid(ps, k);
      if ParticipantsValid(ps[..k + 1]) {
        ParticipantsPass(ps, k + 1);
      } else if ParticipantsValid(ps) {
        InvalidPrefix(ps, k + 1);
      }
    } else {
      assert ps[..k] == ps;
    }
  }

  ghost predicate Registrable(r: Registration) {
    && Nonempty(r.id) && CanonicalUuid(r.groupId) && Nonempty(r.sourceOwnerSubject) && CalendarDay(r.occurredOn)
    && 0 <= r.amount <= MAX_SAFE && 1 <= |r.participants| <= 4 && ParticipantsValid(r.participants)
    && Sum(r.participants, PercentageOf) == 100
    && exists p :: p in r.participants && p.participantId == r.payerParticipantId
  }

  /** The exact condition of acceptance, whatever order the participants come in. */
  lemma RegisterAccepts(r: Registration)
    ensures Register(r).Ok? <==> Registrable(r)
  {
    hide CalendarDay, CanonicalUuid, Nonempty, Allocations, ParticipantValid;
    assert ParticipantsValid(r.participants[..0]);
    ParticipantsPass(r.participants, 0);
    hide ParticipantsValid;
    if p :| p in r.participants && p.participantId == r.payerParticipantId {
      assert ParticipantsValid(r.participants) ==>
        Nonempty(r.payerParticipantId) by { EveryoneValid(r.participants, p); }
    }
    hide ParticipantsCheck;
  }

  lemma EveryoneValid(ps: seq<Participant>, p: Participant)
    requires p in ps
    ensures ParticipantsValid(ps) ==> ParticipantValid(p) && Nonempty(p.participantId)
  {
  }
}
