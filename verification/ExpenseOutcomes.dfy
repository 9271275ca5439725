/** When an expense is registered or split anew, and the one expense that follows. */
module ExpenseOutcomes {
  import opened Outcomes
  import opened Sorting
  import opened Sequences
  import opened Text
  import opened Apportionment
  import SnapshotContent
  import opened GroupExpenses
  import EP = ExpenseProperties
  import opened ExpenseRoot
  import opened ReceiptSteps
  import opened ReceiptInStep

  // ---- the burdens, said share by share ----

  /**
   * The shares are listed by join order and give out the total: everyone gets the floor of their percentage or one yen
   * more, and the extra yen go to the larger remainders, among equals to the payer and then to earlier participants.
   */
  ghost predicate FairlyBorne(total: int, payer: string, xs: seq<Allocation>) {
    && (forall i, j | 0 <= i < j < |xs| :: xs[i].joinOrder < xs[j].joinOrder)
    && Sum(xs, SnapshotContent.BurdenOf) == total
    && (forall a | a in xs :: total * a.percentage / 100 <= a.burden <= total * a.percentage / 100 + 1)
    && forall a, b | a in xs && b in xs && a.burden == total * a.percentage / 100 + 1 &&
                     b.burden == total * b.percentage / 100 ::
         var l, r := total * a.percentage % 100, total * b.percentage % 100;
         l > r || (l == r && (a.participantId == payer || (b.participantId != payer && a.joinOrder < b.joinOrder)))
  }

  /** The same participants at the same join orders and percentages, in any order. */
  ghost predicate SharedAmong(xs: seq<Allocation>, ps: seq<Participant>) {
    && |xs| == |ps|
    && (forall a | a in xs :: Participant(a.participantId, a.joinOrder, a.percentage) in ps)
    && forall p | p in ps :: exists a :: a in xs && a.participantId == p.participantId && a.joinOrder == p.joinOrder &&
                                         a.percentage == p.percentage
  }

  lemma BurdenedFairly(total: int, payer: string, xs: seq<Allocation>)
    requires EP.Burdened(total, payer, xs) && DistinctBy(xs, SnapshotContent.PlaceOf)
    requires forall a | a in xs :: a.joinOrder >= 1
    ensures FairlyBorne(total, payer, xs)
  {
    EP.PortionSums(total, payer, xs);
    BurdenedTotal(total, payer, xs);
    BurdenedOrder(total, payer, xs);
    forall a | a in xs ensures total * a.percentage / 100 <= a.burden <= total * a.percentage / 100 + 1 {
      var i :| 0 <= i < |xs| && xs[i] == a;
      BurdenedShare(total, payer, xs, i);
    }
    forall a, b | a in xs && b in xs && a.burden == total * a.percentage / 100 + 1 &&
                  b.burden == total * b.percentage / 100
      ensures var l, r := total * a.percentage % 100, total * b.percentage % 100;
              l > r || (l == r && (a.participantId == payer || (b.participantId != payer && a.joinOrder < b.joinOrder)))
    {
      var i :| 0 <= i < |xs| && xs[i] == a;
      var j :| 0 <= j < |xs| && xs[j] == b;
      EP.ExtraYenAmong(total, payer, xs, i, j);
    }
    hide EP.Burdened, Sum, DistinctBy;
  }

  lemma BurdenedTotal(total: int, payer: string, xs: seq<Allocation>)
    requires EP.Burdened(total, payer, xs)
    ensures Sum(xs, SnapshotContent.BurdenOf) == total
  {
    EP.PortionSums(total, payer, xs);
    hide Sum, Floor, Beats;
  }

  lemma BurdenedOrder(total: int, payer: string, xs: seq<Allocation>)
    requires EP.Burdened(total, payer, xs) && DistinctBy(xs, SnapshotContent.PlaceOf)
    ensures forall i, j | 0 <= i < j < |xs| :: xs[i].joinOrder < xs[j].joinOrder
  {
    hide Apportioned;
    forall i, j | 0 <= i < j < |xs| ensures xs[i].joinOrder < xs[j].joinOrder {
      assert SnapshotContent.PlacedBefore(xs[i], xs[j]);
      assert SnapshotContent.PlaceOf(xs[i]) != SnapshotContent.PlaceOf(xs[j]);
    }
  }

  lemma BurdenedShare(total: int, payer: string, xs: seq<Allocation>, i: nat)
    requires EP.Burdened(total, payer, xs) && i < |xs|
    ensures total * xs[i].percentage / 100 <= xs[i].burden <= total * xs[i].percentage / 100 + 1
  {
    hide Sum, Beats;
    var ps := Map(xs, EP.PortionFor(payer));
    assert ps[i] in ps;
    FloorIs(total, xs[i].percentage);
  }

  // ---- registering ----

  ghost predicate ParticipantGood(p: Participant) {
    Nonempty(p.participantId) && 1 <= p.joinOrder <= MAX_SAFE && 0 <= p.percentage <= 100 && p.percentage % 10 == 0
  }

  ghost predicate ParticipantsGood(ps: seq<Participant>) {
    && (forall p | p in ps :: ParticipantGood(p))
    && (forall i, j | 0 <= i < j < |ps| ::
          ps[i].participantId != ps[j].participantId && ps[i].joinOrder != ps[j].joinOrder)
  }

  /** A date in the Gregorian calendar, written with four, two and two digits. */
  ghost predicate Dated(s: string) {
    && |s| == 10 && s[4] == '-' && s[7] == '-'
    && (forall i | i in {0, 1, 2, 3, 5, 6, 8, 9} :: '0' <= s[i] <= '9')
    && var y, m, d := Number(s[0]) * 1000 + Number(s[1]) * 100 + Number(s[2]) * 10 + Number(s[3]),
                      Number(s[5]) * 10 + Number(s[6]), Number(s[8]) * 10 + Number(s[9]);
       && 1 <= m <= 12 && 1 <= d <= 31
       && (m in {4, 6, 9, 11} ==> d <= 30)
       && (m == 2 ==> d <= 29 && (d == 29 ==> y % 4 == 0 && (y % 100 == 0 ==> y % 400 == 0)))
  }

  function Number(c: char): int {
    c as int - '0' as int
  }

  lemma Decimal2(s: string)
    requires |s| == 2
    ensures Decimal(s) == Number(s[0]) * 10 + Number(s[1])
  {
    assert s[..1] == [s[0]] && [s[0]][..0] == "";
    assert Decimal([s[0]]) == Decimal("") * 10 + Number(s[0]);
  }

  lemma Decimal4(s: string)
    requires |s| == 4
    ensures Decimal(s) == Number(s[0]) * 1000 + Number(s[1]) * 100 + Number(s[2]) * 10 + Number(s[3])
  {
    assert s[..3][..2] == [s[0], s[1]];
    Decimal2([s[0], s[1]]);
    assert Decimal(s[..3]) == Decimal([s[0], s[1]]) * 10 + Number(s[2]);
  }

  lemma DatedIs(s: string)
    ensures CalendarDay(s) <==> Dated(s)
  {
    if |s| == 10 {
      DigitsAre(s);
      NumbersAre(s);
      var y, m, d := Decimal(s[..4]), Decimal(s[5..7]), Decimal(s[8..]);
      if 1 <= m <= 12 {
        DaysAre(y, m, d);
      }
      hide Decimal, DaysIn, Digit, Number;
    }
  }

  lemma DigitsAre(s: string)
    requires |s| == 10
    ensures (forall i | 0 <= i < 10 && i != 4 && i != 7 :: Digit(s[i])) <==>
            forall i | i in {0, 1, 2, 3, 5, 6, 8, 9} :: '0' <= s[i] <= '9'
  {
    forall i | 0 <= i < 10 ensures Digit(s[i]) <==> '0' <= s[i] <= '9' {
    }
    hide Digit;
  }

  lemma NumbersAre(s: string)
    requires |s| == 10
    ensures Decimal(s[..4]) == Number(s[0]) * 1000 + Number(s[1]) * 100 + Number(s[2]) * 10 + Number(s[3])
    ensures Decimal(s[5..7]) == Number(s[5]) * 10 + Number(s[6])
    ensures Decimal(s[8..]) == Number(s[8]) * 10 + Number(s[9])
  {
    hide *;
    Decimal4(s[..4]);
    Decimal2(s[5..7]);
    Decimal2(s[8..]);
  }

  lemma DaysAre(y: int, m: int, d: int)
    requires 1 <= m <= 12
    ensures 1 <= d <= DaysIn(y, m) <==>
            1 <= d <= 31 && (m in {4, 6, 9, 11} ==> d <= 30) &&
            (m == 2 ==> d <= 29 && (d == 29 ==> y % 4 == 0 && (y % 100 == 0 ==> y % 400 == 0)))
  {
  }

  lemma GoodIs(ps: seq<Participant>)
    ensures ParticipantsValid(ps) <==> ParticipantsGood(ps)
  {
    hide Nonempty;
    if ParticipantsValid(ps) {
      forall i, j | 0 <= i < j < |ps|
        ensures ps[i].participantId != ps[j].participantId && ps[i].joinOrder != ps[j].joinOrder
      {
        assert PersonOf(ps[i]) != PersonOf(ps[j]) && JoinOrderOf(ps[i]) != JoinOrderOf(ps[j]);
      }
    }
  }

  ghost predicate MayRegister(r: Registration) {
    && Nonempty(r.id) && CanonicalUuid(r.groupId) && Nonempty(r.sourceOwnerSubject) && Dated(r.occurredOn)
    && 0 <= r.amount <= MAX_SAFE && 1 <= |r.participants| <= 4 && ParticipantsGood(r.participants)
    && Sum(r.participants, PercentageOf) == 100
    && exists p :: p in r.participants && p.participantId == r.payerParticipantId
  }

  /** The facts repeat the registration, and its participants bear the amount fairly. */
  ghost predicate RegisteredAs(r: Registration, e: ExpenseFacts) {
    && e == ExpenseFacts(r.id, r.groupId, r.sourceOwnerSubject, r.occurredOn, r.amount, r.payerParticipantId,
                         e.allocations)
    && SharedAmong(e.allocations, r.participants) && FairlyBorne(r.amount, r.payerParticipantId, e.allocations)
  }

  lemma SharedIs(xs: seq<Allocation>, ps: seq<Participant>)
    requires multiset(Map(xs, ParticipantOf)) == multiset(ps)
    ensures SharedAmong(xs, ps)
  {
    var us := Map(xs, ParticipantOf);
    SamePlaces(us, ps);
    forall a | a in xs ensures Participant(a.participantId, a.joinOrder, a.percentage) in ps {
      var i :| 0 <= i < |xs| && xs[i] == a;
      assert us[i] in us;
    }
    forall p | p in ps
      ensures exists a :: a in xs && a.participantId == p.participantId && a.joinOrder == p.joinOrder &&
                          a.percentage == p.percentage
    {
      assert p in us;
      var i :| 0 <= i < |us| && us[i] == p;
      assert xs[i] in xs;
    }
  }

  lemma ParticipantsLateEnough(xs: seq<Allocation>, ps: seq<Participant>)
    requires SharedAmong(xs, ps) && ParticipantsGood(ps)
    ensures forall a | a in xs :: a.joinOrder >= 1
  {
    forall a | a in xs ensures a.joinOrder >= 1 {
      var p := Participant(a.participantId, a.joinOrder, a.percentage);
      assert p in ps && ParticipantGood(p);
    }
  }

  /** A registration is accepted exactly when it is complete and adds up, and then fixes one list of fair shares. */
  lemma RegisterExact(r: Registration)
    ensures Register(r).Ok? <==> MayRegister(r)
    ensures Register(r).Ok? ==> RegisteredAs(r, Register(r).value)
  {
    hide *;
    RegisterAccepts(r);
    RegistrableSays(r);
    if Register(r).Ok? {
      EP.RegisteredParts(r);
      CopiedFacts(r);
      EP.RegistrableParts(r);
      GoodIs(r.participants);
      var e := Register(r).value;
      SharedIs(e.allocations, r.participants);
      ParticipantsLateEnough(e.allocations, r.participants);
      EP.AllocationsDistinct(e.allocations, r.participants);
      BurdenedFairly(r.amount, r.payerParticipantId, e.allocations);
      RegisteredSays(r, e);
    }
  }

  lemma RegistrableSays(r: Registration)
    ensures Registrable(r) <==> MayRegister(r)
  {
    DatedIs(r.occurredOn);
    GoodIs(r.participants);
    hide Nonempty, CanonicalUuid, CalendarDay, Dated, ParticipantsValid, ParticipantsGood, Sum;
  }

  lemma RegisteredSays(r: Registration, e: ExpenseFacts)
    requires SharedAmong(e.allocations, r.participants)
    requires FairlyBorne(r.amount, r.payerParticipantId, e.allocations)
    requires e.id == r.id && e.groupId == r.groupId && e.sourceOwnerSubject == r.sourceOwnerSubject
    requires e.occurredOn == r.occurredOn && e.total == r.amount && e.payerParticipantId == r.payerParticipantId
    ensures RegisteredAs(r, e)
  {
    hide SharedAmong, FairlyBorne;
  }

  /** No two lists of fair shares of the same participants differ. */
  lemma {:induction false} FairUnique(total: int, payer: string, xs: seq<Allocation>, ys: seq<Allocation>)
    requires FairlyBorne(total, payer, xs) && FairlyBorne(total, payer, ys)
    requires |xs| == |ys| && forall k | 0 <= k < |xs| ::
               xs[k].participantId == ys[k].participantId && xs[k].percentage == ys[k].percentage &&
               xs[k].joinOrder == ys[k].joinOrder && xs[k].joinOrder >= 1
    requires forall i, j | 0 <= i < j < |xs| :: xs[i].participantId != xs[j].participantId
    ensures xs == ys
  {
    FairApportions(total, payer, xs);
    FairApportions(total, payer, ys);
    hide FairlyBorne, Apportioned;
    var ps, qs := Map(xs, EP.PortionFor(payer)), Map(ys, EP.PortionFor(payer));
    ApportionedUnique(total, 100, ps, qs);
    forall k | 0 <= k < |xs| ensures xs[k] == ys[k] {
      assert ps[k] == qs[k];
    }
  }

  lemma FairApportions(total: int, payer: string, xs: seq<Allocation>)
    requires FairlyBorne(total, payer, xs) && forall a | a in xs :: a.joinOrder >= 1
    requires forall i, j | 0 <= i < j < |xs| :: xs[i].participantId != xs[j].participantId
    ensures Apportioned(total, 100, Map(xs, EP.PortionFor(payer)))
  {
    var ps := Map(xs, EP.PortionFor(payer));
    EP.PortionSums(total, payer, xs);
    hide Sum, Floor, Beats;
    forall p | p in ps ensures p.share == Floor(total, 100, p.weight) || p.share == Floor(total, 100, p.weight) + 1 {
      var i :| 0 <= i < |ps| && ps[i] == p;
      assert xs[i] in xs;
      FloorIs(total, xs[i].percentage);
    }
    forall p, q | p in ps && q in ps && p.share > Floor(total, 100, p.weight) && q.share == Floor(total, 100, q.weight)
      ensures Beats(total, 100, p, q)
    {
      var i :| 0 <= i < |ps| && ps[i] == p;
      var j :| 0 <= j < |ps| && ps[j] == q;
      FairBeats(total, payer, xs, i, j);
    }
  }

  lemma FloorIs(total: int, percentage: int)
    ensures Floor(total, 100, percentage) == total * percentage / 100
  {
  }

  lemma FairBeats(total: int, payer: string, xs: seq<Allocation>, i: nat, j: nat)
    requires FairlyBorne(total, payer, xs) && i < |xs| && j < |xs|
    requires forall a | a in xs :: a.joinOrder >= 1
    requires forall i, j | 0 <= i < j < |xs| :: xs[i].participantId != xs[j].participantId
    requires xs[i].burden > Floor(total, 100, xs[i].percentage) && xs[j].burden == Floor(total, 100, xs[j].percentage)
    ensures Beats(total, 100, EP.PortionFor(payer)(xs[i]), EP.PortionFor(payer)(xs[j]))
  {
    hide Sum;
    var a, b := xs[i], xs[j];
    assert a in xs && b in xs;
    assert a != b && i != j;
    assert if i < j then a.participantId != b.participantId else b.participantId != a.participantId;
  }

  // ---- what the receipt tells ----

  ghost predicate FactComplete(fact: BundleFact) {
    && Nonempty(fact.receiptId) && Nonempty(fact.bundleId) && Nonempty(fact.expenseId) && Nonempty(fact.groupId)
    && Nonempty(fact.uploaderSubject) && 0 <= fact.adjustedAmount <= MAX_SAFE
  }

  /** The fact is of the receipt's expected version, about this expense as it is, and told to the uploader. */
  ghost predicate FactFits(e: GroupExpense, fact: BundleFact, receiptVersion: int, actor: string) {
    && FactComplete(fact) && 1 <= fact.receiptVersion <= MAX_SAFE && receiptVersion == fact.receiptVersion
    && fact.expenseId == e.facts.id && fact.groupId == e.facts.groupId && fact.occurredOn == e.facts.occurredOn
    && fact.uploaderSubject == e.facts.sourceOwnerSubject && fact.adjustedAmount == e.facts.total
    && Nonempty(actor) && actor == fact.uploaderSubject
  }

  lemma FactChecks(e: GroupExpense, fact: BundleFact, receiptVersion: int, actor: string)
    ensures FactShapeCheck(fact).Pass? <==> FactComplete(fact)
    ensures CurrentFactCheck(e, fact, receiptVersion, actor).Pass? <==> FactFits(e, fact, receiptVersion, actor)
  {
    hide Nonempty;
  }

  // ---- changing the split ----

  function SplitPercentage(s: Split): int { s.percentage }

  /** Every participant of the expense is named exactly once. */
  ghost predicate NamesEveryone(splits: seq<Split>, xs: seq<Allocation>) {
    && |splits| == |xs| && (forall i, j | 0 <= i < j < |splits| :: splits[i].participantId != splits[j].participantId)
    && forall a | a in xs :: exists s :: s in splits && s.participantId == a.participantId
  }

  /** The payer and every percentage are what the expense has already. */
  ghost predicate AlreadySo(e: GroupExpense, payer: string, splits: seq<Split>) {
    && payer == e.facts.payerParticipantId
    && forall s, a | s in splits && a in e.facts.allocations && a.participantId == s.participantId ::
         a.percentage == s.percentage
  }

  ghost predicate MaySplit(e: GroupExpense, version: int, receiptVersion: int, fact: BundleFact, actor: string,
                           at: Clock, payer: string, splits: seq<Split>)
  {
    && -MAX_SAFE <= version <= MAX_SAFE && version == e.version && FactFits(e, fact, receiptVersion, actor) && at.Some?
    && NamesEveryone(splits, e.facts.allocations)
    && (forall s | s in splits :: 0 <= s.percentage <= 100 && s.percentage % 10 == 0)
    && Sum(splits, SplitPercentage) == 100
    && (exists a :: a in e.facts.allocations && a.participantId == payer)
    && (AlreadySo(e, payer, splits) || e.version + 1 <= MAX_SAFE)
  }

  /** The participants keep their places and bear the same total at the requested percentages. */
  ghost predicate SplitSo(before: ExpenseFacts, payer: string, splits: seq<Split>, after: ExpenseFacts) {
    && after == before.(payerParticipantId := payer, allocations := after.allocations)
    && |after.allocations| == |before.allocations|
    && (forall k | 0 <= k < |before.allocations| ::
          && after.allocations[k].participantId == before.allocations[k].participantId
          && after.allocations[k].joinOrder == before.allocations[k].joinOrder)
    && (forall s, a | s in splits && a in after.allocations && a.participantId == s.participantId ::
          a.percentage == s.percentage)
    && FairlyBorne(before.total, payer, after.allocations)
  }

  ghost predicate SplitTo(e: GroupExpense, fact: BundleFact, actor: string, at: int, payer: string, splits: seq<Split>,
                          e': GroupExpense)
  {
    if AlreadySo(e, payer, splits) then e' == e
    else
      && SplitSo(e.facts, payer, splits, e'.facts)
      && e' == e.(facts := e'.facts, version := e.version + 1,
                  splits := e.splits + [SplitChange(actor, at, e.version, e.version + 1, fact, e.facts, e'.facts)])
  }

  /** The request as the registration it recalculates. */
  function Requested(e: GroupExpense, payer: string, splits: seq<Split>): Registration {
    RegistrationOf(e.facts).(payerParticipantId := payer, participants := Map(e.facts.allocations, Resplit(splits)))
  }

  lemma SplitIs(e: GroupExpense, version: int, receiptVersion: int, fact: BundleFact, actor: string, at: Clock,
                payer: string, splits: seq<Split>)
    ensures var calculated := Register(Requested(e, payer, splits));
            var same := calculated.Ok? && calculated.value.payerParticipantId == e.facts.payerParticipantId &&
                        SamePercentages(calculated.value.allocations, e.facts.allocations);
            var r := ChangeBundleSplit(e, version, receiptVersion, fact, actor, at, payer, splits);
            && (r.Ok? <==> ExpenseVersionCheck(e, version).Pass? &&
                           CurrentFactCheck(e, fact, receiptVersion, actor).Pass? && at.Some? &&
                           SameSet(splits, e.facts.allocations) && calculated.Ok? &&
                           (same || SafeInteger(e.version + 1)))
            && (r.Ok? ==> if same then r.value == e
                          else var after := e.facts.(payerParticipantId := calculated.value.payerParticipantId,
                                                     allocations := calculated.value.allocations);
                               r.value == e.(facts := after, version := e.version + 1,
                                             splits := e.splits + [SplitChange(actor, at.value, e.version,
                                               e.version + 1,
                                                                               fact, e.facts, after)]))
  {
    hide Register, ExpenseVersionCheck, CurrentFactCheck, SameSet, SamePercentages, SafeInteger, RegistrationOf;
  }

  lemma SameSetIs(splits: seq<Split>, xs: seq<Allocation>)
    ensures SameSet(splits, xs) <==> NamesEveryone(splits, xs)
  {
    forall a | a in xs
      ensures (exists i :: 0 <= i < |splits| && splits[i].participantId == a.participantId) <==>
              exists s :: s in splits && s.participantId == a.participantId
    {
      if s :| s in splits && s.participantId == a.participantId {
        var i :| 0 <= i < |splits| && splits[i] == s;
      }
    }
  }

  lemma {:induction false} PercentageNamed(splits: seq<Split>, s: Split)
    requires s in splits && forall i, j | 0 <= i < j < |splits| :: splits[i].participantId != splits[j].participantId
    ensures PercentageFor(splits, s.participantId) == s.percentage
  {
    var init, last := splits[..|splits| - 1], splits[|splits| - 1];
    if last.participantId == s.participantId {
      var i :| 0 <= i < |splits| && splits[i] == s;
      assert i == |splits| - 1;
    } else {
      PercentageNamed(init, s);
    }
  }

  function NamedSplit(splits: seq<Split>): Allocation -> Split {
    (a: Allocation) => Split(a.participantId, PercentageFor(splits, a.participantId))
  }

  function NameOf(s: Split): string { s.participantId }

  /** The splits, one for every participant in their order, are a rearrangement of the requested ones. */
  lemma SplitsRearranged(splits: seq<Split>, xs: seq<Allocation>)
    requires NamesEveryone(splits, xs) && DistinctBy(xs, SnapshotContent.PersonOf)
    ensures multiset(Map(xs, NamedSplit(splits))) == multiset(splits)
  {
    var named := Map(xs, NamedSplit(splits));
    forall i, j | 0 <= i < j < |xs| ensures NameOf(named[i]) != NameOf(named[j]) {
      assert SnapshotContent.PersonOf(xs[i]) != SnapshotContent.PersonOf(xs[j]);
    }
    forall s | s in named ensures s in splits {
      var i :| 0 <= i < |named| && named[i] == s;
      assert xs[i] in xs;
      var t :| t in splits && t.participantId == xs[i].participantId;
      PercentageNamed(splits, t);
    }
    DistinctNames(splits);
    AllNamed(named, splits);
    SameElements(named, splits, NameOf);
  }

  lemma DistinctNames(splits: seq<Split>)
    requires forall i, j | 0 <= i < j < |splits| :: splits[i].participantId != splits[j].participantId
    ensures DistinctBy(splits, NameOf)
  {
  }

  /** As many different names from the same list are all of its names. */
  lemma AllNamed(named: seq<Split>, splits: seq<Split>)
    requires |named| == |splits| && DistinctBy(named, NameOf) && DistinctBy(splits, NameOf)
    requires forall s | s in named :: s in splits
    ensures forall s :: s in named <==> s in splits
  {
    forall i, j | 0 <= i < j < |named| ensures named[i] != named[j] {
      assert NameOf(named[i]) != NameOf(named[j]);
    }
    forall i, j | 0 <= i < j < |splits| ensures splits[i] != splits[j] {
      assert NameOf(splits[i]) != NameOf(splits[j]);
    }
    DistinctElements(named);
    DistinctElements(splits);
    SubsetSmaller(Elements(named), Elements(splits));
    forall s ensures s in named <==> s in splits {
      assert s in Elements(named) <==> s in named;
      assert s in Elements(splits) <==> s in splits;
    }
  }

  lemma SplitSum(splits: seq<Split>, xs: seq<Allocation>)
    requires NamesEveryone(splits, xs) && DistinctBy(xs, SnapshotContent.PersonOf)
    ensures Sum(Map(xs, Resplit(splits)), PercentageOf) == Sum(splits, SplitPercentage)
  {
    SplitsRearranged(splits, xs);
    SumPermutation(Map(xs, NamedSplit(splits)), splits, SplitPercentage);
    SumsAlike(Map(xs, NamedSplit(splits)), Map(xs, Resplit(splits)), SplitPercentage, PercentageOf);
  }

  /** What a genuine expense is: its allocations are fair shares of its total among valid participants. */
  lemma GenuineParts(e: GroupExpense)
    requires ExpenseGenuine(e)
    ensures MayRegister(RegistrationOf(e.facts)) && RegisteredAs(RegistrationOf(e.facts), e.facts)
    ensures FairlyBorne(e.facts.total, e.facts.payerParticipantId, e.facts.allocations)
    ensures DistinctBy(e.facts.allocations, SnapshotContent.PersonOf)
    ensures ParticipantsGood(Map(e.facts.allocations, ParticipantOf))
  {
    GenuineRegisters(e);
    hide *;
    var r := RegistrationOf(e.facts);
    RegisterExact(r);
    EP.RegisteredParts(r);
    EP.RegistrableParts(r);
    EP.AllocationsDistinct(e.facts.allocations, r.participants);
    RegistrationSays(e.facts);
    MayRegisterSays(r);
    RegisteredShares(r, e.facts);
  }

  lemma GenuineRegisters(e: GroupExpense)
    requires ExpenseGenuine(e)
    ensures Register(RegistrationOf(e.facts)) == Ok(e.facts)
  {
    hide Register, RegistrationOf;
  }

  lemma RegistrationSays(facts: ExpenseFacts)
    ensures var r := RegistrationOf(facts);
            && r.id == facts.id && r.groupId == facts.groupId && r.sourceOwnerSubject == facts.sourceOwnerSubject
            && r.occurredOn == facts.occurredOn && r.amount == facts.total
            && r.payerParticipantId == facts.payerParticipantId
            && r.participants == Map(facts.allocations, ParticipantOf)
  {
  }

  lemma MayRegisterSays(r: Registration)
    ensures MayRegister(r) <==>
            Nonempty(r.id) && CanonicalUuid(r.groupId) && Nonempty(r.sourceOwnerSubject) && Dated(r.occurredOn) &&
            0 <= r.amount <= MAX_SAFE && 1 <= |r.participants| <= 4 && ParticipantsGood(r.participants) &&
            Sum(r.participants, PercentageOf) == 100 &&
            exists p :: p in r.participants && p.participantId == r.payerParticipantId
  {
    hide Nonempty, CanonicalUuid, Dated, ParticipantsGood, Sum;
  }

  lemma RegisteredShares(r: Registration, e: ExpenseFacts)
    requires RegisteredAs(r, e)
    ensures FairlyBorne(r.amount, r.payerParticipantId, e.allocations) && e.payerParticipantId == r.payerParticipantId
    ensures e.total == r.amount
  {
    hide FairlyBorne, SharedAmong;
  }

  ghost predicate PercentageGood(p: int) {
    0 <= p <= 100 && p % 10 == 0
  }

  /** The participants asked for are valid exactly when the percentages are. */
  lemma ResplitGood(splits: seq<Split>, xs: seq<Allocation>)
    requires NamesEveryone(splits, xs) && DistinctBy(xs, SnapshotContent.PersonOf)
    requires ParticipantsGood(Map(xs, ParticipantOf))
    ensures ParticipantsGood(Map(xs, Resplit(splits))) <==>
            forall s | s in splits :: 0 <= s.percentage <= 100 && s.percentage % 10 == 0
  {
    hide *;
    ResplitDistinct(splits, xs);
    PercentagesEverywhere(splits, xs);
    GoodApart(Map(xs, Resplit(splits)));
    ResplitEach(splits, xs);
  }

  lemma GoodApart(ps: seq<Participant>)
    ensures ParticipantsGood(ps) <==>
            (forall k | 0 <= k < |ps| :: ParticipantGood(ps[k])) && forall i, j | 0 <= i < j < |ps| ::
              ps[i].participantId != ps[j].participantId && ps[i].joinOrder != ps[j].joinOrder
  {
    hide ParticipantGood;
  }

  lemma ResplitDistinct(splits: seq<Split>, xs: seq<Allocation>)
    requires ParticipantsGood(Map(xs, ParticipantOf))
    ensures var ps := Map(xs, Resplit(splits));
            forall i, j | 0 <= i < j < |ps| ::
              ps[i].participantId != ps[j].participantId && ps[i].joinOrder != ps[j].joinOrder
  {
    hide PercentageFor, ParticipantGood;
    var before, ps := Map(xs, ParticipantOf), Map(xs, Resplit(splits));
    forall i, j | 0 <= i < j < |ps|
      ensures ps[i].participantId != ps[j].participantId && ps[i].joinOrder != ps[j].joinOrder
    {
      assert before[i].participantId != before[j].participantId && before[i].joinOrder != before[j].joinOrder;
    }
  }

  lemma ResplitEach(splits: seq<Split>, xs: seq<Allocation>)
    requires ParticipantsGood(Map(xs, ParticipantOf))
    ensures forall k | 0 <= k < |xs| ::
              ParticipantGood(Map(xs, Resplit(splits))[k]) <==>
                PercentageGood(PercentageFor(splits, xs[k].participantId))
  {
    hide PercentageFor, Nonempty;
    var before := Map(xs, ParticipantOf);
    forall k | 0 <= k < |xs|
      ensures ParticipantGood(Map(xs, Resplit(splits))[k]) <==>
              PercentageGood(PercentageFor(splits, xs[k].participantId))
    {
      assert before[k] in before && ParticipantGood(before[k]);
    }
  }

  lemma PercentagesEverywhere(splits: seq<Split>, xs: seq<Allocation>)
    requires NamesEveryone(splits, xs) && DistinctBy(xs, SnapshotContent.PersonOf)
    ensures (forall k | 0 <= k < |xs| :: PercentageGood(PercentageFor(splits, xs[k].participantId))) <==>
            forall s | s in splits :: 0 <= s.percentage <= 100 && s.percentage % 10 == 0
  {
    var named := Map(xs, NamedSplit(splits));
    SplitsRearranged(splits, xs);
    SamePlaces(named, splits);
    hide NamesEveryone, DistinctBy, PercentageFor;
    if forall k | 0 <= k < |xs| :: PercentageGood(PercentageFor(splits, xs[k].participantId)) {
      forall s | s in splits ensures 0 <= s.percentage <= 100 && s.percentage % 10 == 0 {
        assert s in named;
        var k :| 0 <= k < |named| && named[k] == s;
        assert PercentageGood(PercentageFor(splits, xs[k].participantId));
      }
    }
    if forall s | s in splits :: 0 <= s.percentage <= 100 && s.percentage % 10 == 0 {
      forall k | 0 <= k < |xs| ensures PercentageGood(PercentageFor(splits, xs[k].participantId)) {
        assert named[k] in named;
      }
    }
  }

  lemma PayerNamed(splits: seq<Split>, xs: seq<Allocation>, payer: string)
    ensures (exists p :: p in Map(xs, Resplit(splits)) && p.participantId == payer) <==>
            exists a :: a in xs && a.participantId == payer
  {
    var ps := Map(xs, Resplit(splits));
    if p :| p in ps && p.participantId == payer {
      var k :| 0 <= k < |ps| && ps[k] == p;
      assert xs[k] in xs;
    }
    if a :| a in xs && a.participantId == payer {
      var k :| 0 <= k < |xs| && xs[k] == a;
      assert ps[k] in ps;
    }
  }

  lemma RequestedSays(e: GroupExpense, payer: string, splits: seq<Split>)
    ensures var r := Requested(e, payer, splits);
            && r.id == e.facts.id && r.groupId == e.facts.groupId
            && r.sourceOwnerSubject == e.facts.sourceOwnerSubject && r.occurredOn == e.facts.occurredOn
            && r.amount == e.facts.total && r.payerParticipantId == payer
            && r.participants == Map(e.facts.allocations, Resplit(splits))
  {
  }

  /** The recalculation is accepted exactly for valid percentages that add up and a payer among the participants. */
  lemma RequestedRegisters(e: GroupExpense, payer: string, splits: seq<Split>)
    requires ExpenseGenuine(e) && NamesEveryone(splits, e.facts.allocations)
    ensures Register(Requested(e, payer, splits)).Ok? <==>
            (forall s | s in splits :: 0 <= s.percentage <= 100 && s.percentage % 10 == 0) &&
            Sum(splits, SplitPercentage) == 100 && exists a :: a in e.facts.allocations && a.participantId == payer
  {
    hide *;
    GenuineParts(e);
    RegistrationSays(e.facts);
    RequestedSays(e, payer, splits);
    MayRegisterSays(RegistrationOf(e.facts));
    MayRegisterSays(Requested(e, payer, splits));
    RegisterExact(Requested(e, payer, splits));
    ResplitGood(splits, e.facts.allocations);
    SplitSum(splits, e.facts.allocations);
    PayerNamed(splits, e.facts.allocations, payer);
  }

  /** An allocation at another percentage. */
  function AtPercentage(splits: seq<Split>): Allocation -> Allocation {
    (a: Allocation) => a.(percentage := PercentageFor(splits, a.participantId))
  }

  /** The recalculated allocations stand where the participants stood, at the requested percentages. */
  lemma RequestedPlaces(e: GroupExpense, payer: string, splits: seq<Split>)
    requires ExpenseGenuine(e) && NamesEveryone(splits, e.facts.allocations)
    requires Register(Requested(e, payer, splits)).Ok?
    ensures var xs, after := e.facts.allocations, Register(Requested(e, payer, splits)).value.allocations;
            && |after| == |xs| && FairlyBorne(e.facts.total, payer, after)
            && forall k | 0 <= k < |xs| ::
                 && after[k].participantId == xs[k].participantId && after[k].joinOrder == xs[k].joinOrder
                 && after[k].percentage == PercentageFor(splits, xs[k].participantId)
  {
    var r := Requested(e, payer, splits);
    var xs, after := e.facts.allocations, Register(r).value.allocations;
    hide *;
    GenuineParts(e);
    RequestedSays(e, payer, splits);
    RegisterExact(r);
    EP.RegisteredParts(r);
    RegisteredShares(r, Register(r).value);
    EP.RegistrableParts(r);
    var moved := Map(xs, AtPercentage(splits));
    MovedAlike(splits, xs);
    FairSorted(e.facts.total, e.facts.payerParticipantId, xs);
    FairSorted(r.amount, payer, after);
    MovedSorted(splits, xs);
    GoodIs(r.participants);
    GoodOrders(r.participants);
    EP.SameParticipants(after, moved, r.participants);
    PlacesOf(after, moved, splits, xs);
  }

  lemma MovedAlike(splits: seq<Split>, xs: seq<Allocation>)
    ensures Map(Map(xs, AtPercentage(splits)), ParticipantOf) == Map(xs, Resplit(splits))
  {
  }

  lemma FairSorted(total: int, payer: string, xs: seq<Allocation>)
    requires FairlyBorne(total, payer, xs)
    ensures SortedBy(xs, SnapshotContent.PlacedBefore)
  {
    hide Sum;
    forall i, j | 0 <= i < j < |xs| ensures SnapshotContent.PlacedBefore(xs[i], xs[j]) {
      assert xs[i].joinOrder < xs[j].joinOrder;
    }
  }

  lemma MovedSorted(splits: seq<Split>, xs: seq<Allocation>)
    requires SortedBy(xs, SnapshotContent.PlacedBefore)
    ensures SortedBy(Map(xs, AtPercentage(splits)), SnapshotContent.PlacedBefore)
  {
    forall i, j | 0 <= i < j < |xs|
      ensures SnapshotContent.PlacedBefore(Map(xs, AtPercentage(splits))[i], Map(xs, AtPercentage(splits))[j])
    {
      assert SnapshotContent.PlacedBefore(xs[i], xs[j]);
    }
  }

  lemma GoodOrders(ps: seq<Participant>)
    requires ParticipantsGood(ps)
    ensures DistinctBy(ps, JoinOrderOf)
  {
    hide ParticipantGood;
  }

  lemma PlacesOf(after: seq<Allocation>, moved: seq<Allocation>, splits: seq<Split>, xs: seq<Allocation>)
    requires moved == Map(xs, AtPercentage(splits)) && |after| == |moved|
    requires Map(after, ParticipantOf) == Map(moved, ParticipantOf)
    ensures forall k | 0 <= k < |xs| ::
              && after[k].participantId == xs[k].participantId && after[k].joinOrder == xs[k].joinOrder
              && after[k].percentage == PercentageFor(splits, xs[k].participantId)
  {
    forall k | 0 <= k < |xs| ensures ParticipantOf(after[k]) == ParticipantOf(moved[k]) {
      assert Map(after, ParticipantOf)[k] == Map(moved, ParticipantOf)[k];
    }
  }

  /** The expense has the requested payer and percentages already exactly when recalculating changes neither. */
  lemma AlreadySoIs(e: GroupExpense, payer: string, splits: seq<Split>, after: seq<Allocation>)
    requires NamesEveryone(splits, e.facts.allocations) && |after| == |e.facts.allocations|
    requires forall k | 0 <= k < |after| ::
               after[k].percentage == PercentageFor(splits, e.facts.allocations[k].participantId)
    ensures AlreadySo(e, payer, splits) <==>
            payer == e.facts.payerParticipantId && SamePercentages(after, e.facts.allocations)
  {
    var xs := e.facts.allocations;
    forall s | s in splits ensures PercentageFor(splits, s.participantId) == s.percentage {
      PercentageNamed(splits, s);
    }
    hide PercentageFor;
    if SamePercentages(after, xs) {
      forall s, a | s in splits && a in xs && a.participantId == s.participantId ensures a.percentage == s.percentage {
        var k :| 0 <= k < |xs| && xs[k] == a;
      }
    }
    if AlreadySo(e, payer, splits) {
      forall k | 0 <= k < |xs| ensures after[k].percentage == xs[k].percentage {
        assert xs[k] in xs;
        var s :| s in splits && s.participantId == xs[k].participantId;
      }
    }
  }

  lemma SplitSoIs(before: ExpenseFacts, payer: string, splits: seq<Split>, after: ExpenseFacts)
    requires NamesEveryone(splits, before.allocations) && |after.allocations| == |before.allocations|
    requires after == before.(payerParticipantId := payer, allocations := after.allocations)
    requires FairlyBorne(before.total, payer, after.allocations)
    requires forall k | 0 <= k < |before.allocations| ::
               && after.allocations[k].participantId == before.allocations[k].participantId
               && after.allocations[k].joinOrder == before.allocations[k].joinOrder
               && after.allocations[k].percentage == PercentageFor(splits, before.allocations[k].participantId)
    ensures SplitSo(before, payer, splits, after)
  {
    hide FairlyBorne;
    forall s, a | s in splits && a in after.allocations && a.participantId == s.participantId
      ensures a.percentage == s.percentage
    {
      PercentageNamed(splits, s);
    }
  }

  lemma MaySplitSays(e: GroupExpense, version: int, receiptVersion: int, fact: BundleFact, actor: string, at: Clock,
                     payer: string, splits: seq<Split>)
    ensures MaySplit(e, version, receiptVersion, fact, actor, at, payer, splits) <==>
            SafeInteger(version) && version == e.version && FactFits(e, fact, receiptVersion, actor) && at.Some? &&
            NamesEveryone(splits, e.facts.allocations) &&
            (forall s | s in splits :: 0 <= s.percentage <= 100 && s.percentage % 10 == 0) &&
            Sum(splits, SplitPercentage) == 100 &&
            (exists a :: a in e.facts.allocations && a.participantId == payer) &&
            (AlreadySo(e, payer, splits) || SafeInteger(e.version + 1))
    ensures ExpenseVersionCheck(e, version).Pass? <==> SafeInteger(version) && version == e.version
  {
    hide FactFits, NamesEveryone, AlreadySo, Sum;
  }

  /**
   * A split is changed exactly for complete, valid percentages of the same participants that add up to a hundred, and
   * then everyone bears what was asked for them; asking for what is already so changes nothing.
   */
  lemma SplitExact(e: GroupExpense, version: int, receiptVersion: int, fact: BundleFact, actor: string, at: Clock,
                   payer: string, splits: seq<Split>)
    requires ExpenseGenuine(e)
    ensures ChangeBundleSplit(e, version, receiptVersion, fact, actor, at, payer, splits).Ok? <==>
            MaySplit(e, version, receiptVersion, fact, actor, at, payer, splits)
    ensures ChangeBundleSplit(e, version, receiptVersion, fact, actor, at, payer, splits).Ok? ==>
            at.Some? &&
            SplitTo(e, fact, actor, at.value, payer, splits,
                    ChangeBundleSplit(e, version, receiptVersion, fact, actor, at, payer, splits).value)
  {
    hide *;
    SplitIs(e, version, receiptVersion, fact, actor, at, payer, splits);
    MaySplitSays(e, version, receiptVersion, fact, actor, at, payer, splits);
    FactChecks(e, fact, receiptVersion, actor);
    SameSetIs(splits, e.facts.allocations);
    if NamesEveryone(splits, e.facts.allocations) {
      RequestedRegisters(e, payer, splits);
      var calculated := Register(Requested(e, payer, splits));
      if calculated.Ok? {
        RequestedPlaces(e, payer, splits);
        RequestedSays(e, payer, splits);
        CopiedFacts(Requested(e, payer, splits));
        AlreadySoIs(e, payer, splits, calculated.value.allocations);
        var after := e.facts.(payerParticipantId := payer, allocations := calculated.value.allocations);
        SplitSoIs(e.facts, payer, splits, after);
        if at.Some? {
          SplitToSays(e, fact, actor, at.value, payer, splits, after);
        }
      }
    }
  }

  lemma SplitToSays(e: GroupExpense, fact: BundleFact, actor: string, at: int, payer: string, splits: seq<Split>,
                    after: ExpenseFacts)
    requires SplitSo(e.facts, payer, splits, after)
    ensures AlreadySo(e, payer, splits) ==> SplitTo(e, fact, actor, at, payer, splits, e)
    ensures !AlreadySo(e, payer, splits) ==>
            SplitTo(e, fact, actor, at, payer, splits,
                    e.(facts := after, version := e.version + 1,
                       splits := e.splits + [SplitChange(actor, at, e.version, e.version + 1, fact, e.facts, after)]))
  {
    hide AlreadySo, SplitSo;
  }
}
