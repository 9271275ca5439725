/** When a confirmed receipt's categories and amounts are corrected, and the one receipt that follows. */
module ReceiptCorrections {
  import opened Outcomes
  import opened Sequences
  import opened Text
  import opened TextRules
  import opened ReceiptAdjustments
  import opened AdjustmentOutcomes
  import opened ExpenseRoot
  import opened ReceiptRoot
  import opened ReceiptInvariants
  import RS = ReceiptSystem
  import opened ReceiptOutcomes

  // ---- who may correct, and under which case ----

  /** The uploader or the group's present owner, who knows the receipt's version. */
  ghost predicate MayRevise(r: Receipt, version: int, actor: string, owner: string) {
    && r.current.Confirmed? && -MAX_SAFE <= version <= MAX_SAFE && version == r.version && Written(actor)
    && Written(owner) && (actor == r.current.facts.uploaderSubject || actor == owner)
  }

  ghost predicate Selected(f: ConfirmedFacts, b: Bundle) {
    exists s :: s in f.selections && s.bundleId == b.id
  }

  /** A selected bundle's case was rejected and is at the expected version; a bundle that is not selected has none. */
  ghost predicate CaseStands(f: ConfirmedFacts, b: Bundle, expected: Option<int>, fact: Option<CaseFact>) {
    if Selected(f, b) then
      && fact.Some? && fact.value.groupId == b.groupId && fact.value.expenseId == b.expenseId
      && LowerUuid(fact.value.caseId) && 1 <= fact.value.version <= MAX_SAFE && expected == Some(fact.value.version)
      && fact.value.lifecycle == "Rejected"
    else fact == None && expected == None
  }

  lemma ReviseIs(r: Receipt, version: int, actor: string, owner: string)
    ensures r.current.Confirmed? && VersionCheck(r, version).Pass? &&
            CorrectionActorCheck(r.current.facts, actor, owner).Pass? <==>
            MayRevise(r, version, actor, owner)
  {
    WrittenIs(actor);
    WrittenIs(owner);
    hide Nonempty, Written;
  }

  lemma CaseIs(f: ConfirmedFacts, b: Bundle, expected: Option<int>, fact: Option<CaseFact>, e: ReceiptError)
    ensures CorrectionCaseCheck(f, b, expected, fact, e).Pass? <==> CaseStands(f, b, expected, fact)
  {
    if fact.Some? {
      LowerUuidIs(fact.value.caseId);
    }
    hide CanonicalUuid, LowerUuid;
  }

  // ---- the item and its bundle ----

  /** The item and the bundle that has it. */
  ghost predicate InBundle(f: ConfirmedFacts, id: string, i: ConfirmedItem, b: Bundle) {
    i in f.items && i.id == id && b in f.bundles && id in b.itemIds
  }

  lemma OnlyItem(f: ConfirmedFacts, k: nat, i: ConfirmedItem)
    requires FactsSound(f) && k < |f.items| && i in f.items && i.id == f.items[k].id
    ensures i == f.items[k]
  {
    OneGroup(f);
    hide FactsSound;
    var m :| 0 <= m < |f.items| && f.items[m] == i;
    assert ConfirmedIdOf(f.items[m]) == ConfirmedIdOf(f.items[k]);
  }

  lemma OnlyHolder(f: ConfirmedFacts, k: nat, b: Bundle, id: string)
    requires FactsSound(f) && k < |f.bundles| && b in f.bundles && id in b.itemIds && id in f.bundles[k].itemIds
    ensures b == f.bundles[k]
  {
    hide AmountsSound, SelectionsSound, BundleSound, Nonempty;
    var m :| 0 <= m < |f.bundles| && f.bundles[m] == b;
    assert m < k ==> Apart(f.bundles[m], f.bundles[k]);
    assert k < m ==> Apart(f.bundles[k], f.bundles[m]);
  }

  /** The lookups of an item and of the bundle that has it find the only ones there are. */
  lemma LookupsAre(f: ConfirmedFacts, id: string)
    requires FactsSound(f)
    ensures var k, h := FindItem(f.items, id), BundleHolding(f.bundles, id);
            && (k.Some? && h.Some? ==> InBundle(f, id, f.items[k.value], f.bundles[h.value]))
            && forall i, b | InBundle(f, id, i, b) ::
                 k.Some? && h.Some? && i == f.items[k.value] && b == f.bundles[h.value]
  {
    var k, h := FindItem(f.items, id), BundleHolding(f.bundles, id);
    hide FindItem, BundleHolding, FactsSound;
    forall i, b | InBundle(f, id, i, b)
      ensures k.Some? && h.Some? && i == f.items[k.value] && b == f.bundles[h.value]
    {
      OnlyItem(f, k.value, i);
      OnlyHolder(f, h.value, b, id);
    }
  }

  // ---- categories ----

  ghost predicate MayRecategorise(f: ConfirmedFacts, groupId: string, id: string, category: string,
                                  expected: Option<int>, fact: Option<CaseFact>, i: ConfirmedItem, b: Bundle)
  {
    && InBundle(f, id, i, b) && Written(groupId) && groupId == b.groupId && Written(id) && Written(category)
    && CaseStands(f, b, expected, fact)
  }

  /** The item has the category, everything else is as before. */
  ghost predicate Recategorised(f: ConfirmedFacts, id: string, category: string, f': ConfirmedFacts) {
    && f' == f.(items := f'.items) && |f'.items| == |f.items|
    && forall k | 0 <= k < |f.items| ::
         f'.items[k] == if f.items[k].id == id then f.items[k].(categoryId := category) else f.items[k]
  }

  lemma CategoryUnfolds(r: Receipt, version: int, actor: string, owner: string, at: Clock, groupId: string, id: string,
                        category: string, expected: Option<int>, fact: Option<CaseFact>)
    requires r.current.Confirmed?
    ensures var result := CorrectItemCategory(r, version, actor, owner, at, groupId, id, category, expected, fact);
            var f := r.current.facts;
            var k, h := FindItem(f.items, id), BundleHolding(f.bundles, id);
            if !(k.Some? && h.Some? && at.Some?) then result.Err?
            else
              var b, i := f.bundles[h.value], f.items[k.value];
              var same, after := i.categoryId == category, f.items[k.value := i.(categoryId := category)];
              && (result.Ok? <==>
                    VersionCheck(r, version).Pass? && CorrectionActorCheck(f, actor, owner).Pass? &&
                    Nonempty(groupId) && Nonempty(id) && groupId == b.groupId && Nonempty(category) &&
                    CorrectionCaseCheck(f, b, expected, fact, ItemCategoryNotCorrectable).Pass? &&
                    (same || MoreVersions(r)))
              && (result.Ok? ==>
                    result.value ==
                    if same then r
                    else Advance(r, Confirmed(f.(items := after)), ItemCategoryCorrected(id, fact), actor, at.value))
  {
    hide VersionCheck, CorrectionActorCheck, FindItem, BundleHolding, CorrectionCaseCheck, Nonempty;
  }

  lemma RecategorisedIs(f: ConfirmedFacts, k: nat, category: string)
    requires FactsSound(f) && k < |f.items|
    ensures Recategorised(f, f.items[k].id, category, f.(items := f.items[k := f.items[k].(categoryId := category)]))
  {
    forall m | 0 <= m < |f.items| && f.items[m].id == f.items[k].id ensures m == k {
      SamePlaceOf(f, m, k);
    }
    hide FactsSound;
  }

  lemma SamePlaceOf(f: ConfirmedFacts, m: nat, k: nat)
    requires FactsSound(f) && m < |f.items| && k < |f.items| && f.items[m].id == f.items[k].id
    ensures m == k
  {
    OneGroup(f);
    hide FactsSound;
    assert ConfirmedIdOf(f.items[m]) == ConfirmedIdOf(f.items[k]);
  }

  /** An item's category is corrected exactly for an item of a bundle whose case, if any, was rejected. */
  lemma CategoryExact(r: Receipt, version: int, actor: string, owner: string, at: Clock, groupId: string, id: string,
                      category: string, expected: Option<int>, fact: Option<CaseFact>)
    requires ReceiptSound(r)
    ensures CorrectItemCategory(r, version, actor, owner, at, groupId, id, category, expected, fact).Ok? <==>
            MayRevise(r, version, actor, owner) && at.Some? && exists i, b ::
              MayRecategorise(r.current.facts, groupId, id, category, expected, fact, i, b) &&
              (i.categoryId == category || MoreVersions(r))
    ensures var result := CorrectItemCategory(r, version, actor, owner, at, groupId, id, category, expected, fact);
            result.Ok? && r.current.Confirmed? ==> forall i, b | InBundle(r.current.facts, id, i, b) ::
              if i.categoryId == category then result.value == r
              else
                && result.value.current.Confirmed?
                && Recategorised(r.current.facts, id, category, result.value.current.facts)
                && Noted(r, ItemCategoryCorrected(id, fact), actor, at, result.value.current, result.value)
  {
    hide *;
    ReviseIs(r, version, actor, owner);
    if r.current.Confirmed? {
      var f := r.current.facts;
      SoundFacts(r);
      LookupsAre(f, id);
      WrittenEverywhere();
      CategoryUnfolds(r, version, actor, owner, at, groupId, id, category, expected, fact);
      var k, h := FindItem(f.items, id), BundleHolding(f.bundles, id);
      if k.Some? && h.Some? {
        CaseIs(f, f.bundles[h.value], expected, fact, ItemCategoryNotCorrectable);
        if at.Some? {
          var after := Confirmed(f.(items := f.items[k.value := f.items[k.value].(categoryId := category)]));
          RecategorisedIs(f, k.value, category);
          AdvanceNotes(r, after, ItemCategoryCorrected(id, fact), actor, at.value);
          AdvanceEnds(r, after, ItemCategoryCorrected(id, fact), actor, at.value);
        }
      }
      forall i, b {
        RecategoriseSays(f, groupId, id, category, expected, fact, i, b);
      }
    } else {
      CategoryNeedsConfirmed(r, version, actor, owner, at, groupId, id, category, expected, fact);
    }
  }

  lemma RecategoriseSays(f: ConfirmedFacts, groupId: string, id: string, category: string, expected: Option<int>,
                         fact: Option<CaseFact>, i: ConfirmedItem, b: Bundle)
    ensures MayRecategorise(f, groupId, id, category, expected, fact, i, b) <==>
            InBundle(f, id, i, b) && Written(groupId) && groupId == b.groupId && Written(id) && Written(category) &&
            CaseStands(f, b, expected, fact)
  {
    hide InBundle, Written, CaseStands;
  }

  lemma CategoryNeedsConfirmed(r: Receipt, version: int, actor: string, owner: string, at: Clock, groupId: string,
                               id: string, category: string, expected: Option<int>, fact: Option<CaseFact>)
    requires !r.current.Confirmed?
    ensures CorrectItemCategory(r, version, actor, owner, at, groupId, id, category, expected, fact).Err?
  {
  }

  // ---- amounts ----

  /** What an adjustment's spread gives to the item at a place. */
  function GivenTo(spreads: seq<Spread>, j: int, k: int): int {
    if 0 <= j < |spreads| && 0 <= k < |spreads[j].amounts| then spreads[j].amounts[k] else 0
  }

  /** The item's amounts or its part of some adjustment differ, or it counts anyway. */
  ghost predicate ItemAffected(f: ConfirmedFacts, c: Calculation, included: set<string>, k: int)
    requires 0 <= k < |f.items| && |c.items| == |f.items|
  {
    || f.items[k].id in included
    || f.items[k].originalAmount != c.items[k].originalAmount
    || f.items[k].adjustedAmount != c.items[k].adjustedAmount
    || exists j :: 0 <= j < |f.allocations| && GivenTo(f.allocations, j, k) != GivenTo(c.allocations, j, k)
  }

  ghost predicate Affected(f: ConfirmedFacts, c: Calculation, included: set<string>, b: Bundle)
    requires |c.items| == |f.items|
  {
    b in f.bundles && exists k :: 0 <= k < |f.items| && f.items[k].id in b.itemIds && ItemAffected(f, c, included, k)
  }

  /** The affected bundle is of the group, and the case named for it stands. */
  ghost predicate CaseNamed(f: ConfirmedFacts, input: FinancialInput, b: Bundle, x: AffectedCase) {
    && x in input.cases && x.bundleId == b.id && b.groupId == input.groupId
    && CaseStands(f, b, x.expectedCaseVersion, x.caseFact)
  }

  ghost predicate HasCase(f: ConfirmedFacts, input: FinancialInput, b: Bundle) {
    exists x :: CaseNamed(f, input, b, x)
  }

  ghost predicate NamesAffected(f: ConfirmedFacts, c: Calculation, included: set<string>, id: string)
    requires |c.items| == |f.items|
  {
    exists b :: Affected(f, c, included, b) && b.id == id
  }

  ghost predicate NamedOnce(cases: seq<AffectedCase>) {
    forall i, j | 0 <= i < j < |cases| :: cases[i].bundleId != cases[j].bundleId
  }

  /** Every affected bundle is named once, with a case that stands, and no other bundle is named. */
  ghost predicate CasesCover(f: ConfirmedFacts, c: Calculation, included: set<string>, input: FinancialInput)
    requires |c.items| == |f.items|
  {
    && (exists b :: Affected(f, c, included, b))
    && (forall b | Affected(f, c, included, b) :: HasCase(f, input, b))
    && (forall x | x in input.cases :: NamesAffected(f, c, included, x.bundleId)) && NamedOnce(input.cases)
  }

  /** The amounts can be calculated anew, add up to the declared total, and affect the bundles the input names. */
  ghost predicate Revalued(f: ConfirmedFacts, items: seq<Item>, adjustments: seq<Adjustment>, included: set<string>,
                           input: FinancialInput, c: Calculation)
  {
    && |items| == |f.items| == |c.items| && 0 <= input.declaredTotal <= MAX_SAFE
    && Calculable(items, adjustments) && CalculatedAs(items, adjustments, c)
    && Sum(c.items, AdjustedOf) == input.declaredTotal && CasesCover(f, c, included, input)
  }

  /** The facts with the new total, adjustments, amounts and spreads, everything else as before. */
  ghost predicate RevaluedTo(f: ConfirmedFacts, adjustments: seq<Adjustment>, input: FinancialInput, c: Calculation,
                             f': ConfirmedFacts)
  {
    && f' == f.(declaredTotal := input.declaredTotal, adjustments := adjustments, items := f'.items,
                allocations := c.allocations)
    && |f'.items| == |f.items| == |c.items|
    && forall k | 0 <= k < |f.items| ::
         f'.items[k] == f.items[k].(originalAmount := c.items[k].originalAmount,
                                    adjustedAmount := c.items[k].adjustedAmount)
  }

  /** The named cases, in the order of the bundles. */
  ghost predicate ByBundle(f: ConfirmedFacts, cases: seq<AffectedCase>, listed: seq<AffectedCase>) {
    && |listed| == |cases| && (forall x :: x in listed <==> x in cases)
    && forall m, n | 0 <= m < n < |listed| :: Listed(f.bundles, listed[m].bundleId, listed[n].bundleId)
  }

  ghost predicate Listed(bundles: seq<Bundle>, id: string, later: string) {
    exists k, l :: 0 <= k < l < |bundles| && bundles[k].id == id && bundles[l].id == later
  }

  lemma AffectedIs(f: ConfirmedFacts, c: Calculation, included: set<string>, b: Bundle)
    requires |c.items| == |f.items|
    ensures b in AffectedBundles(f, c, included, f.bundles) <==> Affected(f, c, included, b)
  {
    forall k | 0 <= k < |f.items| ensures Touched(f, c, included, k) <==> ItemAffected(f, c, included, k) {
      TouchedIs(f, c, included, k);
    }
    hide AffectedBundles, Touched, ItemAffected;
  }

  lemma TouchedIs(f: ConfirmedFacts, c: Calculation, included: set<string>, k: nat)
    requires |c.items| == |f.items| && k < |f.items|
    ensures Touched(f, c, included, k) <==> ItemAffected(f, c, included, k)
  {
    forall j | 0 <= j < |f.allocations|
      ensures Given(f.allocations, j, k) == GivenTo(f.allocations, j, k)
      ensures Given(c.allocations, j, k) == GivenTo(c.allocations, j, k)
    {
    }
    hide Given, GivenTo;
  }

  lemma {:induction false} EachChecked(f: ConfirmedFacts, bundles: seq<Bundle>, groupId: string,
                                       cases: seq<AffectedCase>, e: ReceiptError)
    ensures AffectedCheck(f, bundles, groupId, cases, e).Pass? <==> forall b | b in bundles ::
              b.groupId == groupId && FactFor(cases, b.id).Some? &&
              CaseStands(f, b, FactFor(cases, b.id).value.expectedCaseVersion, FactFor(cases, b.id).value.caseFact)
  {
    hide CorrectionCaseCheck, FactFor, CaseStands;
    if bundles != [] {
      EachChecked(f, bundles[1..], groupId, cases, e);
      if FactFor(cases, bundles[0].id).Some? {
        var x := FactFor(cases, bundles[0].id).value;
        CaseIs(f, bundles[0], x.expectedCaseVersion, x.caseFact, e);
      }
      assert forall b :: b in bundles <==> b == bundles[0] || b in bundles[1..];
    }
  }

  lemma CaseFound(cases: seq<AffectedCase>, x: AffectedCase)
    requires NamedOnce(cases) && x in cases
    ensures FactFor(cases, x.bundleId) == Some(x)
  {
    var found := FactFor(cases, x.bundleId).value;
    var m :| 0 <= m < |cases| && cases[m] == x;
    var n :| 0 <= n < |cases| && cases[n] == found;
    assert cases[m].bundleId == cases[n].bundleId;
  }

  function CaseBundle(x: AffectedCase): string { x.bundleId }

  lemma NamesOf<T>(xs: seq<T>, name: T -> string)
    ensures forall id :: id in Elements(Map(xs, name)) <==> exists x :: x in xs && name(x) == id
  {
    forall x | x in xs ensures name(x) in Map(xs, name) {
      var k :| 0 <= k < |xs| && xs[k] == x;
      assert Map(xs, name)[k] == name(x);
    }
    forall id | id in Map(xs, name) ensures exists x :: x in xs && name(x) == id {
      var k :| 0 <= k < |xs| && Map(xs, name)[k] == id;
      assert xs[k] in xs;
    }
  }

  lemma AsManyNames<T>(xs: seq<T>, name: T -> string)
    requires forall i, j | 0 <= i < j < |xs| :: name(xs[i]) != name(xs[j])
    ensures |Elements(Map(xs, name))| == |xs|
  {
    DistinctElements(Map(xs, name));
  }

  /** Lists that name the same identifiers, none twice, are equally long. */
  lemma EquallyLong(cases: seq<AffectedCase>, bundles: seq<Bundle>)
    requires NamedOnce(cases) && DistinctBy(bundles, BundleIdOf)
    requires (forall x | x in cases :: exists b :: b in bundles && b.id == x.bundleId)
    requires (forall b | b in bundles :: exists x :: x in cases && x.bundleId == b.id)
    ensures |cases| == |bundles|
  {
    CasesNamed(cases);
    AsManyNames(bundles, BundleIdOf);
    NamesOf(cases, CaseBundle);
    NamesOf(bundles, BundleIdOf);
    hide Elements, Map, DistinctBy, NamedOnce;
    assert Elements(Map(cases, CaseBundle)) == Elements(Map(bundles, BundleIdOf));
  }

  lemma CasesNamed(cases: seq<AffectedCase>)
    requires NamedOnce(cases)
    ensures |Elements(Map(cases, CaseBundle))| == |cases|
  {
    AsManyNames(cases, CaseBundle);
  }

  lemma CoverSays(cases: seq<AffectedCase>, bundles: seq<Bundle>)
    requires DistinctBy(bundles, BundleIdOf) && forall b | b in bundles :: FactFor(cases, b.id).Some?
    ensures CoversAffected(cases, bundles) <==>
            NamedOnce(cases) && forall x | x in cases :: exists b :: b in bundles && b.id == x.bundleId
  {
    CoverUnfolds(cases, bundles);
    forall b | b in bundles ensures exists x :: x in cases && x.bundleId == b.id {
      assert FactFor(cases, b.id).value in cases;
    }
    hide *;
    if NamedOnce(cases) && forall x | x in cases :: exists b :: b in bundles && b.id == x.bundleId {
      EquallyLong(cases, bundles);
    }
  }

  lemma CoverUnfolds(cases: seq<AffectedCase>, bundles: seq<Bundle>)
    ensures CoversAffected(cases, bundles) <==>
            |cases| == |bundles| && NamedOnce(cases) &&
            forall x | x in cases :: exists b :: b in bundles && b.id == x.bundleId
  {
  }

  lemma DistinctAffected(f: ConfirmedFacts, c: Calculation, included: set<string>)
    requires FactsSound(f) && |c.items| == |f.items|
    ensures DistinctBy(AffectedBundles(f, c, included, f.bundles), BundleIdOf)
    ensures forall b :: b in AffectedBundles(f, c, included, f.bundles) <==> Affected(f, c, included, b)
  {
    hide *;
    RS.BundlesDistinct(f);
    RS.AffectedDistinct(f, c, included, f.bundles);
    forall b ensures b in AffectedBundles(f, c, included, f.bundles) <==> Affected(f, c, included, b) {
      AffectedIs(f, c, included, b);
    }
  }

  /** The checks on the named cases pass exactly when the cases cover the affected bundles. */
  lemma CoverIs(f: ConfirmedFacts, c: Calculation, included: set<string>, input: FinancialInput, e: ReceiptError)
    requires FactsSound(f) && |c.items| == |f.items|
    ensures var affected := AffectedBundles(f, c, included, f.bundles);
            affected != [] && CoversAffected(input.cases, affected) &&
            AffectedCheck(f, affected, input.groupId, input.cases, e).Pass? <==>
            CasesCover(f, c, included, input)
  {
    var affected := AffectedBundles(f, c, included, f.bundles);
    hide *;
    DistinctAffected(f, c, included);
    EachChecked(f, affected, input.groupId, input.cases, e);
    if affected != [] && AffectedCheck(f, affected, input.groupId, input.cases, e).Pass? &&
       CoversAffected(input.cases, affected) {
      ChecksCover(f, c, included, input, affected);
    }
    if CasesCover(f, c, included, input) {
      CoverChecks(f, c, included, input, affected);
    }
  }

  lemma ChecksCover(f: ConfirmedFacts, c: Calculation, included: set<string>, input: FinancialInput,
                    affected: seq<Bundle>)
    requires |c.items| == |f.items| && (forall b :: b in affected <==> Affected(f, c, included, b)) && affected != []
    requires DistinctBy(affected, BundleIdOf) && CoversAffected(input.cases, affected)
    requires forall b | b in affected ::
               b.groupId == input.groupId && FactFor(input.cases, b.id).Some? &&
               CaseStands(f, b, FactFor(input.cases, b.id).value.expectedCaseVersion,
                          FactFor(input.cases, b.id).value.caseFact)
    ensures CasesCover(f, c, included, input)
  {
    hide *;
    CoverSays(input.cases, affected);
    forall b | b in affected ensures HasCase(f, input, b) {
      CaseHas(f, input, b, FactFor(input.cases, b.id).value);
    }
    CasesCoverWhen(f, c, included, input, affected);
  }

  lemma CoverChecks(f: ConfirmedFacts, c: Calculation, included: set<string>, input: FinancialInput,
                    affected: seq<Bundle>)
    requires |c.items| == |f.items| && (forall b :: b in affected <==> Affected(f, c, included, b))
    requires DistinctBy(affected, BundleIdOf) && CasesCover(f, c, included, input)
    ensures affected != [] && CoversAffected(input.cases, affected)
    ensures forall b | b in affected ::
              b.groupId == input.groupId && FactFor(input.cases, b.id).Some? &&
              CaseStands(f, b, FactFor(input.cases, b.id).value.expectedCaseVersion,
                         FactFor(input.cases, b.id).value.caseFact)
  {
    hide *;
    CasesCoverSays(f, c, included, input);
    forall b | b in affected
      ensures b.groupId == input.groupId && FactFor(input.cases, b.id).Some?
      ensures CaseStands(f, b, FactFor(input.cases, b.id).value.expectedCaseVersion,
                         FactFor(input.cases, b.id).value.caseFact)
    {
      var x := CaseIn(f, input, b);
      CaseFound(input.cases, x);
    }
    CoverSays(input.cases, affected);
  }

  lemma CaseHas(f: ConfirmedFacts, input: FinancialInput, b: Bundle, x: AffectedCase)
    requires x in input.cases && x.bundleId == b.id && b.groupId == input.groupId
    requires CaseStands(f, b, x.expectedCaseVersion, x.caseFact)
    ensures HasCase(f, input, b)
  {
    hide CaseStands;
    assert CaseNamed(f, input, b, x);
  }

  lemma CaseIn(f: ConfirmedFacts, input: FinancialInput, b: Bundle) returns (x: AffectedCase)
    requires HasCase(f, input, b)
    ensures x in input.cases && x.bundleId == b.id && b.groupId == input.groupId
    ensures CaseStands(f, b, x.expectedCaseVersion, x.caseFact)
  {
    hide CaseStands;
    x :| CaseNamed(f, input, b, x);
  }

  lemma CasesCoverSays(f: ConfirmedFacts, c: Calculation, included: set<string>, input: FinancialInput)
    requires |c.items| == |f.items| && CasesCover(f, c, included, input)
    ensures (exists b :: Affected(f, c, included, b)) && NamedOnce(input.cases)
    ensures forall b | Affected(f, c, included, b) :: HasCase(f, input, b)
    ensures forall x | x in input.cases :: exists b :: Affected(f, c, included, b) && b.id == x.bundleId
  {
    hide Affected, HasCase, NamedOnce;
    forall x | x in input.cases ensures exists b :: Affected(f, c, included, b) && b.id == x.bundleId {
      assert NamesAffected(f, c, included, x.bundleId);
    }
  }

  lemma CasesCoverWhen(f: ConfirmedFacts, c: Calculation, included: set<string>, input: FinancialInput,
                       affected: seq<Bundle>)
    requires |c.items| == |f.items| && forall b :: b in affected <==> Affected(f, c, included, b)
    ensures affected != [] && NamedOnce(input.cases) && (forall b | b in affected :: HasCase(f, input, b)) &&
            (forall x | x in input.cases :: exists b :: b in affected && b.id == x.bundleId) ==>
            CasesCover(f, c, included, input)
  {
    hide Affected, HasCase, NamedOnce;
    if affected != [] {
      assert affected[0] in affected;
    }
  }

  // ---- the cases in the order of the bundles ----

  lemma {:induction false} InOrderCases(bundles: seq<Bundle>, cases: seq<AffectedCase>)
    requires forall b | b in bundles :: FactFor(cases, b.id).Some?
    ensures |InBundleOrder(bundles, cases)| == |bundles|
    ensures forall k | 0 <= k < |bundles| ::
              FactFor(cases, bundles[k].id) == Some(InBundleOrder(bundles, cases)[k])
  {
    hide FactFor;
    if bundles != [] {
      InOrderCases(bundles[1..], cases);
      assert InBundleOrder(bundles, cases) ==
        [FactFor(cases, bundles[0].id).value] + InBundleOrder(bundles[1..], cases);
    }
  }

  lemma {:induction false} AffectedInOrder(f: ConfirmedFacts, c: Calculation, included: set<string>,
                                           bundles: seq<Bundle>, m: nat, n: nat)
    requires |c.items| == |f.items| && m < n < |AffectedBundles(f, c, included, bundles)|
    ensures var affected := AffectedBundles(f, c, included, bundles);
            Listed(bundles, affected[m].id, affected[n].id)
  {
    hide TouchedBundle, Listed;
    var rest := AffectedBundles(f, c, included, bundles[1..]);
    if !TouchedBundle(f, c, included, bundles[0]) {
      assert AffectedBundles(f, c, included, bundles) == rest;
      AffectedInOrder(f, c, included, bundles[1..], m, n);
      ListedMore(bundles, rest[m].id, rest[n].id);
    } else if m > 0 {
      assert AffectedBundles(f, c, included, bundles) == [bundles[0]] + rest;
      AffectedInOrder(f, c, included, bundles[1..], m - 1, n - 1);
      ListedMore(bundles, rest[m - 1].id, rest[n - 1].id);
    } else {
      assert AffectedBundles(f, c, included, bundles) == [bundles[0]] + rest;
      assert rest[n - 1] in rest && rest[n - 1] in bundles[1..];
      ListedFirst(bundles, rest[n - 1]);
    }
  }

  lemma ListedMore(bundles: seq<Bundle>, id: string, later: string)
    requires bundles != [] && Listed(bundles[1..], id, later)
    ensures Listed(bundles, id, later)
  {
    var k, l :| 0 <= k < l < |bundles[1..]| && bundles[1..][k].id == id && bundles[1..][l].id == later;
    assert bundles[k + 1].id == id && bundles[l + 1].id == later;
  }

  lemma ListedFirst(bundles: seq<Bundle>, later: Bundle)
    requires bundles != [] && later in bundles[1..]
    ensures Listed(bundles, bundles[0].id, later.id)
  {
    var l :| 0 <= l < |bundles[1..]| && bundles[1..][l] == later;
    assert bundles[0].id == bundles[0].id && bundles[l + 1].id == later.id;
  }

  /** The recorded cases are the named ones, in the order of the bundles. */
  lemma CasesInOrder(f: ConfirmedFacts, c: Calculation, included: set<string>, input: FinancialInput)
    requires FactsSound(f) && |c.items| == |f.items| && CasesCover(f, c, included, input)
    ensures ByBundle(f, input.cases, InBundleOrder(AffectedBundles(f, c, included, f.bundles), input.cases))
  {
    hide *;
    var affected := AffectedBundles(f, c, included, f.bundles);
    var listed := InBundleOrder(affected, input.cases);
    DistinctAffected(f, c, included);
    CoverChecks(f, c, included, input, affected);
    CoverUnfolds(input.cases, affected);
    InOrderCases(affected, input.cases);
    forall x ensures x in listed <==> x in input.cases {
      if x in listed {
        var k :| 0 <= k < |listed| && listed[k] == x;
        assert FactFor(input.cases, affected[k].id) == Some(x);
      }
      if x in input.cases {
        CaseFound(input.cases, x);
        var b :| b in affected && b.id == x.bundleId;
        var k :| 0 <= k < |affected| && affected[k] == b;
        assert listed[k] == x;
      }
    }
    forall m, n | 0 <= m < n < |listed| ensures Listed(f.bundles, listed[m].bundleId, listed[n].bundleId) {
      AffectedInOrder(f, c, included, f.bundles, m, n);
    }
    ByBundleWhen(f, input.cases, listed);
  }

  lemma ByBundleWhen(f: ConfirmedFacts, cases: seq<AffectedCase>, listed: seq<AffectedCase>)
    requires |listed| == |cases| && (forall x :: x in listed <==> x in cases)
    requires forall m, n | 0 <= m < n < |listed| :: Listed(f.bundles, listed[m].bundleId, listed[n].bundleId)
    ensures ByBundle(f, cases, listed)
  {
    hide Listed;
  }

  // ---- the candidate ----

  lemma CandidateUnfolds(f: ConfirmedFacts, input: FinancialInput, items: seq<Item>, adjustments: seq<Adjustment>,
                         included: set<string>, e: ReceiptError)
    requires |items| == |f.items|
    ensures var result := FinancialCandidate(f, input, items, adjustments, included, e);
            var calculated := Calculate(items, adjustments);
            if calculated.Err? then result.Err?
            else
              var c := calculated.value;
              var affected := AffectedBundles(f, c, included, f.bundles);
              && (result.Ok? <==>
                    0 <= input.declaredTotal <= MAX_SAFE && Sum(c.items, AdjustedAmountOf) == input.declaredTotal &&
                    affected != [] && CoversAffected(input.cases, affected) &&
                    AffectedCheck(f, affected, input.groupId, input.cases, e).Pass?)
              && (result.Ok? ==>
                    result.value.0 == f.(declaredTotal := input.declaredTotal, adjustments := adjustments,
                                         items := Recalculated(f.items, c.items), allocations := c.allocations) &&
                    result.value.1 == InBundleOrder(affected, input.cases))
  {
    hide Calculate, AffectedBundles, CoversAffected, AffectedCheck, InBundleOrder, Recalculated, Sum;
  }

  lemma RevaluedIs(f: ConfirmedFacts, items: seq<Item>, adjustments: seq<Adjustment>, included: set<string>,
                   input: FinancialInput, c: Calculation)
    requires |items| == |f.items|
    ensures Revalued(f, items, adjustments, included, input, c) <==>
            Calculate(items, adjustments) == Ok(c) && |c.items| == |f.items| &&
            0 <= input.declaredTotal <= MAX_SAFE && Sum(c.items, AdjustedAmountOf) == input.declaredTotal &&
            CasesCover(f, c, included, input)
  {
    CalculateExact(items, adjustments, c);
    SumsAlike(c.items, c.items, AdjustedAmountOf, AdjustedOf);
    hide Calculate, Calculable, CalculatedAs, Sum, CasesCover;
  }

  /** A candidate is drawn up exactly for amounts that can be revalued, and is their revaluation. */
  lemma CandidateExact(f: ConfirmedFacts, input: FinancialInput, items: seq<Item>, adjustments: seq<Adjustment>,
                       included: set<string>, e: ReceiptError)
    requires FactsSound(f) && |items| == |f.items|
    ensures var result := FinancialCandidate(f, input, items, adjustments, included, e);
            && (result.Ok? <==> exists c :: Revalued(f, items, adjustments, included, input, c))
            && (result.Ok? ==> forall c | Revalued(f, items, adjustments, included, input, c) ::
                                 && RevaluedTo(f, adjustments, input, c, result.value.0)
                                 && ByBundle(f, input.cases, result.value.1))
  {
    hide *;
    CandidateUnfolds(f, input, items, adjustments, included, e);
    var calculated := Calculate(items, adjustments);
    if calculated.Ok? {
      var c := calculated.value;
      assert |c.items| == |f.items|;
      CoverIs(f, c, included, input, e);
      RevaluedIs(f, items, adjustments, included, input, c);
      if CasesCover(f, c, included, input) {
        CasesInOrder(f, c, included, input);
        RecalculatedIs(f, adjustments, input, c);
      }
    }
    forall c {
      RevaluedIs(f, items, adjustments, included, input, c);
    }
  }

  lemma RecalculatedIs(f: ConfirmedFacts, adjustments: seq<Adjustment>, input: FinancialInput, c: Calculation)
    requires |c.items| == |f.items|
    ensures RevaluedTo(f, adjustments, input, c,
                       f.(declaredTotal := input.declaredTotal, adjustments := adjustments,
                          items := Recalculated(f.items, c.items), allocations := c.allocations))
  {
  }

  // ---- correcting an item's amount ----

  /** The items as they were read, one of them with another amount. */
  ghost predicate ItemsWith(f: ConfirmedFacts, id: string, amount: int, items: seq<Item>) {
    && |items| == |f.items|
    && forall k | 0 <= k < |f.items| ::
         items[k] == Item(f.items[k].id, if f.items[k].id == id then amount else f.items[k].originalAmount)
  }

  ghost predicate Reasoned(reason: string, input: FinancialInput) {
    Written(reason) && Written(input.groupId)
  }

  ghost predicate MayRevalueItem(f: ConfirmedFacts, reason: string, id: string, amount: int, input: FinancialInput,
                                 i: ConfirmedItem, b: Bundle, items: seq<Item>, c: Calculation)
  {
    && Reasoned(reason, input) && Written(id) && InBundle(f, id, i, b) && b.groupId == input.groupId
    && ItemsWith(f, id, amount, items) && Revalued(f, items, f.adjustments, {id}, input, c)
  }

  /** The step notes the correction with the cases named for it. */
  ghost predicate Corrected(r: Receipt, correction: Correction, actor: string, owner: string, at: Clock, reason: string,
                            adjustments: seq<Adjustment>, input: FinancialInput, c: Calculation, r': Receipt)
    requires r.current.Confirmed?
  {
    && r'.current.Confirmed? && RevaluedTo(r.current.facts, adjustments, input, c, r'.current.facts)
    && exists listed ::
         ByBundle(r.current.facts, input.cases, listed) &&
         Noted(r, FinancialCorrected(correction, owner, input.groupId, reason, listed), actor, at, r'.current, r')
  }

  lemma ItemUnfolds(r: Receipt, version: int, actor: string, owner: string, at: Clock, reason: string, id: string,
                    amount: int, input: FinancialInput)
    requires r.current.Confirmed?
    ensures var result := CorrectItemAmount(r, version, actor, owner, at, reason, id, amount, input);
            var f := r.current.facts;
            var k, h := FindItem(f.items, id), BundleHolding(f.bundles, id);
            if !(k.Some? && h.Some? && at.Some?) then result.Err?
            else
              var candidate := FinancialCandidate(f, input, Inputs(f.items)[k.value := Item(id, amount)], f.adjustments,
                                                  {id}, ItemAmountNotCorrectable);
              var same := f.items[k.value].originalAmount == amount;
              && (result.Ok? <==>
                    VersionCheck(r, version).Pass? && CorrectionActorCheck(f, actor, owner).Pass? &&
                    Nonempty(reason) && Nonempty(input.groupId) && Nonempty(id) &&
                    f.bundles[h.value].groupId == input.groupId && candidate.Ok? && (same || MoreVersions(r)))
              && (result.Ok? ==>
                    result.value ==
                    if same then r
                    else Advance(r, Confirmed(candidate.value.0),
                                 FinancialCorrected(ItemAmount(id), owner, input.groupId, reason, candidate.value.1),
                                 actor, at.value))
  {
    hide VersionCheck, CorrectionActorCheck, FindItem, BundleHolding, FinancialCandidate, Nonempty, Inputs;
  }

  lemma InputsWith(f: ConfirmedFacts, k: nat, amount: int, items: seq<Item>)
    requires FactsSound(f) && k < |f.items|
    ensures ItemsWith(f, f.items[k].id, amount, items) <==> items == Inputs(f.items)[k := Item(f.items[k].id, amount)]
  {
    forall m | 0 <= m < |f.items| && f.items[m].id == f.items[k].id ensures m == k {
      SamePlaceOf(f, m, k);
    }
    hide FactsSound;
  }

  lemma CorrectedWhen(r: Receipt, correction: Correction, actor: string, owner: string, at: Clock, reason: string,
                      adjustments: seq<Adjustment>, input: FinancialInput, c: Calculation, f': ConfirmedFacts,
                      listed: seq<AffectedCase>)
    requires r.current.Confirmed? && at.Some? && RevaluedTo(r.current.facts, adjustments, input, c, f')
    requires ByBundle(r.current.facts, input.cases, listed)
    ensures Corrected(r, correction, actor, owner, at, reason, adjustments, input, c,
                      Advance(r, Confirmed(f'), FinancialCorrected(correction, owner, input.groupId, reason, listed),
                              actor, at.value))
  {
    hide RevaluedTo, ByBundle;
    var action := FinancialCorrected(correction, owner, input.groupId, reason, listed);
    AdvanceNotes(r, Confirmed(f'), action, actor, at.value);
    AdvanceEnds(r, Confirmed(f'), action, actor, at.value);
    hide Advance, Noted;
  }

  /** An item's amount is corrected exactly where the receipt can be revalued with it, and the receipt is revalued. */
  lemma ItemAmountExact(r: Receipt, version: int, actor: string, owner: string, at: Clock, reason: string, id: string,
                        amount: int, input: FinancialInput)
    requires ReceiptSound(r)
    ensures CorrectItemAmount(r, version, actor, owner, at, reason, id, amount, input).Ok? <==>
            MayRevise(r, version, actor, owner) && at.Some? && exists i, b, items, c ::
              MayRevalueItem(r.current.facts, reason, id, amount, input, i, b, items, c) &&
              (i.originalAmount == amount || MoreVersions(r))
    ensures var result := CorrectItemAmount(r, version, actor, owner, at, reason, id, amount, input);
            result.Ok? && r.current.Confirmed? ==>
            forall i, b, items, c | MayRevalueItem(r.current.facts, reason, id, amount, input, i, b, items, c) ::
              if i.originalAmount == amount then result.value == r
              else Corrected(r, ItemAmount(id), actor, owner, at, reason, r.current.facts.adjustments, input, c,
                             result.value)
  {
    hide *;
    ReviseIs(r, version, actor, owner);
    if r.current.Confirmed? {
      var f := r.current.facts;
      SoundFacts(r);
      LookupsAre(f, id);
      WrittenEverywhere();
      ItemUnfolds(r, version, actor, owner, at, reason, id, amount, input);
      var k, h := FindItem(f.items, id), BundleHolding(f.bundles, id);
      forall i, b, items, c {
        RevalueItemSays(f, reason, id, amount, input, i, b, items, c);
      }
      if k.Some? && h.Some? {
        var items := Inputs(f.items)[k.value := Item(id, amount)];
        forall other {
          InputsWith(f, k.value, amount, other);
        }
        CandidateExact(f, input, items, f.adjustments, {id}, ItemAmountNotCorrectable);
        var candidate := FinancialCandidate(f, input, items, f.adjustments, {id}, ItemAmountNotCorrectable);
        if candidate.Ok? && at.Some? {
          forall c | Revalued(f, items, f.adjustments, {id}, input, c)
            ensures Corrected(r, ItemAmount(id), actor, owner, at, reason, f.adjustments, input, c,
                              Advance(r, Confirmed(candidate.value.0),
                                      FinancialCorrected(ItemAmount(id), owner, input.groupId, reason,
                                                         candidate.value.1), actor, at.value))
          {
            CorrectedWhen(r, ItemAmount(id), actor, owner, at, reason, f.adjustments, input, c, candidate.value.0,
                          candidate.value.1);
          }
        }
      }
    } else {
      AmountsNeedConfirmed(r, version, actor, owner, at, reason, id, 0, amount, input);
    }
  }

  lemma RevalueItemSays(f: ConfirmedFacts, reason: string, id: string, amount: int, input: FinancialInput,
                        i: ConfirmedItem, b: Bundle, items: seq<Item>, c: Calculation)
    ensures MayRevalueItem(f, reason, id, amount, input, i, b, items, c) <==>
            Written(reason) && Written(input.groupId) && Written(id) && InBundle(f, id, i, b) &&
            b.groupId == input.groupId && ItemsWith(f, id, amount, items) &&
            Revalued(f, items, f.adjustments, {id}, input, c)
  {
    hide Written, InBundle, ItemsWith, Revalued;
  }

  lemma AmountsNeedConfirmed(r: Receipt, version: int, actor: string, owner: string, at: Clock, reason: string,
                             id: string, index: int, amount: int, input: FinancialInput)
    requires !r.current.Confirmed?
    ensures CorrectItemAmount(r, version, actor, owner, at, reason, id, amount, input).Err?
    ensures CorrectAdjustmentAmount(r, version, actor, owner, at, reason, index, amount, input).Err?
    ensures !MayRevise(r, version, actor, owner)
  {
  }

  // ---- correcting an adjustment's amount ----

  /** The adjustments, one of them with another amount. */
  ghost predicate AdjustmentsWith(before: seq<Adjustment>, index: int, amount: int, after: seq<Adjustment>) {
    && |after| == |before|
    && forall k | 0 <= k < |before| :: after[k] == if k == index then before[k].(amount := amount) else before[k]
  }

  /** Where the amount stays as it is, the items that carry something of the adjustment; none otherwise. */
  ghost predicate Carries(f: ConfirmedFacts, index: int, same: bool, id: string) {
    same && exists k :: 0 <= k < |f.items| && f.items[k].id == id && GivenTo(f.allocations, index, k) != 0
  }

  ghost predicate MayRevalueAdjustment(f: ConfirmedFacts, reason: string, index: int, amount: int,
                                       input: FinancialInput, items: seq<Item>, adjustments: seq<Adjustment>,
                                       included: set<string>, c: Calculation)
  {
    && Reasoned(reason, input) && 0 <= index < |f.adjustments| && |items| == |f.items|
    && (forall k | 0 <= k < |f.items| :: items[k] == Item(f.items[k].id, f.items[k].originalAmount))
    && AdjustmentsWith(f.adjustments, index, amount, adjustments)
    && (forall id :: id in included <==> Carries(f, index, f.adjustments[index].amount == amount, id))
    && Revalued(f, items, adjustments, included, input, c)
  }

  lemma AdjustmentUnfolds(r: Receipt, version: int, actor: string, owner: string, at: Clock, reason: string, index: int,
                          amount: int, input: FinancialInput)
    requires r.current.Confirmed?
    ensures var result := CorrectAdjustmentAmount(r, version, actor, owner, at, reason, index, amount, input);
            var f := r.current.facts;
            if !(0 <= index < |f.adjustments| && at.Some?) then result.Err?
            else
              var same := f.adjustments[index].amount == amount;
              var candidate := FinancialCandidate(f, input, Inputs(f.items),
                                                  f.adjustments[index := f.adjustments[index].(amount := amount)],
                                                  Footprint(f, index, same), AdjustmentAmountNotCorrectable);
              && (result.Ok? <==>
                    VersionCheck(r, version).Pass? && CorrectionActorCheck(f, actor, owner).Pass? &&
                    Nonempty(reason) && Nonempty(input.groupId) && candidate.Ok? && (same || MoreVersions(r)))
              && (result.Ok? ==>
                    result.value ==
                    if same then r
                    else Advance(r, Confirmed(candidate.value.0),
                                 FinancialCorrected(AdjustmentAmount(index), owner, input.groupId, reason,
                                                    candidate.value.1), actor, at.value))
  {
    hide VersionCheck, CorrectionActorCheck, FinancialCandidate, Nonempty, Inputs, Footprint;
  }

  lemma InputsAre(f: ConfirmedFacts, items: seq<Item>)
    ensures items == Inputs(f.items) <==>
            |items| == |f.items| && forall k | 0 <= k < |f.items| ::
              items[k] == Item(f.items[k].id, f.items[k].originalAmount)
  {
  }

  lemma AdjustmentsAre(before: seq<Adjustment>, index: nat, amount: int, after: seq<Adjustment>)
    requires index < |before|
    ensures AdjustmentsWith(before, index, amount, after) <==>
            after == before[index := before[index].(amount := amount)]
  {
  }

  lemma FootprintIs(f: ConfirmedFacts, index: nat, same: bool, included: set<string>)
    ensures included == Footprint(f, index, same) <==> forall id :: id in included <==> Carries(f, index, same, id)
  {
    forall k: nat ensures Given(f.allocations, index, k) == GivenTo(f.allocations, index, k) {
    }
    hide Given, GivenTo;
    assert forall id :: id in Footprint(f, index, same) <==> Carries(f, index, same, id);
  }

  lemma RevalueAdjustmentIs(f: ConfirmedFacts, reason: string, index: nat, amount: int, input: FinancialInput,
                            items: seq<Item>, adjustments: seq<Adjustment>, included: set<string>, c: Calculation)
    requires index < |f.adjustments|
    ensures MayRevalueAdjustment(f, reason, index, amount, input, items, adjustments, included, c) <==>
            Written(reason) && Written(input.groupId) && items == Inputs(f.items) &&
            adjustments == f.adjustments[index := f.adjustments[index].(amount := amount)] &&
            included == Footprint(f, index, f.adjustments[index].amount == amount) &&
            Revalued(f, items, adjustments, included, input, c)
  {
    InputsAre(f, items);
    AdjustmentsAre(f.adjustments, index, amount, adjustments);
    FootprintIs(f, index, f.adjustments[index].amount == amount, included);
    hide Written, Inputs, AdjustmentsWith, Footprint, Carries, Revalued;
  }

  /** An adjustment's amount is corrected exactly where the receipt can be revalued with it, and it is revalued. */
  lemma AdjustmentAmountExact(r: Receipt, version: int, actor: string, owner: string, at: Clock, reason: string,
                              index: int, amount: int, input: FinancialInput)
    requires ReceiptSound(r)
    ensures CorrectAdjustmentAmount(r, version, actor, owner, at, reason, index, amount, input).Ok? <==>
            MayRevise(r, version, actor, owner) && at.Some? && exists items, adjustments, included, c ::
              MayRevalueAdjustment(r.current.facts, reason, index, amount, input, items, adjustments, included, c) &&
              (AlreadyAt(r.current.facts, index, amount) || MoreVersions(r))
    ensures var result := CorrectAdjustmentAmount(r, version, actor, owner, at, reason, index, amount, input);
            result.Ok? && r.current.Confirmed? ==> forall items, adjustments, included, c |
              MayRevalueAdjustment(r.current.facts, reason, index, amount, input, items, adjustments, included, c) ::
              if AlreadyAt(r.current.facts, index, amount) then result.value == r
              else Corrected(r, AdjustmentAmount(index), actor, owner, at, reason, adjustments, input, c, result.value)
  {
    hide *;
    ReviseIs(r, version, actor, owner);
    if r.current.Confirmed? {
      var f := r.current.facts;
      SoundFacts(r);
      WrittenEverywhere();
      AdjustmentUnfolds(r, version, actor, owner, at, reason, index, amount, input);
      AlreadyIs(f, index, amount);
      if 0 <= index < |f.adjustments| {
        var items, same := Inputs(f.items), f.adjustments[index].amount == amount;
        var adjustments, included := f.adjustments[index := f.adjustments[index].(amount := amount)],
          Footprint(f, index, same);
        forall xs, ys, zs, c {
          RevalueAdjustmentIs(f, reason, index, amount, input, xs, ys, zs, c);
        }
        CandidateExact(f, input, items, adjustments, included, AdjustmentAmountNotCorrectable);
        var candidate := FinancialCandidate(f, input, items, adjustments, included, AdjustmentAmountNotCorrectable);
        if candidate.Ok? && at.Some? {
          forall c | Revalued(f, items, adjustments, included, input, c)
            ensures Corrected(r, AdjustmentAmount(index), actor, owner, at, reason, adjustments, input, c,
                              Advance(r, Confirmed(candidate.value.0),
                                      FinancialCorrected(AdjustmentAmount(index), owner, input.groupId, reason,
                                                         candidate.value.1), actor, at.value))
          {
            CorrectedWhen(r, AdjustmentAmount(index), actor, owner, at, reason, adjustments, input, c,
                          candidate.value.0, candidate.value.1);
          }
        }
      } else {
        NoSuchAdjustment(f, reason, index, amount, input);
      }
    } else {
      AmountsNeedConfirmed(r, version, actor, owner, at, reason, "", index, amount, input);
    }
  }

  ghost predicate AlreadyAt(f: ConfirmedFacts, index: int, amount: int) {
    0 <= index < |f.adjustments| && f.adjustments[index].amount == amount
  }

  lemma AlreadyIs(f: ConfirmedFacts, index: int, amount: int)
    ensures AlreadyAt(f, index, amount) <==> 0 <= index < |f.adjustments| && f.adjustments[index].amount == amount
  {
  }

  lemma NoSuchAdjustment(f: ConfirmedFacts, reason: string, index: int, amount: int, input: FinancialInput)
    requires !(0 <= index < |f.adjustments|)
    ensures forall items, adjustments, included, c ::
              !MayRevalueAdjustment(f, reason, index, amount, input, items, adjustments, included, c)
  {
    hide Revalued, AdjustmentsWith, Carries;
  }
}
