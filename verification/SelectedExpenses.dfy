/** Expenses registered against the states of one reachable group can always be selected for settlement together. */
module SelectedExpenses {
  import opened Sequences
  import SC = SnapshotContent
  import opened GroupExpenses
  import EP = ExpenseProperties
  import GroupRoot
  import GR = GroupRuns

  /** The participant is a membership of this state of the group, at its join order. */
  ghost predicate Member(g: GroupRoot.Group, p: Participant) {
    exists n ::
      0 <= n < |g.participants| && g.participants[n].id == p.participantId && g.participants[n].joinOrder == p.joinOrder
  }

  ghost predicate Members(g: GroupRoot.Group, r: Registration) {
    forall p | p in r.participants :: Member(g, p)
  }

  function Roster(g: GroupRoot.Group): map<string, int> {
    map id | id in (set p | p in g.participants :: p.id) ::
      var p := GroupRoot.FindParticipant(g.participants, id); if p.Some? then p.value.joinOrder else 0
  }

  lemma RosterLists(g: GroupRoot.Group, n: nat)
    requires GR.Restorable(g) && n < |g.participants|
    ensures g.participants[n].id in Roster(g) && Roster(g)[g.participants[n].id] == g.participants[n].joinOrder
  {
    GR.RestoredParticipants(g);
    GR.IdsDistinct(g.participants);
    hide GR.Restorable, GR.ParticipantsSound;
    var p := g.participants[n];
    GR.SameParticipant(g.participants, GroupRoot.FindParticipant(g.participants, p.id).value, p);
  }

  lemma SameJoinOrder(g: GroupRoot.Group, p: string, q: string)
    requires GR.Restorable(g) && p in Roster(g) && q in Roster(g) && Roster(g)[p] == Roster(g)[q]
    ensures p == q
  {
    GR.RestoredParticipants(g);
    GR.IdsDistinct(g.participants);
    var m :| 0 <= m < |g.participants| && g.participants[m].id == p;
    var n :| 0 <= n < |g.participants| && g.participants[n].id == q;
    RosterLists(g, m);
    RosterLists(g, n);
    hide GR.ParticipantsSound, GR.Restorable, Roster;
    DistinctByCounts(g.participants, GR.JoinOrderOf);
    hide DistinctBy;
    assert GR.JoinOrderOf(g.participants[m]) == GR.JoinOrderOf(g.participants[n]);
  }

  /** Nobody shares a join order, so the roster of a restorable group is injective. */
  lemma RosterInjective(g: GroupRoot.Group)
    requires GR.Restorable(g)
    ensures EP.Injective(Roster(g))
  {
    hide GR.Restorable, Roster;
    var roster := Roster(g);
    forall p, q | p in roster && q in roster && roster[p] == roster[q] ensures p == q {
      SameJoinOrder(g, p, q);
    }
  }

  /** Whoever was a member at some time of the run is on the roster of its last state, at the same join order. */
  lemma MembersStay(gs: seq<GroupRoot.Group>, ts: seq<GroupRoot.Transition>, k: nat, r: Registration)
    requires GR.Run(gs, ts) && GR.Restorable(gs[0]) && k <= |ts| && Members(gs[k], r)
    ensures EP.OnRoster(Roster(gs[|ts|]), r)
  {
    GR.MembershipsLast(gs, ts, k, |ts|);
    GR.RunRestores(gs, ts, |ts|);
    hide GR.Run, GR.Restorable;
    forall p | p in r.participants
      ensures p.participantId in Roster(gs[|ts|]) && Roster(gs[|ts|])[p.participantId] == p.joinOrder
    {
      assert Member(gs[k], p);
      var n :| 0 <= n < |gs[k].participants| && gs[k].participants[n].id == p.participantId &&
        gs[k].participants[n].joinOrder == p.joinOrder;
      assert GR.MembershipKept(gs[k].participants[n], gs[|ts|].participants[n]);
      RosterLists(gs[|ts|], n);
    }
  }

  /**
   * Any non-empty selection of registered expenses of one group, with different identifiers, each listing members the
   * group had when it was registered, at whatever time of whatever run, passes every check of the settlement snapshot.
   */
  lemma RegisteredAdmissible(groupId: string, gs: seq<GroupRoot.Group>, ts: seq<GroupRoot.Transition>, at: seq<nat>,
                             rs: seq<Registration>, es: seq<SC.Expense>)
    requires GR.Run(gs, ts) && GR.Created(gs[0]) && rs != [] && |es| == |rs| == |at|
    requires forall k | 0 <= k < |rs| ::
               at[k] <= |ts| && Members(gs[at[k]], rs[k]) && rs[k].groupId == groupId &&
               Register(rs[k]).Ok? && es[k] == EP.Registered(rs[k])
    requires forall i, j | 0 <= i < j < |rs| :: rs[i].id != rs[j].id
    ensures SC.Admissible(groupId, es)
  {
    hide Register, Members, EP.OnRoster, EP.Injective, EP.Registered, SC.Admissible, GR.Restorable, GR.Created;
    GR.CreatedIs(gs[0]);
    forall k | 0 <= k < |rs| ensures EP.OnRoster(Roster(gs[|ts|]), rs[k]) {
      MembersStay(gs, ts, at[k], rs[k]);
    }
    GR.RunRestores(gs, ts, |ts|);
    RosterInjective(gs[|ts|]);
    EP.RosterAdmissible(groupId, Roster(gs[|ts|]), rs, es);
  }
}
