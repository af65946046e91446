/**
 * `collect_solution`: the agenda that lists, for every 1-based slot, the labels of the
 * sessions the valuation places there.
 */
module AgendaAssembly {
  import opened SchedConfig
  import opened Rules
  import opened KeySums

  /** A mapping from 1-based slot number to the labels of the sessions in that slot. */
  type Agenda = map<int, seq<string>>

  /** `sep.join(xs)` */
  function Join(sep: string, xs: seq<string>): string
  {
    if xs == [] then ""
    else if |xs| == 1 then xs[0]
    else xs[0] + sep + Join(sep, xs[1..])
  }

  /** The label of a joint session: `"Joint " + " + ".join(members)`. */
  function JointLabel(members: seq<Group>): string
  {
    "Joint " + Join(" + ", members)
  }

  /**
   * `k` is one of the 1-based slots 1 .. n that key an agenda. This predicate exists only
   * as a trigger for the comprehension that builds the empty agenda, whose value `[]`
   * does not mention `k`.
   */
  predicate IsSlot(n: int, k: int)
  {
    1 <= k <= n
  }

  /** `n` copies of the label `g`. */
  function Copies(g: string, n: nat): (r: seq<string>)
    ensures |r| == n && forall i :: 0 <= i < n ==> r[i] == g
  {
    seq(n, _ => g)
  }

  /** The label of each own session, of the groups `gs` in order, placed in 0-based slot `s`. */
  function OwnLabels(gs: seq<Group>, v: Valuation, s: int): seq<string>
  {
    if gs == [] then []
    else OwnLabels(gs[..|gs| - 1], v, s) + Copies(gs[|gs| - 1], Occurrences(Slots(v, gs[|gs| - 1]), s))
  }

  /** The labels of the joint sessions placed in 0-based slot `s`, in joint order. */
  function JointLabels(joints: seq<seq<Group>>, slots: seq<int>, s: int): seq<string>
    requires |slots| == |joints|
  {
    if joints == [] then []
    else
      JointLabels(joints[..|joints| - 1], slots[..|slots| - 1], s)
      + (if slots[|slots| - 1] == s then [JointLabel(joints[|joints| - 1])] else [])
  }

  /** What the agenda lists under 1-based slot `k`: own sessions first, then joint sessions. */
  function SlotLabels(c: Config, v: Valuation, k: int): seq<string>
    requires Shaped(c, v)
  {
    OwnLabels(c.groups, v, k - 1) + JointLabels(c.joints, v.joint, k - 1)
  }

  /** The agenda of a valuation: one entry per slot 1 .. numSessions, possibly empty. */
  function AgendaOf(c: Config, v: Valuation): Agenda
    requires Shaped(c, v)
  {
    map k | 1 <= k <= c.numSessions :: SlotLabels(c, v, k)
  }

  lemma CopiesStep(g: string, n: nat)
    ensures Copies(g, n + 1) == Copies(g, n) + [g]
  {
  }

  lemma OwnLabelsStep(gs: seq<Group>, p: nat, v: Valuation, s: int)
    requires p < |gs|
    ensures OwnLabels(gs[..p + 1], v, s) == OwnLabels(gs[..p], v, s) + Copies(gs[p], Occurrences(Slots(v, gs[p]), s))
  {
    assert gs[..p + 1][..p] == gs[..p];
  }

  lemma JointLabelsStep(joints: seq<seq<Group>>, slots: seq<int>, j: nat, s: int)
    requires |slots| == |joints| && j < |joints|
    ensures JointLabels(joints[..j + 1], slots[..j + 1], s)
         == JointLabels(joints[..j], slots[..j], s) + (if slots[j] == s then [JointLabel(joints[j])] else [])
  {
    assert joints[..j + 1][..j] == joints[..j];
    assert slots[..j + 1][..j] == slots[..j];
  }

  /** The labels in slot `k` once the sessions `xs` of `g` are placed after those of `done`. */
  function Placed(done: seq<Group>, v: Valuation, g: Group, xs: seq<int>, k: int): seq<string>
  {
    OwnLabels(done, v, k - 1) + Copies(g, Occurrences(xs, k - 1))
  }

  lemma PlacedStep(done: seq<Group>, v: Valuation, g: Group, xs: seq<int>, i: nat, k: int)
    requires i < |xs|
    ensures Placed(done, v, g, xs[..i + 1], k)
         == if xs[i] + 1 == k then Placed(done, v, g, xs[..i], k) + [g] else Placed(done, v, g, xs[..i], k)
  {
    assert xs[..i + 1][..i] == xs[..i];
    CopiesStep(g, Occurrences(xs[..i], k - 1));
  }

  /** Adding the name of `g` to the slot of its session `i` places that session. */
  lemma PlaceGroupStep(done: seq<Group>, v: Valuation, g: Group, xs: seq<int>, i: nat, before: Agenda, r: Agenda)
    requires i < |xs| && xs[i] + 1 in before
    requires forall k :: k in before ==> before[k] == Placed(done, v, g, xs[..i], k)
    requires r == before[xs[i] + 1 := before[xs[i] + 1] + [g]]
    ensures forall k :: k in r ==> r[k] == Placed(done, v, g, xs[..i + 1], k)
  {
    forall k | k in r ensures r[k] == Placed(done, v, g, xs[..i + 1], k) {
      PlacedStep(done, v, g, xs, i, k);
    }
  }

  /** Lines 10-13 for one group: each own session adds the group's name to its slot. */
  method PlaceGroup(c: Config, v: Valuation, g: Group, agenda: Agenda, ghost done: seq<Group>) returns (r: Agenda)
    requires Shaped(c, v) && InRange(c, v) && g in c.sessions
    requires forall k :: k in agenda <==> 1 <= k <= c.numSessions
    requires forall k :: k in agenda ==> agenda[k] == OwnLabels(done, v, k - 1)
    ensures forall k :: k in r <==> 1 <= k <= c.numSessions
    ensures forall k :: k in r ==> r[k] == Placed(done, v, g, Slots(v, g), k)
  {
    r := agenda;
    var sessions := v.own[g];
    for i := 0 to |sessions|
      invariant forall k :: k in r <==> 1 <= k <= c.numSessions
      invariant forall k :: k in r ==> r[k] == Placed(done, v, g, sessions[..i], k)
    {
      var sess := sessions[i] + 1;
      ghost var before := r;
      r := r[sess := r[sess] + [g]];
      PlaceGroupStep(done, v, g, sessions, i, before, r);
    }
    assert sessions[..|sessions|] == sessions;
  }

  /** Once group `p` is placed after the groups before it, the agenda lists the first `p + 1` groups. */
  lemma PlacedGroup(gs: seq<Group>, p: nat, v: Valuation, r: Agenda)
    requires p < |gs|
    requires forall k :: k in r ==> r[k] == Placed(gs[..p], v, gs[p], Slots(v, gs[p]), k)
    ensures forall k :: k in r ==> r[k] == OwnLabels(gs[..p + 1], v, k - 1)
  {
    forall k | k in r ensures r[k] == OwnLabels(gs[..p + 1], v, k - 1) {
      OwnLabelsStep(gs, p, v, k - 1);
    }
  }

  /** Lines 10-13: every group's own sessions, in `group_sessions` order. */
  method PlaceGroups(c: Config, v: Valuation, agenda: Agenda) returns (r: Agenda)
    requires WellFormed(c) && Shaped(c, v) && InRange(c, v)
    requires forall k :: k in agenda <==> 1 <= k <= c.numSessions
    requires forall k :: k in agenda ==> agenda[k] == []
    ensures forall k :: k in r <==> 1 <= k <= c.numSessions
    ensures forall k :: k in r ==> r[k] == OwnLabels(c.groups, v, k - 1)
  {
    r := agenda;
    for p := 0 to |c.groups|
      invariant forall k :: k in r <==> 1 <= k <= c.numSessions
      invariant forall k :: k in r ==> r[k] == OwnLabels(c.groups[..p], v, k - 1)
    {
      assert c.groups[p] in c.sessions;
      r := PlaceGroup(c, v, c.groups[p], r, c.groups[..p]);
      PlacedGroup(c.groups, p, v, r);
    }
    assert c.groups[..|c.groups|] == c.groups;
  }

  /** The labels in slot `k` once the first `j` joint sessions are placed after all own sessions. */
  function Listed(c: Config, v: Valuation, j: nat, k: int): seq<string>
    requires Shaped(c, v) && j <= |c.joints|
  {
    OwnLabels(c.groups, v, k - 1) + JointLabels(c.joints[..j], v.joint[..j], k - 1)
  }

  lemma ListedStep(c: Config, v: Valuation, j: nat, k: int)
    requires Shaped(c, v) && j < |c.joints|
    ensures Listed(c, v, j + 1, k)
         == if v.joint[j] + 1 == k then Listed(c, v, j, k) + [JointLabel(c.joints[j])] else Listed(c, v, j, k)
  {
    JointLabelsStep(c.joints, v.joint, j, k - 1);
  }

  /** Lines 16-19: every joint session, in order, under its slot. */
  method PlaceJoints(c: Config, v: Valuation, agenda: Agenda) returns (r: Agenda)
    requires Shaped(c, v) && InRange(c, v)
    requires forall k :: k in agenda <==> 1 <= k <= c.numSessions
    requires forall k :: k in agenda ==> agenda[k] == OwnLabels(c.groups, v, k - 1)
    ensures forall k :: k in r <==> 1 <= k <= c.numSessions
    ensures forall k :: k in r ==> r[k] == SlotLabels(c, v, k)
  {
    r := agenda;
    for j := 0 to |c.joints|
      invariant forall k :: k in r <==> 1 <= k <= c.numSessions
      invariant forall k :: k in r ==> r[k] == Listed(c, v, j, k)
    {
      var sess := v.joint[j] + 1;
      var jointLabel := JointLabel(c.joints[j]);
      r := r[sess := r[sess] + [jointLabel]];
      forall k | k in r ensures r[k] == Listed(c, v, j + 1, k) {
        ListedStep(c, v, j, k);
      }
    }
    assert c.joints[..|c.joints|] == c.joints;
    assert v.joint[..|v.joint|] == v.joint;
  }

  /** `collect_solution` (lines 5-21): the agenda of the valuation, slot by slot. */
  method CollectSolution(c: Config, v: Valuation) returns (agenda: Agenda)
    requires WellFormed(c) && Shaped(c, v) && InRange(c, v)
    ensures agenda == AgendaOf(c, v)
  {
    agenda := map k | 1 <= k <= c.numSessions && IsSlot(c.numSessions, k) :: [];
    agenda := PlaceGroups(c, v, agenda);
    agenda := PlaceJoints(c, v, agenda);
    assert agenda.Keys == AgendaOf(c, v).Keys;
  }

  /** The own-session labels of a slot are as many as its own sessions. */
  lemma {:induction false} OwnLabelsCount(gs: seq<Group>, v: Valuation, s: int)
    ensures |OwnLabels(gs, v, s)| == GroupLoad(gs, v, s)
  {
    if gs != [] {
      OwnLabelsCount(gs[..|gs| - 1], v, s);
    }
  }

  /** The joint-session labels of a slot are as many as its joint sessions. */
  lemma {:induction false} JointLabelsCount(joints: seq<seq<Group>>, slots: seq<int>, s: int)
    requires |slots| == |joints|
    ensures |JointLabels(joints, slots, s)| == Occurrences(slots, s)
  {
    if joints != [] {
      JointLabelsCount(joints[..|joints| - 1], slots[..|slots| - 1], s);
    }
  }

  /** Slot `k` of the agenda lists exactly `Load(c, v, k - 1)` sessions. */
  lemma SlotSize(c: Config, v: Valuation, k: int)
    requires Shaped(c, v)
    ensures |SlotLabels(c, v, k)| == Load(c, v, k - 1)
  {
    OwnLabelsCount(c.groups, v, k - 1);
    JointLabelsCount(c.joints, v.joint, k - 1);
  }

  /** The agenda of a valid valuation lists at most `numTracks` sessions under any slot. */
  lemma SlotsWithinTracks(c: Config, v: Valuation)
    requires Valid(c, v)
    ensures forall k :: k in AgendaOf(c, v) ==> |AgendaOf(c, v)[k]| <= c.numTracks
  {
    forall k | k in AgendaOf(c, v) ensures |AgendaOf(c, v)[k]| <= c.numTracks {
      SlotSize(c, v, k);
    }
  }

  /** A group name is among the own labels of slot `s` exactly when one of its own sessions is there. */
  lemma {:induction false} OwnLabelsMember(gs: seq<Group>, v: Valuation, s: int, g: Group)
    ensures g in OwnLabels(gs, v, s) <==> g in gs && s in Slots(v, g)
  {
    if gs != [] {
      var last := gs[|gs| - 1];
      OwnLabelsMember(gs[..|gs| - 1], v, s, g);
      assert gs == gs[..|gs| - 1] + [last];
      var extra := Copies(last, Occurrences(Slots(v, last), s));
      if g in extra {
        var i :| 0 <= i < |extra| && extra[i] == g;
      }
      if g == last && s in Slots(v, last) {
        assert extra[0] == g;
      }
    }
  }

  /** Every label in an own-session part of a slot is a group name. */
  lemma {:induction false} OwnLabelsAreGroups(gs: seq<Group>, v: Valuation, s: int, x: string)
    requires x in OwnLabels(gs, v, s)
    ensures x in gs && s in Slots(v, x)
  {
    OwnLabelsMember(gs, v, s, x);
  }

  /** The labels of the joint sessions of slot `s` are exactly those of the joint sessions placed there. */
  lemma {:induction false} JointLabelsMember(joints: seq<seq<Group>>, slots: seq<int>, s: int, x: string)
    requires |slots| == |joints|
    ensures x in JointLabels(joints, slots, s) <==>
            exists j :: 0 <= j < |joints| && slots[j] == s && x == JointLabel(joints[j])
  {
    if joints != [] {
      var n := |joints| - 1;
      JointLabelsMember(joints[..n], slots[..n], s, x);
      if x in JointLabels(joints, slots, s) {
        if x in JointLabels(joints[..n], slots[..n], s) {
          var j :| 0 <= j < n && slots[..n][j] == s && x == JointLabel(joints[..n][j]);
          assert slots[j] == s && x == JointLabel(joints[j]);
        } else {
          assert slots[n] == s && x == JointLabel(joints[n]);
        }
      }
      if exists j :: 0 <= j < |joints| && slots[j] == s && x == JointLabel(joints[j]) {
        var j :| 0 <= j < |joints| && slots[j] == s && x == JointLabel(joints[j]);
        if j < n {
          assert slots[..n][j] == s && x == JointLabel(joints[..n][j]);
        }
      }
    }
  }

  /**
   * What the agenda lists under slot `k`: the name of every group with an own session
   * in slot `k - 1`, the label of every joint session there, and nothing else.
   */
  lemma AgendaEntries(c: Config, v: Valuation, k: int, x: string)
    requires WellFormed(c) && Shaped(c, v) && 1 <= k <= c.numSessions
    ensures k in AgendaOf(c, v)
    ensures x in AgendaOf(c, v)[k] <==>
            (x in c.groups && k - 1 in Slots(v, x))
            || exists j :: 0 <= j < |c.joints| && v.joint[j] == k - 1 && x == JointLabel(c.joints[j])
  {
    OwnLabelsMember(c.groups, v, k - 1, x);
    JointLabelsMember(c.joints, v.joint, k - 1, x);
  }

  /** Every own session of a group appears, under its 1-based slot, with the group's name. */
  lemma OwnSessionListed(c: Config, v: Valuation, g: Group, i: int)
    requires WellFormed(c) && Shaped(c, v) && InRange(c, v)
    requires g in c.sessions && 0 <= i < c.sessions[g]
    ensures v.own[g][i] + 1 in AgendaOf(c, v)
    ensures g in AgendaOf(c, v)[v.own[g][i] + 1]
  {
    AgendaEntries(c, v, v.own[g][i] + 1, g);
  }

  /** Every joint session appears, under its 1-based slot, with its label. */
  lemma JointSessionListed(c: Config, v: Valuation, j: int)
    requires WellFormed(c) && Shaped(c, v) && InRange(c, v) && 0 <= j < |c.joints|
    ensures v.joint[j] + 1 in AgendaOf(c, v)
    ensures JointLabel(c.joints[j]) in AgendaOf(c, v)[v.joint[j] + 1]
  {
    AgendaEntries(c, v, v.joint[j] + 1, JointLabel(c.joints[j]));
  }

  /**
   * In the 1-based numbering the caller uses, a valuation that respects preferences and
   * forbidden slots (as every valid one does) lists a group's own sessions only under
   * slots it prefers (when it states preferences) and never under a slot it cannot attend.
   */
  lemma OwnSlotsAsRequested(c: Config, v: Valuation, g: Group, k: int)
    requires WellFormed(c) && Shaped(c, v) && InRange(c, v)
    requires PreferencesRespected(c, v) && ForbiddenRespected(c, v)
    requires g in c.groups && k - 1 in Slots(v, g)
    ensures k in AgendaOf(c, v) && g in AgendaOf(c, v)[k]
    ensures g in c.preferences ==> k in c.preferences[g]
    ensures g in c.impossible ==> k !in c.impossible[g]
  {
    OwnSlotListed(c, v, g, k);
    SlotRequested(c, v, g, k);
  }

  /** A group with a session in 0-based slot `k - 1` is listed under key `k`. */
  lemma OwnSlotListed(c: Config, v: Valuation, g: Group, k: int)
    requires WellFormed(c) && Shaped(c, v) && InRange(c, v)
    requires g in c.groups && k - 1 in Slots(v, g)
    ensures k in AgendaOf(c, v) && g in AgendaOf(c, v)[k]
  {
    var i :| 0 <= i < |Slots(v, g)| && Slots(v, g)[i] == k - 1;
    assert g in v.own && v.own[g][i] == k - 1;
    OwnSessionListed(c, v, g, i);
  }

  /** A 1-based slot `k` holding an own session of `g`, under the slot rules, is one `g` accepts. */
  lemma SlotRequested(c: Config, v: Valuation, g: Group, k: int)
    requires Shaped(c, v) && PreferencesRespected(c, v) && ForbiddenRespected(c, v)
    requires k - 1 in Slots(v, g)
    ensures g in c.preferences ==> k in c.preferences[g]
    ensures g in c.impossible ==> k !in c.impossible[g]
  {
    var i :| 0 <= i < |Slots(v, g)| && Slots(v, g)[i] == k - 1;
    if g in c.preferences {
      assert Slots(v, g)[i] in Preferred0(c, g);
    }
    if g in c.impossible {
      assert Slots(v, g)[i] !in Forbidden0(c, g);
    }
  }

  /** The number of labels in each slot. */
  function LabelsAt(agenda: Agenda): int -> nat
  {
    sess => if sess in agenda then |agenda[sess]| else 0
  }

  /** How many labels the agenda lists, over all slots. */
  ghost function TotalLabels(agenda: Agenda): nat
  {
    SumOver(agenda.Keys, LabelsAt(agenda))
  }

  /** The number of own sessions the groups `gs` ask for. */
  function SessionCount(gs: seq<Group>, sessions: map<Group, nat>): nat
  {
    if gs == [] then 0
    else
      var g := gs[|gs| - 1];
      SessionCount(gs[..|gs| - 1], sessions) + (if g in sessions then sessions[g] else 0)
  }

  /** How often `xs` holds the 0-based slot of each 1-based slot. */
  function OccurrencesAt(xs: seq<int>): int -> nat
  {
    k => Occurrences(xs, k - 1)
  }

  /** The own sessions of `gs` in each 1-based slot. */
  function GroupLoadAt(gs: seq<Group>, v: Valuation): int -> nat
  {
    k => GroupLoad(gs, v, k - 1)
  }

  /** One for the 1-based slot `a`, zero for the others. */
  function Indicator(a: int): int -> nat
  {
    k => if k == a then 1 else 0
  }

  /** Counting, over all slots, the positions of `xs` in each slot counts every position once. */
  lemma {:induction false} OccurrencesSum(keys: set<int>, n: int, xs: seq<int>)
    requires forall k :: k in keys <==> 1 <= k <= n
    requires forall i :: 0 <= i < |xs| ==> 0 <= xs[i] < n
    ensures SumOver(keys, OccurrencesAt(xs)) == |xs|
  {
    if xs == [] {
      SumOverZero(keys, OccurrencesAt(xs));
    } else {
      var p := xs[..|xs| - 1];
      var x := xs[|xs| - 1];
      OccurrencesSum(keys, n, p);
      SumOverIndicator(keys, Indicator(x + 1), x + 1);
      SumOverAdd(keys, OccurrencesAt(p), Indicator(x + 1), OccurrencesAt(xs));
    }
  }

  /** Counting, over all slots, the own sessions of `gs` in each slot counts every session once. */
  lemma {:induction false} GroupLoadSum(keys: set<int>, c: Config, gs: seq<Group>, v: Valuation)
    requires Shaped(c, v) && InRange(c, v)
    requires forall k :: k in keys <==> 1 <= k <= c.numSessions
    ensures SumOver(keys, GroupLoadAt(gs, v)) == SessionCount(gs, c.sessions)
  {
    if gs == [] {
      SumOverZero(keys, GroupLoadAt(gs, v));
    } else {
      var p := gs[..|gs| - 1];
      var g := gs[|gs| - 1];
      GroupLoadSum(keys, c, p, v);
      OccurrencesSum(keys, c.numSessions, Slots(v, g));
      SumOverAdd(keys, GroupLoadAt(p, v), OccurrencesAt(Slots(v, g)), GroupLoadAt(gs, v));
    }
  }

  /** The agenda lists one label per own session and one per joint session. */
  lemma AgendaTotal(c: Config, v: Valuation)
    requires Shaped(c, v) && InRange(c, v)
    ensures TotalLabels(AgendaOf(c, v)) == SessionCount(c.groups, c.sessions) + |c.joints|
  {
    var agenda := AgendaOf(c, v);
    forall k | k in agenda.Keys
      ensures LabelsAt(agenda)(k) == GroupLoadAt(c.groups, v)(k) + OccurrencesAt(v.joint)(k)
    {
      SlotSize(c, v, k);
    }
    SumOverAdd(agenda.Keys, GroupLoadAt(c.groups, v), OccurrencesAt(v.joint), LabelsAt(agenda));
    GroupLoadSum(agenda.Keys, c, c.groups, v);
    OccurrencesSum(agenda.Keys, c.numSessions, v.joint);
  }

  /** With at least one slot the agenda is a non-empty dictionary, so Python treats it as true. */
  lemma AgendaNotEmpty(c: Config, v: Valuation)
    requires Shaped(c, v) && c.numSessions >= 1
    ensures 1 in AgendaOf(c, v) && AgendaOf(c, v) != map[]
  {
  }
}
