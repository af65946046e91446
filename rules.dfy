/**
 * The scheduling rules that `schedule_sessions_once` hands to the constraint solver,
 * stated directly over a valuation: `Valid` holds of exactly the valuations the solver
 * may return, and `Penalty` is the objective it minimises.
 */
module Rules {
  import opened SchedConfig
  import opened SlotConversion

  /** The forbidden slots of `g`, counted from 0. */
  function Forbidden0(c: Config, g: Group): seq<int>
    requires g in c.impossible
  {
    ZeroBased(c.impossible)[g]
  }

  /** The preferred slots of `g`, counted from 0. */
  function Preferred0(c: Config, g: Group): seq<int>
    requires g in c.preferences
  {
    ZeroBased(c.preferences)[g]
  }

  /** Every variable ranges over the slots 0 .. numSessions - 1. */
  ghost predicate InRange(c: Config, v: Valuation)
  {
    && (forall g, k :: g in v.own && 0 <= k < |v.own[g]| ==> 0 <= v.own[g][k] < c.numSessions)
    && (forall j :: 0 <= j < |v.joint| ==> 0 <= v.joint[j] < c.numSessions)
  }

  /** A group's own sessions are pairwise in different slots. */
  ghost predicate OwnDistinct(v: Valuation)
  {
    forall g, i, j :: g in v.own && 0 <= i < j < |v.own[g]| ==> v.own[g][i] != v.own[g][j]
  }

  /** A joint session is in none of the slots of its members' own sessions. */
  ghost predicate JointApart(c: Config, v: Valuation)
    requires Shaped(c, v)
  {
    forall j, g, k :: 0 <= j < |c.joints| && g in c.joints[j] && 0 <= k < |Slots(v, g)| ==>
      Slots(v, g)[k] != v.joint[j]
  }

  /** No own session of a group, nor a joint session it belongs to, is in a forbidden slot of it. */
  ghost predicate ForbiddenRespected(c: Config, v: Valuation)
    requires Shaped(c, v)
  {
    && (forall g, k :: g in c.impossible && 0 <= k < |Slots(v, g)| ==> Slots(v, g)[k] !in Forbidden0(c, g))
    && (forall g, j :: g in c.impossible && 0 <= j < |c.joints| && g in c.joints[j] ==>
          v.joint[j] !in Forbidden0(c, g))
  }

  /**
   * Groups `a` and `b` never meet: their own sessions are in different slots, a joint
   * session holding `a` avoids `b`'s own slots, and one holding `b` avoids `a`'s.
   */
  ghost predicate Apart(c: Config, v: Valuation, a: Group, b: Group)
    requires Shaped(c, v)
  {
    && (forall k1, k2 :: 0 <= k1 < |Slots(v, a)| && 0 <= k2 < |Slots(v, b)| ==> Slots(v, a)[k1] != Slots(v, b)[k2])
    && (forall j, k :: 0 <= j < |c.joints| && a in c.joints[j] && 0 <= k < |Slots(v, b)| ==> v.joint[j] != Slots(v, b)[k])
    && (forall j, k :: 0 <= j < |c.joints| && b in c.joints[j] && 0 <= k < |Slots(v, a)| ==> v.joint[j] != Slots(v, a)[k])
  }

  /** Every strict non-overlap pair is kept apart. */
  ghost predicate StrictRespected(c: Config, v: Valuation)
    requires Shaped(c, v)
  {
    forall i :: 0 <= i < |c.strict| ==> Apart(c, v, c.strict[i].0, c.strict[i].1)
  }

  /** A group with declared preferences has all its own sessions among them (a hard rule). */
  ghost predicate PreferencesRespected(c: Config, v: Valuation)
  {
    forall g, k :: g in c.preferences && 0 <= k < |Slots(v, g)| ==> Slots(v, g)[k] in Preferred0(c, g)
  }

  /** Own sessions of the groups of `gs` placed in slot `s`. */
  function GroupLoad(gs: seq<Group>, v: Valuation, s: int): nat
  {
    if gs == [] then 0
    else GroupLoad(gs[..|gs| - 1], v, s) + Occurrences(Slots(v, gs[|gs| - 1]), s)
  }

  /** Sessions, own and joint, placed in slot `s`. */
  function Load(c: Config, v: Valuation, s: int): nat
  {
    GroupLoad(c.groups, v, s) + Occurrences(v.joint, s)
  }

  /** No slot holds more sessions than there are tracks. */
  ghost predicate WithinCapacity(c: Config, v: Valuation)
  {
    forall s :: 0 <= s < c.numSessions ==> Load(c, v, s) <= c.numTracks
  }

  /** Two member lists have a group in common. */
  predicate Share(a: seq<Group>, b: seq<Group>)
  {
    exists g :: g in a && g in b
  }

  /** Joint sessions with a member in common are in different slots. */
  ghost predicate SharingJointsApart(c: Config, v: Valuation)
    requires Shaped(c, v)
  {
    forall j1, j2 :: 0 <= j1 < j2 < |c.joints| && Share(c.joints[j1], c.joints[j2]) ==> v.joint[j1] != v.joint[j2]
  }

  /** The hard constraints: the valuations the solver is allowed to return. */
  ghost predicate Valid(c: Config, v: Valuation)
  {
    && Shaped(c, v)
    && InRange(c, v)
    && OwnDistinct(v)
    && JointApart(c, v)
    && ForbiddenRespected(c, v)
    && StrictRespected(c, v)
    && PreferencesRespected(c, v)
    && WithinCapacity(c, v)
    && SharingJointsApart(c, v)
  }

  /** `10 ** e` */
  function Pow10(e: nat): (r: nat)
    ensures r >= 1
  {
    if e == 0 then 1 else 10 * Pow10(e - 1)
  }

  /** Weight `w` for every slot of `ys` equal to `x`. */
  function MatchWeight(ys: seq<int>, x: int, w: nat): (r: nat)
    ensures r == 0 <==> w == 0 || x !in ys
  {
    if ys == [] then 0
    else MatchWeight(ys[..|ys| - 1], x, w) + (if ys[|ys| - 1] == x then w else 0)
  }

  /** Weight `w` for every pair of a slot of `xs` and an equal slot of `ys`. */
  function PairPenalty(xs: seq<int>, ys: seq<int>, w: nat): (r: nat)
    ensures r == 0 <==> w == 0 || forall a, b :: 0 <= a < |xs| && 0 <= b < |ys| ==> xs[a] != ys[b]
  {
    if xs == [] then 0
    else
      var r := PairPenalty(xs[..|xs| - 1], ys, w) + MatchWeight(ys, xs[|xs| - 1], w);
      assert forall a :: 0 <= a < |xs| - 1 ==> xs[..|xs| - 1][a] == xs[a];
      r
  }

  /** No own session of `g` shares a slot with an own session of `r`. */
  ghost predicate NoOverlap(v: Valuation, g: Group, r: Group)
  {
    forall a, b :: 0 <= a < |Slots(v, g)| && 0 <= b < |Slots(v, r)| ==> Slots(v, g)[a] != Slots(v, r)[b]
  }

  /**
   * The penalty of group `g` against the first `n` of its ordered `rivals`: the rival at
   * position `i` costs `10 ** (|rivals| - i)` per overlapping pair of sessions.
   */
  function RivalsPenalty(v: Valuation, g: Group, rivals: seq<Group>, n: nat): (r: nat)
    requires n <= |rivals|
    ensures r == 0 <==> forall i :: 0 <= i < n ==> NoOverlap(v, g, rivals[i])
  {
    if n == 0 then 0
    else RivalsPenalty(v, g, rivals, n - 1) + PairPenalty(Slots(v, g), Slots(v, rivals[n - 1]), Pow10(|rivals| - (n - 1)))
  }

  /** No prioritized conflict of `items` is violated. */
  ghost predicate NoPrioritizedOverlap(items: seq<(Group, seq<Group>)>, v: Valuation)
  {
    forall p, i :: 0 <= p < |items| && 0 <= i < |items[p].1| ==> NoOverlap(v, items[p].0, items[p].1[i])
  }

  /** The summed penalty of the prioritized conflicts `items`. */
  function PenaltyOf(items: seq<(Group, seq<Group>)>, v: Valuation): (r: nat)
    ensures r == 0 <==> NoPrioritizedOverlap(items, v)
  {
    if items == [] then 0
    else
      var last := items[|items| - 1];
      var r := PenaltyOf(items[..|items| - 1], v) + RivalsPenalty(v, last.0, last.1, |last.1|);
      assert forall p :: 0 <= p < |items| - 1 ==> items[..|items| - 1][p] == items[p];
      r
  }

  /** The objective the solver minimises; it is 0 exactly when no prioritized conflict overlaps. */
  function Penalty(c: Config, v: Valuation): (r: nat)
    ensures r == 0 <==> NoPrioritizedOverlap(c.prioritized, v)
  {
    PenaltyOf(c.prioritized, v)
  }
}
