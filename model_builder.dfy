/**
 * The model construction of `schedule_sessions_once`: loops that declare the decision
 * variables and append constraints and penalty terms.  `BuildModel` is proved to build a
 * model whose solutions are exactly the `Valid` valuations and whose objective is `Penalty`.
 */
module ModelBuilder {
  import opened SchedConfig
  import opened SlotConversion
  import opened Rules
  import opened CpModel

  // ---------------------------------------------------------------------------
  // The kinds of constraint the builder emits (used for soundness).

  ghost predicate Declared(c: Config, x: Var)
  {
    match x
    case Own(g, k) => g in c.sessions && k < c.sessions[g]
    case Joint(j) => j < |c.joints|
  }

  ghost predicate DomainCon(c: Config, con: Constraint)
  {
    con.InDomain? && con.lo == 0 && con.hi == c.numSessions - 1 && Declared(c, con.x)
  }

  ghost predicate OwnPairCon(c: Config, con: Constraint)
  {
    && con.Differ? && con.x.Own? && con.y.Own? && con.x.group == con.y.group
    && con.x.group in c.sessions && con.x.index < con.y.index < c.sessions[con.x.group]
  }

  ghost predicate MemberJointCon(c: Config, con: Constraint)
  {
    && con.Differ? && con.x.Own? && con.y.Joint? && Declared(c, con.x)
    && con.y.index < |c.joints| && con.x.group in c.joints[con.y.index]
  }

  ghost predicate ForbiddenOwnCon(c: Config, con: Constraint)
  {
    && con.Avoid? && con.x.Own? && Declared(c, con.x) && con.x.group in c.impossible
    && con.value in Forbidden0(c, con.x.group)
  }

  ghost predicate ForbiddenJointCon(c: Config, con: Constraint)
  {
    && con.Avoid? && con.x.Joint? && con.x.index < |c.joints|
    && exists g :: g in c.impossible && g in c.joints[con.x.index] && con.value in Forbidden0(c, g)
  }

  ghost predicate StrictOwnCon(c: Config, con: Constraint)
  {
    && con.Differ? && con.x.Own? && con.y.Own? && Declared(c, con.x) && Declared(c, con.y)
    && (con.x.group, con.y.group) in c.strict
  }

  /** Joint session `j` must avoid group `b` because of a strict pair with a member of `j`. */
  ghost predicate StrictJointCon(c: Config, con: Constraint)
  {
    && con.Differ? && con.x.Joint? && con.y.Own? && con.x.index < |c.joints| && Declared(c, con.y)
    && exists i :: 0 <= i < |c.strict| && StrictAgainst(c, i, con.x.index, con.y.group)
  }

  ghost predicate StrictAgainst(c: Config, i: nat, j: nat, b: Group)
    requires i < |c.strict| && j < |c.joints|
  {
    || (c.strict[i].0 in c.joints[j] && c.strict[i].1 == b)
    || (c.strict[i].1 in c.joints[j] && c.strict[i].0 == b)
  }

  ghost predicate PreferenceCon(c: Config, con: Constraint)
  {
    && con.AllowedIn? && con.x.Own? && Declared(c, con.x) && con.x.group in c.preferences
    && con.values == Preferred0(c, con.x.group)
  }

  /** `tracked` lists the variables whose indicators are summed per slot. */
  ghost predicate CountsLoad(c: Config, tracked: seq<Var>)
  {
    forall v, s :: Shaped(c, v) ==> CountAt(v, tracked, s) == Load(c, v, s)
  }

  ghost predicate CapacityCon(c: Config, con: Constraint)
  {
    && con.AtMost? && 0 <= con.slot < c.numSessions && con.limit == c.numTracks
    && CountsLoad(c, con.vars)
  }

  ghost predicate SharingJointCon(c: Config, con: Constraint)
  {
    && con.Differ? && con.x.Joint? && con.y.Joint?
    && con.x.index < con.y.index < |c.joints| && Share(c.joints[con.x.index], c.joints[con.y.index])
  }

  /** Every constraint the builder emits is of one of these kinds. */
  ghost predicate Generated(c: Config, con: Constraint)
  {
    || DomainCon(c, con) || OwnPairCon(c, con) || MemberJointCon(c, con)
    || ForbiddenOwnCon(c, con) || ForbiddenJointCon(c, con)
    || StrictOwnCon(c, con) || StrictJointCon(c, con)
    || PreferenceCon(c, con) || CapacityCon(c, con) || SharingJointCon(c, con)
  }

  // ---------------------------------------------------------------------------
  // What the emitted constraints cover (used for completeness).

  ghost predicate CoversDomains(c: Config, cs: seq<Constraint>)
  {
    && (forall g, k :: g in c.sessions && 0 <= k < c.sessions[g] ==> InDomain(Own(g, k), 0, c.numSessions - 1) in cs)
    && (forall j :: 0 <= j < |c.joints| ==> InDomain(Joint(j), 0, c.numSessions - 1) in cs)
  }

  ghost predicate CoversOwnDistinct(c: Config, cs: seq<Constraint>)
  {
    forall g, i, j :: g in c.sessions && 0 <= i < j < c.sessions[g] ==> Differ(Own(g, i), Own(g, j)) in cs
  }

  ghost predicate CoversJointApart(c: Config, cs: seq<Constraint>)
  {
    forall j, g, k :: 0 <= j < |c.joints| && g in c.joints[j] && g in c.sessions && 0 <= k < c.sessions[g] ==>
      Differ(Own(g, k), Joint(j)) in cs
  }

  ghost predicate CoversForbidden(c: Config, cs: seq<Constraint>)
  {
    && (forall g, k, x :: g in c.impossible && g in c.sessions && 0 <= k < c.sessions[g] && x in Forbidden0(c, g) ==>
          Avoid(Own(g, k), x) in cs)
    && (forall g, j, x :: g in c.impossible && 0 <= j < |c.joints| && g in c.joints[j] && x in Forbidden0(c, g) ==>
          Avoid(Joint(j), x) in cs)
  }

  /** Strict pair `(a, b)` is enforced by the constraints `cs`. */
  ghost predicate CoversPair(c: Config, cs: seq<Constraint>, a: Group, b: Group)
    requires a in c.sessions && b in c.sessions
  {
    && (forall k1, k2 :: 0 <= k1 < c.sessions[a] && 0 <= k2 < c.sessions[b] ==> Differ(Own(a, k1), Own(b, k2)) in cs)
    && (forall j, k :: 0 <= j < |c.joints| && a in c.joints[j] && 0 <= k < c.sessions[b] ==> Differ(Joint(j), Own(b, k)) in cs)
    && (forall j, k :: 0 <= j < |c.joints| && b in c.joints[j] && 0 <= k < c.sessions[a] ==> Differ(Joint(j), Own(a, k)) in cs)
  }

  ghost predicate CoversStrict(c: Config, cs: seq<Constraint>)
    requires WellFormed(c)
  {
    forall i :: 0 <= i < |c.strict| ==> CoversPair(c, cs, c.strict[i].0, c.strict[i].1)
  }

  ghost predicate CoversPreferences(c: Config, cs: seq<Constraint>)
  {
    forall g, k :: g in c.preferences && g in c.sessions && 0 <= k < c.sessions[g] ==>
      AllowedIn(Own(g, k), Preferred0(c, g)) in cs
  }

  ghost predicate CoversCapacity(c: Config, cs: seq<Constraint>, tracked: seq<Var>)
  {
    && CountsLoad(c, tracked)
    && forall s :: 0 <= s < c.numSessions ==> AtMost(tracked, s, c.numTracks) in cs
  }

  ghost predicate CoversSharingJoints(c: Config, cs: seq<Constraint>)
  {
    forall j1, j2 :: 0 <= j1 < j2 < |c.joints| && Share(c.joints[j1], c.joints[j2]) ==> Differ(Joint(j1), Joint(j2)) in cs
  }

  // ---------------------------------------------------------------------------
  // Soundness and completeness of the emitted constraints.

  /** A valid valuation meets every constraint the builder can emit. */
  lemma GeneratedHolds(c: Config, v: Valuation, con: Constraint)
    requires Valid(c, v) && Generated(c, con)
    ensures Holds(v, con)
  {
    if DomainCon(c, con) {
    } else if OwnPairCon(c, con) {
    } else if MemberJointCon(c, con) {
      assert Slots(v, con.x.group)[con.x.index] != v.joint[con.y.index];
    } else if ForbiddenOwnCon(c, con) {
      assert Slots(v, con.x.group)[con.x.index] !in Forbidden0(c, con.x.group);
    } else if ForbiddenJointCon(c, con) {
      var g :| g in c.impossible && g in c.joints[con.x.index] && con.value in Forbidden0(c, g);
      assert v.joint[con.x.index] !in Forbidden0(c, g);
    } else if StrictOwnCon(c, con) {
      var i :| 0 <= i < |c.strict| && c.strict[i] == (con.x.group, con.y.group);
      assert Apart(c, v, con.x.group, con.y.group);
      assert Slots(v, con.x.group)[con.x.index] != Slots(v, con.y.group)[con.y.index];
    } else if StrictJointCon(c, con) {
      var i :| 0 <= i < |c.strict| && StrictAgainst(c, i, con.x.index, con.y.group);
      assert Apart(c, v, c.strict[i].0, c.strict[i].1);
      assert v.joint[con.x.index] != Slots(v, con.y.group)[con.y.index];
    } else if PreferenceCon(c, con) {
      assert Slots(v, con.x.group)[con.x.index] in Preferred0(c, con.x.group);
    } else if CapacityCon(c, con) {
      assert CountAt(v, con.vars, con.slot) == Load(c, v, con.slot);
    } else {
      assert SharingJointCon(c, con);
    }
  }

  ghost predicate AllHold(v: Valuation, cs: seq<Constraint>)
  {
    forall con :: con in cs ==> Holds(v, con)
  }

  lemma CoveredInRange(c: Config, cs: seq<Constraint>, v: Valuation)
    requires Shaped(c, v) && AllHold(v, cs) && CoversDomains(c, cs)
    ensures InRange(c, v)
  {
    forall g, k | g in v.own && 0 <= k < |v.own[g]|
      ensures 0 <= v.own[g][k] < c.numSessions
    {
      assert Holds(v, InDomain(Own(g, k), 0, c.numSessions - 1));
    }
    forall j | 0 <= j < |v.joint|
      ensures 0 <= v.joint[j] < c.numSessions
    {
      assert Holds(v, InDomain(Joint(j), 0, c.numSessions - 1));
    }
  }

  lemma CoveredOwnDistinct(c: Config, cs: seq<Constraint>, v: Valuation)
    requires Shaped(c, v) && AllHold(v, cs) && CoversOwnDistinct(c, cs)
    ensures OwnDistinct(v)
  {
    forall g, i, j | g in v.own && 0 <= i < j < |v.own[g]|
      ensures v.own[g][i] != v.own[g][j]
    {
      assert Holds(v, Differ(Own(g, i), Own(g, j)));
    }
  }

  lemma CoveredJointApart(c: Config, cs: seq<Constraint>, v: Valuation)
    requires WellFormed(c) && Shaped(c, v) && AllHold(v, cs) && CoversJointApart(c, cs)
    ensures JointApart(c, v)
  {
    forall j, g, k | 0 <= j < |c.joints| && g in c.joints[j] && 0 <= k < |Slots(v, g)|
      ensures Slots(v, g)[k] != v.joint[j]
    {
      assert Holds(v, Differ(Own(g, k), Joint(j)));
    }
  }

  lemma CoveredForbidden(c: Config, cs: seq<Constraint>, v: Valuation)
    requires WellFormed(c) && Shaped(c, v) && AllHold(v, cs) && CoversForbidden(c, cs)
    ensures ForbiddenRespected(c, v)
  {
    forall g, k | g in c.impossible && 0 <= k < |Slots(v, g)|
      ensures Slots(v, g)[k] !in Forbidden0(c, g)
    {
      forall x | x in Forbidden0(c, g) ensures Slots(v, g)[k] != x {
        assert Holds(v, Avoid(Own(g, k), x));
      }
    }
    forall g, j | g in c.impossible && 0 <= j < |c.joints| && g in c.joints[j]
      ensures v.joint[j] !in Forbidden0(c, g)
    {
      forall x | x in Forbidden0(c, g) ensures v.joint[j] != x {
        assert Holds(v, Avoid(Joint(j), x));
      }
    }
  }

  lemma CoveredPair(c: Config, cs: seq<Constraint>, v: Valuation, a: Group, b: Group)
    requires a in c.sessions && b in c.sessions
    requires Shaped(c, v) && AllHold(v, cs) && CoversPair(c, cs, a, b)
    ensures Apart(c, v, a, b)
  {
    forall k1, k2 | 0 <= k1 < |Slots(v, a)| && 0 <= k2 < |Slots(v, b)|
      ensures Slots(v, a)[k1] != Slots(v, b)[k2]
    {
      assert Holds(v, Differ(Own(a, k1), Own(b, k2)));
    }
    forall j, k | 0 <= j < |c.joints| && a in c.joints[j] && 0 <= k < |Slots(v, b)|
      ensures v.joint[j] != Slots(v, b)[k]
    {
      assert Holds(v, Differ(Joint(j), Own(b, k)));
    }
    forall j, k | 0 <= j < |c.joints| && b in c.joints[j] && 0 <= k < |Slots(v, a)|
      ensures v.joint[j] != Slots(v, a)[k]
    {
      assert Holds(v, Differ(Joint(j), Own(a, k)));
    }
  }

  lemma CoveredStrict(c: Config, cs: seq<Constraint>, v: Valuation)
    requires WellFormed(c) && Shaped(c, v) && AllHold(v, cs) && CoversStrict(c, cs)
    ensures StrictRespected(c, v)
  {
    forall i | 0 <= i < |c.strict| ensures Apart(c, v, c.strict[i].0, c.strict[i].1) {
      CoveredPair(c, cs, v, c.strict[i].0, c.strict[i].1);
    }
  }

  lemma CoveredPreferences(c: Config, cs: seq<Constraint>, v: Valuation)
    requires WellFormed(c) && Shaped(c, v) && AllHold(v, cs) && CoversPreferences(c, cs)
    ensures PreferencesRespected(c, v)
  {
    forall g, k | g in c.preferences && 0 <= k < |Slots(v, g)|
      ensures Slots(v, g)[k] in Preferred0(c, g)
    {
      assert Holds(v, AllowedIn(Own(g, k), Preferred0(c, g)));
    }
  }

  lemma CoveredCapacity(c: Config, cs: seq<Constraint>, tracked: seq<Var>, v: Valuation)
    requires Shaped(c, v) && AllHold(v, cs) && CoversCapacity(c, cs, tracked)
    ensures WithinCapacity(c, v)
  {
    forall s | 0 <= s < c.numSessions ensures Load(c, v, s) <= c.numTracks {
      assert Holds(v, AtMost(tracked, s, c.numTracks));
      assert CountAt(v, tracked, s) == Load(c, v, s);
    }
  }

  lemma CoveredSharingJoints(c: Config, cs: seq<Constraint>, v: Valuation)
    requires Shaped(c, v) && AllHold(v, cs) && CoversSharingJoints(c, cs)
    ensures SharingJointsApart(c, v)
  {
    forall j1, j2 | 0 <= j1 < j2 < |c.joints| && Share(c.joints[j1], c.joints[j2])
      ensures v.joint[j1] != v.joint[j2]
    {
      assert Holds(v, Differ(Joint(j1), Joint(j2)));
    }
  }

  // ---------------------------------------------------------------------------
  // Constraints a part covers stay covered in a model that contains the part.

  ghost predicate Within(part: seq<Constraint>, cs: seq<Constraint>)
  {
    forall con :: con in part ==> con in cs
  }

  lemma DomainsWithin(c: Config, a: seq<Constraint>, b: seq<Constraint>, cs: seq<Constraint>)
    requires CoversDomains(c, a + b) && Within(a + b, cs)
    ensures CoversDomains(c, cs)
  {
  }

  lemma OwnDistinctWithin(c: Config, part: seq<Constraint>, cs: seq<Constraint>)
    requires CoversOwnDistinct(c, part) && Within(part, cs)
    ensures CoversOwnDistinct(c, cs)
  {
  }

  lemma JointApartWithin(c: Config, part: seq<Constraint>, cs: seq<Constraint>)
    requires CoversJointApart(c, part) && Within(part, cs)
    ensures CoversJointApart(c, cs)
  {
  }

  lemma ForbiddenWithin(c: Config, part: seq<Constraint>, cs: seq<Constraint>)
    requires CoversForbidden(c, part) && Within(part, cs)
    ensures CoversForbidden(c, cs)
  {
  }

  lemma StrictWithin(c: Config, part: seq<Constraint>, cs: seq<Constraint>)
    requires WellFormed(c) && CoversStrict(c, part) && Within(part, cs)
    ensures CoversStrict(c, cs)
  {
    forall i | 0 <= i < |c.strict| ensures CoversPair(c, cs, c.strict[i].0, c.strict[i].1) {
      assert CoversPair(c, part, c.strict[i].0, c.strict[i].1);
    }
  }

  lemma PreferencesWithin(c: Config, part: seq<Constraint>, cs: seq<Constraint>)
    requires CoversPreferences(c, part) && Within(part, cs)
    ensures CoversPreferences(c, cs)
  {
  }

  lemma CapacityWithin(c: Config, part: seq<Constraint>, tracked: seq<Var>, cs: seq<Constraint>)
    requires CoversCapacity(c, part, tracked) && Within(part, cs)
    ensures CoversCapacity(c, cs, tracked)
  {
  }

  lemma SharingJointsWithin(c: Config, part: seq<Constraint>, cs: seq<Constraint>)
    requires CoversSharingJoints(c, part) && Within(part, cs)
    ensures CoversSharingJoints(c, cs)
  {
  }

  /** All that the builder's loops establish about the model they build. */
  ghost predicate Faithful(c: Config, m: Model, tracked: seq<Var>)
    requires WellFormed(c)
  {
    && m.ownVars == c.sessions && m.jointVars == |c.joints|
    && (forall con :: con in m.constraints ==> Generated(c, con))
    && CoversDomains(c, m.constraints)
    && CoversOwnDistinct(c, m.constraints)
    && CoversJointApart(c, m.constraints)
    && CoversForbidden(c, m.constraints)
    && CoversStrict(c, m.constraints)
    && CoversPreferences(c, m.constraints)
    && CoversCapacity(c, m.constraints, tracked)
    && CoversSharingJoints(c, m.constraints)
    && (forall v :: Shaped(c, v) ==> Objective(m.objective, v) == Penalty(c, v))
  }

  /** A model built faithfully has exactly the valid valuations as its solutions. */
  lemma FaithfulModelMeansValid(c: Config, m: Model, tracked: seq<Var>)
    requires WellFormed(c) && Faithful(c, m, tracked)
    ensures forall v :: Satisfies(m, v) <==> Valid(c, v)
  {
    forall v ensures Satisfies(m, v) <==> Valid(c, v) {
      if Valid(c, v) {
        forall con | con in m.constraints ensures Holds(v, con) {
          GeneratedHolds(c, v, con);
        }
      }
      if Satisfies(m, v) {
        var cs := m.constraints;
        assert Shaped(c, v);
        assert AllHold(v, cs);
        CoveredInRange(c, cs, v);
        CoveredOwnDistinct(c, cs, v);
        CoveredJointApart(c, cs, v);
        CoveredForbidden(c, cs, v);
        CoveredStrict(c, cs, v);
        CoveredPreferences(c, cs, v);
        CoveredCapacity(c, cs, tracked, v);
        CoveredSharingJoints(c, cs, v);
      }
    }
  }

  // ---------------------------------------------------------------------------
  // The loops of `schedule_sessions_once`, one method per block of the source.

  /** `group_vars[group] = [model.NewIntVar(0, num_sessions - 1, ...) for i in range(n)]` */
  method DeclareGroupVars(c: Config) returns (ownVars: map<Group, nat>, cs: seq<Constraint>)
    requires WellFormed(c)
    ensures ownVars == c.sessions
    ensures forall con :: con in cs ==> DomainCon(c, con)
    ensures forall g, k :: g in c.sessions && 0 <= k < c.sessions[g] ==> InDomain(Own(g, k), 0, c.numSessions - 1) in cs
  {
    ownVars, cs := map[], [];
    for p := 0 to |c.groups|
      invariant forall g :: g in ownVars <==> g in c.groups[..p]
      invariant forall g :: g in ownVars ==> g in c.sessions && ownVars[g] == c.sessions[g]
      invariant forall con :: con in cs ==> DomainCon(c, con)
      invariant forall g, k :: g in c.groups[..p] && 0 <= k < c.sessions[g] ==> InDomain(Own(g, k), 0, c.numSessions - 1) in cs
    {
      var g := c.groups[p];
      assert c.groups[..p + 1] == c.groups[..p] + [g];
      for k := 0 to c.sessions[g]
        invariant forall con :: con in cs ==> DomainCon(c, con)
        invariant forall g', k' :: g' in c.groups[..p] && 0 <= k' < c.sessions[g'] ==> InDomain(Own(g', k'), 0, c.numSessions - 1) in cs
        invariant forall k' :: 0 <= k' < k ==> InDomain(Own(g, k'), 0, c.numSessions - 1) in cs
      {
        cs := cs + [InDomain(Own(g, k), 0, c.numSessions - 1)];
      }
      ownVars := ownVars[g := c.sessions[g]];
    }
    assert c.groups[..|c.groups|] == c.groups;
  }

  /** `for i ...: for j in range(i + 1, ...): model.Add(sessions[i] != sessions[j])` for one group */
  method OwnPairs(c: Config, g: Group) returns (cs: seq<Constraint>)
    requires g in c.sessions
    ensures forall con :: con in cs ==> OwnPairCon(c, con)
    ensures forall i, j :: 0 <= i < j < c.sessions[g] ==> Differ(Own(g, i), Own(g, j)) in cs
  {
    cs := [];
    var n := c.sessions[g];
    for i := 0 to n
      invariant forall con :: con in cs ==> OwnPairCon(c, con)
      invariant forall i', j :: 0 <= i' < i && i' < j < n ==> Differ(Own(g, i'), Own(g, j)) in cs
    {
      for j := i + 1 to n
        invariant forall con :: con in cs ==> OwnPairCon(c, con)
        invariant forall i', j' :: 0 <= i' < i && i' < j' < n ==> Differ(Own(g, i'), Own(g, j')) in cs
        invariant forall j' :: i < j' < j ==> Differ(Own(g, i), Own(g, j')) in cs
      {
        cs := cs + [Differ(Own(g, i), Own(g, j))];
      }
    }
  }

  /** Lines 81-84: the own sessions of every group are pairwise different. */
  method AddOwnDistinct(c: Config) returns (cs: seq<Constraint>)
    requires WellFormed(c)
    ensures forall con :: con in cs ==> OwnPairCon(c, con)
    ensures CoversOwnDistinct(c, cs)
  {
    cs := [];
    for p := 0 to |c.groups|
      invariant forall con :: con in cs ==> OwnPairCon(c, con)
      invariant forall g, i, j :: g in c.groups[..p] && 0 <= i < j < c.sessions[g] ==> Differ(Own(g, i), Own(g, j)) in cs
    {
      var g := c.groups[p];
      assert c.groups[..p + 1] == c.groups[..p] + [g];
      var pairs := OwnPairs(c, g);
      cs := cs + pairs;
    }
    assert c.groups[..|c.groups|] == c.groups;
  }

  /** `joint_session_vars[idx] = model.NewIntVar(0, num_sessions - 1, ...)` */
  method DeclareJointVars(c: Config) returns (jointVars: nat, cs: seq<Constraint>)
    ensures jointVars == |c.joints|
    ensures forall con :: con in cs ==> DomainCon(c, con)
    ensures forall j :: 0 <= j < |c.joints| ==> InDomain(Joint(j), 0, c.numSessions - 1) in cs
  {
    jointVars, cs := 0, [];
    for j := 0 to |c.joints|
      invariant jointVars == j
      invariant forall con :: con in cs ==> DomainCon(c, con)
      invariant forall j' :: 0 <= j' < j ==> InDomain(Joint(j'), 0, c.numSessions - 1) in cs
    {
      cs := cs + [InDomain(Joint(j), 0, c.numSessions - 1)];
      jointVars := jointVars + 1;
    }
  }

  /** Joint session `j` differs from each own session of `member` (lines 95-96). */
  method MemberApart(c: Config, j: nat, member: Group) returns (cs: seq<Constraint>)
    requires j < |c.joints| && member in c.joints[j] && member in c.sessions
    ensures forall con :: con in cs ==> MemberJointCon(c, con)
    ensures forall k :: 0 <= k < c.sessions[member] ==> Differ(Own(member, k), Joint(j)) in cs
  {
    cs := [];
    for k := 0 to c.sessions[member]
      invariant forall con :: con in cs ==> MemberJointCon(c, con)
      invariant forall k' :: 0 <= k' < k ==> Differ(Own(member, k'), Joint(j)) in cs
    {
      cs := cs + [Differ(Own(member, k), Joint(j))];
    }
  }

  /** Lines 92-96: joint sessions avoid their members' own sessions. */
  method AddJointApart(c: Config) returns (cs: seq<Constraint>)
    requires WellFormed(c)
    ensures forall con :: con in cs ==> MemberJointCon(c, con)
    ensures CoversJointApart(c, cs)
  {
    cs := [];
    for j := 0 to |c.joints|
      invariant forall con :: con in cs ==> MemberJointCon(c, con)
      invariant forall j', g, k :: 0 <= j' < j && g in c.joints[j'] && g in c.sessions && 0 <= k < c.sessions[g] ==>
        Differ(Own(g, k), Joint(j')) in cs
    {
      var members := c.joints[j];
      for t := 0 to |members|
        invariant forall con :: con in cs ==> MemberJointCon(c, con)
        invariant forall j', g, k :: 0 <= j' < j && g in c.joints[j'] && g in c.sessions && 0 <= k < c.sessions[g] ==>
          Differ(Own(g, k), Joint(j')) in cs
        invariant forall g, k :: g in members[..t] && g in c.sessions && 0 <= k < c.sessions[g] ==> Differ(Own(g, k), Joint(j)) in cs
      {
        assert members[..t + 1] == members[..t] + [members[t]];
        var apart := MemberApart(c, j, members[t]);
        cs := cs + apart;
      }
      assert members[..|members|] == members;
    }
  }

  /** `for impossible in impossible_sessions: model.Add(x != impossible)` */
  method AvoidAll(x: Var, values: seq<int>) returns (cs: seq<Constraint>)
    ensures forall con :: con in cs ==> con.Avoid? && con.x == x && con.value in values
    ensures forall value :: value in values ==> Avoid(x, value) in cs
  {
    cs := [];
    for t := 0 to |values|
      invariant forall con :: con in cs ==> con.Avoid? && con.x == x && con.value in values
      invariant forall value :: value in values[..t] ==> Avoid(x, value) in cs
    {
      assert values[..t + 1] == values[..t] + [values[t]];
      cs := cs + [Avoid(x, values[t])];
    }
    assert values[..|values|] == values;
  }

  /** Lines 101-109 for one group `g` with 0-based forbidden slots `forbidden`. */
  method ForbiddenFor(c: Config, g: Group, forbidden: seq<int>) returns (cs: seq<Constraint>)
    requires g in c.impossible && g in c.sessions && forbidden == Forbidden0(c, g)
    ensures forall con :: con in cs ==> ForbiddenOwnCon(c, con) || ForbiddenJointCon(c, con)
    ensures forall k, x :: 0 <= k < c.sessions[g] && x in forbidden ==> Avoid(Own(g, k), x) in cs
    ensures forall j, x :: 0 <= j < |c.joints| && g in c.joints[j] && x in forbidden ==> Avoid(Joint(j), x) in cs
  {
    cs := [];
    for k := 0 to c.sessions[g]
      invariant forall con :: con in cs ==> ForbiddenOwnCon(c, con)
      invariant forall k', x :: 0 <= k' < k && x in forbidden ==> Avoid(Own(g, k'), x) in cs
    {
      var own := AvoidAll(Own(g, k), forbidden);
      cs := cs + own;
    }
    for j := 0 to |c.joints|
      invariant forall con :: con in cs ==> ForbiddenOwnCon(c, con) || ForbiddenJointCon(c, con)
      invariant forall k, x :: 0 <= k < c.sessions[g] && x in forbidden ==> Avoid(Own(g, k), x) in cs
      invariant forall j', x :: 0 <= j' < j && g in c.joints[j'] && x in forbidden ==> Avoid(Joint(j'), x) in cs
    {
      if g in c.joints[j] {
        var joint := AvoidAll(Joint(j), forbidden);
        cs := cs + joint;
      }
    }
  }

  /** Lines 99-109: forbidden slots, for own sessions and for joint sessions of the group. */
  method AddForbidden(c: Config) returns (cs: seq<Constraint>)
    requires WellFormed(c)
    ensures forall con :: con in cs ==> ForbiddenOwnCon(c, con) || ForbiddenJointCon(c, con)
    ensures CoversForbidden(c, cs)
  {
    var impossible0 := ZeroBased(c.impossible);
    cs := [];
    var todo := impossible0.Keys;
    while todo != {}
      invariant todo <= c.impossible.Keys
      invariant forall con :: con in cs ==> ForbiddenOwnCon(c, con) || ForbiddenJointCon(c, con)
      invariant forall g, k, x :: g in c.impossible && g !in todo && g in c.sessions && 0 <= k < c.sessions[g] && x in Forbidden0(c, g) ==>
        Avoid(Own(g, k), x) in cs
      invariant forall g, j, x :: g in c.impossible && g !in todo && 0 <= j < |c.joints| && g in c.joints[j] && x in Forbidden0(c, g) ==>
        Avoid(Joint(j), x) in cs
      decreases todo
    {
      var g :| g in todo;
      var added := ForbiddenFor(c, g, impossible0[g]);
      cs := cs + added;
      todo := todo - {g};
    }
  }

  /** Lines 116-118: every own session of `a` differs from every own session of `b`. */
  method CrossPairs(c: Config, a: Group, b: Group) returns (cs: seq<Constraint>)
    requires (a, b) in c.strict && a in c.sessions && b in c.sessions
    ensures forall con :: con in cs ==> StrictOwnCon(c, con)
    ensures forall k1, k2 :: 0 <= k1 < c.sessions[a] && 0 <= k2 < c.sessions[b] ==> Differ(Own(a, k1), Own(b, k2)) in cs
  {
    cs := [];
    for k1 := 0 to c.sessions[a]
      invariant forall con :: con in cs ==> StrictOwnCon(c, con)
      invariant forall k1', k2 :: 0 <= k1' < k1 && 0 <= k2 < c.sessions[b] ==> Differ(Own(a, k1'), Own(b, k2)) in cs
    {
      for k2 := 0 to c.sessions[b]
        invariant forall con :: con in cs ==> StrictOwnCon(c, con)
        invariant forall k1', k2' :: 0 <= k1' < k1 && 0 <= k2' < c.sessions[b] ==> Differ(Own(a, k1'), Own(b, k2')) in cs
        invariant forall k2' :: 0 <= k2' < k2 ==> Differ(Own(a, k1), Own(b, k2')) in cs
      {
        cs := cs + [Differ(Own(a, k1), Own(b, k2))];
      }
    }
  }

  /** Joint session `j` differs from every own session of `b`. */
  method JointAgainst(c: Config, j: nat, b: Group) returns (cs: seq<Constraint>)
    requires b in c.sessions
    ensures forall con :: con in cs ==> con.Differ? && con.x == Joint(j) && con.y.Own? && con.y.group == b && con.y.index < c.sessions[b]
    ensures forall k :: 0 <= k < c.sessions[b] ==> Differ(Joint(j), Own(b, k)) in cs
  {
    cs := [];
    for k := 0 to c.sessions[b]
      invariant forall con :: con in cs ==> con.Differ? && con.x == Joint(j) && con.y.Own? && con.y.group == b && con.y.index < c.sessions[b]
      invariant forall k' :: 0 <= k' < k ==> Differ(Joint(j), Own(b, k')) in cs
    {
      cs := cs + [Differ(Joint(j), Own(b, k))];
    }
  }

  /** Lines 113-129 for strict pair number `i`. */
  method StrictPair(c: Config, i: nat) returns (cs: seq<Constraint>)
    requires WellFormed(c) && i < |c.strict|
    ensures forall con :: con in cs ==> StrictOwnCon(c, con) || StrictJointCon(c, con)
    ensures CoversPair(c, cs, c.strict[i].0, c.strict[i].1)
  {
    var (a, b) := c.strict[i];
    cs := CrossPairs(c, a, b);
    for j := 0 to |c.joints|
      invariant forall con :: con in cs ==> StrictOwnCon(c, con) || StrictJointCon(c, con)
      invariant forall k1, k2 :: 0 <= k1 < c.sessions[a] && 0 <= k2 < c.sessions[b] ==> Differ(Own(a, k1), Own(b, k2)) in cs
      invariant forall j', k :: 0 <= j' < j && a in c.joints[j'] && 0 <= k < c.sessions[b] ==> Differ(Joint(j'), Own(b, k)) in cs
      invariant forall j', k :: 0 <= j' < j && b in c.joints[j'] && 0 <= k < c.sessions[a] ==> Differ(Joint(j'), Own(a, k)) in cs
    {
      var joint := c.joints[j];
      if a in joint {
        assert StrictAgainst(c, i, j, b);
        var added := JointAgainst(c, j, b);
        cs := cs + added;
      }
      if b in joint {
        assert StrictAgainst(c, i, j, a);
        var added := JointAgainst(c, j, a);
        cs := cs + added;
      }
    }
  }

  /** Lines 112-129: strict non-overlap, extended to joint sessions. */
  method AddStrict(c: Config) returns (cs: seq<Constraint>)
    requires WellFormed(c)
    ensures forall con :: con in cs ==> StrictOwnCon(c, con) || StrictJointCon(c, con)
    ensures CoversStrict(c, cs)
  {
    cs := [];
    for i := 0 to |c.strict|
      invariant forall con :: con in cs ==> StrictOwnCon(c, con) || StrictJointCon(c, con)
      invariant forall i' :: 0 <= i' < i ==> CoversPair(c, cs, c.strict[i'].0, c.strict[i'].1)
    {
      var added := StrictPair(c, i);
      cs := cs + added;
    }
  }

  /** Lines 143-146: `AddAllowedAssignments` restricts a group's own sessions to its preferred slots. */
  method AddPreferences(c: Config) returns (cs: seq<Constraint>)
    requires WellFormed(c)
    ensures forall con :: con in cs ==> PreferenceCon(c, con)
    ensures CoversPreferences(c, cs)
  {
    var preferences0 := ZeroBased(c.preferences);
    cs := [];
    var todo := preferences0.Keys;
    while todo != {}
      invariant todo <= c.preferences.Keys
      invariant forall con :: con in cs ==> PreferenceCon(c, con)
      invariant forall g, k :: g in c.preferences && g !in todo && g in c.sessions && 0 <= k < c.sessions[g] ==>
        AllowedIn(Own(g, k), Preferred0(c, g)) in cs
      decreases todo
    {
      var g :| g in todo;
      var allowed := preferences0[g];
      for k := 0 to c.sessions[g]
        invariant forall con :: con in cs ==> PreferenceCon(c, con)
        invariant forall g', k' :: g' in c.preferences && g' !in todo && g' in c.sessions && 0 <= k' < c.sessions[g'] ==>
          AllowedIn(Own(g', k'), Preferred0(c, g')) in cs
        invariant forall k' :: 0 <= k' < k ==> AllowedIn(Own(g, k'), Preferred0(c, g)) in cs
      {
        cs := cs + [AllowedIn(Own(g, k), allowed)];
      }
      todo := todo - {g};
    }
  }

  lemma OccurrencesStep(xs: seq<int>, k: nat, s: int)
    requires k < |xs|
    ensures Occurrences(xs[..k + 1], s) == Occurrences(xs[..k], s) + (if xs[k] == s then 1 else 0)
  {
    assert xs[..k + 1][..k] == xs[..k];
  }

  lemma GroupLoadStep(gs: seq<Group>, p: nat, v: Valuation, s: int)
    requires p < |gs|
    ensures GroupLoad(gs[..p + 1], v, s) == GroupLoad(gs[..p], v, s) + Occurrences(Slots(v, gs[p]), s)
  {
    assert gs[..p + 1][..p] == gs[..p];
  }

  /** Appends the own variables of `g`, each adding one to the count of its slot. */
  method TrackGroup(c: Config, g: Group, tracked: seq<Var>) returns (r: seq<Var>)
    requires g in c.sessions
    ensures forall v, s :: Shaped(c, v) ==> CountAt(v, r, s) == CountAt(v, tracked, s) + Occurrences(Slots(v, g), s)
  {
    r := tracked;
    for k := 0 to c.sessions[g]
      invariant forall v, s :: Shaped(c, v) ==> CountAt(v, r, s) == CountAt(v, tracked, s) + Occurrences(Slots(v, g)[..k], s)
    {
      forall v, s | Shaped(c, v)
        ensures CountAt(v, r + [Own(g, k)], s) == CountAt(v, tracked, s) + Occurrences(Slots(v, g)[..k + 1], s)
      {
        CountAtAppend(v, r, Own(g, k), s);
        OccurrencesStep(Slots(v, g), k, s);
      }
      r := r + [Own(g, k)];
    }
    forall v | Shaped(c, v) ensures Slots(v, g)[..c.sessions[g]] == Slots(v, g) { }
  }

  /** Appends the joint variables, each adding one to the count of its slot. */
  method TrackJoints(c: Config, tracked: seq<Var>) returns (r: seq<Var>)
    ensures forall v, s :: Shaped(c, v) ==> CountAt(v, r, s) == CountAt(v, tracked, s) + Occurrences(v.joint, s)
  {
    r := tracked;
    for j := 0 to |c.joints|
      invariant forall v, s :: Shaped(c, v) ==> CountAt(v, r, s) == CountAt(v, tracked, s) + Occurrences(v.joint[..j], s)
    {
      forall v, s | Shaped(c, v)
        ensures CountAt(v, r + [Joint(j)], s) == CountAt(v, tracked, s) + Occurrences(v.joint[..j + 1], s)
      {
        CountAtAppend(v, r, Joint(j), s);
        OccurrencesStep(v.joint, j, s);
      }
      r := r + [Joint(j)];
    }
    forall v | Shaped(c, v) ensures v.joint[..|c.joints|] == v.joint { }
  }

  /** Lines 152-162: the variables whose "equals this slot" indicators are summed, groups first. */
  method TrackedVars(c: Config) returns (tracked: seq<Var>)
    requires WellFormed(c)
    ensures CountsLoad(c, tracked)
  {
    tracked := [];
    for p := 0 to |c.groups|
      invariant forall v, s :: Shaped(c, v) ==> CountAt(v, tracked, s) == GroupLoad(c.groups[..p], v, s)
    {
      tracked := TrackGroup(c, c.groups[p], tracked);
      forall v, s | Shaped(c, v) ensures CountAt(v, tracked, s) == GroupLoad(c.groups[..p + 1], v, s) {
        GroupLoadStep(c.groups, p, v, s);
      }
    }
    assert c.groups[..|c.groups|] == c.groups;
    tracked := TrackJoints(c, tracked);
  }

  /** Lines 149-165: no slot holds more than `num_tracks` sessions. */
  method AddCapacity(c: Config) returns (cs: seq<Constraint>, ghost tracked: seq<Var>)
    requires WellFormed(c)
    ensures forall con :: con in cs ==> CapacityCon(c, con)
    ensures CoversCapacity(c, cs, tracked)
  {
    var vars := TrackedVars(c);
    tracked := vars;
    cs := [];
    var s := 0;
    while s < c.numSessions
      invariant forall con :: con in cs ==> CapacityCon(c, con)
      invariant forall s' :: 0 <= s' < s ==> AtMost(vars, s', c.numTracks) in cs
      invariant 0 <= s
      decreases c.numSessions - s
    {
      cs := cs + [AtMost(vars, s, c.numTracks)];
      s := s + 1;
    }
  }

  /** Lines 170-172 for one `j1`: `j1` differs from every later joint session it shares a member with. */
  method AddSharingWith(c: Config, j1: nat, cs: seq<Constraint>) returns (out: seq<Constraint>)
    requires j1 < |c.joints|
    requires forall con :: con in cs ==> SharingJointCon(c, con)
    ensures forall con :: con in out ==> SharingJointCon(c, con)
    ensures forall con :: con in cs ==> con in out
    ensures forall i2 :: j1 < i2 < |c.joints| && Share(c.joints[j1], c.joints[i2]) ==> Differ(Joint(j1), Joint(i2)) in out
  {
    out := cs;
    for j2 := 0 to |c.joints|
      invariant forall con :: con in out ==> SharingJointCon(c, con)
      invariant forall con :: con in cs ==> con in out
      invariant forall i2 :: j1 < i2 < j2 && Share(c.joints[j1], c.joints[i2]) ==> Differ(Joint(j1), Joint(i2)) in out
    {
      if j1 < j2 && Share(c.joints[j1], c.joints[j2]) {
        out := out + [Differ(Joint(j1), Joint(j2))];
      }
    }
  }

  /** Lines 168-172: joint sessions with a member in common are in different slots. */
  method AddSharingJoints(c: Config) returns (cs: seq<Constraint>)
    ensures forall con :: con in cs ==> SharingJointCon(c, con)
    ensures CoversSharingJoints(c, cs)
  {
    cs := [];
    for j1 := 0 to |c.joints|
      invariant forall con :: con in cs ==> SharingJointCon(c, con)
      invariant forall i1, i2 :: 0 <= i1 < j1 && i1 < i2 < |c.joints| && Share(c.joints[i1], c.joints[i2]) ==>
        Differ(Joint(i1), Joint(i2)) in cs
    {
      cs := AddSharingWith(c, j1, cs);
    }
  }

  lemma ObjectiveStep(terms: seq<OverlapTerm>, t: OverlapTerm, v: Valuation)
    ensures Objective(terms + [t], v) == Objective(terms, v) + (if Value(v, t.x) == Value(v, t.y) then t.weight else 0)
  {
    assert (terms + [t])[..|terms|] == terms;
  }

  lemma MatchWeightStep(ys: seq<int>, k: nat, x: int, w: nat)
    requires k < |ys|
    ensures MatchWeight(ys[..k + 1], x, w) == MatchWeight(ys[..k], x, w) + (if ys[k] == x then w else 0)
  {
    assert ys[..k + 1][..k] == ys[..k];
  }

  lemma PairPenaltyStep(xs: seq<int>, k: nat, ys: seq<int>, w: nat)
    requires k < |xs|
    ensures PairPenalty(xs[..k + 1], ys, w) == PairPenalty(xs[..k], ys, w) + MatchWeight(ys, xs[k], w)
  {
    assert xs[..k + 1][..k] == xs[..k];
  }

  lemma PenaltyOfStep(items: seq<(Group, seq<Group>)>, p: nat, v: Valuation)
    requires p < |items|
    ensures PenaltyOf(items[..p + 1], v) == PenaltyOf(items[..p], v) + RivalsPenalty(v, items[p].0, items[p].1, |items[p].1|)
  {
    assert items[..p + 1][..p] == items[..p];
  }

  lemma RivalsPenaltyStep(v: Valuation, g: Group, rivals: seq<Group>, i: nat)
    requires i < |rivals|
    ensures RivalsPenalty(v, g, rivals, i + 1) == RivalsPenalty(v, g, rivals, i) + PairPenalty(Slots(v, g), Slots(v, rivals[i]), Pow10(|rivals| - i))
  {
  }

  /** Lines 136-140 for one own session of `g`: a weighted overlap indicator per session of `r`. */
  method MatchTerms(c: Config, g: Group, k1: nat, r: Group, w: nat, terms: seq<OverlapTerm>) returns (out: seq<OverlapTerm>)
    requires g in c.sessions && k1 < c.sessions[g] && r in c.sessions
    ensures forall v :: Shaped(c, v) ==> Objective(out, v) == Objective(terms, v) + MatchWeight(Slots(v, r), Slots(v, g)[k1], w)
  {
    out := terms;
    for k2 := 0 to c.sessions[r]
      invariant forall v :: Shaped(c, v) ==> Objective(out, v) == Objective(terms, v) + MatchWeight(Slots(v, r)[..k2], Slots(v, g)[k1], w)
    {
      var t := OverlapTerm(Own(g, k1), Own(r, k2), w);
      MatchTermsStep(c, g, k1, r, k2, w, terms, out);
      out := out + [t];
    }
    forall v | Shaped(c, v) ensures Slots(v, r)[..c.sessions[r]] == Slots(v, r) { }
  }

  /** One more rival session matched against own session `k1` of `g`. */
  lemma MatchTermsStep(c: Config, g: Group, k1: nat, r: Group, k2: nat, w: nat, terms: seq<OverlapTerm>, out: seq<OverlapTerm>)
    requires g in c.sessions && k1 < c.sessions[g] && r in c.sessions && k2 < c.sessions[r]
    requires forall v :: Shaped(c, v) ==> Objective(out, v) == Objective(terms, v) + MatchWeight(Slots(v, r)[..k2], Slots(v, g)[k1], w)
    ensures forall v :: Shaped(c, v) ==>
              Objective(out + [OverlapTerm(Own(g, k1), Own(r, k2), w)], v)
              == Objective(terms, v) + MatchWeight(Slots(v, r)[..k2 + 1], Slots(v, g)[k1], w)
  {
    var t := OverlapTerm(Own(g, k1), Own(r, k2), w);
    forall v | Shaped(c, v)
      ensures Objective(out + [t], v) == Objective(terms, v) + MatchWeight(Slots(v, r)[..k2 + 1], Slots(v, g)[k1], w)
    {
      ObjectiveStep(out, t, v);
      MatchWeightStep(Slots(v, r), k2, Slots(v, g)[k1], w);
    }
  }

  /** One more own session of `g` matched against every session of rival `r`. */
  lemma PairTermsStep(c: Config, g: Group, k1: nat, r: Group, w: nat, terms: seq<OverlapTerm>,
                      before: seq<OverlapTerm>, out: seq<OverlapTerm>)
    requires g in c.sessions && k1 < c.sessions[g] && r in c.sessions
    requires forall v :: Shaped(c, v) ==> Objective(before, v) == Objective(terms, v) + PairPenalty(Slots(v, g)[..k1], Slots(v, r), w)
    requires forall v :: Shaped(c, v) ==> Objective(out, v) == Objective(before, v) + MatchWeight(Slots(v, r), Slots(v, g)[k1], w)
    ensures forall v :: Shaped(c, v) ==> Objective(out, v) == Objective(terms, v) + PairPenalty(Slots(v, g)[..k1 + 1], Slots(v, r), w)
  {
    forall v | Shaped(c, v)
      ensures Objective(out, v) == Objective(terms, v) + PairPenalty(Slots(v, g)[..k1 + 1], Slots(v, r), w)
    {
      PairPenaltyStep(Slots(v, g), k1, Slots(v, r), w);
    }
  }

  /** Lines 135-140: every pair of an own session of `g` and one of rival `r`, with weight `w`. */
  method PairTerms(c: Config, g: Group, r: Group, w: nat, terms: seq<OverlapTerm>) returns (out: seq<OverlapTerm>)
    requires g in c.sessions && r in c.sessions
    ensures forall v :: Shaped(c, v) ==> Objective(out, v) == Objective(terms, v) + PairPenalty(Slots(v, g), Slots(v, r), w)
  {
    out := terms;
    for k1 := 0 to c.sessions[g]
      invariant forall v :: Shaped(c, v) ==> Objective(out, v) == Objective(terms, v) + PairPenalty(Slots(v, g)[..k1], Slots(v, r), w)
    {
      ghost var before := out;
      out := MatchTerms(c, g, k1, r, w, out);
      PairTermsStep(c, g, k1, r, w, terms, before, out);
    }
    forall v | Shaped(c, v) ensures Slots(v, g)[..c.sessions[g]] == Slots(v, g) { }
  }

  /** Lines 134-140 for one prioritized group: rival `i` weighs `10 ** (len(conflicts) - i)`. */
  method RivalTerms(c: Config, g: Group, rivals: seq<Group>, terms: seq<OverlapTerm>) returns (out: seq<OverlapTerm>)
    requires g in c.sessions && forall r :: r in rivals ==> r in c.sessions
    ensures forall v :: Shaped(c, v) ==> Objective(out, v) == Objective(terms, v) + RivalsPenalty(v, g, rivals, |rivals|)
  {
    out := terms;
    for i := 0 to |rivals|
      invariant forall v :: Shaped(c, v) ==> Objective(out, v) == Objective(terms, v) + RivalsPenalty(v, g, rivals, i)
    {
      ghost var before := out;
      assert rivals[i] in c.sessions;
      out := PairTerms(c, g, rivals[i], Pow10(|rivals| - i), out);
      RivalTermsStep(c, g, rivals, i, terms, before, out);
    }
  }

  /** Adding rival `i`'s terms extends the penalty of the first `i` rivals by one. */
  lemma RivalTermsStep(c: Config, g: Group, rivals: seq<Group>, i: nat,
                       terms: seq<OverlapTerm>, before: seq<OverlapTerm>, out: seq<OverlapTerm>)
    requires i < |rivals|
    requires forall v :: Shaped(c, v) ==> Objective(before, v) == Objective(terms, v) + RivalsPenalty(v, g, rivals, i)
    requires forall v :: Shaped(c, v) ==>
               Objective(out, v) == Objective(before, v) + PairPenalty(Slots(v, g), Slots(v, rivals[i]), Pow10(|rivals| - i))
    ensures forall v :: Shaped(c, v) ==> Objective(out, v) == Objective(terms, v) + RivalsPenalty(v, g, rivals, i + 1)
  {
    forall v | Shaped(c, v) ensures Objective(out, v) == Objective(terms, v) + RivalsPenalty(v, g, rivals, i + 1) {
      RivalsPenaltyStep(v, g, rivals, i);
    }
  }

  /** Lines 132-140: the weighted overlap indicators that make up the objective (line 175). */
  method AddPenalties(c: Config) returns (terms: seq<OverlapTerm>)
    requires WellFormed(c)
    ensures forall v :: Shaped(c, v) ==> Objective(terms, v) == Penalty(c, v)
  {
    terms := [];
    for p := 0 to |c.prioritized|
      invariant forall v :: Shaped(c, v) ==> Objective(terms, v) == PenaltyOf(c.prioritized[..p], v)
    {
      var (g, rivals) := c.prioritized[p];
      terms := RivalTerms(c, g, rivals, terms);
      forall v | Shaped(c, v) ensures Objective(terms, v) == PenaltyOf(c.prioritized[..p + 1], v) {
        PenaltyOfStep(c.prioritized, p, v);
      }
    }
    assert c.prioritized[..|c.prioritized|] == c.prioritized;
  }

  /**
   * The model of `schedule_sessions_once` (lines 72-175): its solutions are exactly the
   * valid valuations, and its objective is `Penalty`.
   */
  method BuildModel(c: Config) returns (m: Model)
    requires WellFormed(c)
    ensures m.ownVars == c.sessions && m.jointVars == |c.joints|
    ensures forall v :: Satisfies(m, v) <==> Valid(c, v)
    ensures forall v :: Shaped(c, v) ==> Objective(m.objective, v) == Penalty(c, v)
  {
    var ownVars, domains := DeclareGroupVars(c);
    var distinct := AddOwnDistinct(c);
    var jointVars, jointDomains := DeclareJointVars(c);
    var apart := AddJointApart(c);
    var forbidden := AddForbidden(c);
    var strict := AddStrict(c);
    var penalties := AddPenalties(c);
    var preferred := AddPreferences(c);
    var capacity, tracked := AddCapacity(c);
    var sharing := AddSharingJoints(c);
    var cs := domains + distinct + jointDomains + apart + forbidden + strict + preferred + capacity + sharing;
    m := Model(ownVars, jointVars, cs, penalties);
    assert forall con :: con in cs ==> Generated(c, con);
    assert CoversDomains(c, domains + jointDomains);
    DomainsWithin(c, domains, jointDomains, cs);
    OwnDistinctWithin(c, distinct, cs);
    JointApartWithin(c, apart, cs);
    ForbiddenWithin(c, forbidden, cs);
    StrictWithin(c, strict, cs);
    PreferencesWithin(c, preferred, cs);
    CapacityWithin(c, capacity, tracked, cs);
    SharingJointsWithin(c, sharing, cs);
    FaithfulModelMeansValid(c, m, tracked);
  }
}
