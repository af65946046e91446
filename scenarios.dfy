/**
 * Small configurations worked out completely: which valuations the rules accept, the
 * agenda those give, and the change count against a previous agenda.
 */
module Scenarios {
  import opened Wrappers
  import opened SchedConfig
  import opened SlotConversion
  import opened Rules
  import opened AgendaAssembly
  import opened ChangeDistance
  import opened KeySums

  lemma OccurrencesSingle(x: int, s: int)
    ensures Occurrences([x], s) == if x == s then 1 else 0
  {
    assert [x][..0] == [];
  }

  /** The load of slot `s` when the groups are A and B. */
  lemma LoadOfTwo(c: Config, v: Valuation, s: int)
    requires c.groups == ["A", "B"] && Shaped(c, v) && "A" in v.own && "B" in v.own
    ensures Load(c, v, s) == Occurrences(v.own["A"], s) + Occurrences(v.own["B"], s) + Occurrences(v.joint, s)
  {
    assert c.groups[..1] == ["A"] && c.groups[..1][..0] == [];
    assert GroupLoad(c.groups, v, s) == GroupLoad(["A"], v, s) + Occurrences(Slots(v, "B"), s);
    assert GroupLoad(["A"], v, s) == Occurrences(Slots(v, "A"), s);
  }

  /** The labels of slot `k` when the groups are A and B, with no joint session. */
  lemma LabelsOfTwo(c: Config, v: Valuation, k: int)
    requires c.groups == ["A", "B"] && c.joints == [] && Shaped(c, v)
    ensures SlotLabels(c, v, k)
         == Copies("A", Occurrences(Slots(v, "A"), k - 1)) + Copies("B", Occurrences(Slots(v, "B"), k - 1))
  {
    assert c.groups[..1] == ["A"] && c.groups[..1][..0] == [];
    assert OwnLabels(["A"], v, k - 1) == Copies("A", Occurrences(Slots(v, "A"), k - 1));
  }

  // ---------------------------------------------------------------------------
  // Groups A and B with one session each, two slots, one track; A cannot attend slot 1.
  // ---------------------------------------------------------------------------

  const ForbiddenFirst: Config := Config(
    ["A", "B"], map["A" := 1, "B" := 1], [], [], [], map[], map["A" := [1]], 2, 1)

  /** A in slot 2, B in slot 1 (0-based: 1 and 0). */
  const ForbiddenFirstSchedule: Valuation := Valuation(map["A" := [1], "B" := [0]], [])

  /** A valid valuation of `ForbiddenFirst` is `ForbiddenFirstSchedule`. */
  lemma ForbiddenFirstForced(v: Valuation)
    requires Valid(ForbiddenFirst, v)
    ensures v == ForbiddenFirstSchedule
  {
    ForbiddenAndCapacityForce(v);
  }

  /** The only forbidden slot of A is slot 1 (0 when counted from 0). */
  lemma ForbiddenFirstSlot()
    ensures forall x :: x in Forbidden0(ForbiddenFirst, "A") <==> x == 0
  {
    var c := ForbiddenFirst;
    assert c.impossible["A"] == [1];
  }

  /** The slot range and the forbidden slot put A in slot 2. */
  lemma ForbiddenFirstPlacesA(v: Valuation)
    requires Shaped(ForbiddenFirst, v) && InRange(ForbiddenFirst, v) && ForbiddenRespected(ForbiddenFirst, v)
    ensures v.own["A"] == [1]
  {
    var c := ForbiddenFirst;
    assert "A" in v.own && |v.own["A"]| == 1;
    var a := v.own["A"][0];
    assert v.own["A"] == [a];
    ForbiddenFirstSlot();
    assert Slots(v, "A")[0] !in Forbidden0(c, "A");
  }

  /** The slot range, the forbidden slot and the single track alone already force the schedule. */
  lemma ForbiddenAndCapacityForce(v: Valuation)
    requires Shaped(ForbiddenFirst, v) && InRange(ForbiddenFirst, v)
    requires ForbiddenRespected(ForbiddenFirst, v) && WithinCapacity(ForbiddenFirst, v)
    ensures v == ForbiddenFirstSchedule
  {
    var c := ForbiddenFirst;
    ForbiddenFirstPlacesA(v);
    assert v.own.Keys == {"A", "B"} && |v.own["B"]| == 1;
    var b := v.own["B"][0];
    assert v.own["B"] == [b];
    LoadOfTwo(c, v, 1);
    OccurrencesSingle(1, 1);
    OccurrencesSingle(b, 1);
    assert b == 0;
    assert v.own == ForbiddenFirstSchedule.own;
  }

  /** `ForbiddenFirstSchedule` meets every rule. */
  lemma ForbiddenFirstScheduleValid()
    ensures Valid(ForbiddenFirst, ForbiddenFirstSchedule)
  {
    var c := ForbiddenFirst;
    var v := ForbiddenFirstSchedule;
    assert Shaped(c, v);
    ForbiddenFirstScheduleAvoids();
    ForbiddenFirstScheduleFits();
  }

  /** `ForbiddenFirstSchedule` keeps A out of slot 1. */
  lemma ForbiddenFirstScheduleAvoids()
    ensures Shaped(ForbiddenFirst, ForbiddenFirstSchedule)
    ensures ForbiddenRespected(ForbiddenFirst, ForbiddenFirstSchedule)
  {
    var c := ForbiddenFirst;
    var v := ForbiddenFirstSchedule;
    assert Shaped(c, v);
    ForbiddenFirstSlot();
    assert Slots(v, "A") == [1];
  }

  /** `ForbiddenFirstSchedule` puts one session in each slot. */
  lemma ForbiddenFirstScheduleFits()
    ensures WithinCapacity(ForbiddenFirst, ForbiddenFirstSchedule)
  {
    var c := ForbiddenFirst;
    var v := ForbiddenFirstSchedule;
    assert Shaped(c, v);
    forall s | 0 <= s < c.numSessions ensures Load(c, v, s) <= c.numTracks {
      LoadOfTwo(c, v, s);
      OccurrencesSingle(1, s);
      OccurrencesSingle(0, s);
    }
  }

  /** Its agenda is {1: [B], 2: [A]}, with no changes against an empty previous agenda. */
  lemma ForbiddenFirstAgenda()
    ensures AgendaOf(ForbiddenFirst, ForbiddenFirstSchedule) == map[1 := ["B"], 2 := ["A"]]
    ensures Changes(AgendaOf(ForbiddenFirst, ForbiddenFirstSchedule), Some(map[])) == 0
  {
    var c := ForbiddenFirst;
    var v := ForbiddenFirstSchedule;
    LabelsOfTwo(c, v, 1);
    LabelsOfTwo(c, v, 2);
    OccurrencesSingle(1, 0);
    OccurrencesSingle(0, 0);
    OccurrencesSingle(1, 1);
    OccurrencesSingle(0, 1);
    assert SlotLabels(c, v, 1) == ["B"];
    assert SlotLabels(c, v, 2) == ["A"];
  }

  // ---------------------------------------------------------------------------
  // Groups A, B and C with one session each, A and B strictly apart, two slots, two tracks.
  // ---------------------------------------------------------------------------

  const StrictPair: Config := Config(
    ["A", "B", "C"], map["A" := 1, "B" := 1, "C" := 1], [], [("A", "B")], [], map[], map[], 2, 2)

  /** Every valid valuation of `StrictPair` puts A and B in different slots. */
  lemma StrictPairApart(v: Valuation)
    requires Valid(StrictPair, v)
    ensures v.own["A"][0] != v.own["B"][0]
  {
    var c := StrictPair;
    assert "A" in v.own && "B" in v.own;
    assert Apart(c, v, c.strict[0].0, c.strict[0].1);
    assert Slots(v, "A")[0] != Slots(v, "B")[0];
  }

  /** A in slot 1 and B in slot 2, with C in slot `s + 1`. */
  function StrictPairSchedule(s: int): Valuation
  {
    Valuation(map["A" := [0], "B" := [1], "C" := [s]], [])
  }

  lemma LoadOfThree(c: Config, v: Valuation, s: int)
    requires c.groups == ["A", "B", "C"] && c.joints == [] && Shaped(c, v)
    requires "A" in v.own && "B" in v.own && "C" in v.own
    ensures Load(c, v, s) == Occurrences(v.own["A"], s) + Occurrences(v.own["B"], s) + Occurrences(v.own["C"], s)
  {
    var gs := c.groups;
    assert gs[..2] == ["A", "B"] && gs[..2][..1] == ["A"] && gs[..2][..1][..0] == [];
    assert GroupLoad(gs, v, s) == GroupLoad(["A", "B"], v, s) + Occurrences(Slots(v, "C"), s);
    assert GroupLoad(["A", "B"], v, s) == GroupLoad(["A"], v, s) + Occurrences(Slots(v, "B"), s);
    assert GroupLoad(["A"], v, s) == Occurrences(Slots(v, "A"), s);
  }

  /** C is unconstrained: with A and B apart, either slot for C is valid. */
  lemma StrictPairFreeC(s: int)
    requires 0 <= s < 2
    ensures Valid(StrictPair, StrictPairSchedule(s))
  {
    var c := StrictPair;
    var v := StrictPairSchedule(s);
    assert Shaped(c, v);
    assert Apart(c, v, "A", "B");
    assert StrictRespected(c, v);
    StrictPairScheduleFits(s);
  }

  /** Each of the two slots holds at most two of the three sessions. */
  lemma StrictPairScheduleFits(s: int)
    requires 0 <= s < 2
    ensures WithinCapacity(StrictPair, StrictPairSchedule(s))
  {
    var c := StrictPair;
    var v := StrictPairSchedule(s);
    assert Shaped(c, v);
    forall t | 0 <= t < c.numSessions ensures Load(c, v, t) <= c.numTracks {
      LoadOfThree(c, v, t);
      OccurrencesSingle(0, t);
      OccurrencesSingle(1, t);
      OccurrencesSingle(s, t);
    }
  }

  // ---------------------------------------------------------------------------
  // Groups A and B with one session each and a joint session of both, two slots.
  // ---------------------------------------------------------------------------

  function JointPair(tracks: int): Config
  {
    Config(["A", "B"], map["A" := 1, "B" := 1], [["A", "B"]], [], [], map[], map[], 2, tracks)
  }

  /**
   * The joint session avoids both own sessions, so with two slots A and B share the
   * other slot: that slot holds two sessions.
   */
  lemma JointPairShares(tracks: int, v: Valuation)
    requires Shaped(JointPair(tracks), v) && InRange(JointPair(tracks), v) && JointApart(JointPair(tracks), v)
    ensures v.own["A"][0] == v.own["B"][0] != v.joint[0]
    ensures Load(JointPair(tracks), v, v.own["A"][0]) == 2
  {
    var c := JointPair(tracks);
    assert "A" in v.own && "B" in v.own;
    var a := v.own["A"][0];
    var b := v.own["B"][0];
    var j := v.joint[0];
    assert v.own["A"] == [a] && v.own["B"] == [b] && v.joint == [j];
    assert "A" in c.joints[0] && "B" in c.joints[0];
    assert Slots(v, "A")[0] != j && Slots(v, "B")[0] != j;
    LoadOfTwo(c, v, a);
    OccurrencesSingle(a, a);
    OccurrencesSingle(b, a);
    OccurrencesSingle(j, a);
  }

  /** With one track no valuation meets every rule: the shared slot is over capacity. */
  lemma JointPairOneTrack(v: Valuation)
    ensures !Valid(JointPair(1), v)
  {
    var c := JointPair(1);
    if Shaped(c, v) && InRange(c, v) && JointApart(c, v) {
      JointPairShares(1, v);
      assert !WithinCapacity(c, v);
    }
  }

  /** A and B in slot 1, their joint session in slot 2. */
  const JointPairSchedule: Valuation := Valuation(map["A" := [0], "B" := [0]], [1])

  /** With two tracks that schedule is valid. */
  lemma JointPairTwoTracks()
    ensures Valid(JointPair(2), JointPairSchedule)
  {
    var c := JointPair(2);
    var v := JointPairSchedule;
    assert Shaped(c, v);
    assert JointApart(c, v);
    JointPairScheduleFits();
    assert SharingJointsApart(c, v);
  }

  /** Slot 1 holds the two own sessions and slot 2 the joint one. */
  lemma JointPairScheduleFits()
    ensures WithinCapacity(JointPair(2), JointPairSchedule)
  {
    var c := JointPair(2);
    var v := JointPairSchedule;
    assert Shaped(c, v);
    forall s | 0 <= s < c.numSessions ensures Load(c, v, s) <= c.numTracks {
      LoadOfTwo(c, v, s);
      OccurrencesSingle(0, s);
      OccurrencesSingle(1, s);
    }
  }
}
