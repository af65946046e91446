/**
 * The scheduling configuration handed to the scheduler, and the valuations that the
 * constraint solver returns for it.
 */
module SchedConfig {

  /** A discussion group is identified by its name. */
  type Group = string

  /**
   * The arguments of `schedule_sessions_once`.
   * `groups` is the key order of the `group_sessions` dictionary and `sessions` its
   * contents (how many own sessions each group asks for); `prioritized` lists the items
   * of `prioritized_non_overlaps` in order; `preferences` and `impossible` hold slot
   * numbers as the caller writes them, counted from 1.
   */
  datatype Config = Config(
    groups: seq<Group>,
    sessions: map<Group, nat>,
    joints: seq<seq<Group>>,
    strict: seq<(Group, Group)>,
    prioritized: seq<(Group, seq<Group>)>,
    preferences: map<Group, seq<int>>,
    impossible: map<Group, seq<int>>,
    numSessions: int,
    numTracks: int)

  /**
   * A valuation of the decision variables: for each group the 0-based slots of its own
   * sessions, in variable order, and for each joint session (by index) its 0-based slot.
   */
  datatype Valuation = Valuation(own: map<Group, seq<int>>, joint: seq<int>)

  ghost predicate NoDuplicates<T>(s: seq<T>)
  {
    forall i, j :: 0 <= i < j < |s| ==> s[i] != s[j]
  }

  /**
   * What the source needs of its configuration: the group order lists each group once,
   * and every group named by a joint session, a strict pair, a prioritized conflict, a
   * preference or a forbidden-slot entry is a key of `group_sessions` (otherwise the
   * source stops with a KeyError).
   */
  ghost predicate WellFormed(c: Config)
  {
    && NoDuplicates(c.groups)
    && (forall g :: g in c.sessions <==> g in c.groups)
    && (forall j, g :: 0 <= j < |c.joints| && g in c.joints[j] ==> g in c.sessions)
    && (forall i :: 0 <= i < |c.strict| ==> c.strict[i].0 in c.sessions && c.strict[i].1 in c.sessions)
    && (forall i :: 0 <= i < |c.prioritized| ==> c.prioritized[i].0 in c.sessions)
    && (forall i, r :: 0 <= i < |c.prioritized| && r in c.prioritized[i].1 ==> r in c.sessions)
    && (forall g :: g in c.preferences ==> g in c.sessions)
    && (forall g :: g in c.impossible ==> g in c.sessions)
  }

  /** The valuation gives every decision variable of the configuration a value, and no other. */
  ghost predicate Shaped(c: Config, v: Valuation)
  {
    && v.own.Keys == c.sessions.Keys
    && (forall g :: g in v.own ==> |v.own[g]| == c.sessions[g])
    && |v.joint| == |c.joints|
  }

  /** The own slots of group `g`; a group without variables has none. */
  function Slots(v: Valuation, g: Group): seq<int>
  {
    if g in v.own then v.own[g] else []
  }

  /** Number of positions of `xs` holding `x`. */
  function Occurrences(xs: seq<int>, x: int): (n: nat)
    ensures n <= |xs|
    ensures n == 0 <==> x !in xs
  {
    if xs == [] then 0
    else Occurrences(xs[..|xs| - 1], x) + (if xs[|xs| - 1] == x then 1 else 0)
  }
}
