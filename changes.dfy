/**
 * `calculate_changes`: how many labels of a candidate agenda are not in the same slot
 * of the previous agenda, after stripping surrounding whitespace.
 */
module ChangeDistance {
  import opened Wrappers
  import opened KeySums
  import opened AgendaAssembly

  /** The characters Python's `str.strip()` removes: those for which `str.isspace()` holds. */
  predicate IsSpace(ch: char)
  {
    || ('\t' <= ch <= '\r')
    || ('\U{1C}' <= ch <= ' ')
    || ch == '\U{85}' || ch == '\U{A0}' || ch == '\U{1680}'
    || ('\U{2000}' <= ch <= '\U{200A}')
    || ch == '\U{2028}' || ch == '\U{2029}' || ch == '\U{202F}' || ch == '\U{205F}' || ch == '\U{3000}'
  }

  /** `s` without its leading whitespace. */
  function TrimStart(s: string): (r: string)
    ensures |r| <= |s| && r == s[|s| - |r|..]
    ensures forall i :: 0 <= i < |s| - |r| ==> IsSpace(s[i])
    ensures r == [] || !IsSpace(r[0])
  {
    if s != [] && IsSpace(s[0]) then TrimStart(s[1..]) else s
  }

  /** `s` without its trailing whitespace. */
  function TrimEnd(s: string): (r: string)
    ensures |r| <= |s| && r == s[..|r|]
    ensures forall i :: |r| <= i < |s| ==> IsSpace(s[i])
    ensures r == [] || !IsSpace(r[|r| - 1])
  {
    if s != [] && IsSpace(s[|s| - 1]) then TrimEnd(s[..|s| - 1]) else s
  }

  /** `r` is the part of `s` from position `i` on, with only whitespace around it. */
  ghost predicate Surrounds(s: string, i: int, r: string)
  {
    && 0 <= i <= |s| - |r| && r == s[i..i + |r|]
    && (forall j :: 0 <= j < i ==> IsSpace(s[j]))
    && (forall j :: i + |r| <= j < |s| ==> IsSpace(s[j]))
  }

  /**
   * `s.strip()`: the part of `s` left between a whitespace prefix and a whitespace
   * suffix, neither starting nor ending with whitespace.
   */
  function Strip(s: string): (r: string)
    ensures exists i :: Surrounds(s, i, r)
    ensures r == [] || (!IsSpace(r[0]) && !IsSpace(r[|r| - 1]))
  {
    TrimmedSurrounds(s);
    TrimEnd(TrimStart(s))
  }

  /** Trimming both ends leaves the part of `s` between its leading and trailing whitespace. */
  lemma TrimmedSurrounds(s: string)
    ensures Surrounds(s, |s| - |TrimStart(s)|, TrimEnd(TrimStart(s)))
  {
    var t := TrimStart(s);
    var r := TrimEnd(t);
    assert |t| <= |s| && t == s[|s| - |t|..];
    assert forall j :: 0 <= j < |s| - |t| ==> IsSpace(s[j]);
    assert |r| <= |t| && r == t[..|r|];
    assert forall j :: |r| <= j < |t| ==> IsSpace(t[j]);
    SuffixPrefixSurrounds(s, t, r);
  }

  /** A prefix `r` of a suffix `t` of `s`, with whitespace cut off on both sides, surrounds. */
  lemma SuffixPrefixSurrounds(s: string, t: string, r: string)
    requires |t| <= |s| && t == s[|s| - |t|..] && forall j :: 0 <= j < |s| - |t| ==> IsSpace(s[j])
    requires |r| <= |t| && r == t[..|r|] && forall j :: |r| <= j < |t| ==> IsSpace(t[j])
    ensures Surrounds(s, |s| - |t|, r)
  {
    var i := |s| - |t|;
    assert r == s[i..i + |r|];
    forall j | i + |r| <= j < |s| ensures IsSpace(s[j]) {
      assert s[j] == t[j - i];
    }
  }

  /** A string with no surrounding whitespace is its own strip. */
  lemma StripUnpadded(s: string)
    requires s == [] || (!IsSpace(s[0]) && !IsSpace(s[|s| - 1]))
    ensures Strip(s) == s
  {
    assert TrimStart(s) == s;
  }

  /** Stripping twice is stripping once. */
  lemma StripIdempotent(s: string)
    ensures Strip(Strip(s)) == Strip(s)
  {
    StripUnpadded(Strip(s));
  }

  /** Python's order on strings: lexicographic by code point, a proper prefix first. */
  predicate StrLe(a: string, b: string)
  {
    if a == [] then true
    else if b == [] then false
    else if a[0] != b[0] then a[0] < b[0]
    else StrLe(a[1..], b[1..])
  }

  lemma {:induction false} StrLeTotal(a: string, b: string)
    ensures StrLe(a, b) || StrLe(b, a)
  {
    if a != [] && b != [] && a[0] == b[0] {
      StrLeTotal(a[1..], b[1..]);
    }
  }

  lemma {:induction false} StrLeAntisymmetric(a: string, b: string)
    requires StrLe(a, b) && StrLe(b, a)
    ensures a == b
  {
    if a != [] && b != [] {
      StrLeAntisymmetric(a[1..], b[1..]);
      assert a == [a[0]] + a[1..] && b == [b[0]] + b[1..];
    }
  }

  lemma {:induction false} StrLeTransitive(a: string, b: string, c: string)
    requires StrLe(a, b) && StrLe(b, c)
    ensures StrLe(a, c)
  {
    if a != [] && b != [] && c != [] && a[0] == b[0] && b[0] == c[0] {
      StrLeTransitive(a[1..], b[1..], c[1..]);
    }
  }

  /** Each string is at most the next one. */
  ghost predicate Sorted(s: seq<string>)
  {
    forall i :: 0 <= i < |s| - 1 ==> StrLe(s[i], s[i + 1])
  }

  /** `x` inserted into the sorted `xs` before the first string it does not exceed. */
  function Insert(x: string, xs: seq<string>): (r: seq<string>)
    requires Sorted(xs)
    ensures Sorted(r) && multiset(r) == multiset(xs) + multiset{x}
    ensures |r| == |xs| + 1 && (r[0] == x || (xs != [] && r[0] == xs[0]))
  {
    if xs == [] then [x]
    else if StrLe(x, xs[0]) then [x] + xs
    else
      StrLeTotal(x, xs[0]);
      assert xs == [xs[0]] + xs[1..];
      [xs[0]] + Insert(x, xs[1..])
  }

  /** `sorted(xs)`: the strings of `xs` in ascending order. */
  function Sort(xs: seq<string>): (r: seq<string>)
    ensures Sorted(r) && multiset(r) == multiset(xs)
  {
    if xs == [] then []
    else
      assert xs == xs[..|xs| - 1] + [xs[|xs| - 1]];
      Insert(xs[|xs| - 1], Sort(xs[..|xs| - 1]))
  }

  /** A sorted sequence is ordered between any two positions, not only neighbouring ones. */
  lemma {:induction false} SortedOrdered(s: seq<string>, i: int, j: int)
    requires Sorted(s) && 0 <= i <= j < |s|
    ensures StrLe(s[i], s[j])
    decreases j - i
  {
    if i == j {
      StrLeReflexive(s[i]);
    } else {
      SortedOrdered(s, i + 1, j);
      StrLeTransitive(s[i], s[i + 1], s[j]);
    }
  }

  lemma StrLeReflexive(a: string)
    ensures StrLe(a, a)
  {
    StrLeTotal(a, a);
  }

  /** `[item.strip() for item in xs]` */
  function StripAll(xs: seq<string>): (r: seq<string>)
    ensures |r| == |xs| && forall i :: 0 <= i < |xs| ==> r[i] == Strip(xs[i])
  {
    seq(|xs|, i requires 0 <= i < |xs| => Strip(xs[i]))
  }

  /** Lines 36-37: a slot's labels stripped and sorted. */
  function Normalize(xs: seq<string>): seq<string>
  {
    Sort(StripAll(xs))
  }

  /** Lines 44-46: how many positions of `xs` hold a string absent from `ys`. */
  function Missing(xs: seq<string>, ys: seq<string>): (n: nat)
    ensures n <= |xs|
    ensures n == 0 <==> forall i :: 0 <= i < |xs| ==> xs[i] in ys
  {
    if xs == [] then 0
    else
      assert forall i :: 0 <= i < |xs| - 1 ==> xs[..|xs| - 1][i] == xs[i];
      Missing(xs[..|xs| - 1], ys) + (if xs[|xs| - 1] in ys then 0 else 1)
  }

  /** The change count of one slot. */
  function SlotChanges(current: seq<string>, previous: seq<string>): nat
  {
    Missing(Normalize(current), Normalize(previous))
  }

  /** `previous_agenda.get(sess, [])` */
  function Get(previous: Agenda, sess: int): seq<string>
  {
    if sess in previous then previous[sess] else []
  }

  /** `not previous_agenda`: no previous agenda, or an empty one. */
  predicate Falsy(previous: Option<Agenda>)
  {
    previous.None? || previous.value == map[]
  }

  /** The change count of each slot of `current` against `previous`. */
  function SlotChangesAt(current: Agenda, previous: Agenda): int -> nat
  {
    sess => if sess in current then SlotChanges(current[sess], Get(previous, sess)) else 0
  }

  /** The value `calculate_changes` returns: the change counts of all slots of `current`, summed. */
  ghost function Changes(current: Agenda, previous: Option<Agenda>): nat
  {
    if Falsy(previous) then 0 else SumOver(current.Keys, SlotChangesAt(current, previous.value))
  }

  lemma MissingStep(xs: seq<string>, ys: seq<string>, i: nat)
    requires i < |xs|
    ensures Missing(xs[..i + 1], ys) == Missing(xs[..i], ys) + (if xs[i] in ys then 0 else 1)
  {
    assert xs[..i + 1][..i] == xs[..i];
  }

  /** Lines 44-46: counts the items absent from `previous`, one at a time. */
  method CountMissing(items: seq<string>, previous: seq<string>) returns (n: nat)
    ensures n == Missing(items, previous)
  {
    n := 0;
    for i := 0 to |items|
      invariant n == Missing(items[..i], previous)
    {
      if items[i] !in previous {
        n := n + 1;
      }
      MissingStep(items, previous, i);
    }
    assert items[..|items|] == items;
  }

  /** `calculate_changes` (lines 24-48). */
  method CalculateChanges(current: Agenda, previous: Option<Agenda>) returns (changes: nat)
    ensures changes == Changes(current, previous)
    ensures Falsy(previous) ==> changes == 0
  {
    changes := 0;
    if Falsy(previous) {
      return;
    }
    var prev := previous.value;
    var todo := current.Keys;
    while todo != {}
      invariant todo <= current.Keys
      invariant changes + SumOver(todo, SlotChangesAt(current, prev)) == SumOver(current.Keys, SlotChangesAt(current, prev))
      decreases todo
    {
      HasMember(todo);
      var sess :| sess in todo;
      var previousItems := Get(prev, sess);
      var normalizedCurrent := Normalize(current[sess]);
      var normalizedPrevious := Normalize(previousItems);
      var missing := CountMissing(normalizedCurrent, normalizedPrevious);
      changes := changes + missing;
      SumOverRemove(todo, SlotChangesAt(current, prev), sess);
      todo := todo - {sess};
    }
  }

  /** The first string of a sorted sequence is at most any of its strings. */
  lemma SortedHeadLeast(s: seq<string>, x: string)
    requires Sorted(s) && x in s
    ensures StrLe(s[0], x)
  {
    var j :| 0 <= j < |s| && s[j] == x;
    SortedOrdered(s, 0, j);
  }

  lemma SortedTail(s: seq<string>)
    requires Sorted(s) && s != []
    ensures Sorted(s[1..])
  {
    forall k | 0 <= k < |s[1..]| - 1 ensures StrLe(s[1..][k], s[1..][k + 1]) {
      assert s[1..][k] == s[k + 1] && s[1..][k + 1] == s[k + 2];
    }
  }

  /** Sorted arrangements of one multiset start with the same string. */
  lemma SortedSameHead(a: seq<string>, b: seq<string>)
    requires Sorted(a) && Sorted(b) && multiset(a) == multiset(b) && a != []
    ensures b != [] && a[0] == b[0]
  {
    assert a[0] in multiset(b);
    assert b != [];
    assert b[0] in multiset(a);
    SortedHeadLeast(a, b[0]);
    SortedHeadLeast(b, a[0]);
    StrLeAntisymmetric(a[0], b[0]);
  }

  lemma MultisetTail(a: seq<string>, b: seq<string>)
    requires a != [] && b != [] && a[0] == b[0] && multiset(a) == multiset(b)
    ensures multiset(a[1..]) == multiset(b[1..])
  {
    assert a == [a[0]] + a[1..] && b == [b[0]] + b[1..];
    assert multiset(a[1..]) == multiset(a) - multiset{a[0]};
    assert multiset(b[1..]) == multiset(b) - multiset{b[0]};
  }

  /** There is one sorted arrangement of a multiset of strings, so `Sort` is `sorted`. */
  lemma {:induction false} SortedUnique(a: seq<string>, b: seq<string>)
    requires Sorted(a) && Sorted(b) && multiset(a) == multiset(b)
    ensures a == b
    decreases |a|
  {
    if a == [] {
      assert |b| == |multiset(b)| == 0;
    } else {
      SortedSameHead(a, b);
      MultisetTail(a, b);
      SortedTail(a);
      SortedTail(b);
      SortedUnique(a[1..], b[1..]);
      assert a == [a[0]] + a[1..] && b == [b[0]] + b[1..];
    }
  }

  /** Removing position `i` of `xs` takes away that position's contribution and no other. */
  lemma {:induction false} MissingRemove(xs: seq<string>, ys: seq<string>, i: nat)
    requires i < |xs|
    ensures Missing(xs, ys) == Missing(xs[..i] + xs[i + 1..], ys) + (if xs[i] in ys then 0 else 1)
  {
    var n := |xs| - 1;
    var rest := xs[..i] + xs[i + 1..];
    if i == n {
      assert rest == xs[..n];
    } else {
      MissingRemove(xs[..n], ys, i);
      assert xs[..n][..i] + xs[..n][i + 1..] == rest[..|rest| - 1];
      assert rest[|rest| - 1] == xs[n];
    }
  }

  /** The count does not depend on the order of the counted strings. */
  lemma {:induction false} MissingPermuted(a: seq<string>, b: seq<string>, ys: seq<string>)
    requires multiset(a) == multiset(b)
    ensures Missing(a, ys) == Missing(b, ys)
    decreases |a|
  {
    if a == [] {
      assert |b| == |multiset(b)| == 0;
    } else {
      var n := |a| - 1;
      assert a[n] in multiset(b);
      var i :| 0 <= i < |b| && b[i] == a[n];
      var front := a[..n];
      var rest := b[..i] + b[i + 1..];
      assert a[..n] + a[n + 1..] == front;
      assert multiset(front) == multiset(a) - multiset{a[n]} by {
        assert a == front + [a[n]];
      }
      assert multiset(rest) == multiset(b) - multiset{b[i]} by {
        assert b == b[..i] + [b[i]] + b[i + 1..];
      }
      MissingPermuted(front, rest, ys);
      MissingRemove(a, ys, n);
      MissingRemove(b, ys, i);
    }
  }

  /** The count depends on the strings present in `ys`, not on their order or repetition. */
  lemma {:induction false} MissingSameMembers(xs: seq<string>, ys: seq<string>, zs: seq<string>)
    requires forall y :: y in ys <==> y in zs
    ensures Missing(xs, ys) == Missing(xs, zs)
  {
    if xs != [] {
      MissingSameMembers(xs[..|xs| - 1], ys, zs);
    }
  }

  lemma StripAllAppend(p: seq<string>, q: seq<string>)
    ensures StripAll(p + q) == StripAll(p) + StripAll(q)
  {
  }

  /** `[f(x) for x in xs]` */
  function MapAll(f: string -> string, xs: seq<string>): (r: seq<string>)
    ensures |r| == |xs| && forall i :: 0 <= i < |xs| ==> r[i] == f(xs[i])
  {
    seq(|xs|, i requires 0 <= i < |xs| => f(xs[i]))
  }

  /** Mapping a list with one item taken out takes out that item's image. */
  lemma MapAllRemove(f: string -> string, b: seq<string>, i: nat)
    requires i < |b|
    ensures multiset(MapAll(f, b)) == multiset(MapAll(f, b[..i] + b[i + 1..])) + multiset{f(b[i])}
  {
    var front, back := MapAll(f, b[..i]), MapAll(f, b[i + 1..]);
    assert MapAll(f, b) == front + [f(b[i])] + back;
    assert MapAll(f, b[..i] + b[i + 1..]) == front + back;
    assert multiset(front + [f(b[i])] + back) == multiset(front) + multiset{f(b[i])} + multiset(back);
  }

  /** Mapping a rearrangement gives a rearrangement of the images. */
  lemma {:induction false} MapAllPermuted(f: string -> string, a: seq<string>, b: seq<string>)
    requires multiset(a) == multiset(b)
    ensures multiset(MapAll(f, a)) == multiset(MapAll(f, b))
    decreases |a|
  {
    if a == [] {
      assert |b| == |multiset(b)| == 0;
    } else {
      var n := |a| - 1;
      assert a[n] in multiset(b);
      var i :| 0 <= i < |b| && b[i] == a[n];
      var front := a[..n];
      var rest := b[..i] + b[i + 1..];
      assert a[..n] + a[n + 1..] == front;
      assert multiset(front) == multiset(a) - multiset{a[n]} by {
        assert a == front + [a[n]];
      }
      assert multiset(rest) == multiset(b) - multiset{b[i]} by {
        assert b == b[..i] + [b[i]] + b[i + 1..];
      }
      MapAllPermuted(f, front, rest);
      MapAllRemove(f, a, n);
      MapAllRemove(f, b, i);
    }
  }

  /** Stripping a rearrangement gives a rearrangement of the stripped strings. */
  lemma StripAllPermuted(a: seq<string>, b: seq<string>)
    requires multiset(a) == multiset(b)
    ensures multiset(StripAll(a)) == multiset(StripAll(b))
  {
    MapAllPermuted(Strip, a, b);
    assert StripAll(a) == MapAll(Strip, a);
    assert StripAll(b) == MapAll(Strip, b);
  }

  /** Sorting does not change a slot's count: it is that of the stripped labels as listed. */
  lemma SlotChangesUnsorted(current: seq<string>, previous: seq<string>)
    ensures SlotChanges(current, previous) == Missing(StripAll(current), StripAll(previous))
  {
    var ps := Normalize(previous);
    MissingPermuted(Normalize(current), StripAll(current), ps);
    assert forall y :: y in ps <==> y in multiset(StripAll(previous));
    MissingSameMembers(StripAll(current), ps, StripAll(previous));
  }

  /** Reordering the labels of either slot leaves its count unchanged. */
  lemma SlotChangesPermuted(current: seq<string>, current': seq<string>, previous: seq<string>, previous': seq<string>)
    requires multiset(current) == multiset(current') && multiset(previous) == multiset(previous')
    ensures SlotChanges(current, previous) == SlotChanges(current', previous')
  {
    SlotChangesUnsorted(current, previous);
    SlotChangesUnsorted(current', previous');
    StripAllPermuted(current, current');
    StripAllPermuted(previous, previous');
    MissingPermuted(StripAll(current), StripAll(current'), StripAll(previous));
    assert forall y :: y in StripAll(previous) <==> y in multiset(StripAll(previous'));
    MissingSameMembers(StripAll(current'), StripAll(previous), StripAll(previous'));
  }

  /** A slot counts nothing exactly when each of its stripped labels is in the stripped previous slot. */
  lemma SlotChangesZero(current: seq<string>, previous: seq<string>)
    ensures SlotChanges(current, previous) == 0 <==>
            forall i :: 0 <= i < |current| ==> Strip(current[i]) in StripAll(previous)
  {
    SlotChangesUnsorted(current, previous);
  }

  /** A slot counts at most one change per label. */
  lemma SlotChangesBound(current: seq<string>, previous: seq<string>)
    ensures SlotChanges(current, previous) <= |current|
  {
    SlotChangesUnsorted(current, previous);
  }

  /** A slot compared with itself counts nothing. */
  lemma SlotChangesSelf(items: seq<string>)
    ensures SlotChanges(items, items) == 0
  {
    SlotChangesZero(items, items);
    assert forall i :: 0 <= i < |items| ==> Strip(items[i]) == StripAll(items)[i];
  }

  /** The count is at most the number of labels of the candidate agenda. */
  lemma ChangesBound(current: Agenda, previous: Option<Agenda>)
    ensures Changes(current, previous) <= TotalLabels(current)
  {
    if !Falsy(previous) {
      var f := SlotChangesAt(current, previous.value);
      forall sess | sess in current.Keys ensures f(sess) <= LabelsAt(current)(sess) {
        SlotChangesBound(current[sess], Get(previous.value, sess));
      }
      SumOverMonotone(current.Keys, f, LabelsAt(current));
    }
  }

  /** An agenda compared with itself counts no changes. */
  lemma ChangesSelf(agenda: Agenda)
    ensures Changes(agenda, Some(agenda)) == 0
  {
    if !Falsy(Some(agenda)) {
      var f := SlotChangesAt(agenda, agenda);
      forall sess | sess in agenda.Keys ensures f(sess) == 0 {
        SlotChangesSelf(agenda[sess]);
      }
      SumOverZero(agenda.Keys, f);
    }
  }

  /**
   * Against a non-empty previous agenda, the count is zero exactly when every stripped
   * label of the candidate is among the stripped labels of the same previous slot.
   */
  lemma ChangesZero(current: Agenda, previous: Agenda)
    requires previous != map[]
    ensures Changes(current, Some(previous)) == 0 <==>
            forall sess, i :: sess in current && 0 <= i < |current[sess]| ==>
              Strip(current[sess][i]) in StripAll(Get(previous, sess))
  {
    var f := SlotChangesAt(current, previous);
    SumOverZero(current.Keys, f);
    forall sess | sess in current {
      SlotChangesZero(current[sess], Get(previous, sess));
    }
  }

  /** Two agendas with the same slots, each listing the same labels up to order. */
  ghost predicate SameUpToOrder(a: Agenda, b: Agenda)
  {
    a.Keys == b.Keys && forall sess :: sess in a ==> multiset(a[sess]) == multiset(b[sess])
  }

  /** The count depends on neither agenda's order of labels within a slot. */
  lemma ChangesIgnoreOrder(current: Agenda, current': Agenda, previous: Agenda, previous': Agenda)
    requires SameUpToOrder(current, current') && SameUpToOrder(previous, previous')
    ensures Changes(current, Some(previous)) == Changes(current', Some(previous'))
  {
    if previous == map[] {
      assert previous'.Keys == {};
      assert previous' == map[];
    }
    if previous' == map[] {
      assert previous.Keys == {};
      assert previous == map[];
    }
    if previous != map[] && previous' != map[] {
      var f := SlotChangesAt(current, previous);
      var f' := SlotChangesAt(current', previous');
      forall sess | sess in current.Keys ensures f(sess) == f'(sess) {
        SlotChangesPermuted(current[sess], current'[sess], Get(previous, sess), Get(previous', sess));
      }
      SumOverCongruent(current.Keys, f, f');
    }
  }

  /** One more label in a slot adds one change if its stripped form is new to the previous slot. */
  lemma SlotChangesAddLabel(items: seq<string>, previous: seq<string>, x: string)
    ensures SlotChanges(items + [x], previous)
         == SlotChanges(items, previous) + (if Strip(x) in StripAll(previous) then 0 else 1)
  {
    SlotChangesUnsorted(items, previous);
    SlotChangesUnsorted(items + [x], previous);
    StripAllAppend(items, [x]);
    assert StripAll([x]) == [Strip(x)];
    MissingAppend(StripAll(items), StripAll(previous), Strip(x));
  }

  /** One more string adds one to the count exactly when it is absent. */
  lemma MissingAppend(xs: seq<string>, ys: seq<string>, x: string)
    ensures Missing(xs + [x], ys) == Missing(xs, ys) + (if x in ys then 0 else 1)
  {
    assert (xs + [x])[..|xs|] == xs;
  }

  /** One more label in a slot adds one change if it is new to that slot, and none otherwise. */
  lemma ChangesAddLabel(current: Agenda, previous: Agenda, sess: int, x: string)
    requires sess in current
    ensures Changes(current[sess := current[sess] + [x]], Some(previous))
         == Changes(current, Some(previous)) + (if previous != map[] && Strip(x) !in StripAll(Get(previous, sess)) then 1 else 0)
  {
    if previous != map[] {
      var current' := current[sess := current[sess] + [x]];
      assert current'.Keys == current.Keys;
      var f := SlotChangesAt(current, previous);
      var f' := SlotChangesAt(current', previous);
      SlotChangesAddLabel(current[sess], Get(previous, sess), x);
      assert f'(sess) == f(sess) + (if Strip(x) in StripAll(Get(previous, sess)) then 0 else 1);
      forall k | k in current.Keys - {sess} ensures f(k) == f'(k) {
        assert current'[k] == current[k];
      }
      SumOverRemove(current.Keys, f, sess);
      SumOverRemove(current.Keys, f', sess);
      SumOverCongruent(current.Keys - {sess}, f, f');
    }
  }

  /** Exactly one position of `xs` holds a string absent from `ys`. */
  lemma MissingOne(xs: seq<string>, ys: seq<string>, i: int)
    requires 0 <= i < |xs| && xs[i] !in ys
    requires forall j :: 0 <= j < |xs| && j != i ==> xs[j] in ys
    ensures Missing(xs, ys) == 1
  {
    MissingRemove(xs, ys, i);
    var rest := xs[..i] + xs[i + 1..];
    forall j | 0 <= j < |rest| ensures rest[j] in ys {
      if j < i {
        assert rest[j] == xs[j];
      } else {
        assert rest[j] == xs[j + 1];
      }
    }
  }

  /**
   * Exactly one change: every stripped label of the candidate is in the same previous
   * slot except the one at position `i` of slot `sess`; this is the count after renaming
   * a label that is unique in its slot, or moving it to another slot.
   */
  lemma ChangesExactlyOne(current: Agenda, previous: Agenda, sess: int, i: int)
    requires previous != map[] && sess in current && 0 <= i < |current[sess]|
    requires Strip(current[sess][i]) !in StripAll(Get(previous, sess))
    requires forall j :: 0 <= j < |current[sess]| && j != i ==> Strip(current[sess][j]) in StripAll(Get(previous, sess))
    requires forall s, j :: s in current && s != sess && 0 <= j < |current[s]| ==> Strip(current[s][j]) in StripAll(Get(previous, s))
    ensures Changes(current, Some(previous)) == 1
  {
    var f := SlotChangesAt(current, previous);
    SumOverRemove(current.Keys, f, sess);
    forall s | s in current.Keys - {sess} ensures f(s) == 0 {
      SlotChangesZero(current[s], Get(previous, s));
    }
    SumOverZero(current.Keys - {sess}, f);
    var items := StripAll(current[sess]);
    var p := StripAll(Get(previous, sess));
    assert items[i] == Strip(current[sess][i]);
    forall j | 0 <= j < |items| && j != i ensures items[j] in p {
      assert items[j] == Strip(current[sess][j]);
    }
    MissingOne(items, p, i);
    SlotChangesUnsorted(current[sess], Get(previous, sess));
  }
}
