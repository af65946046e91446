/**
 * Sums over the slots of an agenda. A Python dictionary is walked in insertion order;
 * the sums here are taken over the key set, so they hold whatever that order is.
 */
module KeySums {

  /** A non-empty set has a member. */
  lemma HasMember(keys: set<int>)
    requires keys != {}
    ensures exists k :: k in keys
  {
    if !exists k :: k in keys {
      assert false;
    }
  }

  /** The sum of `f` over `keys`, in no particular order. */
  ghost function SumOver(keys: set<int>, f: int -> nat): nat
    decreases keys
  {
    if keys == {} then 0
    else
      HasMember(keys);
      var k :| k in keys;
      f(k) + SumOver(keys - {k}, f)
  }

  /** Any key may be taken out first. */
  lemma SumOverRemove(keys: set<int>, f: int -> nat, k: int)
    requires k in keys
    ensures SumOver(keys, f) == f(k) + SumOver(keys - {k}, f)
    decreases keys
  {
    var j :| j in keys && SumOver(keys, f) == f(j) + SumOver(keys - {j}, f);
    if j != k {
      SumOverRemove(keys - {j}, f, k);
      SumOverRemove(keys - {k}, f, j);
      assert keys - {j} - {k} == keys - {k} - {j};
    }
  }

  /** Summands that agree on `keys` give the same sum. */
  lemma {:induction false} SumOverCongruent(keys: set<int>, f: int -> nat, g: int -> nat)
    requires forall k :: k in keys ==> f(k) == g(k)
    ensures SumOver(keys, f) == SumOver(keys, g)
    decreases keys
  {
    if keys != {} {
      HasMember(keys);
      var k :| k in keys;
      SumOverRemove(keys, f, k);
      SumOverRemove(keys, g, k);
      SumOverCongruent(keys - {k}, f, g);
    }
  }

  /** Summands bounded pointwise give a bounded sum. */
  lemma {:induction false} SumOverMonotone(keys: set<int>, f: int -> nat, g: int -> nat)
    requires forall k :: k in keys ==> f(k) <= g(k)
    ensures SumOver(keys, f) <= SumOver(keys, g)
    decreases keys
  {
    if keys != {} {
      HasMember(keys);
      var k :| k in keys;
      SumOverRemove(keys, f, k);
      SumOverRemove(keys, g, k);
      SumOverMonotone(keys - {k}, f, g);
    }
  }

  /** A sum of naturals is zero exactly when every summand is. */
  lemma {:induction false} SumOverZero(keys: set<int>, f: int -> nat)
    ensures SumOver(keys, f) == 0 <==> forall k :: k in keys ==> f(k) == 0
    decreases keys
  {
    if keys != {} {
      HasMember(keys);
      var k :| k in keys;
      SumOverRemove(keys, f, k);
      SumOverZero(keys - {k}, f);
    }
  }

  /** The sum of pointwise sums is the sum of the sums. */
  lemma {:induction false} SumOverAdd(keys: set<int>, f: int -> nat, g: int -> nat, h: int -> nat)
    requires forall k :: k in keys ==> h(k) == f(k) + g(k)
    ensures SumOver(keys, h) == SumOver(keys, f) + SumOver(keys, g)
    decreases keys
  {
    if keys != {} {
      HasMember(keys);
      var k :| k in keys;
      SumOverRemove(keys, f, k);
      SumOverRemove(keys, g, k);
      SumOverRemove(keys, h, k);
      SumOverAdd(keys - {k}, f, g, h);
    }
  }

  /** Summing a summand that is `1` at `a` and `0` elsewhere counts whether `a` is a key. */
  lemma {:induction false} SumOverIndicator(keys: set<int>, f: int -> nat, a: int)
    requires forall k :: k in keys ==> f(k) == if k == a then 1 else 0
    ensures SumOver(keys, f) == if a in keys then 1 else 0
    decreases keys
  {
    if keys != {} {
      HasMember(keys);
      var k :| k in keys;
      SumOverRemove(keys, f, k);
      SumOverIndicator(keys - {k}, f, a);
    }
  }
}
