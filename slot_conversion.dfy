/**
 * `convert_values_to_0_based`: the caller writes preferred and forbidden slots counted
 * from 1; the model counts them from 0.  The source works on dynamically typed values,
 * so this module models the handful of value kinds it distinguishes.
 */
module SlotConversion {

  /**
   * A dictionary value as the conversion sees it.  Python's `bool` is a subclass of
   * `int` (`isinstance(True, int)` holds, `True - 1 == 0`), so it is its own case.
   */
  datatype PyValue =
    | PyInt(i: int)
    | PyBool(b: bool)
    | PyList(items: seq<PyValue>)
    | PyOther(description: string)

  /** `isinstance(val, int)` */
  predicate IsInt(val: PyValue)
  {
    val.PyInt? || val.PyBool?
  }

  /** The integer an int-like value stands for. */
  function IntOf(val: PyValue): int
    requires IsInt(val)
  {
    match val
    case PyInt(i) => i
    case PyBool(b) => if b then 1 else 0
  }

  /** The integers among `items`, in order; every other value is passed over. */
  function IntsOf(items: seq<PyValue>): (r: seq<int>)
    ensures |r| <= |items|
  {
    if items == [] then []
    else if IsInt(items[0]) then [IntOf(items[0])] + IntsOf(items[1..])
    else IntsOf(items[1..])
  }

  /** `[v - 1 for v in val if isinstance(v, int)]` */
  function ConvertList(items: seq<PyValue>): (r: seq<PyValue>)
    ensures |r| == |IntsOf(items)|
    ensures forall j :: 0 <= j < |r| ==> r[j] == PyInt(IntsOf(items)[j] - 1)
  {
    if items == [] then []
    else if IsInt(items[0]) then [PyInt(IntOf(items[0]) - 1)] + ConvertList(items[1..])
    else ConvertList(items[1..])
  }

  /** The nested helper `convert_value`. */
  function ConvertValue(val: PyValue): (r: PyValue)
    ensures IsInt(val) ==> r == PyInt(IntOf(val) - 1)
    ensures val.PyList? ==> r.PyList? && |r.items| == |IntsOf(val.items)|
    ensures val.PyList? ==> forall j :: 0 <= j < |r.items| ==> r.items[j] == PyInt(IntsOf(val.items)[j] - 1)
    ensures !IsInt(val) && !val.PyList? ==> r == val
  {
    match val
    case PyInt(i) => PyInt(i - 1)
    case PyBool(b) => PyInt(IntOf(val) - 1)
    case PyList(items) => PyList(ConvertList(items))
    case PyOther(_) => val
  }

  /** `convert_values_to_0_based`: the keys stay, every value is converted. */
  function ConvertValuesTo0Based<K>(d: map<K, PyValue>): (r: map<K, PyValue>)
    ensures r.Keys == d.Keys
    ensures forall k :: k in d ==> r[k] == ConvertValue(d[k])
  {
    map k | k in d :: ConvertValue(d[k])
  }

  /** A list of slot numbers as the Python list the caller passes. */
  function Lift(xs: seq<int>): (r: seq<PyValue>)
    ensures |r| == |xs|
    ensures forall j :: 0 <= j < |xs| ==> r[j] == PyInt(xs[j])
  {
    seq(|xs|, j requires 0 <= j < |xs| => PyInt(xs[j]))
  }

  /** A dictionary of slot lists as the Python dictionary the caller passes. */
  function LiftAll<K>(d: map<K, seq<int>>): (r: map<K, PyValue>)
    ensures r.Keys == d.Keys
    ensures forall k :: k in d ==> r[k] == PyList(Lift(d[k]))
  {
    map k | k in d :: PyList(Lift(d[k]))
  }

  /** Every slot of a list moved one down: slot `x` is in the result exactly when `x + 1` was given. */
  function Decrement(xs: seq<int>): (r: seq<int>)
    ensures |r| == |xs|
    ensures forall x :: x in r <==> x + 1 in xs
  {
    if xs == [] then [] else [xs[0] - 1] + Decrement(xs[1..])
  }

  /** The 0-based form of a dictionary of 1-based slot lists. */
  function ZeroBased<K>(d: map<K, seq<int>>): (r: map<K, seq<int>>)
    ensures r.Keys == d.Keys
    ensures forall k, x :: k in d ==> (x in r[k] <==> x + 1 in d[k])
  {
    map k | k in d :: Decrement(d[k])
  }

  /** A list made only of integers keeps all of them, in order. */
  lemma {:induction false} IntsOfLift(xs: seq<int>)
    ensures IntsOf(Lift(xs)) == xs
  {
    if xs != [] {
      assert Lift(xs)[1..] == Lift(xs[1..]);
      IntsOfLift(xs[1..]);
    }
  }

  /** A value that is not an integer is dropped from a list wherever it stands. */
  lemma {:induction false} NonIntsDropped(a: seq<PyValue>, val: PyValue, b: seq<PyValue>)
    requires !IsInt(val)
    ensures IntsOf(a + [val] + b) == IntsOf(a) + IntsOf(b)
  {
    if a == [] {
      assert a + [val] + b == [val] + b;
      assert ([val] + b)[1..] == b;
    } else {
      assert (a + [val] + b)[1..] == a[1..] + [val] + b;
      NonIntsDropped(a[1..], val, b);
    }
  }

  /** On a list of integers the conversion is exactly `Decrement`. */
  lemma {:induction false} ConvertLiftedList(xs: seq<int>)
    ensures ConvertValue(PyList(Lift(xs))) == PyList(Lift(Decrement(xs)))
  {
    IntsOfLift(xs);
    DecrementAt(xs);
  }

  lemma {:induction false} DecrementAt(xs: seq<int>)
    ensures forall j :: 0 <= j < |xs| ==> Decrement(xs)[j] == xs[j] - 1
  {
    if xs != [] {
      DecrementAt(xs[1..]);
    }
  }

  /**
   * Converting the caller's dictionary of 1-based slot lists yields the dictionary of
   * `ZeroBased` lists: the model's use of `ZeroBased` is the source's conversion.
   */
  lemma ConvertSlotDictionary<K>(d: map<K, seq<int>>)
    ensures ConvertValuesTo0Based(LiftAll(d)) == LiftAll(ZeroBased(d))
  {
    forall k | k in d
      ensures ConvertValuesTo0Based(LiftAll(d))[k] == LiftAll(ZeroBased(d))[k]
    {
      ConvertLiftedList(d[k]);
    }
  }
}
