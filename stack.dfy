/**
 * The return-address stack (src/stack.rs): a vector of at most 16 addresses.
 * Pushing onto a full stack panics with "stack overflow"; popping an empty one
 * panics on `unwrap`. Both panics are explicit results here.
 */
module CallStack {
  import opened Types

  const CAPACITY: nat := 16

  /** The stack after `push(value)`, or `None` for the overflow panic. */
  function Pushed(values: seq<u16>, value: u16): (r: Option<seq<u16>>)
    ensures r.Some? <==> |values| < CAPACITY
    ensures r.Some? ==> |r.value| == |values| + 1 && r.value[..|values|] == values && r.value[|values|] == value
  {
    if |values| >= CAPACITY then None else Some(values + [value])
  }

  /** The value `pop()` returns and the stack it leaves, or `None` for the underflow panic. */
  function Popped(values: seq<u16>): (r: Option<(u16, seq<u16>)>)
    ensures r.Some? <==> values != []
    ensures r.Some? ==> r.value.1 + [r.value.0] == values
  {
    if values == [] then None else Some((values[|values| - 1], values[..|values| - 1]))
  }

  /** `push(v)` then `pop()` returns `v` and restores the stack. */
  lemma PushThenPop(values: seq<u16>, value: u16)
    requires |values| < CAPACITY
    ensures Pushed(values, value).Some?
    ensures Popped(Pushed(values, value).value) == Some((value, values))
  {
    assert (values + [value])[..|values|] == values;
  }

  /** Push every value of `xs` in order; `None` as soon as one overflows. */
  function PushAll(values: seq<u16>, xs: seq<u16>): Option<seq<u16>>
    decreases |xs|
  {
    if xs == [] then Some(values)
    else match Pushed(values, xs[0])
      case None => None
      case Some(next) => PushAll(next, xs[1..])
  }

  /** Pop `n` times, collecting the values in the order they come off; `None` on underflow. */
  function PopAll(values: seq<u16>, n: nat): Option<(seq<u16>, seq<u16>)>
  {
    if n == 0 then Some(([], values))
    else match Popped(values)
      case None => None
      case Some((top, rest)) =>
        match PopAll(rest, n - 1)
        case None => None
        case Some((popped, left)) => Some(([top] + popped, left))
  }

  function Reverse(xs: seq<u16>): (r: seq<u16>)
    ensures |r| == |xs|
  {
    if xs == [] then [] else Reverse(xs[1..]) + [xs[0]]
  }

  /** Pushing `xs` overflows exactly when the stack would exceed its capacity. */
  lemma {:induction false} PushAllOverflow(values: seq<u16>, xs: seq<u16>)
    requires |values| <= CAPACITY
    ensures PushAll(values, xs).Some? <==> |values| + |xs| <= CAPACITY
    ensures PushAll(values, xs).Some? ==> PushAll(values, xs).value == values + xs
    decreases |xs|
  {
    if xs != [] {
      if |values| < CAPACITY {
        PushAllOverflow(values + [xs[0]], xs[1..]);
        assert values + [xs[0]] + xs[1..] == values + xs;
      }
    }
  }

  /** LIFO: values pushed in order come back off in the reverse order. */
  lemma {:induction false} PushAllThenPopAll(values: seq<u16>, xs: seq<u16>)
    requires |values| + |xs| <= CAPACITY
    ensures PushAll(values, xs).Some?
    ensures PopAll(PushAll(values, xs).value, |xs|) == Some((Reverse(xs), values))
  {
    PushAllOverflow(values, xs);
    PopAllAppended(values, xs);
  }

  lemma {:induction false} PopAllAppended(values: seq<u16>, xs: seq<u16>)
    ensures PopAll(values + xs, |xs|) == Some((Reverse(xs), values))
  {
    if xs != [] {
      var last := xs[|xs| - 1];
      var init := xs[..|xs| - 1];
      assert init + [last] == xs;
      assert values + xs == (values + init) + [last];
      assert (values + xs)[..|values + xs| - 1] == values + init;
      assert Popped(values + xs) == Some((last, values + init));
      PopAllAppended(values, init);
      ReverseSnoc(init, last);
      assert PopAll(values + xs, |xs|) == Some(([last] + Reverse(init), values));
    } else {
      assert values + xs == values;
    }
  }

  lemma {:induction false} ReverseSnoc(xs: seq<u16>, x: u16)
    ensures Reverse(xs + [x]) == [x] + Reverse(xs)
  {
    if xs != [] {
      assert (xs + [x])[1..] == xs[1..] + [x];
      ReverseSnoc(xs[1..], x);
    } else {
      assert [x][1..] == [];
    }
  }

  class Stack {
    var values: seq<u16>

    ghost predicate Valid()
      reads this
    {
      |values| <= CAPACITY
    }

    /** `Stack::new`: empty. */
    constructor ()
      ensures Valid() && values == []
    {
      values := [];
    }

    /** `push`: appends, or reports the overflow panic and changes nothing. */
    method Push(value: u16) returns (ok: bool)
      requires Valid()
      modifies this
      ensures Valid()
      ensures ok <==> Pushed(old(values), value).Some?
      ensures values == if ok then Pushed(old(values), value).value else old(values)
    {
      if |values| >= CAPACITY {
        return false;
      }
      values := values + [value];
      return true;
    }

    /** `pop`: removes and returns the most recent value, or reports the underflow panic. */
    method Pop() returns (r: Option<u16>)
      requires Valid()
      modifies this
      ensures Valid()
      ensures r.None? <==> Popped(old(values)).None?
      ensures r.Some? ==> r.value == Popped(old(values)).value.0 && values == Popped(old(values)).value.1
      ensures r.None? ==> values == old(values)
    {
      if values == [] {
        return None;
      }
      r := Some(values[|values| - 1]);
      values := values[..|values| - 1];
    }
  }
}
