/** The abstract behaviour of the bounded SPSC queue, run one operation at a
    time: a sequence of held items, a push that appends unless `usable` items
    are already held, and a pop that removes the front unless nothing is
    held. The ring buffer's `TryPush` and `TryPop` are each proved to be one
    `Step`; the lemmas here are about any sequence of steps. */
module QueueSpec {
  import opened Wrappers

  datatype Op<T> = Push(item: T) | Pop

  /** What an operation reports: the boolean of `try_push`, or for
      `try_pop` the item moved out (`None` when it returned false). */
  datatype Outcome<T> = Pushed(accepted: bool) | Popped(item: Option<T>)

  /** One operation on a queue that can hold at most `usable` items. */
  function Step<T>(q: seq<T>, op: Op<T>, usable: nat): (seq<T>, Outcome<T>)
  {
    match op
    case Push(x) => if |q| < usable then (q + [x], Pushed(true)) else (q, Pushed(false))
    case Pop => if q == [] then (q, Popped(None)) else (q[1..], Popped(Some(q[0])))
  }

  /** The queue after `ops`, and what each operation reported. */
  function Run<T>(q: seq<T>, ops: seq<Op<T>>, usable: nat): (r: (seq<T>, seq<Outcome<T>>))
    ensures |r.1| == |ops|
    decreases |ops|
  {
    if ops == [] then (q, [])
    else
      var (q1, o) := Step(q, ops[0], usable);
      var (q2, os) := Run(q1, ops[1..], usable);
      (q2, [o] + os)
  }

  /** The items of the accepted pushes, in push order. */
  function Accepted<T>(ops: seq<Op<T>>, outs: seq<Outcome<T>>): seq<T>
    requires |ops| == |outs|
  {
    if ops == [] then []
    else (if ops[0].Push? && outs[0] == Pushed(true) then [ops[0].item] else []) + Accepted(ops[1..], outs[1..])
  }

  /** The items the successful pops returned, in pop order. */
  function Delivered<T>(outs: seq<Outcome<T>>): seq<T>
  {
    if outs == [] then []
    else (if outs[0].Popped? && outs[0].item.Some? then [outs[0].item.value] else []) + Delivered(outs[1..])
  }

  /** `n` pushes of the given items. */
  function Pushes<T>(xs: seq<T>): (ops: seq<Op<T>>)
    ensures |ops| == |xs| && forall k :: 0 <= k < |xs| ==> ops[k] == Push(xs[k])
  {
    if xs == [] then [] else [Push(xs[0])] + Pushes(xs[1..])
  }

  /** FIFO for one step: the step's delivery, followed by what the rest of
      the run delivers and keeps, is the queue before the step followed by
      the step's accepted push and the rest of the run's. */
  lemma {:induction false} FifoStep<T>(q: seq<T>, op: Op<T>, usable: nat, rest: seq<T>, accepted: seq<T>)
    requires rest == Step(q, op, usable).0 + accepted
    ensures Delivered([Step(q, op, usable).1]) + rest
         == q + Accepted([op], [Step(q, op, usable).1]) + accepted
  {
    var (q1, o) := Step(q, op, usable);
    assert [o][1..] == [] && [op][1..] == [];
    match op
    case Push(x) =>
      assert Delivered([o]) == [];
      if |q| < usable {
        assert Accepted([op], [o]) == [x];
      } else {
        assert Accepted([op], [o]) == [];
      }
    case Pop =>
      assert Accepted([op], [o]) == [];
      if q != [] {
        assert Delivered([o]) == [q[0]];
        assert q == [q[0]] + q1;
      } else {
        assert Delivered([o]) == [];
      }
  }

  /** Delivered splits over the first outcome. */
  lemma {:induction false} DeliveredFirst<T>(outs: seq<Outcome<T>>)
    requires outs != []
    ensures Delivered(outs) == Delivered([outs[0]]) + Delivered(outs[1..])
  {
    var o := outs[0];
    var one: seq<Outcome<T>> := [o];
    assert one[0] == o && one[1..] == [];
    var first: seq<T> := if o.Popped? && o.item.Some? then [o.item.value] else [];
    assert Delivered(one) == first + Delivered(one[1..]);
    assert Delivered(one) == first;
    assert Delivered(outs) == first + Delivered(outs[1..]);
  }

  /** Accepted splits over the first operation. */
  lemma {:induction false} AcceptedFirst<T>(ops: seq<Op<T>>, outs: seq<Outcome<T>>)
    requires |ops| == |outs| && ops != []
    ensures Accepted(ops, outs) == Accepted([ops[0]], [outs[0]]) + Accepted(ops[1..], outs[1..])
  {
    var op, o := ops[0], outs[0];
    var oneOp: seq<Op<T>> := [op];
    var one: seq<Outcome<T>> := [o];
    assert oneOp[0] == op && oneOp[1..] == [] && one[0] == o && one[1..] == [];
    var first: seq<T> := if op.Push? && o == Pushed(true) then [op.item] else [];
    assert Accepted(oneOp, one) == first + Accepted(oneOp[1..], one[1..]);
    assert Accepted(oneOp, one) == first;
    assert Accepted(ops, outs) == first + Accepted(ops[1..], outs[1..]);
  }

  /** FIFO with no loss and no duplication: what the pops delivered,
      followed by what is still held, is what was held at the start followed
      by every accepted push, in order. */
  lemma {:induction false} Fifo<T>(q: seq<T>, ops: seq<Op<T>>, usable: nat)
    ensures Delivered(Run(q, ops, usable).1) + Run(q, ops, usable).0
         == q + Accepted(ops, Run(q, ops, usable).1)
    decreases |ops|
  {
    if ops != [] {
      var (q1, o) := Step(q, ops[0], usable);
      var (q2, os) := Run(q1, ops[1..], usable);
      Fifo(q1, ops[1..], usable);
      var outs := [o] + os;
      assert Run(q, ops, usable) == (q2, outs);
      assert outs[0] == o && outs[1..] == os;
      DeliveredFirst(outs);
      AcceptedFirst(ops, outs);
      var rest := Delivered(os) + q2;
      FifoStep(q, ops[0], usable, rest, Accepted(ops[1..], os));
      calc {
        Delivered(outs) + q2;
        (Delivered([o]) + Delivered(os)) + q2;
        Delivered([o]) + rest;
        q + Accepted([ops[0]], [o]) + Accepted(ops[1..], os);
        q + Accepted(ops, outs);
      }
    }
  }

  /** From an empty queue, the i-th successful pop returns the i-th
      accepted push. */
  lemma FifoFromEmpty<T>(ops: seq<Op<T>>, usable: nat)
    ensures var outs := Run([], ops, usable).1;
      |Delivered(outs)| <= |Accepted(ops, outs)| &&
      Delivered(outs) == Accepted(ops, outs)[..|Delivered(outs)|]
  {
    Fifo([], ops, usable);
    var outs := Run([], ops, usable).1;
    assert [] + Accepted(ops, outs) == Accepted(ops, outs);
  }

  /** A queue that starts within its bound stays within it. */
  lemma {:induction false} BoundKept<T>(q: seq<T>, ops: seq<Op<T>>, usable: nat)
    requires |q| <= usable
    ensures |Run(q, ops, usable).0| <= usable
    decreases |ops|
  {
    if ops != [] {
      BoundKept(Step(q, ops[0], usable).0, ops[1..], usable);
    }
  }

  /** Running `ops1 + ops2` is running `ops1`, then `ops2` from where it left off. */
  lemma {:induction false} RunAppend<T>(q: seq<T>, ops1: seq<Op<T>>, ops2: seq<Op<T>>, usable: nat)
    ensures Run(q, ops1 + ops2, usable)
         == (Run(Run(q, ops1, usable).0, ops2, usable).0,
             Run(q, ops1, usable).1 + Run(Run(q, ops1, usable).0, ops2, usable).1)
    decreases |ops1|
  {
    if ops1 == [] {
      assert ops1 + ops2 == ops2;
      assert Run(q, ops1, usable) == (q, []);
      assert [] + Run(q, ops2, usable).1 == Run(q, ops2, usable).1;
    } else {
      assert (ops1 + ops2)[0] == ops1[0];
      assert (ops1 + ops2)[1..] == ops1[1..] + ops2;
      var (q1, o) := Step(q, ops1[0], usable);
      RunAppend(q1, ops1[1..], ops2, usable);
      var r1 := Run(q1, ops1[1..], usable);
      assert Run(q, ops1, usable) == (r1.0, [o] + r1.1);
      assert Run(q, ops1 + ops2, usable).1 == [o] + (r1.1 + Run(r1.0, ops2, usable).1);
      assert [o] + (r1.1 + Run(r1.0, ops2, usable).1) == ([o] + r1.1) + Run(r1.0, ops2, usable).1;
    }
  }

  /** Pushes into a queue with room for all of them all succeed. */
  lemma {:induction false} PushesFit<T>(q: seq<T>, xs: seq<T>, usable: nat)
    requires |q| + |xs| <= usable
    ensures Run(q, Pushes(xs), usable) == (q + xs, seq(|xs|, _ => Pushed(true)))
    decreases |xs|
  {
    var all := seq<Outcome<T>>(|xs|, _ => Pushed(true));
    if xs == [] {
      assert q + xs == q;
      assert Pushes(xs) == [] && all == [];
      assert Run(q, Pushes(xs), usable) == (q, []);
    } else {
      var ops := Pushes(xs);
      assert ops[0] == Push(xs[0]);
      assert ops[1..] == Pushes(xs[1..]);
      PushesFit(q + [xs[0]], xs[1..], usable);
      var rest := Run(q + [xs[0]], ops[1..], usable);
      assert Run(q, ops, usable) == (rest.0, [Pushed(true)] + rest.1);
      assert (q + [xs[0]]) + xs[1..] == q + xs;
      assert [Pushed(true)] + seq<Outcome<T>>(|xs| - 1, _ => Pushed(true)) == all;
    }
  }

  /** From empty, exactly `usable` pushes succeed before a push fails; one
      pop (returning the first item) then makes the next push succeed. */
  lemma FillThenPopThenPush<T>(xs: seq<T>, y: T, z: T, usable: nat)
    requires |xs| == usable >= 1
    ensures Run([], Pushes(xs) + [Push(y), Pop, Push(z)], usable).1
         == seq(usable, _ => Pushed(true)) + [Pushed(false), Popped(Some(xs[0])), Pushed(true)]
  {
    PushesFit([], xs, usable);
    assert [] + xs == xs;
    RunAppend([], Pushes(xs), [Push(y), Pop, Push(z)], usable);
    var ops: seq<Op<T>> := [Push(y), Pop, Push(z)];
    assert ops[1..] == [Pop, Push(z)];
    assert ops[1..][1..] == [Push(z)];
    assert ops[1..][1..][1..] == [];
    var r3 := Run(xs[1..] + [z], ops[1..][1..][1..], usable);
    var r2 := Run(xs[1..], ops[1..][1..], usable);
    assert r2 == (xs[1..] + [z], [Pushed(true)] + r3.1);
    var r1 := Run(xs, ops[1..], usable);
    assert r1 == (r2.0, [Popped(Some(xs[0]))] + r2.1);
    assert Run(xs, ops, usable).1 == [Pushed(false)] + r1.1;
  }

  /** Popping an empty queue any number of times fails every time and
      leaves it empty. */
  lemma {:induction false} PopsOnEmpty<T>(n: nat, usable: nat)
    ensures Run([], seq<Op<T>>(n, _ => Pop), usable) == ([], seq<Outcome<T>>(n, _ => Popped(None)))
  {
    if n == 0 {
      assert seq<Op<T>>(n, _ => Pop) == [];
      assert seq<Outcome<T>>(n, _ => Popped(None)) == [];
    } else {
      assert seq<Op<T>>(n, _ => Pop)[1..] == seq<Op<T>>(n - 1, _ => Pop);
      PopsOnEmpty<T>(n - 1, usable);
      assert Run([], seq<Op<T>>(n, _ => Pop), usable).1
          == [Popped(None)] + Run([], seq<Op<T>>(n - 1, _ => Pop), usable).1;
      assert [Popped(None)] + seq<Outcome<T>>(n - 1, _ => Popped(None)) == seq<Outcome<T>>(n, _ => Popped(None));
    }
  }
}
