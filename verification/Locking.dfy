/** Threads that enter through the public operations under one recursive lock. */
module Locking {
  /** What a thread does next: take or give back one level of the lock, work on the volume, or work on its own. */
  datatype Instr<!S, !L> =
    | Lock
    | Unlock
    | Core(step: (S, L) -> (S, L))
    | Own(think: L -> L)

  type Prog<!S, !L> = seq<Instr<S, L>>

  /** Programs as the public operations are written: the volume is touched under the lock only, and levels match. */
  ghost predicate Bracketed<S(!new), L(!new)>(p: Prog<S, L>, depth: nat)
    decreases |p|
  {
    if p == [] then depth == 0
    else match p[0]
      case Lock => Bracketed(p[1..], depth + 1)
      case Unlock => depth > 0 && Bracketed(p[1..], depth - 1)
      case Core(_) => depth > 0 && Bracketed(p[1..], depth)
      case Own(_) => Bracketed(p[1..], depth)
  }

  /** The machine: the volume, who holds the lock and how deep, and per thread its own data and what is left of its
      program. */
  datatype Machine<!S, !L> = Machine(vol: S, owner: int, depth: nat, own: seq<L>, todo: seq<Prog<S, L>>)

  ghost predicate Enabled<S(!new), L(!new)>(c: Machine<S, L>, i: nat) {
    && i < |c.todo| == |c.own| && c.todo[i] != []
    && (c.todo[i][0].Own? || c.owner == i || (c.owner == -1 && c.todo[i][0].Lock?))
  }

  ghost function Step<S(!new), L(!new)>(c: Machine<S, L>, i: nat): Machine<S, L>
    requires Enabled(c, i)
  {
    var rest := c.todo[i := c.todo[i][1..]];
    match c.todo[i][0]
    case Lock => c.(owner := i, depth := c.depth + 1, todo := rest)
    case Unlock => if c.depth <= 1 then c.(owner := -1, depth := 0, todo := rest)
                   else c.(depth := c.depth - 1, todo := rest)
    case Core(f) => var r := f(c.vol, c.own[i]); c.(vol := r.0, own := c.own[i := r.1], todo := rest)
    case Own(h) => c.(own := c.own[i := h(c.own[i])], todo := rest)
  }

  /** A schedule: at each moment one thread that can go on does so. */
  ghost predicate Schedule<S(!new), L(!new)>(c: Machine<S, L>, tr: seq<nat>)
    decreases |tr|
  {
    tr == [] || (Enabled(c, tr[0]) && Schedule(Step(c, tr[0]), tr[1..]))
  }

  ghost function Final<S(!new), L(!new)>(c: Machine<S, L>, tr: seq<nat>): Machine<S, L>
    requires Schedule(c, tr)
    decreases |tr|
  {
    if tr == [] then c else Final(Step(c, tr[0]), tr[1..])
  }

  /** The threads in the order in which they took the lock from nobody. */
  ghost function Order<S(!new), L(!new)>(c: Machine<S, L>, tr: seq<nat>): seq<nat>
    requires Schedule(c, tr)
    decreases |tr|
  {
    if tr == [] then []
    else (if c.owner == -1 && c.todo[tr[0]][0].Lock? then [tr[0]] else []) + Order(Step(c, tr[0]), tr[1..])
  }

  // ---------------------------------------------------------------- one operation after the other

  /** Run a thread alone until it gives the lock back for good. */
  ghost function Alone<S(!new), L(!new)>(s: S, l: L, p: Prog<S, L>, depth: nat): (S, L, Prog<S, L>)
    decreases |p|
  {
    if p == [] then (s, l, p)
    else match p[0]
      case Lock => Alone(s, l, p[1..], depth + 1)
      case Unlock => if depth <= 1 then (s, l, p[1..]) else Alone(s, l, p[1..], depth - 1)
      case Core(f) => Alone(f(s, l).0, f(s, l).1, p[1..], depth)
      case Own(h) => Alone(s, h(l), p[1..], depth)
  }

  /** An operation that takes the lock, works on the volume, calls another that takes the lock again, and gives both
      levels back: its steps in order, up to the last level. */
  lemma AloneIs<S(!new), L(!new)>(s: S, l: L, f: (S, L) -> (S, L), h: L -> L, k: (S, L) -> (S, L), rest: Prog<S, L>)
    ensures var a := f(s, l);
            var b := k(a.0, h(a.1));
            Alone(s, l, [Lock, Core(f), Own(h), Lock, Core(k), Unlock, Unlock] + rest, 0) == (b.0, b.1, rest)
  {
    var p: Prog<S, L> := [Lock, Core(f), Own(h), Lock, Core(k), Unlock, Unlock] + rest;
    var p1: Prog<S, L> := [Core(f), Own(h), Lock, Core(k), Unlock, Unlock] + rest;
    var p2: Prog<S, L> := [Own(h), Lock, Core(k), Unlock, Unlock] + rest;
    var p3: Prog<S, L> := [Lock, Core(k), Unlock, Unlock] + rest;
    var p4: Prog<S, L> := [Core(k), Unlock, Unlock] + rest;
    var p5: Prog<S, L> := [Unlock, Unlock] + rest;
    var p6: Prog<S, L> := [Unlock] + rest;
    assert p[1..] == p1 && p1[1..] == p2 && p2[1..] == p3 && p3[1..] == p4 && p4[1..] == p5 && p5[1..] == p6;
    assert p6[1..] == rest;
    var a := f(s, l);
    assert Alone(s, l, p, 0) == Alone(s, l, p1, 1) == Alone(a.0, a.1, p2, 1);
    assert Alone(a.0, a.1, p2, 1) == Alone(a.0, h(a.1), p3, 1) == Alone(a.0, h(a.1), p4, 2);
    var b := k(a.0, h(a.1));
    assert Alone(a.0, h(a.1), p4, 2) == Alone(b.0, b.1, p5, 2) == Alone(b.0, b.1, p6, 1);
  }

  /** What a thread does on its own before it needs the lock again. */
  ghost function Settled<S(!new), L(!new)>(l: L, p: Prog<S, L>): (L, Prog<S, L>)
    decreases |p|
  {
    if p != [] && p[0].Own? then Settled(p[0].think(l), p[1..]) else (l, p)
  }

  /** How a run ends: the volume, and per thread its own data and what is left of its program. */
  datatype Outcome<!S, !L> = Outcome(vol: S, threads: seq<(L, Prog<S, L>)>)

  /** The threads run one whole operation each, in the order given, and then what each does on its own. */
  ghost function Serial<S(!new), L(!new)>(s: S, own: seq<L>, todo: seq<Prog<S, L>>, order: seq<nat>): Outcome<S, L>
    requires |own| == |todo| && forall k :: 0 <= k < |order| ==> order[k] < |own|
    decreases |order|
  {
    if order == [] then Outcome(s, seq(|own|, i requires 0 <= i < |own| => Settled(own[i], todo[i])))
    else
      var i := order[0];
      var r := Alone(s, own[i], todo[i], 0);
      Serial(r.0, own[i := r.1], todo[i := r.2], order[1..])
  }

  // ---------------------------------------------------------------- the argument

  /** Levels match in what every thread has left; only the owner is inside an operation. */
  ghost predicate Sound<S(!new), L(!new)>(c: Machine<S, L>) {
    && |c.own| == |c.todo| && -1 <= c.owner < |c.own| && (c.owner == -1 <==> c.depth == 0)
    && (forall i :: 0 <= i < |c.todo| ==> Bracketed(c.todo[i], if i == c.owner then c.depth else 0))
  }

  lemma StepSound<S(!new), L(!new)>(c: Machine<S, L>, i: nat)
    requires Sound(c) && Enabled(c, i)
    ensures Sound(Step(c, i))
  {
    var d := Step(c, i);
    assert Bracketed(c.todo[i], if i == c.owner then c.depth else 0);
    forall j | 0 <= j < |d.todo| ensures Bracketed(d.todo[j], if j == d.owner then d.depth else 0) {
      assert Bracketed(c.todo[j], if j == c.owner then c.depth else 0);
    }
  }

  /** What is still to come, with the operation under way finished first. */
  ghost function Rest<S(!new), L(!new)>(c: Machine<S, L>, order: seq<nat>): Outcome<S, L>
    requires Sound(c) && forall k :: 0 <= k < |order| ==> order[k] < |c.own|
  {
    if c.owner == -1 then Serial(c.vol, c.own, c.todo, order)
    else
      var r := Alone(c.vol, c.own[c.owner], c.todo[c.owner], c.depth);
      Serial(r.0, c.own[c.owner := r.1], c.todo[c.owner := r.2], order)
  }

  /** A step a thread makes on its own does not matter to the others, nor when it makes it. */
  lemma {:induction false} OwnStepSerial<S(!new), L(!new)>(s: S, own: seq<L>, todo: seq<Prog<S, L>>, order: seq<nat>,
                                           i: nat, h: L -> L)
    requires |own| == |todo| && (forall k :: 0 <= k < |order| ==> order[k] < |own|) && i < |own| && todo[i] != []
      && todo[i][0] == Own(h)
    ensures Serial(s, own, todo, order) == Serial(s, own[i := h(own[i])], todo[i := todo[i][1..]], order)
    decreases |order|
  {
    if order != [] {
      var k := order[0];
      var own', todo' := own[i := h(own[i])], todo[i := todo[i][1..]];
      var r := Alone(s, own[k], todo[k], 0);
      if k == i {
        assert r == Alone(s, own'[i], todo'[i], 0);
        assert own'[i := r.1] == own[i := r.1] && todo'[i := r.2] == todo[i := r.2];
      } else {
        OwnStepSerial(r.0, own[k := r.1], todo[k := r.2], order[1..], i, h);
        assert own'[k := r.1] == own[k := r.1][i := h(own[i])];
        assert todo'[k := r.2] == todo[k := r.2][i := todo[i][1..]];
      }
    } else {
      assert Settled(own[i], todo[i]) == Settled(h(own[i]), todo[i][1..]);
    }
  }

  /** A step another thread makes on its own while an operation is under way, or while none is. */
  lemma OutsideStep<S(!new), L(!new)>(c: Machine<S, L>, i: nat, order: seq<nat>)
    requires Sound(c) && Enabled(c, i) && Sound(Step(c, i)) && c.owner != i && c.todo[i][0].Own?
      && forall k :: 0 <= k < |order| ==> order[k] < |c.own|
    ensures Rest(Step(c, i), order) == Rest(c, order)
  {
    hide Bracketed, Serial, Alone;
    var d, h, o := Step(c, i), c.todo[i][0].think, c.owner;
    if o == -1 {
      OwnStepSerial(c.vol, c.own, c.todo, order, i, h);
    } else {
      var r := Alone(c.vol, c.own[o], c.todo[o], c.depth);
      OwnStepSerial(r.0, c.own[o := r.1], c.todo[o := r.2], order, i, h);
      assert c.own[o := r.1][i := h(c.own[i])] == d.own[o := r.1];
      assert c.todo[o := r.2][i := c.todo[i][1..]] == d.todo[o := r.2];
    }
  }

  /** Taking the free lock begins the next operation of the order. */
  lemma EntryStep<S(!new), L(!new)>(c: Machine<S, L>, i: nat, order: seq<nat>)
    requires Sound(c) && Enabled(c, i) && Sound(Step(c, i)) && c.owner == -1 && c.todo[i][0].Lock?
      && forall k :: 0 <= k < |order| ==> order[k] < |c.own|
    ensures Rest(Step(c, i), order) == Rest(c, [i] + order)
  {
    hide Bracketed;
    var d := Step(c, i);
    assert ([i] + order)[0] == i && ([i] + order)[1..] == order;
    var r := Alone(c.vol, c.own[i], c.todo[i], 0);
    assert r == Alone(d.vol, d.own[i], d.todo[i], 1);
    assert c.todo[i := r.2] == d.todo[i := r.2];
  }

  /** A step of the owner is the next step of its operation run alone. */
  lemma OwnerStep<S(!new), L(!new)>(c: Machine<S, L>, i: nat, order: seq<nat>)
    requires Sound(c) && Enabled(c, i) && Sound(Step(c, i)) && c.owner == i && forall k :: 0 <= k < |order| ==>
      order[k] < |c.own|
    ensures Rest(Step(c, i), order) == Rest(c, order)
  {
    var d := Step(c, i);
    assert Bracketed(c.todo[i], c.depth);
    var r := Alone(c.vol, c.own[i], c.todo[i], c.depth);
    if d.owner == -1 {
      assert c.own[i := r.1] == d.own && c.todo[i := r.2] == d.todo;
    } else {
      assert r == Alone(d.vol, d.own[i], d.todo[i], d.depth);
      assert c.own[i := r.1] == d.own[i := r.1] && c.todo[i := r.2] == d.todo[i := r.2];
    }
  }

  /** Each step leaves what is still to come as it was, apart from taking the next operation of the order when the lock
      is free. */
  lemma StepRest<S(!new), L(!new)>(c: Machine<S, L>, i: nat, order: seq<nat>)
    requires Sound(c) && Enabled(c, i) && Sound(Step(c, i)) && forall k :: 0 <= k < |order| ==> order[k] < |c.own|
    ensures |Step(c, i).own| == |c.own|
    ensures var first := if c.owner == -1 && c.todo[i][0].Lock? then [i] else [];
            Rest(Step(c, i), order) == Rest(c, first + order)
  {
    hide Bracketed, Serial, Alone, Rest;
    assert [] + order == order;
    if c.owner == i {
      OwnerStep(c, i, order);
    } else if c.todo[i][0].Own? {
      OutsideStep(c, i, order);
    } else {
      EntryStep(c, i, order);
    }
  }

  lemma {:induction false} OrderBound<S(!new), L(!new)>(c: Machine<S, L>, tr: seq<nat>)
    requires Sound(c) && Schedule(c, tr)
    ensures forall k :: 0 <= k < |Order(c, tr)| ==> Order(c, tr)[k] < |c.own|
    decreases |tr|
  {
    if tr != [] {
      StepSound(c, tr[0]);
      OrderBound(Step(c, tr[0]), tr[1..]);
    }
  }

  lemma {:induction false} RunRest<S(!new), L(!new)>(c: Machine<S, L>, tr: seq<nat>)
    requires Sound(c) && Schedule(c, tr)
    ensures Sound(Final(c, tr)) && (forall k :: 0 <= k < |Order(c, tr)| ==> Order(c, tr)[k] < |c.own|)
    ensures |Final(c, tr).own| == |c.own| && Rest(Final(c, tr), []) == Rest(c, Order(c, tr))
    decreases |tr|
  {
    OrderBound(c, tr);
    if tr != [] {
      StepSound(c, tr[0]);
      RunRest(Step(c, tr[0]), tr[1..]);
      StepRest(c, tr[0], Order(Step(c, tr[0]), tr[1..]));
    }
  }

  /** Every interleaving leaves the volume as if the operations had run one after the other, in the order in which they
      took the lock, and every thread that has come to its end with what it would have then. */
  lemma Serializable<S(!new), L(!new)>(vol: S, own: seq<L>, todo: seq<Prog<S, L>>, tr: seq<nat>)
    requires |own| == |todo| && (forall i :: 0 <= i < |todo| ==> Bracketed(todo[i], 0))
    requires Schedule(Machine(vol, -1, 0, own, todo), tr) && Final(Machine(vol, -1, 0, own, todo), tr).owner == -1
    ensures var start := Machine(vol, -1, 0, own, todo);
            var order, end := Order(start, tr), Final(start, tr);
            && (forall k :: 0 <= k < |order| ==> order[k] < |own|) && |end.own| == |end.todo| == |own|
            && var alone := Serial(vol, own, todo, order);
            && end.vol == alone.vol && |alone.threads| == |own|
            && forall i :: 0 <= i < |own| && end.todo[i] == [] ==> alone.threads[i] == (end.own[i], [])
  {
    var start := Machine(vol, -1, 0, own, todo);
    RunRest(start, tr);
    var end := Final(start, tr);
    assert Rest(end, []) == Serial(end.vol, end.own, end.todo, []);
    forall i | 0 <= i < |own| && end.todo[i] == [] ensures Settled(end.own[i], end.todo[i]) == (end.own[i], []) {
    }
  }
}
