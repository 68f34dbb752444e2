/**
 * The js-signals 1.0.0 `Signal` bundled at the end of src/mkr.js: a
 * priority-ordered list of bindings, a (listener, context) uniqueness rule,
 * one-shot bindings, dispatch over a snapshot, and halt.
 *
 * The binding array is kept in ascending priority order; dispatch walks it
 * from the end, so the highest priority runs first and, among equal
 * priorities, the binding added first runs first.
 */
module Signals {

  import opened JsBase

  /** The `this` a listener runs on: `null` or an object. */
  datatype Ctx = Null | Ref(obj: Handle)

  /** A SignalBinding: listener, context, priority and the once flag. */
  datatype Binding = Binding(listener: Handle, context: Ctx, priority: int, isOnce: bool)

  /**
   * What a listener does when it runs: nothing special, return exactly
   * `false`, or call `halt()` on the signal.
   */
  datatype Effect = Continue | ReturnFalse | CallHalt

  /** How every listener behaves during one dispatch. */
  type Behaviour = (Handle, Ctx) -> Effect

  /** "You cannot add() then addOnce() the same listener ...". */
  datatype Error = MixedOnce

  datatype Result<+T> = Ok(value: T) | Err(error: Error)

  predicate Binds(b: Binding, listener: Handle, context: Ctx) {
    b.listener == listener && b.context == context
  }

  ghost predicate Ascending(bs: seq<Binding>) {
    forall i, j :: 0 <= i < j < |bs| ==> bs[i].priority <= bs[j].priority
  }

  /** The priorities, read in dispatch order, never increase. */
  ghost predicate Descending(bs: seq<Binding>) {
    forall i, j :: 0 <= i < j < |bs| ==> bs[i].priority >= bs[j].priority
  }

  /** No two bindings share a (listener, context) pair. */
  ghost predicate Unique(bs: seq<Binding>) {
    forall i, j :: 0 <= i < |bs| && 0 <= j < |bs| && Binds(bs[j], bs[i].listener, bs[i].context) ==> i == j
  }

  predicate Bound(bs: seq<Binding>, listener: Handle, context: Ctx) {
    exists i :: 0 <= i < |bs| && Binds(bs[i], listener, context)
  }

  /** The order in which dispatch visits the bindings: from the last to the first. */
  function Reverse(bs: seq<Binding>): (r: seq<Binding>)
    ensures |r| == |bs|
  {
    if bs == [] then [] else [bs[|bs| - 1]] + Reverse(bs[..|bs| - 1])
  }

  /** Index of the binding of (listener, context), searching from the end; -1 when none. */
  function IndexOf(bs: seq<Binding>, listener: Handle, context: Ctx): (i: int)
    ensures -1 <= i < |bs|
    ensures i >= 0 ==> Binds(bs[i], listener, context)
    ensures forall k :: i < k < |bs| ==> !Binds(bs[k], listener, context)
  {
    if bs == [] then -1
    else if Binds(bs[|bs| - 1], listener, context) then |bs| - 1
    else IndexOf(bs[..|bs| - 1], listener, context)
  }

  /** Number of leading bindings whose priority is below `p`. */
  function Rank(bs: seq<Binding>, p: int): (k: nat)
    ensures k <= |bs|
  {
    if bs == [] || p <= bs[0].priority then 0 else 1 + Rank(bs[1..], p)
  }

  /** `_addBinding`: the new binding goes in front of every binding of equal or higher priority. */
  function Inserted(bs: seq<Binding>, b: Binding): seq<Binding> {
    if bs == [] || b.priority <= bs[0].priority then [b] + bs else [bs[0]] + Inserted(bs[1..], b)
  }

  /** The bindings without the one of (listener, context): `remove`. */
  function Drop(bs: seq<Binding>, listener: Handle, context: Ctx): seq<Binding> {
    if bs == [] then []
    else (if Binds(bs[0], listener, context) then [] else [bs[0]]) + Drop(bs[1..], listener, context)
  }

  /** The bindings left after the once-bindings among `fired` detached themselves. */
  function Keep(bs: seq<Binding>, fired: seq<Binding>): seq<Binding> {
    if bs == [] then []
    else (if bs[0].isOnce && bs[0] in fired then [] else [bs[0]]) + Keep(bs[1..], fired)
  }

  /**
   * The bindings one dispatch executes, in order: walking from the last
   * binding, each runs, and the walk stops after the first one that returns
   * `false` or calls `halt`.
   */
  function Fired(bs: seq<Binding>, behaviour: Behaviour): seq<Binding> {
    if bs == [] then []
    else
      var b := bs[|bs| - 1];
      [b] + (if behaviour(b.listener, b.context) == Continue then Fired(bs[..|bs| - 1], behaviour) else [])
  }

  /**
   * A walk down from the end in which every listener but the last let it
   * continue, and which either reached the first binding or was stopped by its
   * last listener, is exactly the dispatch walk.
   */
  lemma {:induction false} WalkIsFired(bs: seq<Binding>, fired: seq<Binding>, behaviour: Behaviour)
    requires Walked(bs, fired, behaviour)
    requires |fired| == |bs| || Stopped(fired, behaviour)
    ensures fired == Fired(bs, behaviour)
  {
    if fired != [] {
      var rest := bs[..|bs| - 1];
      if behaviour(fired[0].listener, fired[0].context) == Continue {
        forall i | 0 <= i < |fired| - 1 ensures fired[1..][i] == rest[|rest| - 1 - i] {
          assert fired[1..][i] == fired[i + 1];
        }
        WalkIsFired(rest, fired[1..], behaviour);
        assert fired == [fired[0]] + fired[1..];
      }
    }
  }

  /**
   * `fired` is the start of a walk down `bs` from its end in which every
   * listener but the last let the walk continue.
   */
  ghost predicate Walked(bs: seq<Binding>, fired: seq<Binding>, behaviour: Behaviour) {
    && |fired| <= |bs|
    && (forall i :: 0 <= i < |fired| ==> fired[i] == bs[|bs| - 1 - i])
    && (forall i :: 0 <= i < |fired| - 1 ==> behaviour(fired[i].listener, fired[i].context) == Continue)
  }

  /** A walk that was not stopped goes on to the next binding down. */
  lemma WalkOn(bs: seq<Binding>, fired: seq<Binding>, behaviour: Behaviour)
    requires Walked(bs, fired, behaviour) && |fired| < |bs| && !Stopped(fired, behaviour)
    ensures Walked(bs, fired + [bs[|bs| - 1 - |fired|]], behaviour)
  {
    var next := fired + [bs[|bs| - 1 - |fired|]];
    forall i | 0 <= i < |next| - 1 ensures behaviour(next[i].listener, next[i].context) == Continue {
      assert next[i] == fired[i];
    }
  }

  /** Whether a walk stopped or halted depends only on the listener that ran last. */
  lemma LastRan(fired: seq<Binding>, b: Binding, behaviour: Behaviour)
    ensures Stopped(fired + [b], behaviour) <==> behaviour(b.listener, b.context) != Continue
    ensures Halted(fired + [b], behaviour) <==> behaviour(b.listener, b.context) == CallHalt
  {
    assert (fired + [b])[|fired + [b]| - 1] == b;
  }

  /** The walk ended because its last listener stopped it. */
  predicate Stopped(fired: seq<Binding>, behaviour: Behaviour) {
    |fired| > 0 && behaviour(fired[|fired| - 1].listener, fired[|fired| - 1].context) != Continue
  }

  /** The walk ended because its last listener called `halt`. */
  predicate Halted(fired: seq<Binding>, behaviour: Behaviour) {
    |fired| > 0 && behaviour(fired[|fired| - 1].listener, fired[|fired| - 1].context) == CallHalt
  }

  /** The bindings and the result of `_registerListener`. */
  datatype Registration = Registration(bindings: seq<Binding>, result: Result<Binding>)

  /**
   * `_registerListener`: an existing binding of (listener, context) is returned
   * unchanged when its once flag matches and is an error when it does not;
   * otherwise a new binding is inserted in priority order.
   */
  function Registered(bs: seq<Binding>, listener: Handle, isOnce: bool, context: Ctx, priority: int): Registration {
    var i := IndexOf(bs, listener, context);
    if i >= 0 then
      Registration(bs, if bs[i].isOnce == isOnce then Ok(bs[i]) else Err(MixedOnce))
    else
      var b := Binding(listener, context, priority, isOnce);
      Registration(Inserted(bs, b), Ok(b))
  }

  // ---------------------------------------------------------------------------
  // Lemmas about the specification functions

  lemma {:induction false} IndexOfFindsBound(bs: seq<Binding>, listener: Handle, context: Ctx)
    ensures IndexOf(bs, listener, context) >= 0 <==> Bound(bs, listener, context)
  {
    var i := IndexOf(bs, listener, context);
    if i >= 0 {
      assert Binds(bs[i], listener, context);
    }
  }

  lemma {:induction false} RankSplits(bs: seq<Binding>, b: Binding)
    ensures Inserted(bs, b) == bs[..Rank(bs, b.priority)] + [b] + bs[Rank(bs, b.priority)..]
  {
    if bs == [] || b.priority <= bs[0].priority {
    } else {
      RankSplits(bs[1..], b);
      assert bs[1..][..Rank(bs[1..], b.priority)] == bs[1..Rank(bs, b.priority)];
      assert bs[1..][Rank(bs[1..], b.priority)..] == bs[Rank(bs, b.priority)..];
    }
  }

  /** In an ascending list, exactly the bindings before the rank have a lower priority. */
  lemma {:induction false} RankSeparates(bs: seq<Binding>, p: int)
    requires Ascending(bs)
    ensures forall i :: 0 <= i < Rank(bs, p) ==> bs[i].priority < p
    ensures forall i :: Rank(bs, p) <= i < |bs| ==> p <= bs[i].priority
  {
    if bs == [] || p <= bs[0].priority {
    } else {
      RankSeparates(bs[1..], p);
      forall i | 1 <= i < Rank(bs, p) ensures bs[i].priority < p {
        assert bs[i] == bs[1..][i - 1];
      }
      forall i | Rank(bs, p) <= i < |bs| ensures p <= bs[i].priority {
        assert bs[i] == bs[1..][i - 1];
      }
    }
  }

  /** Any position that separates lower from higher-or-equal priorities is the rank. */
  lemma {:induction false} RankIsSplitPoint(bs: seq<Binding>, p: int, k: int)
    requires 0 <= k <= |bs|
    requires forall i :: 0 <= i < k ==> bs[i].priority < p
    requires forall i :: k <= i < |bs| ==> p <= bs[i].priority
    ensures k == Rank(bs, p)
  {
    if k == 0 {
      if bs != [] {
        assert p <= bs[0].priority;
      }
    } else {
      assert bs[0].priority < p;
      forall i | 0 <= i < k - 1 ensures bs[1..][i].priority < p {
        assert bs[1..][i] == bs[i + 1];
      }
      forall i | k - 1 <= i < |bs| - 1 ensures p <= bs[1..][i].priority {
        assert bs[1..][i] == bs[i + 1];
      }
      RankIsSplitPoint(bs[1..], p, k - 1);
    }
  }

  lemma {:induction false} InsertedElements(bs: seq<Binding>, b: Binding)
    ensures multiset(Inserted(bs, b)) == multiset(bs) + multiset{b}
  {
    if bs != [] && b.priority > bs[0].priority {
      InsertedElements(bs[1..], b);
      assert bs == [bs[0]] + bs[1..];
    }
  }

  lemma AscendingCons(x: Binding, t: seq<Binding>)
    ensures Ascending([x] + t) <==> Ascending(t) && forall y :: y in t ==> x.priority <= y.priority
  {
    var s := [x] + t;
    assert forall k :: 0 <= k < |t| ==> s[k + 1] == t[k];
    assert s[0] == x;
    if Ascending(s) {
      forall y | y in t ensures x.priority <= y.priority {
        var k :| 0 <= k < |t| && t[k] == y;
        assert s[0].priority <= s[k + 1].priority;
      }
    }
  }

  lemma UniqueCons(x: Binding, t: seq<Binding>)
    ensures Unique([x] + t) <==> Unique(t) && !Bound(t, x.listener, x.context)
  {
    var s := [x] + t;
    assert forall k :: 0 <= k < |t| ==> s[k + 1] == t[k];
    if Unique(s) {
      forall i, j | 0 <= i < |t| && 0 <= j < |t| && Binds(t[j], t[i].listener, t[i].context) ensures i == j {
        assert s[j + 1] == t[j] && s[i + 1] == t[i];
      }
      forall k | 0 <= k < |t| ensures !Binds(t[k], x.listener, x.context) {
        assert s[k + 1] == t[k] && s[0] == x;
        assert Binds(s[k + 1], s[0].listener, s[0].context) ==> 0 == k + 1;
      }
    }
  }

  /** Inserting a binding whose (listener, context) is new keeps the order and the uniqueness. */
  lemma {:induction false} InsertedValid(bs: seq<Binding>, b: Binding)
    requires Ascending(bs) && Unique(bs) && !Bound(bs, b.listener, b.context)
    ensures Ascending(Inserted(bs, b)) && Unique(Inserted(bs, b))
    ensures multiset(Inserted(bs, b)) == multiset(bs) + multiset{b}
  {
    InsertedElements(bs, b);
    if bs == [] || b.priority <= bs[0].priority {
      InsertedInFront(bs, b);
    } else {
      var t := bs[1..];
      assert bs == [bs[0]] + t;
      AscendingCons(bs[0], t);
      UniqueCons(bs[0], t);
      forall k | 0 <= k < |t| ensures !Binds(t[k], b.listener, b.context) {
        assert t[k] == bs[k + 1];
      }
      InsertedValid(t, b);
      InsertedBehind(bs[0], t, Inserted(t, b), b);
    }
  }

  /** A binding of the lowest priority goes in front of an ordered, duplicate-free list that does not bind its pair. */
  lemma InsertedInFront(bs: seq<Binding>, b: Binding)
    requires Ascending(bs) && Unique(bs) && !Bound(bs, b.listener, b.context)
    requires bs == [] || b.priority <= bs[0].priority
    ensures Ascending([b] + bs) && Unique([b] + bs)
  {
    forall y | y in bs ensures b.priority <= y.priority {
      var k :| 0 <= k < |bs| && bs[k] == y;
      assert bs[0].priority <= bs[k].priority;
    }
    AscendingCons(b, bs);
    UniqueCons(b, bs);
  }

  /** The head of an ordered, duplicate-free list stays in front when `b` is inserted behind it. */
  lemma InsertedBehind(x: Binding, t: seq<Binding>, r: seq<Binding>, b: Binding)
    requires Ascending([x] + t) && Unique([x] + t) && Ascending(r) && Unique(r)
    requires multiset(r) == multiset(t) + multiset{b}
    requires x.priority < b.priority && !Binds(x, b.listener, b.context)
    ensures Ascending([x] + r) && Unique([x] + r)
  {
    AscendingCons(x, t);
    UniqueCons(x, t);
    forall y | y in r ensures x.priority <= y.priority {
      assert y in multiset(r);
    }
    AscendingCons(x, r);
    forall k | 0 <= k < |r| ensures !Binds(r[k], x.listener, x.context) {
      assert r[k] in multiset(t) + multiset{b};
    }
    UniqueCons(x, r);
  }

  lemma {:induction false} ReverseAppend(a: seq<Binding>, b: seq<Binding>)
    ensures Reverse(a + b) == Reverse(b) + Reverse(a)
    decreases |b|
  {
    if b == [] {
      assert a + b == a;
    } else {
      assert (a + b)[..|a + b| - 1] == a + b[..|b| - 1];
      ReverseAppend(a, b[..|b| - 1]);
    }
  }

  lemma {:induction false} ReverseAt(bs: seq<Binding>, i: int)
    requires 0 <= i < |bs|
    ensures |Reverse(bs)| == |bs| && Reverse(bs)[i] == bs[|bs| - 1 - i]
  {
    if i > 0 {
      ReverseAt(bs[..|bs| - 1], i - 1);
    } else if |bs| > 1 {
      ReverseAt(bs[..|bs| - 1], 0);
    }
  }

  /** Dispatch order is by descending priority. */
  lemma DispatchOrderDescends(bs: seq<Binding>)
    requires Ascending(bs)
    ensures Descending(Reverse(bs))
  {
    var r := Reverse(bs);
    forall i, j | 0 <= i < j < |r| ensures r[i].priority >= r[j].priority {
      ReverseAt(bs, i);
      ReverseAt(bs, j);
    }
  }

  /**
   * Where a newly added binding is dispatched: after every existing binding of
   * equal or higher priority (ties run in insertion order), before every
   * binding of lower priority, and the existing bindings keep their order.
   */
  lemma DispatchPositionOfNewBinding(bs: seq<Binding>, b: Binding)
    requires Ascending(bs)
    ensures var k := Rank(bs, b.priority);
      && Reverse(Inserted(bs, b)) == Reverse(bs[k..]) + [b] + Reverse(bs[..k])
      && (forall x :: x in bs[k..] ==> x.priority >= b.priority)
      && (forall x :: x in bs[..k] ==> x.priority < b.priority)
  {
    var k := Rank(bs, b.priority);
    RankSplits(bs, b);
    RankSeparates(bs, b.priority);
    ReverseAppend(bs[..k] + [b], bs[k..]);
    ReverseAppend(bs[..k], [b]);
    assert Reverse([b]) == [b];
  }

  /**
   * In an ascending list, the start of the run of priorities at least `p`
   * that ends the list is the rank of `p`.
   */
  lemma RankAtRunStart(bs: seq<Binding>, p: int, k: nat)
    requires Ascending(bs) && k <= |bs|
    requires k > 0 ==> bs[k - 1].priority < p
    requires forall i :: k <= i < |bs| ==> p <= bs[i].priority
    ensures k == Rank(bs, p)
  {
    forall i | 0 <= i < k ensures bs[i].priority < p {
      assert bs[i].priority <= bs[k - 1].priority;
    }
    RankIsSplitPoint(bs, p, k);
  }

  /** After registering, the pair is bound whatever the outcome, and every pair bound before still is. */
  lemma RegisteredBinds(bs: seq<Binding>, listener: Handle, isOnce: bool, context: Ctx, priority: int, l: Handle, c: Ctx)
    ensures var reg := Registered(bs, listener, isOnce, context, priority);
      && Bound(reg.bindings, listener, context)
      && (Bound(bs, l, c) ==> Bound(reg.bindings, l, c))
  {
    IndexOfFindsBound(bs, listener, context);
    if IndexOf(bs, listener, context) < 0 {
      var b := Binding(listener, context, priority, isOnce);
      var r := Inserted(bs, b);
      InsertedElements(bs, b);
      assert b in multiset(r);
      var k :| 0 <= k < |r| && r[k] == b;
      assert Binds(r[k], listener, context);
      if Bound(bs, l, c) {
        var j :| 0 <= j < |bs| && Binds(bs[j], l, c);
        assert bs[j] in multiset(r);
        var i :| 0 <= i < |r| && r[i] == bs[j];
        assert Binds(r[i], l, c);
      }
    }
  }

  /** Registering keeps a channel ordered and free of duplicate pairs. */
  lemma RegisteredOrderly(bs: seq<Binding>, listener: Handle, isOnce: bool, context: Ctx, priority: int)
    requires Ascending(bs) && Unique(bs)
    ensures var reg := Registered(bs, listener, isOnce, context, priority);
      Ascending(reg.bindings) && Unique(reg.bindings) && (reg.result.Ok? ==> reg.result.value in reg.bindings)
  {
    RegisteredResult(bs, listener, isOnce, context, priority);
  }

  /**
   * What registering promises: the returned binding is in the list and binds
   * (listener, context) with the requested once flag; registering an existing
   * pair changes nothing (its priority stays) and fails exactly when the once
   * flags differ; a new pair adds one binding with the requested priority.
   */
  lemma RegisteredResult(bs: seq<Binding>, listener: Handle, isOnce: bool, context: Ctx, priority: int)
    requires Ascending(bs) && Unique(bs)
    ensures var reg := Registered(bs, listener, isOnce, context, priority);
      && Ascending(reg.bindings) && Unique(reg.bindings)
      && (reg.result.Ok? ==> reg.result.value in reg.bindings && Binds(reg.result.value, listener, context) && reg.result.value.isOnce == isOnce)
      && (reg.result.Err? <==> exists x :: x in bs && Binds(x, listener, context) && x.isOnce != isOnce)
      && (Bound(bs, listener, context) ==> reg.bindings == bs)
      && (!Bound(bs, listener, context) ==>
            (reg.result == Ok(Binding(listener, context, priority, isOnce)) && multiset(reg.bindings) == multiset(bs) + multiset{reg.result.value}))
  {
    var i := IndexOf(bs, listener, context);
    IndexOfFindsBound(bs, listener, context);
    if i >= 0 {
      forall x | x in bs && Binds(x, listener, context) ensures x == bs[i] {
        var k :| 0 <= k < |bs| && bs[k] == x;
        assert Binds(bs[k], bs[i].listener, bs[i].context);
      }
    } else {
      var b := Binding(listener, context, priority, isOnce);
      InsertedValid(bs, b);
      assert b in multiset(Inserted(bs, b));
    }
  }

  /** After `remove`, the pair is no longer bound and every other binding is still there, in order. */
  lemma {:induction false} DropUnbinds(bs: seq<Binding>, listener: Handle, context: Ctx)
    ensures !Bound(Drop(bs, listener, context), listener, context)
    ensures forall x :: x in bs && !Binds(x, listener, context) <==> x in Drop(bs, listener, context)
  {
    if bs != [] {
      DropUnbinds(bs[1..], listener, context);
      assert forall x :: x in bs <==> x == bs[0] || x in bs[1..];
    }
  }

  lemma {:induction false} DropAbsent(bs: seq<Binding>, listener: Handle, context: Ctx)
    requires forall i :: 0 <= i < |bs| ==> !Binds(bs[i], listener, context)
    ensures Drop(bs, listener, context) == bs
  {
    if bs != [] {
      DropAbsent(bs[1..], listener, context);
    }
  }

  /** With unique bindings, `remove` deletes exactly the one binding found. */
  lemma {:induction false} DropAt(bs: seq<Binding>, i: int)
    requires Unique(bs) && 0 <= i < |bs|
    ensures Drop(bs, bs[i].listener, bs[i].context) == bs[..i] + bs[i + 1..]
  {
    var l, c := bs[i].listener, bs[i].context;
    if i == 0 {
      DropAbsent(bs[1..], l, c);
    } else {
      assert bs[1..][i - 1] == bs[i];
      DropAt(bs[1..], i - 1);
      assert bs[..i] == [bs[0]] + bs[1..][..i - 1];
      assert bs[i + 1..] == bs[1..][i..];
    }
  }

  lemma {:induction false} KeepIgnoresOthers(bs: seq<Binding>, fired: seq<Binding>, b: Binding)
    requires b !in bs
    ensures Keep(bs, fired + [b]) == Keep(bs, fired)
  {
    if bs != [] {
      KeepIgnoresOthers(bs[1..], fired, b);
    }
  }

  lemma {:induction false} KeepIgnoresPersistent(bs: seq<Binding>, fired: seq<Binding>, b: Binding)
    requires !b.isOnce
    ensures Keep(bs, fired + [b]) == Keep(bs, fired)
  {
    if bs != [] {
      KeepIgnoresPersistent(bs[1..], fired, b);
    }
  }

  lemma {:induction false} DropKeep(bs: seq<Binding>, fired: seq<Binding>, b: Binding)
    requires forall i :: 0 <= i < |bs| && Binds(bs[i], b.listener, b.context) ==> bs[i] == b
    requires b.isOnce
    ensures Drop(Keep(bs, fired), b.listener, b.context) == Keep(bs, fired + [b])
  {
    if bs != [] {
      var head := if bs[0].isOnce && bs[0] in fired then [] else [bs[0]];
      assert Keep(bs, fired) == head + Keep(bs[1..], fired);
      assert forall i :: 0 <= i < |bs[1..]| && Binds(bs[1..][i], b.listener, b.context) ==> bs[1..][i] == b by {
        forall i | 0 <= i < |bs[1..]| && Binds(bs[1..][i], b.listener, b.context) ensures bs[1..][i] == b {
          assert bs[1..][i] == bs[i + 1];
        }
      }
      DropKeep(bs[1..], fired, b);
      if head == [] {
        assert head + Keep(bs[1..], fired) == Keep(bs[1..], fired);
      } else {
        assert (head + Keep(bs[1..], fired))[1..] == Keep(bs[1..], fired);
      }
    }
  }

  lemma {:induction false} KeepNothing(bs: seq<Binding>)
    ensures Keep(bs, []) == bs
  {
    if bs != [] {
      KeepNothing(bs[1..]);
    }
  }

  /** The bindings one dispatch executes are the first ones of the dispatch order. */
  lemma {:induction false} FiredIsPrefix(bs: seq<Binding>, behaviour: Behaviour)
    ensures |Fired(bs, behaviour)| <= |bs|
    ensures Fired(bs, behaviour) == Reverse(bs)[..|Fired(bs, behaviour)|]
  {
    if bs != [] {
      var b, rest := bs[|bs| - 1], bs[..|bs| - 1];
      FiredIsPrefix(rest, behaviour);
      assert Reverse(bs) == [b] + Reverse(rest);
      if behaviour(b.listener, b.context) == Continue {
        var n := |Fired(rest, behaviour)|;
        assert Fired(bs, behaviour) == [b] + Reverse(rest)[..n];
        assert ([b] + Reverse(rest))[..n + 1] == [b] + Reverse(rest)[..n];
      }
    }
  }

  /** Every listener that ran before the last one let the dispatch continue. */
  lemma {:induction false} FiredContinuesUntilLast(bs: seq<Binding>, behaviour: Behaviour)
    ensures var f := Fired(bs, behaviour);
      forall i :: 0 <= i < |f| - 1 ==> behaviour(f[i].listener, f[i].context) == Continue
  {
    if bs != [] {
      var b, rest := bs[|bs| - 1], bs[..|bs| - 1];
      if behaviour(b.listener, b.context) == Continue {
        FiredContinuesUntilLast(rest, behaviour);
        var f := Fired(bs, behaviour);
        assert f == [b] + Fired(rest, behaviour);
        forall i | 1 <= i < |f| - 1 ensures behaviour(f[i].listener, f[i].context) == Continue {
          assert f[i] == Fired(rest, behaviour)[i - 1];
        }
      }
    }
  }

  /** When nobody stops the walk, every binding runs. */
  lemma {:induction false} FiredAllWhenNobodyStops(bs: seq<Binding>, behaviour: Behaviour)
    requires forall i :: 0 <= i < |bs| ==> behaviour(bs[i].listener, bs[i].context) == Continue
    ensures Fired(bs, behaviour) == Reverse(bs)
  {
    if bs != [] {
      FiredAllWhenNobodyStops(bs[..|bs| - 1], behaviour);
    }
  }

  /** A walk that ran fewer bindings than there are ended at a listener that stopped it. */
  lemma {:induction false} ShortWalkWasStopped(bs: seq<Binding>, behaviour: Behaviour)
    requires |Fired(bs, behaviour)| < |bs|
    ensures Stopped(Fired(bs, behaviour), behaviour)
  {
    var b := bs[|bs| - 1];
    if behaviour(b.listener, b.context) == Continue {
      ShortWalkWasStopped(bs[..|bs| - 1], behaviour);
    }
  }

  /** A once-binding that ran is gone afterwards; a binding that did not run stays. */
  lemma {:induction false} KeepMembers(bs: seq<Binding>, fired: seq<Binding>, x: Binding)
    ensures x in Keep(bs, fired) <==> x in bs && !(x.isOnce && x in fired)
  {
    if bs != [] {
      KeepMembers(bs[1..], fired, x);
    }
  }

  /** Keeping some of an ordered, duplicate-free channel's bindings leaves it ordered and duplicate-free. */
  lemma SubsetCons(x: Binding, t: seq<Binding>, u: seq<Binding>)
    requires Ascending([x] + t) && Unique([x] + t)
    requires Ascending(u) && Unique(u) && forall y :: y in u ==> y in t
    ensures Ascending([x] + u) && Unique([x] + u)
  {
    AscendingCons(x, t);
    UniqueCons(x, t);
    AscendingCons(x, u);
    UniqueCons(x, u);
    forall i | 0 <= i < |u| ensures !Binds(u[i], x.listener, x.context) {
      assert u[i] in t;
    }
  }

  /** `remove` keeps a channel ordered and free of duplicate pairs. */
  lemma {:induction false} DropValid(bs: seq<Binding>, listener: Handle, context: Ctx)
    requires Ascending(bs) && Unique(bs)
    ensures Ascending(Drop(bs, listener, context)) && Unique(Drop(bs, listener, context))
  {
    if bs != [] {
      var x, t := bs[0], bs[1..];
      assert bs == [x] + t;
      AscendingCons(x, t);
      UniqueCons(x, t);
      DropValid(t, listener, context);
      DropUnbinds(t, listener, context);
      if !Binds(x, listener, context) {
        SubsetCons(x, t, Drop(t, listener, context));
      } else {
        assert Drop(bs, listener, context) == Drop(t, listener, context);
      }
    }
  }

  /** Dropping the once-bindings that ran keeps a channel ordered and free of duplicate pairs. */
  lemma {:induction false} KeepValid(bs: seq<Binding>, fired: seq<Binding>)
    requires Ascending(bs) && Unique(bs)
    ensures Ascending(Keep(bs, fired)) && Unique(Keep(bs, fired))
  {
    if bs != [] {
      var x, t := bs[0], bs[1..];
      assert bs == [x] + t;
      AscendingCons(x, t);
      UniqueCons(x, t);
      KeepValid(t, fired);
      forall y | y in Keep(t, fired) ensures y in t {
        KeepMembers(t, fired, y);
      }
      if !(x.isOnce && x in fired) {
        SubsetCons(x, t, Keep(t, fired));
      } else {
        assert Keep(bs, fired) == Keep(t, fired);
      }
    }
  }

  // ---------------------------------------------------------------------------

  class Signal {
    /** `_bindings`, ascending by priority. */
    var bindings: seq<Binding>
    /** `_shouldPropagate`. */
    var shouldPropagate: bool

    ghost predicate Valid()
      reads this
    {
      Ascending(bindings) && Unique(bindings)
    }

    constructor ()
      ensures Valid() && bindings == [] && shouldPropagate
    {
      bindings := [];
      shouldPropagate := true;
    }

    /** `_indexOfListener`: the position of the binding of (listener, context), or -1. */
    method IndexOfListener(listener: Handle, context: Ctx) returns (i: int)
      ensures -1 <= i < |bindings|
      ensures i >= 0 ==> Binds(bindings[i], listener, context)
      ensures i == -1 ==> forall k :: 0 <= k < |bindings| ==> !Binds(bindings[k], listener, context)
      ensures forall k :: i < k < |bindings| ==> !Binds(bindings[k], listener, context)
      ensures i == IndexOf(bindings, listener, context)
    {
      i := |bindings|;
      assert bindings[..i] == bindings;
      while i > 0
        invariant 0 <= i <= |bindings|
        invariant forall k :: i <= k < |bindings| ==> !Binds(bindings[k], listener, context)
        invariant IndexOf(bindings[..i], listener, context) == IndexOf(bindings, listener, context)
      {
        assert bindings[..i][..i - 1] == bindings[..i - 1];
        i := i - 1;
        if Binds(bindings[i], listener, context) {
          return;
        }
      }
      i := -1;
    }

    /** `_addBinding`: walk down from the end past every binding of higher or equal priority, then splice. */
    method AddBinding(b: Binding)
      requires Valid() && !Bound(bindings, b.listener, b.context)
      modifies this
      ensures Valid()
      ensures bindings == Inserted(old(bindings), b)
      ensures shouldPropagate == old(shouldPropagate)
    {
      var k := InsertionPoint(b.priority);
      RankSplits(bindings, b);
      InsertedValid(bindings, b);
      bindings := bindings[..k] + [b] + bindings[k..];
    }

    /** The walk of `_addBinding` down from the end, past every binding of equal or higher priority. */
    method InsertionPoint(p: int) returns (k: nat)
      requires Valid()
      ensures k == Rank(bindings, p)
    {
      var i := |bindings| - 1;
      while i >= 0 && p <= bindings[i].priority
        invariant -1 <= i < |bindings|
        invariant forall j :: i < j < |bindings| ==> p <= bindings[j].priority
      {
        i := i - 1;
      }
      RankAtRunStart(bindings, p, i + 1);
      k := i + 1;
    }

    /** `_registerListener`. */
    method RegisterListener(listener: Handle, isOnce: bool, context: Ctx, priority: int) returns (r: Result<Binding>)
      requires Valid()
      modifies this
      ensures Valid()
      ensures Registration(bindings, r) == Registered(old(bindings), listener, isOnce, context, priority)
      ensures shouldPropagate == old(shouldPropagate)
    {
      var i := IndexOfListener(listener, context);
      if i != -1 {
        var existing := bindings[i];
        if existing.isOnce != isOnce {
          r := Err(MixedOnce);
        } else {
          r := Ok(existing);
        }
      } else {
        IndexOfFindsBound(bindings, listener, context);
        var b := Binding(listener, context, priority, isOnce);
        AddBinding(b);
        r := Ok(b);
      }
    }

    /** `add(listener, context, priority)`. */
    method Add(listener: Handle, context: Ctx, priority: int) returns (r: Result<Binding>)
      requires Valid()
      modifies this
      ensures Valid()
      ensures Registration(bindings, r) == Registered(old(bindings), listener, false, context, priority)
      ensures shouldPropagate == old(shouldPropagate)
    {
      r := RegisterListener(listener, false, context, priority);
    }

    /** `addOnce(listener, context, priority)`. */
    method AddOnce(listener: Handle, context: Ctx, priority: int) returns (r: Result<Binding>)
      requires Valid()
      modifies this
      ensures Valid()
      ensures Registration(bindings, r) == Registered(old(bindings), listener, true, context, priority)
      ensures shouldPropagate == old(shouldPropagate)
    {
      r := RegisterListener(listener, true, context, priority);
    }

    /** `has(listener, context)`. */
    method Has(listener: Handle, context: Ctx) returns (r: bool)
      ensures r == Bound(bindings, listener, context)
    {
      var i := IndexOfListener(listener, context);
      r := i != -1;
    }

    /** `remove(listener, context)`: splice out the binding found, if any. */
    method Remove(listener: Handle, context: Ctx)
      requires Valid()
      modifies this
      ensures Valid()
      ensures bindings == Drop(old(bindings), listener, context)
      ensures shouldPropagate == old(shouldPropagate)
    {
      var i := IndexOfListener(listener, context);
      if i != -1 {
        DropAt(bindings, i);
        bindings := bindings[..i] + bindings[i + 1..];
      } else {
        DropAbsent(bindings, listener, context);
      }
    }

    /** `removeAll()`. */
    method RemoveAll()
      modifies this
      ensures Valid() && bindings == [] && shouldPropagate == old(shouldPropagate)
    {
      bindings := [];
    }

    /** `getNumListeners()`. */
    function NumListeners(): (n: nat)
      reads this
      ensures n == |bindings|
    {
      |bindings|
    }

    /** `halt()`: stops the dispatch in progress after the current listener. */
    method Halt()
      modifies this
      ensures bindings == old(bindings) && !shouldPropagate
    {
      shouldPropagate := false;
    }

    /**
     * `dispatch(...)`: walk a snapshot of the bindings from the end; a
     * once-binding detaches itself after it runs; stop after a listener that
     * returns `false` or calls `halt`. Returns the bindings that ran.
     */
    method Dispatch(behaviour: Behaviour) returns (fired: seq<Binding>)
      requires Valid()
      modifies this
      ensures Valid()
      ensures fired == Fired(old(bindings), behaviour)
      ensures bindings == Keep(old(bindings), fired)
      ensures shouldPropagate == if old(bindings) == [] then old(shouldPropagate) else !Halted(fired, behaviour)
    {
      fired := [];
      if |bindings| == 0 {
        return;
      }
      var snapshot := bindings;
      var c := |snapshot|;
      KeepNothing(snapshot);
      shouldPropagate := true;
      var returnedFalse := false;
      while 0 < c && shouldPropagate && !returnedFalse
        invariant Valid() && Unique(snapshot)
        invariant 0 <= c <= |snapshot| && |fired| == |snapshot| - c
        invariant Walked(snapshot, fired, behaviour)
        invariant bindings == Keep(snapshot, fired)
        invariant shouldPropagate == !Halted(fired, behaviour)
        invariant returnedFalse == (Stopped(fired, behaviour) && !Halted(fired, behaviour))
        decreases c
      {
        c := c - 1;
        var b := snapshot[c];
        var effect := Run(snapshot, fired, b, behaviour);
        LastRan(fired, b, behaviour);
        WalkOn(snapshot, fired, behaviour);
        fired := fired + [b];
        returnedFalse := effect == ReturnFalse;
      }
      WalkIsFired(snapshot, fired, behaviour);
    }

    /** Run the binding `b` of the snapshot: it may halt the walk, and a once-binding detaches itself. */
    method Run(snapshot: seq<Binding>, fired: seq<Binding>, b: Binding, behaviour: Behaviour) returns (effect: Effect)
      requires Valid() && Unique(snapshot) && b in snapshot && bindings == Keep(snapshot, fired)
      modifies this
      ensures Valid() && bindings == Keep(snapshot, fired + [b])
      ensures effect == behaviour(b.listener, b.context)
      ensures shouldPropagate == (old(shouldPropagate) && effect != CallHalt)
    {
      effect := behaviour(b.listener, b.context);
      if effect == CallHalt {
        Halt();
      }
      if b.isOnce {
        DropKeep(snapshot, fired, b);
        Remove(b.listener, b.context);
      } else {
        KeepIgnoresPersistent(snapshot, fired, b);
      }
    }

    /** `dispose()`: drop every binding. */
    method Dispose()
      modifies this
      ensures Valid() && bindings == [] && shouldPropagate == old(shouldPropagate)
    {
      RemoveAll();
    }
  }
}
