/**
 * The public listener API: `mkr.on`, `mkr.once` and `mkr.off`. Each takes a
 * target that `mkr.each` turns into a list of elements and calls the trigger
 * matrix once per element, with the context defaulted to the element itself.
 * `off` chooses its matrix operation from the arguments it was given.
 *
 * `on` and `once` run the elements in order; a channel that throws (a
 * listener added with `add` and `addOnce` on the same pair) ends the walk and
 * the error escapes, which the model returns as `Some(error)`.
 */
module Events {
  import opened JsBase
  import opened Signals
  import opened SignalManagers
  import opened TriggerMatrices

  /** The `target` argument as `mkr.each` tells its forms apart. */
  datatype Target =
    | Missing                         // `null` or `undefined`
    | Selector(matches: seq<Handle>)  // a selector string; `matches` is what the document query returns
    | Many(elements: seq<Handle>)     // an array of elements
    | One(element: Handle)            // any other value

  /** The elements `mkr.each` visits, in order. */
  function Elements(target: Target): seq<Handle> {
    match target
    case Missing => []
    case Selector(matches) => matches
    case Many(elements) => elements
    case One(element) => [element]
  }

  /** `mkr.default(context, el)`: the context the listener gets on the element `el`. */
  function ContextFor(context: JsVal<Ctx>, el: Handle): (c: JsVal<Ctx>)
    ensures c.Defined? && OrNull(c) == c.v
    ensures context.Defined? ==> c == context
    ensures context.Undefined? ==> c == Defined(Ref(el))
  {
    Default(context, Defined(Ref(el)))
  }

  /** The matrix after `on`/`once`, the number of triggers made so far, and the error that escaped. */
  datatype Outcome = Outcome(view: View, next: nat, error: Option<Error>)

  /**
   * `on` (isOnce false) or `once` (isOnce true) over the elements `els`: one
   * matrix `add` per element, in order, until one throws.
   */
  function ListenSpec(view: View, next: nat, els: seq<Handle>, ty: string, listener: Handle, context: JsVal<Ctx>,
                      priority: JsVal<int>, isOnce: bool): Outcome
    decreases |els|
  {
    if els == [] then Outcome(view, next, None)
    else
      var a := AddSpec(view, els[0], ty, listener, ContextFor(context, els[0]), priority, isOnce, next);
      if a.result.Err? then Outcome(a.view, next, Some(a.result.error))
      else ListenSpec(a.view, next + 1, els[1..], ty, listener, context, priority, isOnce)
  }

  /** Which matrix operation `off` picks: `delete`, `removeAll` or `remove`. */
  datatype OffMode = DeleteTarget | RemoveType | RemoveListener

  /** `off` picks by the first missing argument: no type, then no callback. */
  function ModeOf(ty: JsVal<string>, callback: JsVal<Handle>): (m: OffMode)
    ensures m == DeleteTarget <==> ty.Undefined?
    ensures m == RemoveType <==> ty.Defined? && callback.Undefined?
    ensures m == RemoveListener <==> ty.Defined? && callback.Defined?
  {
    if ty.Undefined? then DeleteTarget
    else if callback.Undefined? then RemoveType
    else RemoveListener
  }

  /** `off` on one element. */
  function OffOne(view: View, el: Handle, ty: JsVal<string>, callback: JsVal<Handle>, context: JsVal<Ctx>): View {
    match ModeOf(ty, callback)
    case DeleteTarget => view - {el}
    case RemoveType => RemoveAllSpec(view, el, ty.v)
    case RemoveListener => RemoveSpec(view, el, ty.v, callback.v, ContextFor(context, el))
  }

  /** `off` over the elements `els`, in order. */
  function OffSpec(view: View, els: seq<Handle>, ty: JsVal<string>, callback: JsVal<Handle>, context: JsVal<Ctx>): View
    decreases |els|
  {
    if els == [] then view
    else OffSpec(OffOne(view, els[0], ty, callback, context), els[1..], ty, callback, context)
  }

  // ---------------------------------------------------------------------------
  // What the calls promise

  /** One `add` keeps a trigger and a binding that some (target, type) already had. */
  lemma AddKeepsBinding(view: View, t: Handle, ty: string, listener: Handle, context: JsVal<Ctx>, priority: JsVal<int>,
                        isOnce: bool, n: nat, u: Handle, y: string, l: Handle, c: Ctx)
    requires y in StateOf(view, u).triggers && Bound(ChannelOf(StateOf(view, u).channels, y), l, c)
    ensures var v := AddSpec(view, t, ty, listener, context, priority, isOnce, n).view;
      y in StateOf(v, u).triggers && Bound(ChannelOf(StateOf(v, u).channels, y), l, c)
  {
    var bs := ChannelOf(StateOf(view, t).channels, ty);
    RegisteredBinds(bs, listener, isOnce, OrNull(context), OrZero(priority), l, c);
  }

  /**
   * When `on`/`once` completes without an error, every element has a trigger
   * for the type and the listener is bound on it with the element's context.
   */
  lemma {:induction false} ListenBindsEveryElement(view: View, next: nat, els: seq<Handle>, ty: string, listener: Handle,
                                                   context: JsVal<Ctx>, priority: JsVal<int>, isOnce: bool)
    ensures var o := ListenSpec(view, next, els, ty, listener, context, priority, isOnce);
      o.error.None? ==>
        forall el :: el in els ==>
          ty in StateOf(o.view, el).triggers && Bound(ChannelOf(StateOf(o.view, el).channels, ty), listener, ContextFor(context, el).v)
    decreases |els|
  {
    if els != [] {
      var el := els[0];
      var c := ContextFor(context, el);
      var a := AddSpec(view, el, ty, listener, c, priority, isOnce, next);
      if a.result.Ok? {
        var bs := ChannelOf(StateOf(view, el).channels, ty);
        RegisteredBinds(bs, listener, isOnce, c.v, OrZero(priority), listener, c.v);
        assert ty in StateOf(a.view, el).triggers && Bound(ChannelOf(StateOf(a.view, el).channels, ty), listener, c.v);
        ListenBindsEveryElement(a.view, next + 1, els[1..], ty, listener, context, priority, isOnce);
        ListenKeepsBinding(a.view, next + 1, els[1..], ty, listener, context, priority, isOnce, el, ty, listener, c.v);
        forall e | e in els
          ensures e == el || e in els[1..]
        {
        }
      }
    }
  }

  /** `on`/`once` keeps every trigger and binding that was already there. */
  lemma {:induction false} ListenKeepsBinding(view: View, next: nat, els: seq<Handle>, ty: string, listener: Handle,
                                              context: JsVal<Ctx>, priority: JsVal<int>, isOnce: bool,
                                              u: Handle, y: string, l: Handle, c: Ctx)
    requires y in StateOf(view, u).triggers && Bound(ChannelOf(StateOf(view, u).channels, y), l, c)
    ensures var v := ListenSpec(view, next, els, ty, listener, context, priority, isOnce).view;
      y in StateOf(v, u).triggers && Bound(ChannelOf(StateOf(v, u).channels, y), l, c)
    decreases |els|
  {
    if els != [] {
      var a := AddSpec(view, els[0], ty, listener, ContextFor(context, els[0]), priority, isOnce, next);
      AddKeepsBinding(view, els[0], ty, listener, ContextFor(context, els[0]), priority, isOnce, next, u, y, l, c);
      if a.result.Ok? {
        ListenKeepsBinding(a.view, next + 1, els[1..], ty, listener, context, priority, isOnce, u, y, l, c);
      }
    }
  }

  /**
   * `on`/`once` makes one trigger per element exactly when no error escapes;
   * an error stops it at the element that threw, with fewer triggers made.
   */
  lemma {:induction false} ListenCountsTriggers(view: View, next: nat, els: seq<Handle>, ty: string, listener: Handle,
                                                context: JsVal<Ctx>, priority: JsVal<int>, isOnce: bool)
    ensures var o := ListenSpec(view, next, els, ty, listener, context, priority, isOnce);
      && next <= o.next <= next + |els|
      && (o.error.None? <==> o.next == next + |els|)
    decreases |els|
  {
    if els != [] {
      var a := AddSpec(view, els[0], ty, listener, ContextFor(context, els[0]), priority, isOnce, next);
      if a.result.Ok? {
        ListenCountsTriggers(a.view, next + 1, els[1..], ty, listener, context, priority, isOnce);
      }
    }
  }

  /** `off(target)` with no type forgets exactly the elements and leaves every other target as it was. */
  lemma {:induction false} OffWithoutTypeForgets(view: View, els: seq<Handle>, callback: JsVal<Handle>, context: JsVal<Ctx>)
    ensures OffSpec(view, els, Undefined, callback, context) == map u | u in view && u !in els :: view[u]
    decreases |els|
  {
    if els != [] {
      var next := view - {els[0]};
      OffWithoutTypeForgets(next, els[1..], callback, context);
      assert (map u | u in next && u !in els[1..] :: next[u]) == map u | u in view && u !in els :: view[u];
    }
  }

  /**
   * `off(target, type)` with no callback leaves no element with a trigger for
   * the type; on a live matrix (a channel with listeners has a trigger) the
   * channel is empty too.
   */
  lemma {:induction false} OffWithoutCallbackUninstalls(view: View, els: seq<Handle>, ty: string, context: JsVal<Ctx>)
    requires Live(view)
    ensures var v := OffSpec(view, els, Defined(ty), Undefined, context);
      Live(v) && forall el :: el in els ==> ty !in StateOf(v, el).triggers && ChannelOf(StateOf(v, el).channels, ty) == []
    decreases |els|
  {
    if els != [] {
      var next := RemoveAllSpec(view, els[0], ty);
      RemoveAllKeepsLive(view, els[0], ty);
      OffWithoutCallbackUninstalls(next, els[1..], ty, context);
      assert ty !in StateOf(next, els[0]).triggers;
      RemoveAllStaysUninstalled(next, els[1..], ty, context, els[0]);
      forall e | e in els
        ensures e == els[0] || e in els[1..]
      {
      }
    }
  }

  /** `removeAll` on later elements never reinstalls a trigger. */
  lemma {:induction false} RemoveAllStaysUninstalled(view: View, els: seq<Handle>, ty: string, context: JsVal<Ctx>, u: Handle)
    requires Live(view) && ty !in StateOf(view, u).triggers
    ensures var v := OffSpec(view, els, Defined(ty), Undefined, context);
      ty !in StateOf(v, u).triggers && ChannelOf(StateOf(v, u).channels, ty) == []
    decreases |els|
  {
    if els != [] {
      RemoveAllKeepsLive(view, els[0], ty);
      RemoveAllStaysUninstalled(RemoveAllSpec(view, els[0], ty), els[1..], ty, context, u);
    }
  }

  /** `remove` never binds anything. */
  lemma RemoveBindsNothing(view: View, t: Handle, ty: string, listener: Handle, context: JsVal<Ctx>,
                           u: Handle, y: string, l: Handle, c: Ctx)
    requires !Bound(ChannelOf(StateOf(view, u).channels, y), l, c)
    ensures !Bound(ChannelOf(StateOf(RemoveSpec(view, t, ty, listener, context), u).channels, y), l, c)
  {
    var v := RemoveSpec(view, t, ty, listener, context);
    if v != view && u == t && y == ty {
      var bs := view[t].channels[ty];
      DropUnbinds(bs, listener, OrNull(context));
      var rest := Drop(bs, listener, OrNull(context));
      forall i | 0 <= i < |rest| ensures !Binds(rest[i], l, c) {
        assert rest[i] in bs;
      }
    }
  }

  /**
   * `off(target, type, callback, context)` leaves the callback bound on no
   * element with that element's context, on a live matrix.
   */
  lemma {:induction false} OffRemovesListener(view: View, els: seq<Handle>, ty: string, callback: Handle, context: JsVal<Ctx>)
    requires Live(view)
    ensures var v := OffSpec(view, els, Defined(ty), Defined(callback), context);
      Live(v) && forall el :: el in els ==> !Bound(ChannelOf(StateOf(v, el).channels, ty), callback, ContextFor(context, el).v)
    decreases |els|
  {
    if els != [] {
      var el := els[0];
      var c := ContextFor(context, el);
      var next := RemoveSpec(view, el, ty, callback, c);
      RemoveKeepsLive(view, el, ty, callback, c);
      if el in view && ty in view[el].triggers && Bound(ChannelOf(view[el].channels, ty), callback, c.v) {
        RemoveUninstallsWhenEmpty(view, el, ty, callback, c);
      } else {
        assert !Bound(ChannelOf(StateOf(view, el).channels, ty), callback, c.v);
        assert next == view;
      }
      OffRemovesListener(next, els[1..], ty, callback, context);
      RemoveStaysUnbound(next, els[1..], ty, callback, context, el, c.v);
      forall e | e in els
        ensures e == el || e in els[1..]
      {
      }
    }
  }

  /** `remove` on later elements never binds the pair again. */
  lemma {:induction false} RemoveStaysUnbound(view: View, els: seq<Handle>, ty: string, callback: Handle, context: JsVal<Ctx>,
                                              u: Handle, c: Ctx)
    requires !Bound(ChannelOf(StateOf(view, u).channels, ty), callback, c)
    ensures !Bound(ChannelOf(StateOf(OffSpec(view, els, Defined(ty), Defined(callback), context), u).channels, ty), callback, c)
    decreases |els|
  {
    if els != [] {
      RemoveBindsNothing(view, els[0], ty, callback, ContextFor(context, els[0]), u, ty, callback, c);
      RemoveStaysUnbound(RemoveSpec(view, els[0], ty, callback, ContextFor(context, els[0])), els[1..], ty, callback, context, u, c);
    }
  }

  // ---------------------------------------------------------------------------
  // The calls, against the matrix

  /** `mkr.on(target, type, callback, context, priority)`. */
  method On(m: TriggerMatrix, target: Target, ty: string, listener: Handle, context: JsVal<Ctx>, priority: JsVal<int>)
    returns (error: Option<Error>)
    requires m.Valid()
    modifies m, m.mngrs, m.table
    ensures m.Valid()
    ensures var o := ListenSpec(old(m.view), old(m.nextTrigger), Elements(target), ty, listener, context, priority, false);
      m.view == o.view && m.nextTrigger == o.next && error == o.error
  {
    error := Listen(m, Elements(target), ty, listener, context, priority, false);
  }

  /** `mkr.once(target, type, callback, context, priority)`. */
  method Once(m: TriggerMatrix, target: Target, ty: string, listener: Handle, context: JsVal<Ctx>, priority: JsVal<int>)
    returns (error: Option<Error>)
    requires m.Valid()
    modifies m, m.mngrs, m.table
    ensures m.Valid()
    ensures var o := ListenSpec(old(m.view), old(m.nextTrigger), Elements(target), ty, listener, context, priority, true);
      m.view == o.view && m.nextTrigger == o.next && error == o.error
  {
    error := Listen(m, Elements(target), ty, listener, context, priority, true);
  }

  /** The walk `on` and `once` share: `add` or `addOnce` on each element in turn. */
  method Listen(m: TriggerMatrix, els: seq<Handle>, ty: string, listener: Handle, context: JsVal<Ctx>,
                priority: JsVal<int>, isOnce: bool) returns (error: Option<Error>)
    requires m.Valid()
    modifies m, m.mngrs, m.table
    ensures m.Valid()
    ensures var o := ListenSpec(old(m.view), old(m.nextTrigger), els, ty, listener, context, priority, isOnce);
      m.view == o.view && m.nextTrigger == o.next && error == o.error
  {
    var i := 0;
    while i < |els|
      invariant 0 <= i <= |els| && m.Valid()
      invariant ListenSpec(old(m.view), old(m.nextTrigger), els, ty, listener, context, priority, isOnce)
             == ListenSpec(m.view, m.nextTrigger, els[i..], ty, listener, context, priority, isOnce)
    {
      var r := m.Add(els[i], ty, listener, ContextFor(context, els[i]), priority, isOnce);
      if r.Err? {
        return Some(r.error);
      }
      assert els[i..][1..] == els[i + 1..];
      i := i + 1;
    }
    error := None;
  }

  /** `mkr.off(target, type, callback, context)`. */
  method Off(m: TriggerMatrix, target: Target, ty: JsVal<string>, callback: JsVal<Handle>, context: JsVal<Ctx>)
    requires m.Valid()
    modifies m, m.mngrs, m.table
    ensures m.Valid() && m.nextTrigger == old(m.nextTrigger)
    ensures m.view == OffSpec(old(m.view), Elements(target), ty, callback, context)
  {
    var mode := ModeOf(ty, callback);
    var els := Elements(target);
    var i := 0;
    while i < |els|
      invariant 0 <= i <= |els| && m.Valid() && m.nextTrigger == old(m.nextTrigger)
      invariant OffSpec(old(m.view), els, ty, callback, context) == OffSpec(m.view, els[i..], ty, callback, context)
    {
      OffElement(m, mode, els[i], ty, callback, context);
      assert els[i..][1..] == els[i + 1..];
      i := i + 1;
    }
  }

  /** The operation `off` picked, applied to one element. */
  method OffElement(m: TriggerMatrix, mode: OffMode, el: Handle, ty: JsVal<string>, callback: JsVal<Handle>, context: JsVal<Ctx>)
    requires m.Valid() && mode == ModeOf(ty, callback)
    modifies m, m.mngrs, m.table
    ensures m.Valid() && m.nextTrigger == old(m.nextTrigger)
    ensures m.view == OffOne(old(m.view), el, ty, callback, context)
  {
    match mode {
      case DeleteTarget =>
        m.Delete(el);
      case RemoveType =>
        m.RemoveAll(el, ty.v);
      case RemoveListener =>
        m.Remove(el, ty.v, callback.v, ContextFor(context, el));
    }
  }
}
