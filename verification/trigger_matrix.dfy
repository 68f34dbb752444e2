/**
 * The `TriggerMatrix` behind `mkr.on/once/off`: per target element, a
 * `SignalManager` whose channels are event types, and at most one native
 * trigger per (target, type) registered with the browser. The trigger
 * dispatches the channel and uninstalls itself once the channel is empty (in
 * the code only the trigger installed by `addOnce` does; see `FireAsWritten`).
 *
 * The browser's listener registry is the ghost set `installed`; delivering an
 * event to an installed trigger is the method `Fire`.
 */
module TriggerMatrices {
  import opened JsBase
  import opened Signals
  import opened SignalManagers
  import opened IdentityMaps

  /** Which closure a trigger is: the plain one from `add` or the self-removing one from `addOnce`. */
  datatype TriggerKind = Persistent | OnceStyle

  /** A trigger closure, identified by the number of triggers made before it. */
  datatype Trigger = Trigger(id: nat, kind: TriggerKind)

  /** One `addEventListener(type, trigger)` registration on a target. */
  datatype Install = Install(target: Handle, eventType: string, trigger: nat)

  /** What the matrix holds for one target: the channels of its manager and its triggers. */
  datatype TargetState = TargetState(channels: map<string, seq<Binding>>, triggers: map<string, Trigger>)

  type View = map<Handle, TargetState>

  function StateOf(view: View, t: Handle): TargetState {
    if t in view then view[t] else TargetState(map[], map[])
  }

  /** The registrations the browser holds for a view: one per (target, type) with a trigger. */
  ghost function InstalledOf(view: View): set<Install> {
    set t, ty | t in view && ty in view[t].triggers :: Install(t, ty, view[t].triggers[ty].id)
  }

  /** The kind of trigger `add` (isOnce false) or `addOnce` (isOnce true) makes. */
  function KindFor(isOnce: bool): TriggerKind {
    if isOnce then OnceStyle else Persistent
  }

  /** The outcome of `add`: the new view and what the channel returned or threw. */
  datatype Added = Added(view: View, result: Result<Binding>)

  /**
   * `add(target, type, listener, context, priority, isOnce)` with the
   * registration checked before the old trigger is touched: when the channel
   * refuses (add after addOnce or the reverse) nothing changes; otherwise the
   * channel gets the binding and the (target, type) trigger is replaced by a
   * fresh one of the requested kind.
   */
  function AddSpec(view: View, t: Handle, ty: string, listener: Handle, context: JsVal<Ctx>, priority: JsVal<int>, isOnce: bool, tid: nat): Added {
    var st := StateOf(view, t);
    var reg := Registered(ChannelOf(st.channels, ty), listener, isOnce, OrNull(context), OrZero(priority));
    if reg.result.Err? then Added(view, reg.result)
    else Added(view[t := TargetState(st.channels[ty := reg.bindings], st.triggers[ty := Trigger(tid, KindFor(isOnce))])], reg.result)
  }

  /**
   * `add` in the order the code runs it: the old trigger is uninstalled and
   * deleted first, and the channel's error leaves the (target, type) with no
   * trigger at all.
   */
  function AddAsWritten(view: View, t: Handle, ty: string, listener: Handle, context: JsVal<Ctx>, priority: JsVal<int>, isOnce: bool, tid: nat): Added {
    var st := StateOf(view, t);
    var reg := Registered(ChannelOf(st.channels, ty), listener, isOnce, OrNull(context), OrZero(priority));
    if reg.result.Err? then Added(view[t := TargetState(st.channels, st.triggers - {ty})], reg.result)
    else Added(view[t := TargetState(st.channels[ty := reg.bindings], st.triggers[ty := Trigger(tid, KindFor(isOnce))])], reg.result)
  }

  /**
   * `remove(target, type, listener, context)`: nothing happens unless the
   * target is known, the type has a trigger and the pair is bound; otherwise
   * the binding goes, and the trigger goes with it when the channel empties.
   */
  function RemoveSpec(view: View, t: Handle, ty: string, listener: Handle, context: JsVal<Ctx>): View {
    if t !in view || ty !in view[t].triggers || !Bound(ChannelOf(view[t].channels, ty), listener, OrNull(context)) then view
    else
      var st := view[t];
      var rest := Drop(st.channels[ty], listener, OrNull(context));
      view[t := TargetState(st.channels[ty := rest], if rest == [] then st.triggers - {ty} else st.triggers)]
  }

  /** `removeAll(target, type)`: when the type has a trigger, empty its channel and uninstall it. */
  function RemoveAllSpec(view: View, t: Handle, ty: string): View {
    if t !in view || ty !in view[t].triggers then view
    else
      var st := view[t];
      view[t := TargetState(if ty in st.channels then st.channels[ty := []] else st.channels, st.triggers - {ty})]
  }

  /** The outcome of delivering an event: the new view and the bindings that ran. */
  datatype Delivery = Delivery(view: View, ran: seq<Binding>)

  /**
   * The browser calls the (target, type) trigger: the channel is dispatched,
   * and the trigger uninstalls itself when the channel is then empty.
   */
  function FireSpec(view: View, t: Handle, ty: string, behaviour: Behaviour): Delivery {
    if t !in view || ty !in view[t].triggers then Delivery(view, [])
    else
      var st := view[t];
      var ran := Signals.Fired(ChannelOf(st.channels, ty), behaviour);
      var channels := if ty in st.channels then st.channels[ty := Keep(st.channels[ty], ran)] else st.channels;
      var gone := ChannelOf(channels, ty) == [];
      Delivery(view[t := TargetState(channels, if gone then st.triggers - {ty} else st.triggers)], ran)
  }

  /**
   * The trigger closures as the code makes them: only the self-removing one
   * from `addOnce` checks for an empty channel after dispatching.
   */
  function FireAsWritten(view: View, t: Handle, ty: string, behaviour: Behaviour): Delivery {
    if t !in view || ty !in view[t].triggers then Delivery(view, [])
    else
      var st := view[t];
      var ran := Signals.Fired(ChannelOf(st.channels, ty), behaviour);
      var channels := if ty in st.channels then st.channels[ty := Keep(st.channels[ty], ran)] else st.channels;
      var gone := st.triggers[ty].kind == OnceStyle && ChannelOf(channels, ty) == [];
      Delivery(view[t := TargetState(channels, if gone then st.triggers - {ty} else st.triggers)], ran)
  }

  /**
   * A (target, type) has a trigger exactly when its channel has listeners:
   * listeners can always be reached, and no trigger sits on an empty channel.
   */
  ghost predicate Live(view: View) {
    forall t, ty :: t in view ==> (ty in view[t].triggers <==> ChannelOf(view[t].channels, ty) != [])
  }

  /** Every channel of every target is ordered and free of duplicate pairs. */
  ghost predicate WellFormed(view: View) {
    forall t :: t in view ==> Orderly(view[t].channels)
  }

  /** Every channel of one target is ordered and free of duplicate pairs. */
  ghost predicate Orderly(channels: map<string, seq<Binding>>) {
    forall ty :: ty in channels ==> Ascending(channels[ty]) && Unique(channels[ty])
  }

  // ---------------------------------------------------------------------------
  // Properties of the specification

  /** The browser never holds two triggers for the same (target, type). */
  lemma AtMostOneTrigger(view: View, a: Install, b: Install)
    requires a in InstalledOf(view) && b in InstalledOf(view)
    requires a.target == b.target && a.eventType == b.eventType
    ensures a == b
  {
  }

  /**
   * After a successful `add`, the only registration for (target, type) is the
   * fresh trigger; every other registration is untouched.
   */
  lemma AddInstallsExactlyOne(view: View, t: Handle, ty: string, listener: Handle, context: JsVal<Ctx>, priority: JsVal<int>, isOnce: bool, tid: nat)
    requires AddSpec(view, t, ty, listener, context, priority, isOnce, tid).result.Ok?
    ensures var v := AddSpec(view, t, ty, listener, context, priority, isOnce, tid).view;
      && Install(t, ty, tid) in InstalledOf(v)
      && (forall i :: i in InstalledOf(v) && i.target == t && i.eventType == ty ==> i.trigger == tid)
      && (forall i: Install :: i.target != t || i.eventType != ty ==> (i in InstalledOf(v) <==> i in InstalledOf(view)))
  {
    var v := AddSpec(view, t, ty, listener, context, priority, isOnce, tid).view;
    assert t in v && ty in v[t].triggers && v[t].triggers[ty].id == tid;
    forall i: Install | i.target != t || i.eventType != ty ensures i in InstalledOf(v) <==> i in InstalledOf(view) {
      if i in InstalledOf(view) {
        assert i.eventType in v[i.target].triggers;
      }
    }
  }

  lemma AddKeepsWellFormed(view: View, t: Handle, ty: string, listener: Handle, context: JsVal<Ctx>, priority: JsVal<int>, isOnce: bool, tid: nat)
    requires WellFormed(view)
    ensures WellFormed(AddSpec(view, t, ty, listener, context, priority, isOnce, tid).view)
  {
    var st := StateOf(view, t);
    var bs := ChannelOf(st.channels, ty);
    RegisteredOrderly(bs, listener, isOnce, OrNull(context), OrZero(priority));
    var reg := Registered(bs, listener, isOnce, OrNull(context), OrZero(priority));
    if reg.result.Ok? {
      assert Orderly(st.channels[ty := reg.bindings]);
    }
  }

  /** `add`, checked before it uninstalls anything, keeps every listener reachable. */
  lemma AddKeepsLive(view: View, t: Handle, ty: string, listener: Handle, context: JsVal<Ctx>, priority: JsVal<int>, isOnce: bool, tid: nat)
    requires Live(view) && WellFormed(view)
    ensures Live(AddSpec(view, t, ty, listener, context, priority, isOnce, tid).view)
  {
    var st := StateOf(view, t);
    var bs := ChannelOf(st.channels, ty);
    RegisteredOrderly(bs, listener, isOnce, OrNull(context), OrZero(priority));
    var reg := Registered(bs, listener, isOnce, OrNull(context), OrZero(priority));
    if reg.result.Ok? {
      assert reg.result.value in reg.bindings;
      var v := AddSpec(view, t, ty, listener, context, priority, isOnce, tid).view;
      forall u, y | u in v
        ensures y in v[u].triggers <==> ChannelOf(v[u].channels, y) != []
      {
        if u == t && y != ty {
          assert ChannelOf(v[u].channels, y) == ChannelOf(st.channels, y);
        }
      }
    }
  }

  /**
   * `add` as written strands listeners: with `f` added once on "click", a
   * plain `add(f)` on the same target and type throws, and by then the click
   * trigger is gone while `f` is still bound.
   */
  lemma AddAsWrittenStrandsListeners()
    ensures var f := Binding(Handle(1), Ref(Handle(0)), 0, true);
      var view := map[Handle(0) := TargetState(map["click" := [f]], map["click" := Trigger(0, OnceStyle)])];
      var out := AddAsWritten(view, Handle(0), "click", Handle(1), Defined(Ref(Handle(0))), Undefined, false, 1);
      && Live(view)
      && out.result == Err(MixedOnce)
      && !Live(out.view)
      && ChannelOf(out.view[Handle(0)].channels, "click") == [f]
      && "click" !in out.view[Handle(0)].triggers
  {
    var f := Binding(Handle(1), Ref(Handle(0)), 0, true);
    var view := map[Handle(0) := TargetState(map["click" := [f]], map["click" := Trigger(0, OnceStyle)])];
    forall t, ty | t in view
      ensures ty in view[t].triggers <==> ChannelOf(view[t].channels, ty) != []
    {
    }
    assert IndexOf([f], Handle(1), Ref(Handle(0))) == 0;
    var out := AddAsWritten(view, Handle(0), "click", Handle(1), Defined(Ref(Handle(0))), Undefined, false, 1);
    assert ChannelOf(out.view[Handle(0)].channels, "click") == [f];
    assert "click" !in out.view[Handle(0)].triggers;
  }

  /** The corrected `add` on the same input reports the error and leaves the trigger in place. */
  lemma AddSpecKeepsTriggerOnError()
    ensures var f := Binding(Handle(1), Ref(Handle(0)), 0, true);
      var view := map[Handle(0) := TargetState(map["click" := [f]], map["click" := Trigger(0, OnceStyle)])];
      var out := AddSpec(view, Handle(0), "click", Handle(1), Defined(Ref(Handle(0))), Undefined, false, 1);
      out.result == Err(MixedOnce) && out.view == view
  {
    var f := Binding(Handle(1), Ref(Handle(0)), 0, true);
    assert IndexOf([f], Handle(1), Ref(Handle(0))) == 0;
  }

  /** `remove` uninstalls the trigger exactly when it empties the channel. */
  lemma RemoveUninstallsWhenEmpty(view: View, t: Handle, ty: string, listener: Handle, context: JsVal<Ctx>)
    requires t in view && ty in view[t].triggers && Bound(ChannelOf(view[t].channels, ty), listener, OrNull(context))
    ensures var v := RemoveSpec(view, t, ty, listener, context);
      && !Bound(ChannelOf(v[t].channels, ty), listener, OrNull(context))
      && (ty !in v[t].triggers <==> ChannelOf(v[t].channels, ty) == [])
  {
    DropUnbinds(view[t].channels[ty], listener, OrNull(context));
  }

  lemma RemoveKeepsLive(view: View, t: Handle, ty: string, listener: Handle, context: JsVal<Ctx>)
    requires Live(view)
    ensures Live(RemoveSpec(view, t, ty, listener, context))
  {
    var v := RemoveSpec(view, t, ty, listener, context);
    forall u, y | u in v
      ensures y in v[u].triggers <==> ChannelOf(v[u].channels, y) != []
    {
      if u == t && y != ty && v != view {
        assert ChannelOf(v[u].channels, y) == ChannelOf(view[u].channels, y);
      }
    }
  }

  lemma RemoveAllKeepsLive(view: View, t: Handle, ty: string)
    requires Live(view)
    ensures Live(RemoveAllSpec(view, t, ty))
  {
    var v := RemoveAllSpec(view, t, ty);
    forall u, y | u in v
      ensures y in v[u].triggers <==> ChannelOf(v[u].channels, y) != []
    {
      if u == t && y != ty && v != view {
        assert ChannelOf(v[u].channels, y) == ChannelOf(view[u].channels, y);
      }
    }
  }

  lemma FireKeepsLive(view: View, t: Handle, ty: string, behaviour: Behaviour)
    requires Live(view)
    ensures Live(FireSpec(view, t, ty, behaviour).view)
  {
    var v := FireSpec(view, t, ty, behaviour).view;
    forall u, y | u in v
      ensures y in v[u].triggers <==> ChannelOf(v[u].channels, y) != []
    {
      if u == t && y != ty && v != view {
        assert ChannelOf(v[u].channels, y) == ChannelOf(view[u].channels, y);
      }
    }
  }

  /**
   * As written, a plain trigger can outlive its listeners: with `f` added once
   * and then `g` added on the same type, removing `g` and delivering one event
   * leaves the trigger installed over an empty channel.
   */
  lemma PersistentTriggerOutlivesListeners()
    ensures var t, f, g := Handle(0), Handle(1), Handle(2);
      var a := AddSpec(map[], t, "click", f, Undefined, Undefined, true, 0).view;
      var b := AddSpec(a, t, "click", g, Undefined, Undefined, false, 1).view;
      var c := RemoveSpec(b, t, "click", g, Undefined);
      var d := FireAsWritten(c, t, "click", (l: Handle, x: Ctx) => Continue).view;
      && ChannelOf(d[t].channels, "click") == []
      && d[t].triggers == map["click" := Trigger(1, Persistent)]
      && !Live(d)
  {
    var t, f, g := Handle(0), Handle(1), Handle(2);
    var bf := Binding(f, Null, 0, true);
    var bg := Binding(g, Null, 0, false);
    var a := AddSpec(map[], t, "click", f, Undefined, Undefined, true, 0).view;
    assert a[t].channels["click"] == [bf];
    assert IndexOf([bf], g, Null) == -1;
    var b := AddSpec(a, t, "click", g, Undefined, Undefined, false, 1).view;
    assert b[t].channels["click"] == [bg, bf];
    assert Drop([bg, bf], g, Null) == [bf] by {
      assert [bg, bf][1..] == [bf];
    }
    var c := RemoveSpec(b, t, "click", g, Undefined);
    assert Bound([bg, bf], g, Null) by {
      assert [bg, bf][0] == bg;
    }
    assert c[t].channels["click"] == [bf];
    var behaviour := (l: Handle, x: Ctx) => Continue;
    assert Signals.Fired([bf], behaviour) == [bf];
  }

  /** The corrected trigger on the same input: the emptied channel takes its trigger with it. */
  lemma FireSpecUninstallsEmptied()
    ensures var t, f, g := Handle(0), Handle(1), Handle(2);
      var a := AddSpec(map[], t, "click", f, Undefined, Undefined, true, 0).view;
      var b := AddSpec(a, t, "click", g, Undefined, Undefined, false, 1).view;
      var c := RemoveSpec(b, t, "click", g, Undefined);
      var d := FireSpec(c, t, "click", (l: Handle, x: Ctx) => Continue).view;
      && ChannelOf(d[t].channels, "click") == []
      && d[t].triggers == map[]
      && Live(d)
  {
    var t, f, g := Handle(0), Handle(1), Handle(2);
    var bf := Binding(f, Null, 0, true);
    var bg := Binding(g, Null, 0, false);
    var a := AddSpec(map[], t, "click", f, Undefined, Undefined, true, 0).view;
    assert a[t].channels["click"] == [bf];
    assert IndexOf([bf], g, Null) == -1;
    var b := AddSpec(a, t, "click", g, Undefined, Undefined, false, 1).view;
    assert b[t].channels["click"] == [bg, bf];
    assert Drop([bg, bf], g, Null) == [bf] by {
      assert [bg, bf][1..] == [bf];
    }
    var c := RemoveSpec(b, t, "click", g, Undefined);
    assert Bound([bg, bf], g, Null) by {
      assert [bg, bf][0] == bg;
    }
    assert c[t].channels["click"] == [bf];
    var behaviour := (l: Handle, x: Ctx) => Continue;
    assert Signals.Fired([bf], behaviour) == [bf];
    var d := FireSpec(c, t, "click", behaviour).view;
    forall u, y | u in d
      ensures y in d[u].triggers <==> ChannelOf(d[u].channels, y) != []
    {
    }
  }

  lemma RemoveKeepsWellFormed(view: View, t: Handle, ty: string, listener: Handle, context: JsVal<Ctx>)
    requires WellFormed(view)
    ensures WellFormed(RemoveSpec(view, t, ty, listener, context))
  {
    if t in view && ty in view[t].channels {
      DropValid(view[t].channels[ty], listener, OrNull(context));
    }
  }

  lemma RemoveAllKeepsWellFormed(view: View, t: Handle, ty: string)
    requires WellFormed(view)
    ensures WellFormed(RemoveAllSpec(view, t, ty))
  {
  }

  lemma FireKeepsWellFormed(view: View, t: Handle, ty: string, behaviour: Behaviour)
    requires WellFormed(view)
    ensures WellFormed(FireSpec(view, t, ty, behaviour).view)
  {
    if t in view && ty in view[t].channels {
      KeepValid(view[t].channels[ty], Signals.Fired(view[t].channels[ty], behaviour));
    }
  }

  /** Forgetting a target keeps every other target's channels and liveness. */
  lemma DeleteKeepsLive(view: View, t: Handle)
    requires WellFormed(view) && Live(view)
    ensures WellFormed(view - {t}) && Live(view - {t})
  {
  }

  /** Every trigger of the view was made before the `n`-th. */
  ghost predicate TriggersBefore(view: View, n: nat) {
    forall h, ty :: h in view && ty in view[h].triggers ==> view[h].triggers[ty].id < n
  }

  /** A record whose triggers are some of the target's old ones adds no new trigger. */
  lemma FewerTriggers(view: View, t: Handle, st: TargetState, n: nat)
    requires TriggersBefore(view, n)
    requires forall ty :: ty in st.triggers ==> ty in StateOf(view, t).triggers && st.triggers[ty] == StateOf(view, t).triggers[ty]
    ensures TriggersBefore(view[t := st], n)
  {
  }

  /** `add` makes the `n`-th trigger. */
  lemma AddCountsTrigger(view: View, t: Handle, ty: string, listener: Handle, context: JsVal<Ctx>, priority: JsVal<int>, isOnce: bool, n: nat)
    requires TriggersBefore(view, n)
    ensures TriggersBefore(AddSpec(view, t, ty, listener, context, priority, isOnce, n).view, n + 1)
  {
  }

  /** `delete(target)` forgets the target: none of its triggers stays installed. */
  lemma DeleteUninstallsEverything(view: View, t: Handle)
    ensures forall i :: i in InstalledOf(view - {t}) ==> i.target != t
    ensures forall i: Install :: i.target != t ==> (i in InstalledOf(view - {t}) <==> i in InstalledOf(view))
  {
    forall i: Install | i.target != t ensures i in InstalledOf(view - {t}) <==> i in InstalledOf(view) {
      if i in InstalledOf(view) {
        assert i.eventType in (view - {t})[i.target].triggers;
      }
    }
  }

  // ---------------------------------------------------------------------------
  // Bookkeeping of the browser's registrations

  /** The registrations of one target's triggers. */
  ghost function InstallsOf(t: Handle, triggers: map<string, Trigger>): set<Install> {
    set ty | ty in triggers :: Install(t, ty, triggers[ty].id)
  }

  /** The registrations of a view split into those of `t` and those of every other target. */
  lemma InstalledSplits(view: View, t: Handle)
    ensures InstalledOf(view) == InstalledOf(view - {t}) + InstallsOf(t, StateOf(view, t).triggers)
    ensures forall i :: i in InstalledOf(view - {t}) ==> i.target != t
  {
    forall i | i in InstalledOf(view) ensures i in InstalledOf(view - {t}) + InstallsOf(t, StateOf(view, t).triggers) {
      if i.target != t {
        assert i.eventType in (view - {t})[i.target].triggers;
      }
    }
  }

  /** `removeEventListener(type, trigger)` takes exactly that registration away. */
  lemma UninstallOne(t: Handle, triggers: map<string, Trigger>, ty: string)
    requires ty in triggers
    ensures InstallsOf(t, triggers - {ty}) == InstallsOf(t, triggers) - {Install(t, ty, triggers[ty].id)}
  {
    forall i | i in InstallsOf(t, triggers) - {Install(t, ty, triggers[ty].id)} ensures i in InstallsOf(t, triggers - {ty}) {
      assert i.eventType in triggers - {ty};
    }
  }

  /** `addEventListener(type, trigger)` adds exactly that registration. */
  lemma InstallOne(t: Handle, triggers: map<string, Trigger>, ty: string, trigger: Trigger)
    requires ty !in triggers
    ensures InstallsOf(t, triggers[ty := trigger]) == InstallsOf(t, triggers) + {Install(t, ty, trigger.id)}
  {
    forall i | i in InstallsOf(t, triggers) ensures i in InstallsOf(t, triggers[ty := trigger]) {
      assert i.eventType in triggers[ty := trigger];
    }
    assert ty in triggers[ty := trigger];
  }

  // ---------------------------------------------------------------------------
  // The index of `_mngrs`

  /** Each target sits in its own slot, and every slot holds the record of its target. */
  ghost predicate Slotted(keys: map<string, Handle>, dict: map<string, TargetState>, slots: map<Handle, string>, view: View) {
    && dict.Keys == keys.Keys
    && slots.Keys == view.Keys
    && (forall h :: h in slots ==> slots[h] in keys && keys[slots[h]] == h && dict[slots[h]] == view[h])
    && (forall k :: k in keys ==> keys[k] in slots && slots[keys[k]] == k)
  }

  /** A `mkr.map` whose keys are all objects, each tagged with its slot, holds the records of `view`. */
  ghost predicate IndexedBy(keys: map<string, Handle>, dict: map<string, TargetState>, tags: map<Handle, nat>,
                            slots: map<Handle, string>, view: View) {
    Tagged(keys, dict.Keys, tags) && Slotted(keys, dict, slots, view)
  }

  /** Putting a target into slot `k`, which is free or already its own, keeps every target in its own slot. */
  lemma SlotStore(keys: map<string, Handle>, dict: map<string, TargetState>, slots: map<Handle, string>, view: View,
                  t: Handle, k: string, st: TargetState)
    requires Slotted(keys, dict, slots, view)
    requires k in keys ==> keys[k] == t
    requires t in slots ==> slots[t] == k
    ensures Slotted(keys[k := t], dict[k := st], slots[t := k], view[t := st])
  {
    forall h | h in slots && h != t ensures slots[h] != k {
      assert keys[slots[h]] == h;
    }
    var keys', slots' := keys[k := t], slots[t := k];
    forall a | a in keys' ensures keys'[a] in slots' && slots'[keys'[a]] == a {
      if a != k {
        assert keys[a] != t;
      }
    }
  }

  /** Storing a record under a target's tag keeps the index, with the target in that slot. */
  lemma IndexStore(keys: map<string, Handle>, dict: map<string, TargetState>, tags: map<Handle, nat>, tags': map<Handle, nat>,
                   slots: map<Handle, string>, view: View, t: Handle, st: TargetState)
    requires IndexedBy(keys, dict, tags, slots, view) && TagsDistinct(tags')
    requires t in tags ==> tags' == tags
    requires t !in tags ==> t in tags' && tags' == tags[t := tags'[t]]
    ensures t in tags'
    ensures var k := Decimal(tags'[t]);
      IndexedBy(keys[k := t], dict[k := st], tags', slots[t := k], view[t := st])
  {
    StoreKeepsTagged(keys, tags, tags', tags'[t], t);
    var k := Decimal(tags'[t]);
    if t in slots {
      assert keys[slots[t]] == t;
    }
    SlotStore(keys, dict, slots, view, t, k, st);
  }

  /** Taking a target out of its slot keeps every other target in its own slot. */
  lemma SlotDelete(keys: map<string, Handle>, dict: map<string, TargetState>, slots: map<Handle, string>, view: View, t: Handle)
    requires Slotted(keys, dict, slots, view) && t in slots
    ensures var k := slots[t];
      Slotted(keys - {k}, dict - {k}, slots - {t}, view - {t})
  {
    var k := slots[t];
    forall h | h in slots && h != t ensures slots[h] != k {
      assert keys[slots[h]] == h;
    }
  }

  /** Deleting a target from `_mngrs` keeps the index of the others. */
  lemma IndexDelete(keys: map<string, Handle>, dict: map<string, TargetState>, tags: map<Handle, nat>,
                    slots: map<Handle, string>, view: View, t: Handle)
    requires IndexedBy(keys, dict, tags, slots, view) && TagsDistinct(tags) && t in slots
    ensures t in tags && slots[t] == Decimal(tags[t])
    ensures var k := slots[t];
      IndexedBy(keys - {k}, dict - {k}, tags - {t}, slots - {t}, view - {t})
  {
    assert keys[slots[t]] == t;
    RemoveKeepsTagged(keys, dict.Keys, tags, t);
    SlotDelete(keys, dict, slots, view, t);
  }

  /** Changing a target's channels, and not its triggers, changes no registration. */
  lemma InstalledIgnoresChannels(view: View, t: Handle, st: TargetState)
    requires st.triggers == StateOf(view, t).triggers
    ensures InstalledOf(view[t := st]) == InstalledOf(view)
  {
    InstalledSplits(view, t);
    InstalledSplits(view[t := st], t);
    assert view[t := st] - {t} == view - {t};
  }

  /** A target without triggers has no registration. */
  lemma InstalledWithoutTriggers(view: View, t: Handle, st: TargetState)
    requires st.triggers == map[]
    ensures InstalledOf(view[t := st]) == InstalledOf(view - {t})
  {
    InstalledSplits(view[t := st], t);
    assert view[t := st] - {t} == view - {t};
  }

  // ---------------------------------------------------------------------------
  // The matrix itself

  class TriggerMatrix {
    /** The object tags shared with every other `mkr.map`. */
    const table: TagTable
    /** `_mngrs`: the `{signals, triggers}` record of each target, keyed by the target. */
    const mngrs: MkrMap<TargetState>
    /** How many trigger closures have been made. */
    var nextTrigger: nat
    /** The record of each target in `_mngrs`. */
    ghost var view: View
    /** The `_mngrs` slot of each target. */
    ghost var slots: map<Handle, string>
    /** The browser's `addEventListener` registrations made by this matrix. */
    ghost var installed: set<Install>

    /** `_mngrs` holds exactly the records of `view`, each in the slot `slots` gives its target. */
    ghost predicate Indexed(slots: map<Handle, string>, view: View)
      reads mngrs, table
    {
      && mngrs.table == table && table.Valid()
      && IndexedBy(mngrs.keys, mngrs.dict, table.tags, slots, view)
    }

    /** Everything but liveness: the records are indexed and well formed, and the browser holds their triggers. */
    ghost predicate Sound()
      reads this, mngrs, table
    {
      && Indexed(slots, view)
      && WellFormed(view)
      && installed == InstalledOf(view)
      && TriggersBefore(view, nextTrigger)
    }

    ghost predicate Valid()
      reads this, mngrs, table
    {
      Sound() && Live(view)
    }

    constructor (table: TagTable)
      requires table.Valid()
      ensures Valid() && this.table == table && fresh(mngrs)
      ensures view == map[] && installed == {}
    {
      this.table := table;
      mngrs := new MkrMap<TargetState>(table);
      nextTrigger := 0;
      view := map[];
      slots := map[];
      installed := {};
    }

    /** `_mngrs.has(target)` then `_mngrs.get(target)`: the record of `t`, when there is one. */
    method Lookup(t: Handle) returns (r: JsVal<TargetState>)
      requires Indexed(slots, view)
      ensures r.Defined? <==> t in view
      ensures r.Defined? ==> r.v == view[t]
    {
      mngrs.ObjectLookup(t);
      if t in view {
        assert t in mngrs.keys.Values by {
          assert mngrs.keys[slots[t]] == t;
        }
      }
      r := mngrs.Get(ObjKey(t));
    }

    /** Store the record of `t` in `_mngrs` (`set` when new, an in-place update otherwise). */
    method Store(t: Handle, st: TargetState)
      requires Indexed(slots, view)
      modifies this, mngrs, table
      ensures Indexed(slots, view) && view == old(view)[t := st]
      ensures installed == old(installed) && nextTrigger == old(nextTrigger)
    {
      ghost var tags, keys, dict := table.tags, mngrs.keys, mngrs.dict;
      mngrs.Set(ObjKey(t), st);
      IndexStore(keys, dict, tags, table.tags, slots, view, t, st);
      var k := Decimal(table.tags[t]);
      assert mngrs.keys == keys[k := t] && mngrs.dict == dict[k := st];
      slots := slots[t := k];
      view := view[t := st];
    }

    /** `target.removeEventListener(type, trigger); delete mngr.triggers[type]`, on a record. */
    method RemoveTrigger(t: Handle, st: TargetState, ty: string) returns (st': TargetState)
      requires ty in st.triggers
      requires installed == InstalledOf(view[t := st])
      modifies this
      ensures st' == TargetState(st.channels, st.triggers - {ty})
      ensures installed == InstalledOf(view[t := st'])
      ensures view == old(view) && slots == old(slots) && nextTrigger == old(nextTrigger)
    {
      InstalledSplits(view[t := st], t);
      UninstallOne(t, st.triggers, ty);
      installed := installed - {Install(t, ty, st.triggers[ty].id)};
      st' := TargetState(st.channels, st.triggers - {ty});
      InstalledSplits(view[t := st'], t);
      assert view[t := st'] - {t} == view[t := st] - {t};
    }

    /** A new trigger: `target.addEventListener(type, trigger); mngr.triggers[type] = trigger`, on a record. */
    method AddTrigger(t: Handle, st: TargetState, ty: string, kind: TriggerKind) returns (st': TargetState)
      requires ty !in st.triggers
      requires installed == InstalledOf(view[t := st])
      modifies this
      ensures st' == TargetState(st.channels, st.triggers[ty := Trigger(old(nextTrigger), kind)])
      ensures installed == InstalledOf(view[t := st'])
      ensures view == old(view) && slots == old(slots) && nextTrigger == old(nextTrigger) + 1
    {
      var trigger := Trigger(nextTrigger, kind);
      nextTrigger := nextTrigger + 1;
      InstalledSplits(view[t := st], t);
      InstallOne(t, st.triggers, ty, trigger);
      installed := installed + {Install(t, ty, trigger.id)};
      st' := TargetState(st.channels, st.triggers[ty := trigger]);
      InstalledSplits(view[t := st'], t);
      assert view[t := st'] - {t} == view[t := st] - {t};
    }

    /** Write the record of `t` back to `_mngrs`, once the new view is known to be sound and live. */
    method Commit(t: Handle, st: TargetState)
      requires Indexed(slots, view)
      requires installed == InstalledOf(view[t := st])
      requires WellFormed(view[t := st]) && Live(view[t := st]) && TriggersBefore(view[t := st], nextTrigger)
      modifies this, mngrs, table
      ensures Valid() && view == old(view)[t := st] && nextTrigger == old(nextTrigger)
    {
      Store(t, st);
    }

    /** Uninstall the trigger of (`t`, `ty`) if there is one, then install a new one. */
    method ReplaceTrigger(t: Handle, st: TargetState, ty: string, kind: TriggerKind) returns (st': TargetState)
      requires installed == InstalledOf(view[t := st])
      modifies this
      ensures st' == TargetState(st.channels, st.triggers[ty := Trigger(old(nextTrigger), kind)])
      ensures installed == InstalledOf(view[t := st'])
      ensures view == old(view) && slots == old(slots) && nextTrigger == old(nextTrigger) + 1
    {
      st' := st;
      if ty in st'.triggers {
        st' := RemoveTrigger(t, st', ty);
      }
      st' := AddTrigger(t, st', ty, kind);
      assert st'.triggers == st.triggers[ty := Trigger(old(nextTrigger), kind)];
    }

    /**
     * `add(target, type, listener, context, priority, isOnce)`, with the
     * channel's refusal checked before the old trigger is uninstalled.
     */
    method Add(t: Handle, ty: string, listener: Handle, context: JsVal<Ctx>, priority: JsVal<int>, isOnce: bool)
      returns (r: Result<Binding>)
      requires Valid()
      modifies this, mngrs, table
      ensures Valid()
      ensures var out := AddSpec(old(view), t, ty, listener, context, priority, isOnce, old(nextTrigger));
        view == out.view && r == out.result
      ensures nextTrigger == if r.Ok? then old(nextTrigger) + 1 else old(nextTrigger)
    {
      var found := Lookup(t);
      var st := if found.Defined? then found.v else TargetState(map[], map[]);
      var reg := Registered(ChannelOf(st.channels, ty), listener, isOnce, OrNull(context), OrZero(priority));
      r := reg.result;
      if r.Err? {
        return;
      }
      ghost var out := AddSpec(view, t, ty, listener, context, priority, isOnce, nextTrigger);
      AddKeepsLive(view, t, ty, listener, context, priority, isOnce, nextTrigger);
      AddKeepsWellFormed(view, t, ty, listener, context, priority, isOnce, nextTrigger);
      AddCountsTrigger(view, t, ty, listener, context, priority, isOnce, nextTrigger);
      st := TargetState(st.channels[ty := reg.bindings], st.triggers);
      InstalledIgnoresChannels(view, t, st);
      st := ReplaceTrigger(t, st, ty, KindFor(isOnce));
      assert view[t := st] == out.view;
      Commit(t, st);
    }

    /** `addOnce(target, type, listener, context, priority)`. */
    method AddOnce(t: Handle, ty: string, listener: Handle, context: JsVal<Ctx>, priority: JsVal<int>)
      returns (r: Result<Binding>)
      requires Valid()
      modifies this, mngrs, table
      ensures Valid()
      ensures var out := AddSpec(old(view), t, ty, listener, context, priority, true, old(nextTrigger));
        view == out.view && r == out.result
      ensures nextTrigger == if r.Ok? then old(nextTrigger) + 1 else old(nextTrigger)
    {
      r := Add(t, ty, listener, context, priority, true);
    }

    /** `remove(target, type, listener, context)`. */
    method Remove(t: Handle, ty: string, listener: Handle, context: JsVal<Ctx>)
      requires Valid()
      modifies this, mngrs, table
      ensures Valid() && nextTrigger == old(nextTrigger)
      ensures view == RemoveSpec(old(view), t, ty, listener, context)
    {
      var found := Lookup(t);
      if found.Undefined? {
        return;
      }
      var st := found.v;
      if ty !in st.triggers || !Bound(ChannelOf(st.channels, ty), listener, OrNull(context)) {
        return;
      }
      ghost var next := RemoveSpec(view, t, ty, listener, context);
      RemoveKeepsLive(view, t, ty, listener, context);
      RemoveKeepsWellFormed(view, t, ty, listener, context);
      var rest := Drop(st.channels[ty], listener, OrNull(context));
      st := TargetState(st.channels[ty := rest], st.triggers);
      InstalledIgnoresChannels(view, t, st);
      if |rest| == 0 {
        st := RemoveTrigger(t, st, ty);
      }
      assert view[t := st] == next;
      FewerTriggers(view, t, st, nextTrigger);
      Commit(t, st);
    }

    /** `removeAll(target, type)`. */
    method RemoveAll(t: Handle, ty: string)
      requires Valid()
      modifies this, mngrs, table
      ensures Valid() && nextTrigger == old(nextTrigger)
      ensures view == RemoveAllSpec(old(view), t, ty)
    {
      var found := Lookup(t);
      if found.Undefined? {
        return;
      }
      var st := found.v;
      if ty !in st.triggers {
        return;
      }
      ghost var next := RemoveAllSpec(view, t, ty);
      RemoveAllKeepsLive(view, t, ty);
      RemoveAllKeepsWellFormed(view, t, ty);
      st := TargetState(if ty in st.channels then st.channels[ty := []] else st.channels, st.triggers);
      InstalledIgnoresChannels(view, t, st);
      st := RemoveTrigger(t, st, ty);
      assert view[t := st] == next;
      FewerTriggers(view, t, st, nextTrigger);
      Commit(t, st);
    }

    /**
     * The browser delivers an event of type `ty` to `t`: the installed
     * trigger, if any, dispatches the channel, returns what ran and
     * uninstalls itself when the channel is left empty.
     */
    method Fire(t: Handle, ty: string, behaviour: Behaviour) returns (ran: seq<Binding>)
      requires Valid()
      modifies this, mngrs, table
      ensures Valid() && nextTrigger == old(nextTrigger)
      ensures var d := FireSpec(old(view), t, ty, behaviour); view == d.view && ran == d.ran
    {
      var found := Lookup(t);
      if found.Undefined? {
        return [];
      }
      var st := found.v;
      if ty !in st.triggers {
        return [];
      }
      ghost var d := FireSpec(view, t, ty, behaviour);
      FireKeepsLive(view, t, ty, behaviour);
      FireKeepsWellFormed(view, t, ty, behaviour);
      ran := Signals.Fired(ChannelOf(st.channels, ty), behaviour);
      var channels := if ty in st.channels then st.channels[ty := Keep(st.channels[ty], ran)] else st.channels;
      st := TargetState(channels, st.triggers);
      InstalledIgnoresChannels(view, t, st);
      if |ChannelOf(channels, ty)| == 0 {
        st := RemoveTrigger(t, st, ty);
      }
      assert view[t := st] == d.view;
      FewerTriggers(view, t, st, nextTrigger);
      Commit(t, st);
    }

    /** `delete(target)`: uninstall every trigger of `t`, destroy its manager and forget it. */
    method Delete(t: Handle)
      requires Valid()
      modifies this, mngrs, table
      ensures Valid() && nextTrigger == old(nextTrigger)
      ensures view == old(view) - {t}
      ensures t in old(view) ==> mngrs.dict.Keys == old(mngrs.dict.Keys) - {old(slots)[t]}
      ensures t !in old(view) ==> mngrs.dict == old(mngrs.dict)
    {
      var found := Lookup(t);
      if found.Undefined? {
        assert view - {t} == view;
        return;
      }
      DeleteKeepsLive(view, t);
      assert TriggersBefore(view - {t}, nextTrigger);
      var st := found.v;
      assert view[t := st] == view;
      st := UninstallAll(t, st);
      Forget(t);
    }

    /** Uninstall every trigger of `st`, the record of `t`. */
    method UninstallAll(t: Handle, st: TargetState) returns (st': TargetState)
      requires installed == InstalledOf(view[t := st])
      modifies this
      ensures st' == TargetState(st.channels, map[])
      ensures installed == InstalledOf(view - {t})
      ensures view == old(view) && slots == old(slots) && nextTrigger == old(nextTrigger)
    {
      st' := st;
      while st'.triggers != map[]
        invariant st'.channels == st.channels
        invariant installed == InstalledOf(view[t := st'])
        invariant view == old(view) && slots == old(slots) && nextTrigger == old(nextTrigger)
        decreases st'.triggers.Keys
      {
        var ty :| ty in st'.triggers;
        st' := RemoveTrigger(t, st', ty);
      }
      InstalledWithoutTriggers(view, t, st');
    }

    /** Forget the record of `t`, which has no registration left: `_mngrs.delete(target)`. */
    method Forget(t: Handle)
      requires Indexed(slots, view) && t in view
      requires installed == InstalledOf(view - {t})
      requires WellFormed(view - {t}) && Live(view - {t}) && TriggersBefore(view - {t}, nextTrigger)
      modifies this, mngrs, table
      ensures Valid() && view == old(view) - {t} && nextTrigger == old(nextTrigger)
      ensures mngrs.dict.Keys == old(mngrs.dict.Keys) - {old(slots)[t]}
    {
      IndexDelete(mngrs.keys, mngrs.dict, table.tags, slots, view, t);
      var _ := mngrs.Delete(ObjKey(t));
      slots := slots - {t};
      view := view - {t};
    }

    /** `clear()`: delete every target `_mngrs.forEach` reports. */
    method Clear()
      requires Valid()
      modifies this, mngrs, table
      ensures Valid() && view == map[] && installed == {}
    {
      var pending := mngrs.dict.Keys;
      while pending != {}
        invariant Valid()
        invariant mngrs.dict.Keys <= pending
        decreases pending
      {
        var k :| k in pending;
        pending := pending - {k};
        if k in mngrs.dict {
          var target := mngrs.ForEachKey(k);
          assert target == ObjKey(mngrs.keys[k]);
          Delete(target.h);
        }
      }
      assert mngrs.dict.Keys == {};
    }
  }
}
