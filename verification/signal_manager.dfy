/**
 * `mkr.SignalManager`: a table of named signals ("channels"). A channel is
 * created on first use by `register`, `add` or `addOnce`; every other
 * operation on a channel that does not exist does nothing (or answers 0 /
 * false). `add` and `addOnce` turn a falsy context into `null` and a falsy
 * priority into 0 before handing them to the channel.
 */
module SignalManagers {
  import opened JsBase
  import opened Signals

  /** `context || null`. */
  function OrNull(context: JsVal<Ctx>): (c: Ctx)
    ensures context.Undefined? ==> c == Null
    ensures context.Defined? ==> c == context.v
  {
    match context
    case Undefined => Null
    case Defined(x) => x
  }

  /** `priority || 0`. */
  function OrZero(priority: JsVal<int>): (p: int)
    ensures priority.Undefined? ==> p == 0
    ensures priority.Defined? ==> p == priority.v
  {
    match priority
    case Undefined => 0
    case Defined(x) => x
  }

  /** The bindings of channel `id`; a channel that does not exist has none. */
  function ChannelOf(channels: map<string, seq<Binding>>, id: string): seq<Binding> {
    if id in channels then channels[id] else []
  }

  class SignalManager {
    /** `_signals`. */
    var signals: map<string, Signal>
    /** The bindings of every channel. */
    ghost var channels: map<string, seq<Binding>>

    ghost predicate Valid()
      reads this, signals.Values
    {
      && signals.Keys == channels.Keys
      && (forall s :: s in signals.Values ==> s.Valid())
      && (forall id :: id in signals ==> signals[id].bindings == channels[id])
      && (forall a, b :: a in signals && b in signals && signals[a] == signals[b] ==> a == b)
    }

    constructor ()
      ensures Valid() && channels == map[]
    {
      signals := map[];
      channels := map[];
    }

    /** The channel `id`, created when missing. */
    method Channel(id: string) returns (s: Signal)
      requires Valid()
      modifies this
      ensures Valid() && id in signals && s == signals[id]
      ensures channels == old(channels)[id := ChannelOf(old(channels), id)]
      ensures forall k :: k in old(signals) ==> k in signals && signals[k] == old(signals[k])
      ensures forall x :: x in signals.Values ==> x in old(signals.Values) || fresh(x)
    {
      if id in signals {
        s := signals[id];
      } else {
        s := new Signal();
        signals := signals[id := s];
        channels := channels[id := []];
      }
    }

    /** `register(signalId)`. */
    method Register(id: string)
      requires Valid()
      modifies this
      ensures Valid()
      ensures channels == old(channels)[id := ChannelOf(old(channels), id)]
    {
      var _ := Channel(id);
    }

    /** Add or addOnce on a channel that is created when missing. */
    method Listen(id: string, listener: Handle, isOnce: bool, context: JsVal<Ctx>, priority: JsVal<int>)
      returns (r: Result<Binding>)
      requires Valid()
      modifies this, signals.Values
      ensures Valid() && forall s :: s in signals.Values ==> s in old(signals.Values) || fresh(s)
      ensures var reg := Registered(ChannelOf(old(channels), id), listener, isOnce, OrNull(context), OrZero(priority));
        r == reg.result && channels == old(channels)[id := reg.bindings]
    {
      ghost var before := ChannelOf(channels, id);
      var s := Channel(id);
      assert channels[id] == before;
      ghost var created := signals.Values;
      r := RegisterOn(id, s, listener, isOnce, OrNull(context), OrZero(priority));
      assert signals.Values == created;
      ghost var reg := Registered(before, listener, isOnce, OrNull(context), OrZero(priority));
      assert channels == old(channels)[id := reg.bindings];
    }

    /** Register a listener on the existing channel `id`, whose signal is `s`. */
    method RegisterOn(id: string, s: Signal, listener: Handle, isOnce: bool, context: Ctx, priority: int)
      returns (r: Result<Binding>)
      requires Valid() && id in signals && signals[id] == s
      modifies this, s
      ensures Valid() && signals == old(signals)
      ensures var reg := Registered(old(channels)[id], listener, isOnce, context, priority);
        r == reg.result && channels == old(channels)[id := reg.bindings]
    {
      assert forall k :: k in signals && k != id ==> signals[k] != s;
      r := s.RegisterListener(listener, isOnce, context, priority);
      channels := channels[id := s.bindings];
    }

    /** `add(signalId, listener, context, priority)`. */
    method Add(id: string, listener: Handle, context: JsVal<Ctx>, priority: JsVal<int>) returns (r: Result<Binding>)
      requires Valid()
      modifies this, signals.Values
      ensures Valid() && forall s :: s in signals.Values ==> s in old(signals.Values) || fresh(s)
      ensures var reg := Registered(ChannelOf(old(channels), id), listener, false, OrNull(context), OrZero(priority));
        r == reg.result && channels == old(channels)[id := reg.bindings]
    {
      r := Listen(id, listener, false, context, priority);
    }

    /** `addOnce(signalId, listener, context, priority)`. */
    method AddOnce(id: string, listener: Handle, context: JsVal<Ctx>, priority: JsVal<int>) returns (r: Result<Binding>)
      requires Valid()
      modifies this, signals.Values
      ensures Valid() && forall s :: s in signals.Values ==> s in old(signals.Values) || fresh(s)
      ensures var reg := Registered(ChannelOf(old(channels), id), listener, true, OrNull(context), OrZero(priority));
        r == reg.result && channels == old(channels)[id := reg.bindings]
    {
      r := Listen(id, listener, true, context, priority);
    }

    /** `dispatch(signalId, ...)`: returns the bindings that ran. */
    method Dispatch(id: string, behaviour: Behaviour) returns (fired: seq<Binding>)
      requires Valid()
      modifies this, signals.Values
      ensures Valid() && signals == old(signals)
      ensures fired == Fired(ChannelOf(old(channels), id), behaviour)
      ensures channels == if id in old(channels) then old(channels)[id := Keep(old(channels)[id], fired)] else old(channels)
    {
      if id !in signals {
        return [];
      }
      var s := signals[id];
      fired := s.Dispatch(behaviour);
      channels := channels[id := s.bindings];
    }

    /** `dispose(signalId)`: empty the channel and forget it. */
    method Dispose(id: string)
      requires Valid()
      modifies this, signals.Values
      ensures Valid()
      ensures signals == old(signals) - {id} && channels == old(channels) - {id}
      ensures id in old(signals) ==> old(signals)[id].bindings == []
    {
      if id !in signals {
        return;
      }
      var s := signals[id];
      s.Dispose();
      signals := signals - {id};
      channels := channels - {id};
    }

    /** `getNumListeners(signalId)`. */
    function GetNumListeners(id: string): (n: nat)
      requires Valid()
      reads this, signals.Values
      ensures n == |ChannelOf(channels, id)|
    {
      if id in signals then signals[id].NumListeners() else 0
    }

    /** `halt(signalId)`. */
    method Halt(id: string)
      requires Valid()
      modifies signals.Values
      ensures Valid() && channels == old(channels)
      ensures id in signals ==> !signals[id].shouldPropagate
      ensures signals == old(signals)
      ensures forall k :: k in signals && k != id ==> signals[k].shouldPropagate == old(signals[k].shouldPropagate)
    {
      if id in signals {
        signals[id].Halt();
      }
    }

    /** `has(signalId, listener, context)`. */
    method Has(id: string, listener: Handle, context: JsVal<Ctx>) returns (r: bool)
      requires Valid()
      ensures r == Bound(ChannelOf(channels, id), listener, OrNull(context))
    {
      if id !in signals {
        return false;
      }
      r := signals[id].Has(listener, OrNull(context));
    }

    /** `remove(signalId, listener, context)`. */
    method Remove(id: string, listener: Handle, context: JsVal<Ctx>)
      requires Valid()
      modifies this, signals.Values
      ensures Valid() && signals == old(signals)
      ensures channels == if id in old(channels) then old(channels)[id := Drop(old(channels)[id], listener, OrNull(context))] else old(channels)
    {
      if id !in signals {
        return;
      }
      var s := signals[id];
      s.Remove(listener, OrNull(context));
      channels := channels[id := s.bindings];
    }

    /** `removeAll(signalId)`. */
    method RemoveAll(id: string)
      requires Valid()
      modifies this, signals.Values
      ensures Valid() && signals == old(signals)
      ensures channels == if id in old(channels) then old(channels)[id := []] else old(channels)
    {
      if id !in signals {
        return;
      }
      var s := signals[id];
      s.RemoveAll();
      channels := channels[id := []];
    }

    /** `destroy()`: dispose every channel and forget it. */
    method Destroy()
      requires Valid()
      modifies this, signals.Values
      ensures Valid() && channels == map[]
      ensures forall id :: id in old(signals) ==> old(signals)[id].bindings == []
    {
      while signals != map[]
        invariant Valid()
        invariant forall k :: k in signals ==> k in old(signals) && signals[k] == old(signals)[k]
        invariant forall k :: k in old(signals) && k !in signals ==> old(signals)[k].bindings == []
        decreases signals.Keys
      {
        var id :| id in signals;
        Dispose(id);
      }
    }
  }
}
