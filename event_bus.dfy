/**
 * The event bus's subscriber registry: per event type, the callbacks in
 * subscription order, plus the set of subscriber ids seen as active.  A
 * callback is known by its identity (`id(callback)`).  Event delivery is
 * modelled for one event: which callbacks are called, in which order, and
 * which of them raised; the asyncio queue that feeds it is not part of
 * this model.
 */
module Bus {
  import opened Seqs

  datatype EventType =
    | AudioCaptured | SpeechDetected | TranscriptionComplete
    | TranscriptionProcessed | ResponseReady | ShouldRespond
    | SpeakText | SpeechComplete
    | ConversationStored | MemoryRetrieved
    | SystemStartup | SystemShutdown | ErrorEvent
    | MoodUpdated
    | ScheduledEvent

  /** `id(callback)`. */
  type CallbackId = nat

  datatype BusState = BusState(subscribers: map<EventType, seq<CallbackId>>, active: set<CallbackId>)

  /** The callbacks subscribed to `t`, in subscription order (none for a topic never subscribed). */
  function Listeners(b: BusState, t: EventType): seq<CallbackId> {
    if t in b.subscribers then b.subscribers[t] else []
  }

  /** `subscribe`: append the callback to the topic's list, creating the list if needed. */
  function SubscribeStep(b: BusState, t: EventType, cb: CallbackId): BusState {
    BusState(b.subscribers[t := Listeners(b, t) + [cb]], b.active + {cb})
  }

  /** `unsubscribe`: remove the first callback with this id, if the topic has one. */
  function UnsubscribeStep(b: BusState, t: EventType, id: CallbackId): (BusState, bool) {
    if t !in b.subscribers then (b, false)
    else
      var s := b.subscribers[t];
      var k := FirstIndex(s, id);
      if k == |s| then (b, false)
      else (BusState(b.subscribers[t := s[..k] + s[k + 1..]], b.active - {id}), true)
  }

  /** Subscribing appends at the back of the topic's list and leaves every other topic alone. */
  lemma SubscribeAppends(b: BusState, t: EventType, cb: CallbackId)
    ensures var b' := SubscribeStep(b, t, cb);
      Listeners(b', t) == Listeners(b, t) + [cb] && cb in b'.active &&
      forall u :: u != t ==> Listeners(b', u) == Listeners(b, u)
  {
  }

  /** Unsubscribing from a topic nobody subscribed to fails and changes nothing. */
  lemma UnsubscribeUnknownTopic(b: BusState, t: EventType, id: CallbackId)
    requires t !in b.subscribers
    ensures UnsubscribeStep(b, t, id) == (b, false)
  {
  }

  /**
   * Unsubscribing succeeds exactly when the id is subscribed to the topic.
   * It then removes that callback's first occurrence only, keeps the order of
   * the rest, and leaves other topics alone; otherwise nothing changes.
   */
  lemma UnsubscribeRemovesFirst(b: BusState, t: EventType, id: CallbackId)
    ensures var (b', ok) := UnsubscribeStep(b, t, id);
      var s := Listeners(b, t);
      (ok <==> id in s) &&
      (!ok ==> b' == b) &&
      (ok ==> exists k :: 0 <= k < |s| && s[k] == id && (forall j :: 0 <= j < k ==> s[j] != id) &&
                          Listeners(b', t) == s[..k] + s[k + 1..]) &&
      (ok ==> multiset(Listeners(b', t)) == multiset(s) - multiset{id} && id !in b'.active) &&
      forall u :: u != t ==> Listeners(b', u) == Listeners(b, u)
  {
    var s := Listeners(b, t);
    var k := FirstIndex(s, id);
    if k < |s| {
      assert s == s[..k] + [s[k]] + s[k + 1..];
      assert multiset(s) == multiset(s[..k]) + multiset{id} + multiset(s[k + 1..]);
    } else {
      assert id !in s;
    }
  }

  /** Subscribing a new callback and unsubscribing it again restores every topic's list. */
  lemma {:induction false} SubscribeThenUnsubscribe(b: BusState, t: EventType, cb: CallbackId)
    requires cb !in Listeners(b, t)
    ensures var (b', ok) := UnsubscribeStep(SubscribeStep(b, t, cb), t, cb);
      ok && forall u :: Listeners(b', u) == Listeners(b, u)
  {
    var s := Listeners(b, t);
    var b1 := SubscribeStep(b, t, cb);
    assert b1.subscribers[t] == s + [cb];
    var k := FirstIndex(s + [cb], cb);
    assert (s + [cb])[|s|] == cb;
    assert forall j :: 0 <= j < |s| ==> (s + [cb])[j] == s[j];
    assert (s + [cb])[..k] + (s + [cb])[k + 1..] == s;
  }

  /** One call of a callback during dispatch, and whether it raised. */
  datatype Delivery = Delivery(callback: CallbackId, raised: bool)

  class EventBus {
    var subscribers: map<EventType, seq<CallbackId>>
    var active: set<CallbackId>

    /** `_initialize`. */
    constructor()
      ensures subscribers == map[] && active == {}
    {
      subscribers := map[];
      active := {};
    }

    function State(): BusState
      reads this
    {
      BusState(subscribers, active)
    }

    method Subscribe(t: EventType, cb: CallbackId) returns (id: CallbackId)
      modifies this
      ensures State() == SubscribeStep(old(State()), t, cb)
      ensures id == cb
    {
      if t !in subscribers {
        subscribers := subscribers[t := []];
      }
      subscribers := subscribers[t := subscribers[t] + [cb]];
      active := active + {cb};
      id := cb;
    }

    /** `unsubscribe`, scanning the topic's list by index. */
    method Unsubscribe(t: EventType, id: CallbackId) returns (removed: bool)
      modifies this
      ensures (State(), removed) == UnsubscribeStep(old(State()), t, id)
    {
      if t !in subscribers {
        return false;
      }
      var s := subscribers[t];
      var i := 0;
      while i < |s|
        invariant 0 <= i <= |s|
        invariant forall j :: 0 <= j < i ==> s[j] != id
        decreases |s| - i
      {
        if s[i] == id {
          assert FirstIndex(s, id) == i;
          subscribers := subscribers[t := s[..i] + s[i + 1..]];
          active := active - {id};
          return true;
        }
        i := i + 1;
      }
      assert FirstIndex(s, id) == |s|;
      return false;
    }

    /**
     * `_handle_event`: calls every callback of a snapshot of the topic's list,
     * in subscription order; a callback that raises (those in `raising`) is
     * logged and the remaining callbacks still run.
     */
    method HandleEvent(t: EventType, raising: set<CallbackId>) returns (deliveries: seq<Delivery>)
      ensures |deliveries| == |Listeners(State(), t)|
      ensures forall i :: 0 <= i < |deliveries| ==>
        deliveries[i] == Delivery(Listeners(State(), t)[i], Listeners(State(), t)[i] in raising)
    {
      deliveries := [];
      if t !in subscribers {
        return;
      }
      var snapshot := subscribers[t];
      var i := 0;
      while i < |snapshot|
        invariant 0 <= i <= |snapshot|
        invariant |deliveries| == i
        invariant forall j :: 0 <= j < i ==> deliveries[j] == Delivery(snapshot[j], snapshot[j] in raising)
        decreases |snapshot| - i
      {
        var raised := snapshot[i] in raising;
        deliveries := deliveries + [Delivery(snapshot[i], raised)];
        i := i + 1;
      }
    }
  }

  /** The class-level `_instance` slot behind `EventBus()`. */
  class Singleton {
    var instance: EventBus?

    constructor()
      ensures instance == null
    {
      instance := null;
    }

    /** `EventBus.__new__`: the first call creates and initialises the bus, later calls return it. */
    method New() returns (b: EventBus)
      modifies this
      ensures old(instance) != null ==> b == old(instance)
      ensures old(instance) == null ==> fresh(b) && b.subscribers == map[] && b.active == {}
      ensures instance == b
    {
      if instance == null {
        instance := new EventBus();
      }
      b := instance;
    }

    /** Constructing the bus twice yields the same object. */
    method NewTwice() returns (b1: EventBus, b2: EventBus)
      modifies this
      ensures b1 == b2
    {
      b1 := New();
      b2 := New();
    }
  }
}
