/** Model of internal/project/event.go: the run's event bus. Producers send
    events into one buffered ingress channel; a dispatcher goroutine takes
    them out in order and offers each to every subscriber's buffered
    channel, dropping it for a subscriber whose channel is full.

    The model is sequential. Channels are bounded FIFO queues; the
    dispatcher's loop body is `DispatchNext`, one event at a time; a send on
    a full ingress channel waits for the dispatcher, so `Publish` lets the
    dispatcher take the oldest event first (and hands the event straight to
    the dispatcher when the ingress channel is unbuffered). A receive on a
    subscriber channel is `Receive`. Ghost fields record the history the
    safety properties talk about. */
module EventBus {
  import opened Wrappers

  datatype EventScope = ScopeRun | ScopeContainer | ScopeFile

  datatype EventState = StateStart | StateAdvance | StateComplete | StateError

  /** Event. The run ID is kept as its text; the error as its message. */
  datatype Event = Event(
    runId: string, scope: EventScope, step: string, unitId: string, state: EventState,
    value: int, total: int, msg: string, err: Option<string>, timestamp: int)

  /** A buffered channel: its capacity and the events waiting in it. */
  datatype Queue = Queue(capacity: nat, items: seq<Event>)

  /** The dispatcher's non-blocking send (`select` with a `default`): the
      event joins the queue when there is room, and is dropped otherwise. */
  function Offer(q: Queue, e: Event): (r: Queue)
    ensures r.capacity == q.capacity
    ensures |q.items| < q.capacity ==> r.items == q.items + [e]
    ensures |q.items| >= q.capacity ==> r == q
  {
    if |q.items| < q.capacity then Queue(q.capacity, q.items + [e]) else q
  }

  /** A run of events offered to one queue, in order. */
  function OfferAll(q: Queue, es: seq<Event>): Queue
    decreases |es|
  {
    if es == [] then q else OfferAll(Offer(q, es[0]), es[1..])
  }

  /** Offering one more event after a run is offering the longer run: what
      `Bus.Route` does to a subscriber's queue event by event, `OfferAll`
      does to it for a whole run with no receive in between. */
  lemma {:induction false} OfferAllThenOffer(q: Queue, es: seq<Event>, e: Event)
    ensures OfferAll(q, es + [e]) == Offer(OfferAll(q, es), e)
    decreases |es|
  {
    if es == [] {
      assert OfferAll(Offer(q, e), []) == Offer(q, e);
      assert [e][1..] == [];
    } else {
      assert (es + [e])[0] == es[0] && (es + [e])[1..] == es[1..] + [e];
      OfferAllThenOffer(Offer(q, es[0]), es[1..], e);
    }
  }

  /** `s` is `t` with some of its elements left out, the rest in their order. */
  predicate IsSubseq(s: seq<Event>, t: seq<Event>)
    decreases |t|
  {
    s == [] ||
    (t != [] &&
      ((s[|s| - 1] == t[|t| - 1] && IsSubseq(s[..|s| - 1], t[..|t| - 1])) || IsSubseq(s, t[..|t| - 1])))
  }


  /** A subsequence stays one when the sequence grows by an event the subsequence skips ... */
  lemma SubseqSkip(s: seq<Event>, t: seq<Event>, e: Event)
    requires IsSubseq(s, t)
    ensures IsSubseq(s, t + [e])
  {
    assert (t + [e])[..|t|] == t;
  }

  /** ... and when both grow by the same event. */
  lemma SubseqTake(s: seq<Event>, t: seq<Event>, e: Event)
    requires IsSubseq(s, t)
    ensures IsSubseq(s + [e], t + [e])
  {
    assert (s + [e])[..|s|] == s;
    assert (t + [e])[..|t|] == t;
  }

  lemma {:induction false} SubseqReflexive(t: seq<Event>)
    ensures IsSubseq(t, t)
    decreases |t|
  {
    if t != [] {
      SubseqReflexive(t[..|t| - 1]);
    }
  }

  /** Offering a run of events to a queue never overfills it, only appends,
      and appends an order-preserving selection of the run. */
  lemma {:induction false} OfferAllKeepsOrder(q: Queue, es: seq<Event>)
    requires |q.items| <= q.capacity
    ensures var r := OfferAll(q, es);
      && r.capacity == q.capacity
      && |r.items| <= r.capacity
      && |q.items| <= |r.items|
      && r.items[..|q.items|] == q.items
      && IsSubseq(r.items[|q.items|..], es)
    decreases |es|
  {
    if es == [] {
      assert OfferAll(q, es).items[|q.items|..] == [];
    } else {
      var q1 := Offer(q, es[0]);
      var rest := es[1..];
      OfferAllKeepsOrder(q1, rest);
      var r := OfferAll(q1, rest);
      assert r.items[..|q.items|] == r.items[..|q1.items|][..|q.items|];
      assert es == [es[0]] + rest;
      PrependSubseq(r.items[|q1.items|..], rest, es[0]);
      if |q.items| < q.capacity {
        assert r.items[|q.items|..] == [es[0]] + r.items[|q1.items|..];
        PrependBoth(r.items[|q1.items|..], rest, es[0]);
      }
    }
  }

  /** A queue with room for the whole run receives all of it. */
  lemma {:induction false} RoomyQueueGetsAll(q: Queue, es: seq<Event>)
    requires |q.items| + |es| <= q.capacity
    ensures OfferAll(q, es).items == q.items + es
    decreases |es|
  {
    if es != [] {
      var q1 := Offer(q, es[0]);
      RoomyQueueGetsAll(q1, es[1..]);
      assert q.items + es == q1.items + es[1..];
    }
  }

  /** A full queue receives nothing. */
  lemma {:induction false} FullQueueGetsNothing(q: Queue, es: seq<Event>)
    requires |q.items| >= q.capacity
    ensures OfferAll(q, es) == q
    decreases |es|
  {
    if es != [] {
      FullQueueGetsNothing(Offer(q, es[0]), es[1..]);
    }
  }

  lemma {:induction false} PrependSubseq(s: seq<Event>, t: seq<Event>, e: Event)
    requires IsSubseq(s, t)
    ensures IsSubseq(s, [e] + t)
    decreases |t|
  {
    if s != [] {
      var t' := t[..|t| - 1];
      assert ([e] + t)[..|[e] + t| - 1] == [e] + t';
      if s[|s| - 1] == t[|t| - 1] && IsSubseq(s[..|s| - 1], t') {
        PrependSubseq(s[..|s| - 1], t', e);
      } else {
        PrependSubseq(s, t', e);
      }
    }
  }

  lemma {:induction false} PrependBoth(s: seq<Event>, t: seq<Event>, e: Event)
    requires IsSubseq(s, t)
    ensures IsSubseq([e] + s, [e] + t)
    decreases |t|
  {
    if s == [] {
      assert [e] + s == [e];
      assert ([e] + t)[..1] == [e];
      PrefixSubseq([e], [e] + t);
    } else {
      var t' := t[..|t| - 1];
      assert ([e] + t)[..|[e] + t| - 1] == [e] + t';
      assert ([e] + s)[..|[e] + s| - 1] == [e] + s[..|s| - 1];
      if s[|s| - 1] == t[|t| - 1] && IsSubseq(s[..|s| - 1], t') {
        PrependBoth(s[..|s| - 1], t', e);
      } else {
        PrependBoth(s, t', e);
      }
    }
  }

  /** A sequence is a subsequence of anything it is a prefix of. */
  lemma {:induction false} PrefixSubseq(s: seq<Event>, t: seq<Event>)
    requires |s| <= |t| && t[..|s|] == s
    ensures IsSubseq(s, t)
    decreases |t|
  {
    if |s| == |t| {
      assert s == t;
      SubseqReflexive(t);
    } else {
      assert t[..|t| - 1][..|s|] == s;
      PrefixSubseq(s, t[..|t| - 1]);
    }
  }

  /** The subscriber side of the bus invariant over values: every channel
      within its capacity, holding what it was given and not yet read, and
      what it was given is an order-preserving selection, without replays,
      of the events dispatched since it subscribed. */
  ghost predicate SubsInv(subs: seq<Queue>, joinedAt: seq<nat>, delivered: seq<seq<Event>>,
                          received: seq<seq<Event>>, dispatched: seq<Event>)
  {
    && |joinedAt| == |subs| && |delivered| == |subs| && |received| == |subs|
    && (forall i :: 0 <= i < |subs| ==> |subs[i].items| <= subs[i].capacity)
    && (forall i :: 0 <= i < |subs| ==> joinedAt[i] <= |dispatched|)
    && (forall i :: 0 <= i < |subs| ==> delivered[i] == received[i] + subs[i].items)
    && (forall i :: 0 <= i < |subs| ==> IsSubseq(delivered[i], dispatched[joinedAt[i]..]))
  }

  /** What one dispatch gives subscriber i: the event when its channel has room. */
  function Given(q: Queue, d: seq<Event>, e: Event): seq<Event> {
    if |q.items| < q.capacity then d + [e] else d
  }

  /** Offering a dispatched event to every subscriber keeps the invariant. */
  lemma RouteKeepsInv(subs: seq<Queue>, joinedAt: seq<nat>, delivered: seq<seq<Event>>,
                      received: seq<seq<Event>>, dispatched: seq<Event>, e: Event,
                      subs': seq<Queue>, delivered': seq<seq<Event>>)
    requires SubsInv(subs, joinedAt, delivered, received, dispatched)
    requires |subs'| == |subs| && |delivered'| == |subs|
    requires forall k :: 0 <= k < |subs| ==> subs'[k] == Offer(subs[k], e)
    requires forall k :: 0 <= k < |subs| ==> delivered'[k] == Given(subs[k], delivered[k], e)
    ensures SubsInv(subs', joinedAt, delivered', received, dispatched + [e])
  {
    var after := dispatched + [e];
    forall k | 0 <= k < |subs|
      ensures IsSubseq(delivered'[k], after[joinedAt[k]..])
    {
      assert after[joinedAt[k]..] == dispatched[joinedAt[k]..] + [e];
      if |subs[k].items| < subs[k].capacity {
        SubseqTake(delivered[k], dispatched[joinedAt[k]..], e);
      } else {
        SubseqSkip(delivered[k], dispatched[joinedAt[k]..], e);
      }
    }
  }

  /** EventBus. */
  class Bus {
    /** The buffer size NewEventBus was given. */
    const capacity: nat
    /** Events sent into the ingress channel and not yet taken by the dispatcher. */
    var ingress: seq<Event>
    var closed: bool
    /** The subscriber channels, in the order they subscribed. */
    var subs: seq<Queue>

    /** Every event sent, in order. */
    ghost var published: seq<Event>
    /** Every event the dispatcher took, in order. */
    ghost var dispatched: seq<Event>
    /** For each subscriber, how many events had been dispatched when it subscribed. */
    ghost var joinedAt: seq<nat>
    /** For each subscriber, every event its channel was ever given, and the ones read from it. */
    ghost var delivered: seq<seq<Event>>
    ghost var received: seq<seq<Event>>

    /** The subscriber side of the invariant: every channel within its
        capacity, holding what it was given and not yet read, and what it was
        given is an order-preserving selection, without replays, of the
        events dispatched since it subscribed. */
    ghost predicate SubsValid()
      reads this
    {
      SubsInv(subs, joinedAt, delivered, received, dispatched)
    }

    /** The whole invariant: the ingress channel within its buffer, and
        events leaving it in the order they were sent. */
    ghost predicate Valid()
      reads this
    {
      && |ingress| <= capacity
      && published == dispatched + ingress
      && SubsValid()
    }

    /** NewEventBus(buffer): an empty, open bus with no subscribers. */
    constructor (buffer: nat)
      ensures Valid()
      ensures capacity == buffer && ingress == [] && !closed && subs == []
      ensures published == [] && dispatched == []
    {
      capacity := buffer;
      ingress, closed, subs := [], false, [];
      published, dispatched, joinedAt, delivered, received := [], [], [], [], [];
    }

    /** Subscribe(buffer): a fresh empty channel of the given capacity joins
        at the end; the other subscribers are untouched. Returns its index. */
    method Subscribe(buffer: nat) returns (id: nat)
      requires Valid()
      modifies this`subs, this`joinedAt, this`delivered, this`received
      ensures Valid()
      ensures id == |old(subs)| && subs == old(subs) + [Queue(buffer, [])]
      ensures joinedAt == old(joinedAt) + [|dispatched|]
      ensures delivered == old(delivered) + [[]] && received == old(received) + [[]]
    {
      id := |subs|;
      subs := subs + [Queue(buffer, [])];
      joinedAt := joinedAt + [|dispatched|];
      delivered := delivered + [[]];
      received := received + [[]];
    }

    /** The body of the dispatcher loop for event `e`: record it as
        dispatched and offer it to every subscriber in order. */
    method Route(e: Event)
      requires SubsValid()
      modifies this`subs, this`dispatched, this`delivered
      ensures SubsValid()
      ensures dispatched == old(dispatched) + [e]
      ensures |subs| == |old(subs)|
      ensures forall i :: 0 <= i < |subs| ==> subs[i] == Offer(old(subs)[i], e)
    {
      var i := 0;
      while i < |subs|
        invariant 0 <= i <= |subs| == |old(subs)| == |delivered|
        invariant dispatched == old(dispatched)
        invariant forall k :: 0 <= k < i ==> subs[k] == Offer(old(subs)[k], e)
        invariant forall k :: 0 <= k < i ==> delivered[k] == Given(old(subs)[k], old(delivered)[k], e)
        invariant forall k :: i <= k < |subs| ==> subs[k] == old(subs)[k] && delivered[k] == old(delivered)[k]
      {
        var q := subs[i];
        if |q.items| < q.capacity {
          subs := subs[i := Queue(q.capacity, q.items + [e])];
          delivered := delivered[i := delivered[i] + [e]];
        }
        i := i + 1;
      }
      RouteKeepsInv(old(subs), joinedAt, old(delivered), received, dispatched, e, subs, delivered);
      dispatched := dispatched + [e];
    }

    /** One turn of the dispatcher loop: take the oldest event off the
        ingress channel and route it. */
    method DispatchNext() returns (e: Event)
      requires Valid() && ingress != []
      modifies this`ingress, this`subs, this`dispatched, this`delivered
      ensures Valid()
      ensures e == old(ingress)[0] && ingress == old(ingress)[1..]
      ensures dispatched == old(dispatched) + [e]
      ensures |subs| == |old(subs)| && forall i :: 0 <= i < |subs| ==> subs[i] == Offer(old(subs)[i], e)
    {
      e := ingress[0];
      ingress := ingress[1..];
      Route(e);
    }

    /** A send into Sink(): the event joins the ingress channel; when the
        channel is full the sender waits while the dispatcher takes the
        oldest event; on an unbuffered channel the dispatcher takes the event
        itself. Sending on a closed bus panics in Go, so it is excluded. */
    method Publish(e: Event)
      requires Valid() && !closed
      modifies this`ingress, this`subs, this`published, this`dispatched, this`delivered
      ensures Valid()
      ensures published == old(published) + [e]
      ensures capacity == 0 ==>
        && ingress == old(ingress) && dispatched == old(dispatched) + [e]
        && |subs| == |old(subs)| && forall i :: 0 <= i < |subs| ==> subs[i] == Offer(old(subs)[i], e)
      ensures 0 < capacity && |old(ingress)| < capacity ==>
        ingress == old(ingress) + [e] && dispatched == old(dispatched) && subs == old(subs)
      ensures 0 < capacity == |old(ingress)| ==>
        && ingress == old(ingress)[1..] + [e] && dispatched == old(dispatched) + [old(ingress)[0]]
        && |subs| == |old(subs)| && forall i :: 0 <= i < |subs| ==> subs[i] == Offer(old(subs)[i], old(ingress)[0])
    {
      if capacity == 0 {
        published := published + [e];
        Route(e);
        return;
      }
      if |ingress| == capacity {
        var _ := DispatchNext();
      }
      published := published + [e];
      ingress := ingress + [e];
    }

    /** A receive on subscriber `id`'s channel: its oldest event, or None
        (where the receiver would block) when it is empty. */
    method Receive(id: nat) returns (r: Option<Event>)
      requires Valid() && id < |subs|
      modifies this`subs, this`received
      ensures Valid()
      ensures old(subs)[id].items == [] ==> r == None && subs == old(subs)
      ensures old(subs)[id].items != [] ==>
        && r == Some(old(subs)[id].items[0])
        && subs == old(subs)[id := Queue(old(subs)[id].capacity, old(subs)[id].items[1..])]
    {
      var q := subs[id];
      if q.items == [] {
        return None;
      }
      r := Some(q.items[0]);
      subs := subs[id := Queue(q.capacity, q.items[1..])];
      received := received[id := received[id] + [q.items[0]]];
    }

    /** Close: close the ingress channel. The dispatcher still drains what is
        buffered; subscriber channels stay open. Closing twice panics in Go,
        so it is excluded. */
    method Close()
      requires Valid() && !closed
      modifies this`closed
      ensures Valid() && closed
    {
      closed := true;
    }
  }
}
