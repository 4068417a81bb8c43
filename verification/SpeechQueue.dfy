/**
 * The host-side queue that keeps two announcements from playing over each other: a FIFO
 * with a `running` flag, a synchronous-throw path and an asynchronous-settle path.
 */
module SpeechQueue {
  import opened Options
  import opened Text

  /** One `say` call; `throws` is whether starting it fails synchronously. */
  datatype Item = Item(voice: string, text: string, throws: bool)

  /** `started` is every item begun, in order; `inFlight` those begun and not yet settled. */
  datatype Queue = Queue(pending: seq<Item>, running: bool, started: seq<Item>, inFlight: seq<Item>)

  const IDLE := Queue([], false, [], [])

  /** Start the first item; if that throws it is not in flight. */
  function StartFirst(q: Queue): Queue
    requires q.pending != []
  {
    var item := q.pending[0];
    Queue(q.pending[1..], true, q.started + [item], q.inFlight + if item.throws then [] else [item])
  }

  /** Start the next item; one that throws at once makes way for the one after it. */
  function Advance(q: Queue): Queue
    decreases |q.pending|
  {
    if q.pending == [] then q.(running := false)
    else if q.pending[0].throws then Advance(StartFirst(q))
    else StartFirst(q)
  }

  function Enqueued(q: Queue, item: Item): Queue {
    var r := q.(pending := q.pending + [item]);
    if q.running then r else Advance(r)
  }

  /** The k-th item in flight settles, by success or failure alike. */
  function Settled(q: Queue, k: nat): Queue
    requires k < |q.inFlight|
  {
    Advance(q.(inFlight := q.inFlight[..k] + q.inFlight[k + 1..]))
  }

  class Player {
    var pending: seq<Item>
    var running: bool
    ghost var started: seq<Item>
    ghost var inFlight: seq<Item>

    constructor ()
      ensures View() == IDLE
    {
      pending, running, started, inFlight := [], false, [], [];
    }

    ghost function View(): Queue
      reads this
    {
      Queue(pending, running, started, inFlight)
    }

    method RunNext()
      modifies this
      ensures View() == Advance(old(View()))
      decreases |pending|
    {
      if pending == [] {
        running := false;
        return;
      }
      var item := pending[0];
      pending := pending[1..];
      running := true;
      started := started + [item];
      if item.throws {
        assert inFlight + [] == inFlight;
        RunNext();
        return;
      }
      inFlight := inFlight + [item];
    }

    method Enqueue(item: Item)
      modifies this
      ensures View() == Enqueued(old(View()), item)
    {
      pending := pending + [item];
      if !running {
        RunNext();
      }
    }

    /** The promise of the k-th item in flight settles; a rejection is logged, then all goes on. */
    method Settle(k: nat)
      requires k < |inFlight|
      modifies this
      ensures View() == Settled(old(View()), k)
    {
      inFlight := inFlight[..k] + inFlight[k + 1..];
      RunNext();
    }

    /**
     * `/speak`: a missing or blank text is refused and nothing is queued; otherwise the
     * text is queued as it is, under the given voice or, if that is blank, the default.
     */
    method Speak(text: Option<string>, voice: Option<string>, defaultVoice: string, throws: bool)
      returns (status: nat, spokenVoice: Option<string>)
      modifies this
      ensures status == 400 <==> text.None? || AllSpace(text.value)
      ensures status == 400 ==> View() == old(View()) && spokenVoice == None
      ensures status != 400 ==>
        && status == 202
        && spokenVoice == Some(if voice.Some? && !AllSpace(voice.value) then voice.value else defaultVoice)
        && View() == Enqueued(old(View()), Item(spokenVoice.value, text.value, throws))
    {
      if text.Some? { BlankIffAllSpace(text.value); }
      if voice.Some? { BlankIffAllSpace(voice.value); }
      if text.None? || Trim(text.value) == "" {
        return 400, None;
      }
      var v := if voice.Some? && Trim(voice.value) != "" then voice.value else defaultVoice;
      Enqueue(Item(v, text.value, throws));
      return 202, Some(v);
    }
  }

  // ----------------------------------------------------------------- runs

  datatype Event = Enqueue(item: Item) | Settle(k: nat)

  datatype Run = Run(events: seq<Event>, states: seq<Queue>)

  ghost predicate Legal(r: Run) {
    && |r.states| == |r.events| + 1
    && r.states[0] == IDLE
    && forall i :: 0 <= i < |r.events| ==>
      match r.events[i]
      case Enqueue(item) => r.states[i + 1] == Enqueued(r.states[i], item)
      case Settle(k) => k < |r.states[i].inFlight| && r.states[i + 1] == Settled(r.states[i], k)
  }

  function ItemsOf(events: seq<Event>): seq<Item> {
    if events == [] then []
    else ItemsOf(events[..|events| - 1]) + if events[|events| - 1].Enqueue? then [events[|events| - 1].item] else []
  }

  function Settles(events: seq<Event>): nat {
    if events == [] then 0
    else Settles(events[..|events| - 1]) + if events[|events| - 1].Settle? then 1 else 0
  }

  function Throwing(items: seq<Item>): nat {
    if items == [] then 0
    else Throwing(items[..|items| - 1]) + if items[|items| - 1].throws then 1 else 0
  }

  /**
   * At most one item in flight and it is the last one started; the flag says exactly
   * whether there is one; an idle queue has nothing waiting.
   */
  ghost predicate Sound(q: Queue) {
    && |q.inFlight| <= 1
    && (q.running <==> |q.inFlight| == 1)
    && (!q.running ==> q.pending == [])
    && (q.inFlight != [] ==> q.started != [] && q.inFlight[0] == q.started[|q.started| - 1])
  }

  /** How many of the items started neither threw nor are in flight. */
  ghost function Finished(q: Queue): int {
    |q.started| - Throwing(q.started) - |q.inFlight|
  }

  lemma StartFirstKeepsOrder(q: Queue)
    requires q.inFlight == [] && q.pending != []
    ensures var next := StartFirst(q);
      && next.started + next.pending == q.started + q.pending
      && Finished(next) == Finished(q)
      && (if q.pending[0].throws then next.inFlight == [] else Sound(next))
  {
    var next := StartFirst(q);
    assert next.started + next.pending == q.started + q.pending;
    assert next.started[..|next.started| - 1] == q.started;
  }

  /** With nothing in flight, `Advance` keeps the order of all items and starts as many as it can. */
  lemma {:induction false} AdvanceKeepsOrder(q: Queue)
    requires q.inFlight == []
    ensures Sound(Advance(q))
    ensures Advance(q).started + Advance(q).pending == q.started + q.pending
    ensures Finished(Advance(q)) == Finished(q)
    decreases |q.pending|
  {
    if q.pending != [] {
      StartFirstKeepsOrder(q);
      if q.pending[0].throws {
        AdvanceKeepsOrder(StartFirst(q));
      }
    }
  }

  /**
   * In every run of enqueues, synchronous throws and settlements: the queue is sound, the
   * items started followed by those waiting are the items enqueued in order, and every
   * item started has thrown, settled, or is the one in flight.
   */
  lemma {:induction false} QueueIsFifo(r: Run, i: nat)
    requires Legal(r) && i < |r.states|
    ensures Sound(r.states[i])
    ensures r.states[i].started + r.states[i].pending == ItemsOf(r.events[..i])
    ensures Finished(r.states[i]) == Settles(r.events[..i])
    decreases i
  {
    if i > 0 {
      QueueIsFifo(r, i - 1);
      assert r.events[..i][..i - 1] == r.events[..i - 1];
      var q := r.states[i - 1];
      match r.events[i - 1]
      case Enqueue(item) =>
        assert q.started + (q.pending + [item]) == q.started + q.pending + [item];
        if !q.running {
          AdvanceKeepsOrder(q.(pending := q.pending + [item]));
        }
      case Settle(k) =>
        AdvanceKeepsOrder(q.(inFlight := q.inFlight[..k] + q.inFlight[k + 1..]));
    }
  }

  lemma {:induction false} ThrowingSplits(a: seq<Item>, b: seq<Item>)
    ensures Throwing(a + b) == Throwing(a) + Throwing(b) && Throwing(b) <= |b|
    decreases |b|
  {
    if b == [] {
      assert a + b == a;
    } else {
      var n := |b| - 1;
      assert (a + b)[..|a + b| - 1] == a + b[..n];
      ThrowingSplits(a, b[..n]);
    }
  }

  /**
   * A failing item never blocks later ones: once as many items have settled as there are
   * items that do not throw, every item enqueued has been started, in order, and the queue
   * is idle.
   */
  lemma EverythingIsSpoken(r: Run, i: nat)
    requires Legal(r) && i < |r.states|
    requires Settles(r.events[..i]) >= |ItemsOf(r.events[..i])| - Throwing(ItemsOf(r.events[..i]))
    ensures r.states[i].started == ItemsOf(r.events[..i]) && !r.states[i].running
  {
    QueueIsFifo(r, i);
    var q := r.states[i];
    ThrowingSplits(q.started, q.pending);
    assert q.started + [] == q.started;
  }
}
