/** The event hub of internal/auditprogress/events.go: a registry of
  * push-channel clients, each with a bounded queue, fed from a bounded
  * broadcast queue. Every case of the hub's `Run` loop is one method; the
  * goroutines and channels become sequential calls and `seq` queues. */
module Events {
  import opened Wrappers
  import opened Sets

  const EventTaskCreated: string := "task_created"
  const EventTaskUpdated: string := "task_updated"
  const EventTaskDeleted: string := "task_deleted"
  const EventTaskSampled: string := "task_sampled"
  const EventTaskRefreshed: string := "task_refreshed"

  /** An update event; `data` holds the payload's values as text. */
  datatype Event = Event(kind: string, taskId: int, data: map<string, string>, timestamp: int)

  /** The broadcast queue's buffer (`make(chan Event, 256)`) and the client
    * queues' buffer (internal/checkpointprogress/sse.go). */
  const HubCapacity: nat := 256
  const ClientCapacity: nat := 256

  /** A non-blocking send on a buffered channel: the event is appended when
    * there is room and dropped otherwise. */
  function Offer(q: seq<Event>, e: Event, capacity: nat): (r: seq<Event>)
    ensures |q| < capacity ==> r == q + [e]
    ensures |q| >= capacity ==> r == q
  {
    if |q| < capacity then q + [e] else q
  }

  /** A queue after a run of sends with nobody reading. */
  function OfferAll(q: seq<Event>, es: seq<Event>, capacity: nat): seq<Event>
    decreases |es|
  {
    if |es| == 0 then q else OfferAll(Offer(q, es[0], capacity), es[1..], capacity)
  }

  /** Back-pressure: a queue that starts with room for every event it holds
    * keeps the first events sent, in order, up to its capacity, and drops
    * the rest. */
  lemma {:induction false} OfferAllKeepsPrefix(q: seq<Event>, es: seq<Event>, capacity: nat)
    requires |q| <= capacity
    ensures |q| + |es| <= capacity ==> OfferAll(q, es, capacity) == q + es
    ensures |q| + |es| > capacity ==> OfferAll(q, es, capacity) == q + es[..capacity - |q|]
    decreases |es|
  {
    if |es| > 0 {
      var next := Offer(q, es[0], capacity);
      OfferAllKeepsPrefix(next, es[1..], capacity);
      if |q| < capacity {
        assert next == q + [es[0]];
        if |q| + |es| <= capacity {
          assert q + [es[0]] + es[1..] == q + es;
        } else {
          assert q + [es[0]] + es[1..][..capacity - |q| - 1] == q + es[..capacity - |q|];
        }
      } else {
        assert es[..0] == [];
      }
    }
  }

  /** With N > C events broadcast to an idle client of capacity C, the
    * client holds exactly the first C, in order. */
  lemma BackPressure(es: seq<Event>)
    requires |es| > ClientCapacity
    ensures OfferAll([], es, ClientCapacity) == es[..ClientCapacity]
  {
    OfferAllKeepsPrefix([], es, ClientCapacity);
  }

  /** A push-channel client (`Client`): its id, user and the queue behind
    * its `Send` channel, which the hub closes when it unregisters it. */
  class Client {
    const id: string
    const userId: int
    const capacity: nat
    var queue: seq<Event>
    var closed: bool

    /** The client the push endpoint creates: an empty, open queue of 256. */
    constructor(id: string, userId: int)
      ensures this.id == id && this.userId == userId && capacity == ClientCapacity
      ensures queue == [] && !closed
    {
      this.id := id;
      this.userId := userId;
      capacity := ClientCapacity;
      queue := [];
      closed := false;
    }

    /** A non-blocking send on this client's channel. */
    method TrySend(e: Event) returns (ok: bool)
      modifies this
      ensures ok <==> |old(queue)| < capacity
      ensures queue == Offer(old(queue), e, capacity) && closed == old(closed)
    {
      if |queue| < capacity {
        queue := queue + [e];
        return true;
      }
      return false;
    }
  }

  /** One client of the send loop: the clients that had room and were
    * served grow by this one exactly when it had room. */
  lemma ServedStep(served: set<Client>, roomy: set<Client>, prefix: seq<Client>, c: Client, ok: bool)
    requires forall x :: x in served <==> x in roomy && x in prefix
    requires c !in prefix && (ok <==> c in roomy)
    ensures |if ok then served + {c} else served| == |served| + (if ok then 1 else 0)
    ensures forall x :: x in (if ok then served + {c} else served) <==> x in roomy && x in prefix + [c]
  {
  }

  /** The send loop of the broadcast case, over the snapshot of the
    * clients taken under the read lock: a full client misses the event,
    * every other one gets it at the back of its queue. Returns how many
    * clients got it. */
  method Deliver(list: seq<Client>, e: Event) returns (sent: nat)
    requires forall i, j :: 0 <= i < j < |list| ==> list[i] != list[j]
    modifies list
    ensures forall c :: c in list ==>
      c.queue == Offer(old(c.queue), e, c.capacity) && c.closed == old(c.closed)
    ensures sent == |set c | c in list && |old(c.queue)| < c.capacity|
  {
    ghost var roomy := set c | c in list && |c.queue| < c.capacity;
    sent := 0;
    ghost var served: set<Client> := {};
    for i := 0 to |list|
      invariant forall k :: 0 <= k < i ==>
        list[k].queue == Offer(old(list[k].queue), e, list[k].capacity) && list[k].closed == old(list[k].closed)
      invariant forall k :: i <= k < |list| ==>
        list[k].queue == old(list[k].queue) && list[k].closed == old(list[k].closed)
      invariant forall c :: c in served <==> c in roomy && c in list[..i]
      invariant sent == |served|
    {
      var c := list[i];
      assert forall k :: 0 <= k < |list| && k != i ==> list[k] != c;
      assert list[..i + 1] == list[..i] + [c];
      var ok := c.TrySend(e);
      ServedStep(served, roomy, list[..i], c, ok);
      if ok {
        sent := sent + 1;
        served := served + {c};
      }
    }
    assert list[..|list|] == list;
    assert served == roomy;
  }

  class EventHub {
    var clients: map<string, Client>
    var queue: seq<Event>

    /** Clients are filed under their own ids, are open, and no queue is
      * over its buffer. */
    predicate Valid()
      reads this, clients.Values
    {
      |queue| <= HubCapacity
      && (forall id :: id in clients ==> clients[id].id == id)
      && (forall id :: id in clients ==> !clients[id].closed && |clients[id].queue| <= clients[id].capacity)
    }

    /** `NewEventHub`: no clients and an empty broadcast queue. */
    constructor()
      ensures Valid() && clients == map[] && queue == []
    {
      clients := map[];
      queue := [];
    }

    /** The register case of `Run`: file the client under its id, replacing
      * any client with that id. */
    method Register(c: Client)
      requires Valid() && !c.closed && |c.queue| <= c.capacity
      modifies this
      ensures Valid()
      ensures clients == old(clients)[c.id := c] && queue == old(queue)
    {
      clients := clients[c.id := c];
    }

    /** The unregister case of `Run`: when some client is filed under this
      * client's id, remove that entry and close this client's queue;
      * otherwise change nothing. */
    method Unregister(c: Client)
      requires Valid()
      modifies this, c
      ensures Valid()
      ensures queue == old(queue) && c.queue == old(c.queue)
      ensures old(c.id in clients) ==> clients == old(clients) - {c.id} && c.closed
      ensures old(c.id !in clients) ==> clients == old(clients) && c.closed == old(c.closed)
    {
      if c.id in clients {
        clients := clients - {c.id};
        c.closed := true;
      }
    }

    /** `Broadcast`: queue the event for the hub, or drop it when the
      * broadcast queue is full; never waits. */
    method Broadcast(e: Event) returns (queued: bool)
      requires Valid()
      modifies this
      ensures Valid()
      ensures queued <==> |old(queue)| < HubCapacity
      ensures queue == Offer(old(queue), e, HubCapacity) && clients == old(clients)
    {
      if |queue| < HubCapacity {
        queue := queue + [e];
        return true;
      }
      return false;
    }

    /** The broadcast case of `Run`: take the oldest queued event and offer
      * it to every registered client. Returns how many got it. */
    method Dispatch() returns (sent: nat)
      requires Valid() && |queue| > 0
      modifies this, clients.Values
      ensures Valid()
      ensures clients == old(clients) && queue == old(queue[1..])
      ensures forall id :: id in clients ==>
        clients[id].queue == Offer(old(clients[id].queue), old(queue[0]), clients[id].capacity)
      ensures sent == |set c | c in clients.Values && |old(c.queue)| < c.capacity|
    {
      var e := queue[0];
      var list := Snapshot();
      assert forall id :: id in clients ==> clients[id] in list;
      ghost var roomy := set c | c in list && |c.queue| < c.capacity;
      assert roomy == set c | c in clients.Values && |c.queue| < c.capacity;
      sent := Deliver(list, e);
      queue := queue[1..];
      assert roomy == set c | c in clients.Values && |old(c.queue)| < c.capacity;
    }

    /** The copy of the registered clients the broadcast case takes under
      * the read lock: each client once, in the map's iteration order. */
    method Snapshot() returns (list: seq<Client>)
      requires Valid()
      ensures forall c :: c in list <==> c in clients.Values
      ensures forall i, j :: 0 <= i < j < |list| ==> list[i] != list[j]
    {
      list := [];
      var pending := clients.Keys;
      while pending != {}
        invariant pending <= clients.Keys
        invariant forall k :: 0 <= k < |list| ==>
          list[k].id in clients && list[k].id !in pending && clients[list[k].id] == list[k]
        invariant forall id :: id in clients && id !in pending ==> clients[id] in list
        invariant forall i, j :: 0 <= i < j < |list| ==> list[i] != list[j]
        decreases pending
      {
        var id :| id in pending;
        list := list + [clients[id]];
        pending := pending - {id};
      }
    }

    /** `BroadcastTaskCreated`. */
    method BroadcastTaskCreated(taskId: int, data: map<string, string>, now: int) returns (queued: bool)
      requires Valid()
      modifies this
      ensures Valid() && clients == old(clients)
      ensures queue == Offer(old(queue), Event(EventTaskCreated, taskId, data, now), HubCapacity)
    {
      queued := Broadcast(Event(EventTaskCreated, taskId, data, now));
    }

    /** `BroadcastTaskUpdated`. */
    method BroadcastTaskUpdated(taskId: int, data: map<string, string>, now: int) returns (queued: bool)
      requires Valid()
      modifies this
      ensures Valid() && clients == old(clients)
      ensures queue == Offer(old(queue), Event(EventTaskUpdated, taskId, data, now), HubCapacity)
    {
      queued := Broadcast(Event(EventTaskUpdated, taskId, data, now));
    }

    /** `BroadcastTaskDeleted`: no payload. */
    method BroadcastTaskDeleted(taskId: int, now: int) returns (queued: bool)
      requires Valid()
      modifies this
      ensures Valid() && clients == old(clients)
      ensures queue == Offer(old(queue), Event(EventTaskDeleted, taskId, map[], now), HubCapacity)
    {
      queued := Broadcast(Event(EventTaskDeleted, taskId, map[], now));
    }

    /** `BroadcastTaskSampled`. */
    method BroadcastTaskSampled(taskId: int, data: map<string, string>, now: int) returns (queued: bool)
      requires Valid()
      modifies this
      ensures Valid() && clients == old(clients)
      ensures queue == Offer(old(queue), Event(EventTaskSampled, taskId, data, now), HubCapacity)
    {
      queued := Broadcast(Event(EventTaskSampled, taskId, data, now));
    }

    /** `BroadcastRefresh`: task 0 and no payload. */
    method BroadcastRefresh(now: int) returns (queued: bool)
      requires Valid()
      modifies this
      ensures Valid() && clients == old(clients)
      ensures queue == Offer(old(queue), Event(EventTaskRefreshed, 0, map[], now), HubCapacity)
    {
      queued := Broadcast(Event(EventTaskRefreshed, 0, map[], now));
    }
  }

  // ---------------------------------------------------------------------
  // Server-sent event frames

  /** `FormatSSE`: one `data:` line holding the event's JSON text, ended by
    * a blank line (WHATWG HTML Living Standard, section 9.2); a payload
    * that cannot be marshalled is an error. `json` is `json.Marshal`'s
    * result, `None` for its failure. */
  function FormatSSE(json: Option<string>): (r: Result<string>)
    ensures json.None? ==> r.Err?
  {
    match json
    case None => Err("json: unsupported value")
    case Some(text) => Ok("data: " + text + "\n\n")
  }

  predicate NoLineBreak(s: string) { forall i :: 0 <= i < |s| ==> s[i] != '\n' && s[i] != '\r' }

  /** How a browser reads one event block (WHATWG HTML Living Standard,
    * section 9.2.6) when it is a single `data` line followed by a blank
    * line: the field value, with one leading space removed, is the event's
    * data. Any other block is not of this shape. */
  function ReadDataBlock(block: string): (r: Option<string>)
    ensures r.Some? ==> NoLineBreak(r.value)
  {
    if |block| >= 7 && block[..5] == "data:" && block[|block| - 2..] == "\n\n"
      && NoLineBreak(block[5..|block| - 2]) then
      var value := block[5..|block| - 2];
      Some(if |value| > 0 && value[0] == ' ' then value[1..] else value)
    else None
  }

  /** A frame reads back as the JSON text it was made from. `json.Marshal`
    * escapes line breaks inside strings, so its output never has one. */
  lemma FrameRoundTrip(text: string)
    requires NoLineBreak(text)
    ensures FormatSSE(Some(text)).Ok?
    ensures ReadDataBlock(FormatSSE(Some(text)).value) == Some(text)
  {
    var frame := "data: " + text + "\n\n";
    assert frame[..5] == "data:";
    assert frame[|frame| - 2..] == "\n\n";
    assert frame[5..|frame| - 2] == " " + text;
    assert (" " + text)[1..] == text;
  }
}
