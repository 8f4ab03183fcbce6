/**
 * The progress subscriber registry: the module-level `clients` map from job
 * key to the set of open progress responses, and what `sendProgress` has
 * written to each of those responses.
 */
module Subscribers {

  /** An open progress response (`res` of the progress endpoint); the model only compares them. */
  type Conn = nat

  /** One pushed event, the payload `{ jobId, progress }`. */
  datatype Event = Event(jobId: string, progress: real)

  type Clients = map<string, set<Conn>>

  /** What has been written to each connection so far; a connection without an entry has been sent nothing. */
  type Streams = map<Conn, seq<Event>>

  /** The registry together with everything written through it. */
  datatype Hub = Hub(clients: Clients, streams: Streams)

  /** The pruning invariant: no job key is kept with an empty subscriber set. */
  ghost predicate NoEmptyEntry(clients: Clients) {
    forall k :: k in clients ==> clients[k] != {}
  }

  /** The subscribers of `k`; an absent key has none. */
  function Members(clients: Clients, k: string): set<Conn> {
    if k in clients then clients[k] else {}
  }

  /** Everything written to `c`. */
  function Log(streams: Streams, c: Conn): seq<Event> {
    if c in streams then streams[c] else []
  }

  /** The registry's operations, one per callback of the server. */
  datatype Action =
    | Join(key: string, conn: Conn)       // a progress request subscribes
    | Leave(key: string, conn: Conn)      // its connection closes
    | Send(key: string, value: real)      // sendProgress(key, value)

  /** Subscribing: create the entry when it is missing, then add the connection. */
  function Added(clients: Clients, k: string, c: Conn): Clients {
    clients[k := Members(clients, k) + {c}]
  }

  /** Unsubscribing: remove the connection and prune the entry once it is empty. */
  function Removed(clients: Clients, k: string, c: Conn): Clients {
    if k !in clients then clients
    else if clients[k] - {c} == {} then clients - {k}
    else clients[k := clients[k] - {c}]
  }

  /** Broadcasting: one event appended to each subscriber of exactly `k`. */
  function Delivered(h: Hub, k: string, v: real): Streams {
    if k !in h.clients then h.streams
    else
      (map c | c in h.streams.Keys + h.clients[k] ::
         if c in h.clients[k] then Log(h.streams, c) + [Event(k, v)] else h.streams[c])
  }

  function Step(h: Hub, a: Action): Hub {
    match a
    case Join(k, c) => Hub(Added(h.clients, k, c), h.streams)
    case Leave(k, c) => Hub(Removed(h.clients, k, c), h.streams)
    case Send(k, v) => Hub(h.clients, Delivered(h, k, v))
  }

  /** The registry after a sequence of callbacks, in the order the event loop ran them. */
  function Run(h: Hub, actions: seq<Action>): Hub
    decreases |actions|
  {
    if actions == [] then h else Run(Step(h, actions[0]), actions[1..])
  }

  /**
   * Reference definition of what `c` should receive during `actions`: one
   * event per `Send`, in order, for each send made while `c` was subscribed
   * to that send's key.
   */
  function Received(h: Hub, c: Conn, actions: seq<Action>): seq<Event>
    decreases |actions|
  {
    if actions == [] then []
    else
      var a := actions[0];
      (if a.Send? && c in Members(h.clients, a.key) then [Event(a.key, a.value)] else [])
        + Received(Step(h, a), c, actions[1..])
  }

  /** Every callback keeps the pruning invariant. */
  lemma StepKeepsNoEmptyEntry(h: Hub, a: Action)
    requires NoEmptyEntry(h.clients)
    ensures NoEmptyEntry(Step(h, a).clients)
  {
  }

  /** However the callbacks interleave, no job key is ever left with an empty subscriber set. */
  lemma {:induction false} RunKeepsNoEmptyEntry(h: Hub, actions: seq<Action>)
    requires NoEmptyEntry(h.clients)
    ensures NoEmptyEntry(Run(h, actions).clients)
    decreases |actions|
  {
    if actions != [] {
      StepKeepsNoEmptyEntry(h, actions[0]);
      RunKeepsNoEmptyEntry(Step(h, actions[0]), actions[1..]);
    }
  }

  /** Unsubscribing twice is the same as unsubscribing once. */
  lemma LeaveIdempotent(clients: Clients, k: string, c: Conn)
    ensures Removed(Removed(clients, k, c), k, c) == Removed(clients, k, c)
  {
    var once := Removed(clients, k, c);
    if k in once {
      assert once[k] - {c} == once[k];
      assert once[k := once[k]] == once;
    }
  }

  /**
   * A connection that subscribes and then disconnects leaves the registry as
   * it found it: in particular an entry it created is pruned again.
   */
  lemma JoinThenLeave(clients: Clients, k: string, c: Conn)
    requires NoEmptyEntry(clients) && c !in Members(clients, k)
    ensures Removed(Added(clients, k, c), k, c) == clients
  {
    var after := Removed(Added(clients, k, c), k, c);
    if k in clients {
      assert Members(clients, k) + {c} - {c} == clients[k];
      assert after == clients[k := clients[k]];
    } else {
      assert Members(clients, k) + {c} - {c} == {};
      assert after.Keys == clients.Keys;
    }
  }

  /** One callback changes the log of `c` only by a `Send` to a key `c` subscribes to, and then by one event. */
  lemma StepLog(h: Hub, a: Action, c: Conn)
    ensures Log(Step(h, a).streams, c) ==
      Log(h.streams, c) + (if a.Send? && c in Members(h.clients, a.key) then [Event(a.key, a.value)] else [])
  {
  }

  /**
   * Delivery in broadcast order, across any interleaving of subscriptions,
   * disconnections and broadcasts: each connection's log is extended by
   * exactly what it should receive.
   */
  lemma {:induction false} RunLog(h: Hub, actions: seq<Action>, c: Conn)
    ensures Log(Run(h, actions).streams, c) == Log(h.streams, c) + Received(h, c, actions)
    decreases |actions|
  {
    if actions != [] {
      var a := actions[0];
      StepLog(h, a, c);
      RunLog(Step(h, a), actions[1..], c);
    }
  }

  /** `c` is subscribed to no key other than `k`. */
  ghost predicate OnlyUnder(clients: Clients, c: Conn, k: string) {
    forall k' :: k' in clients && c in clients[k'] ==> k' == k
  }

  /** `actions` never subscribes `c` to a key other than `k`. */
  ghost predicate JoinsOnlyUnder(actions: seq<Action>, c: Conn, k: string) {
    forall i :: 0 <= i < |actions| && actions[i].Join? && actions[i].conn == c ==> actions[i].key == k
  }

  /**
   * Isolation of jobs: a connection that only ever subscribes to `k` receives
   * only events of job `k`, however the other jobs' broadcasts interleave.
   */
  lemma {:induction false} ReceivedOnlyOwnJob(h: Hub, actions: seq<Action>, c: Conn, k: string)
    requires OnlyUnder(h.clients, c, k) && JoinsOnlyUnder(actions, c, k)
    ensures forall i :: 0 <= i < |Received(h, c, actions)| ==> Received(h, c, actions)[i].jobId == k
    decreases |actions|
  {
    if actions != [] {
      var a := actions[0];
      assert a.Join? && a.conn == c ==> a.key == k;
      assert OnlyUnder(Step(h, a).clients, c, k);
      assert JoinsOnlyUnder(actions[1..], c, k) by {
        forall i | 0 <= i < |actions[1..]| ensures actions[1..][i] == actions[i + 1] { }
      }
      ReceivedOnlyOwnJob(Step(h, a), actions[1..], c, k);
    }
  }

  /** The broadcasts of one job with key `k`, carrying the values `vs` in order. */
  function Sends(k: string, vs: seq<real>): (r: seq<Action>)
    ensures |r| == |vs|
  {
    if vs == [] then [] else [Send(k, vs[0])] + Sends(k, vs[1..])
  }

  function Events(k: string, vs: seq<real>): (r: seq<Event>)
    ensures |r| == |vs|
  {
    if vs == [] then [] else [Event(k, vs[0])] + Events(k, vs[1..])
  }

  /** The events of consecutive runs of broadcasts are consecutive. */
  lemma {:induction false} EventsAppend(k: string, a: seq<real>, b: seq<real>)
    ensures Events(k, a + b) == Events(k, a) + Events(k, b)
    decreases |a|
  {
    if a == [] {
      assert a + b == b;
    } else {
      assert (a + b)[0] == a[0] && (a + b)[1..] == a[1..] + b;
      EventsAppend(k, a[1..], b);
    }
  }

  /** Consecutive runs of broadcasts of one job are the broadcasts of the joined values. */
  lemma {:induction false} SendsAppend(k: string, a: seq<real>, b: seq<real>)
    ensures Sends(k, a + b) == Sends(k, a) + Sends(k, b)
    decreases |a|
  {
    if a == [] {
      assert a + b == b;
    } else {
      assert (a + b)[0] == a[0] && (a + b)[1..] == a[1..] + b;
      SendsAppend(k, a[1..], b);
    }
  }

  /** Running two sequences of callbacks one after the other is running them joined. */
  lemma {:induction false} RunAppend(h: Hub, a: seq<Action>, b: seq<Action>)
    ensures Run(h, a + b) == Run(Run(h, a), b)
    decreases |a|
  {
    if a == [] {
      assert a + b == b;
    } else {
      assert (a + b)[0] == a[0] && (a + b)[1..] == a[1..] + b;
      RunAppend(Step(h, a[0]), a[1..], b);
    }
  }

  /**
   * While no one subscribes or leaves, a job's broadcasts reach each of its
   * subscribers in the order sent and reach no one else.
   */
  lemma {:induction false} ReceivedSends(h: Hub, c: Conn, k: string, vs: seq<real>)
    ensures Received(h, c, Sends(k, vs)) == if c in Members(h.clients, k) then Events(k, vs) else []
    decreases |vs|
  {
    if vs != [] {
      var h' := Step(h, Send(k, vs[0]));
      assert h'.clients == h.clients;
      assert Sends(k, vs)[1..] == Sends(k, vs[1..]);
      ReceivedSends(h', c, k, vs[1..]);
    }
  }

  /** The registry object the server keeps for its whole lifetime. */
  class Registry {
    var clients: Clients
    var streams: Streams

    ghost predicate Valid()
      reads this
    {
      NoEmptyEntry(clients)
    }

    function Model(): Hub
      reads this
    {
      Hub(clients, streams)
    }

    /** `new Map()`: no subscribers, nothing written yet. */
    constructor ()
      ensures Valid() && clients == map[] && streams == map[]
    {
      clients := map[];
      streams := map[];
    }

    /** The progress endpoint registers `c` under `k`. */
    method Subscribe(k: string, c: Conn)
      requires Valid()
      modifies this
      ensures Valid() && Model() == Step(old(Model()), Join(k, c))
      ensures k in clients && clients[k] == Members(old(clients), k) + {c}
      ensures forall k' :: k' != k ==> Members(clients, k') == Members(old(clients), k')
      ensures clients.Keys == old(clients).Keys + {k}
      ensures streams == old(streams)
    {
      if k !in clients {
        clients := clients[k := {}];
      }
      clients := clients[k := clients[k] + {c}];
    }

    /** The close handler of a progress connection; harmless when `k` or `c` is gone. */
    method Unsubscribe(k: string, c: Conn)
      requires Valid()
      modifies this
      ensures Valid() && Model() == Step(old(Model()), Leave(k, c))
      ensures c !in Members(clients, k)
      ensures Members(clients, k) == Members(old(clients), k) - {c}
      ensures forall k' :: k' != k ==> Members(clients, k') == Members(old(clients), k')
      ensures k !in old(clients) ==> clients == old(clients)
      ensures streams == old(streams)
    {
      if k in clients {
        var remaining := clients[k] - {c};
        clients := clients[k := remaining];
        if remaining == {} {
          clients := clients - {k};
        }
      }
    }

    /** `sendProgress(k, v)`: write one event to every subscriber of `k`, one at a time. */
    method Broadcast(k: string, v: real)
      requires Valid()
      modifies this
      ensures Valid() && Model() == Step(old(Model()), Send(k, v))
      ensures clients == old(clients)
      ensures k !in clients ==> streams == old(streams)
      ensures forall c :: c in Members(clients, k) ==> Log(streams, c) == Log(old(streams), c) + [Event(k, v)]
      ensures forall c :: c !in Members(clients, k) ==> Log(streams, c) == Log(old(streams), c)
    {
      if k !in clients {
        return;
      }
      var e := Event(k, v);
      var targets := clients[k];
      var pending := targets;
      while pending != {}
        invariant pending <= targets && clients == old(clients) && targets == clients[k]
        invariant streams.Keys == old(streams).Keys + (targets - pending)
        invariant forall c :: c in streams ==>
          streams[c] == if c in targets - pending then Log(old(streams), c) + [e] else old(streams)[c]
        decreases pending
      {
        var c :| c in pending;
        streams := streams[c := Log(streams, c) + [e]];
        pending := pending - {c};
      }
      assert streams == Delivered(old(Model()), k, v);
    }
  }
}
