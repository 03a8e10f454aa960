/** The whole state of a `Server` as a value, and what each handler does to
    it. These functions specify the methods of `Server.Server`; the lemmas
    relate several handler calls (forward then relay, a duplicate reply, the
    end-to-end scenarios). */
module Proxy {
  import opened Dns
  import opened Cache
  import opened Multiplexer

  /** The counter, the pending table, the cache, and every datagram sent so
      far, oldest first. */
  datatype State = State(idCounter: int, requests: Table, cache: Store, outbox: seq<Datagram>)

  /** What every reachable state satisfies. */
  ghost predicate Inv(s: State)
  {
    && 0 <= s.idCounter < ID_MODULUS
    && IdsInRange(s.requests)
    && WellFormed(s.cache)
  }

  /** The state right after `__init__`. */
  function Init(): (s: State)
    ensures Inv(s)
    ensures s.idCounter == 0
    ensures s.requests == map[] && s.cache == map[] && s.outbox == []
  {
    State(0, map[], map[], [])
  }

  /** `on_request`: answer from the cache when it has a fresh entry;
      otherwise give the query the next proxy id, remember the client, and
      forward the query to the first forwarder (raising IndexError, after the
      bookkeeping, when there is none). */
  function OnRequest(s: State, forwarders: seq<Addr>, rec: Message, client: Addr, now: int): (r: (State, Outcome))
    // hit: one reply to the client, counter and pending table untouched
    ensures Lookup(s.cache, rec, now).0.Some? ==>
      && r.1 == Done
      && r.0.idCounter == s.idCounter && r.0.requests == s.requests
      && r.0.cache == Lookup(s.cache, rec, now).1
      && r.0.outbox == s.outbox + [Datagram(Lookup(s.cache, rec, now).0.value, client)]
      && r.0.outbox[|s.outbox|].msg.header.id == rec.header.id
    // miss: new id, one new pending entry, one query to the first forwarder
    ensures Lookup(s.cache, rec, now).0.None? ==>
      var id := NextId(s.idCounter);
      && r.0.idCounter == id
      && r.0.requests.Keys == s.requests.Keys + {id}
      && r.0.requests[id] == Pending(rec.header.id, client)
      && (forall k :: k in s.requests && k != id ==> r.0.requests[k] == s.requests[k])
      && r.0.cache == s.cache
      && (|forwarders| > 0 ==>
            r.1 == Done && r.0.outbox == s.outbox + [Datagram(WithId(rec, id), forwarders[0])])
      && (|forwarders| == 0 ==> r.1 == Raised(IndexError) && r.0.outbox == s.outbox)
    ensures Inv(s) ==> Inv(r.0)
  {
    var (cached, cache') := Lookup(s.cache, rec, now);
    if cached.Some? then
      (s.(cache := cache', outbox := s.outbox + [Datagram(cached.value, client)]), Done)
    else
      var (id, requests') := Register(s.requests, s.idCounter, rec.header.id, client);
      var s' := s.(idCounter := id, requests := requests');
      if |forwarders| == 0 then (s', Raised(IndexError))
      else (s'.(outbox := s.outbox + [Datagram(WithId(rec, id), forwarders[0])]), Done)
  }

  /** `on_response`: a reply whose id is not pending is dropped; otherwise the
      client's id is restored, the reply is sent to the client, the reply is
      offered to the cache, and then the pending entry is deleted. When the
      cache raises (NOERROR with no answer) the reply has already gone out
      and the entry is never deleted. */
  function OnResponse(s: State, rec: Message, now: int): (r: (State, Outcome))
    ensures rec.header.id !in s.requests ==> r == (s, Done)
    ensures rec.header.id in s.requests ==>
      var p := s.requests[rec.header.id];
      var (cache', outcome) := Insert(s.cache, rec, now);
      && r.0.idCounter == s.idCounter
      && r.0.outbox == s.outbox + [Datagram(WithId(rec, p.originalId), p.client)]
      && r.0.cache == cache'
      && r.1 == outcome
      && r.0.requests == if outcome.Done? then s.requests - {rec.header.id} else s.requests
    ensures Inv(s) ==> Inv(r.0)
  {
    var (found, requests') := Resolve(s.requests, rec.header.id);
    if found.None? then (s, Done)
    else
      var reply := WithId(rec, found.value.originalId);
      var outbox' := s.outbox + [Datagram(reply, found.value.client)];
      var (cache', outcome) := Insert(s.cache, reply, now);
      if outcome.Raised? then (s.(cache := cache', outbox := outbox'), outcome)
      else (s.(requests := requests', cache := cache', outbox := outbox'), Done)
  }

  /** The body of `run`'s loop after parsing: route by the QR bit. */
  function Dispatch(s: State, forwarders: seq<Addr>, rec: Message, from: Addr, now: int): (r: (State, Outcome))
    ensures rec.header.qr == QR_RESPONSE ==> r == OnResponse(s, rec, now)
    ensures rec.header.qr == QR_QUERY ==> r == OnRequest(s, forwarders, rec, from, now)
    ensures Inv(s) ==> Inv(r.0)
  {
    if rec.header.qr == QR_RESPONSE then OnResponse(s, rec, now)
    else OnRequest(s, forwarders, rec, from, now)
  }

  /** The state after `queries` arrive in turn from `client`, each handled
      by `on_request`. */
  function ForwardAll(s: State, forwarders: seq<Addr>, queries: seq<Message>, client: Addr, now: int): State
    decreases |queries|
  {
    if queries == [] then s
    else OnRequest(ForwardAll(s, forwarders, queries[..|queries| - 1], client, now), forwarders, queries[|queries| - 1], client, now).0
  }

  /** Consecutive queries that all miss the cache advance the counter once
      each, exactly as `Advance` does, and leave the cache as it was. */
  lemma {:induction false} ForwardingAdvancesCounter(s: State, forwarders: seq<Addr>, queries: seq<Message>, client: Addr, now: int)
    requires forall i :: 0 <= i < |queries| ==> Lookup(s.cache, queries[i], now).0.None?
    ensures ForwardAll(s, forwarders, queries, client, now).idCounter == Advance(s.idCounter, |queries|)
    ensures ForwardAll(s, forwarders, queries, client, now).cache == s.cache
  {
    if queries != [] {
      var init := queries[..|queries| - 1];
      assert forall i :: 0 <= i < |init| ==> init[i] == queries[i];
      ForwardingAdvancesCounter(s, forwarders, init, client, now);
      assert Lookup(s.cache, queries[|queries| - 1], now).0.None?;
    }
  }

  /** A reply for a pending id is relayed once: after it has been handled,
      a second reply carrying the same id sends nothing and changes nothing. */
  lemma DuplicateReplyDropped(s: State, rec: Message, now: int, again: Message, later: int)
    requires rec.header.id in s.requests
    requires OnResponse(s, rec, now).1 == Done
    requires again.header.id == rec.header.id
    ensures var s1 := OnResponse(s, rec, now).0;
      OnResponse(s1, again, later) == (s1, Done)
  {
  }

  /** Id round trip: a query that misses the cache is forwarded under a new
      id; the upstream reply that carries that id goes back to the same
      client under the client's own id, and, when the cache accepts it, the
      pending table ends as it was apart from that id. */
  lemma ForwardThenRelay(s: State, forwarders: seq<Addr>, query: Message, client: Addr, t0: int, reply: Message, t1: int)
    requires Lookup(s.cache, query, t0).0.None?
    requires |forwarders| > 0
    ensures var s1 := OnRequest(s, forwarders, query, client, t0).0;
      var id := s1.outbox[|s.outbox|].msg.header.id;
      && s1.outbox[|s.outbox|].dest == forwarders[0]
      && (reply.header.id == id ==>
            var (s2, outcome) := OnResponse(s1, reply, t1);
            && s2.outbox == s1.outbox + [Datagram(WithId(reply, query.header.id), client)]
            && (outcome.Done? ==> s2.requests == s.requests - {id}))
  {
  }

  /** A reply for an id that was never handed out is discarded: nothing is
      sent and nothing changes. */
  lemma UnsolicitedReplyIgnored(s: State, rec: Message, now: int)
    requires rec.header.id < 0 || rec.header.id >= ID_MODULUS
    requires Inv(s)
    ensures OnResponse(s, rec, now) == (s, Done)
  {
  }

  /** The three end-to-end scenarios: a query for example.com from client
      `a` (id 5) misses the empty cache and goes upstream under a new id; the
      upstream answer (TTL 300) goes back to `a` with id 5 and is cached; ten
      seconds later a query from `b` (id 9) is answered from the cache with
      id 9 and TTL 290 without going upstream; a reply under an id never
      handed out is dropped. */
  lemma ExampleComScenario(upstream: Addr, a: Addr, b: Addr, answer: Record)
    requires answer.ttl == 300
    ensures
      var q := Question("example.com", 1, 1);
      var query := Message(Header(5, QR_QUERY, 0), q, [], [], []);
      var (s1, _) := Dispatch(Init(), [upstream], query, a, 1000);
      var forwarded := s1.outbox[0].msg;
      var reply := Message(Header(forwarded.header.id, QR_RESPONSE, 0), q, [answer], [], []);
      var (s2, _) := Dispatch(s1, [upstream], reply, upstream, 1000);
      var query2 := Message(Header(9, QR_QUERY, 0), q, [], [], []);
      var (s3, _) := Dispatch(s2, [upstream], query2, b, 1010);
      var stray := Message(Header(77, QR_RESPONSE, 0), q, [answer], [], []);
      && |s1.outbox| == 1 && s1.outbox[0].dest == upstream && forwarded.header.id != 5
      && |s2.outbox| == 2 && s2.outbox[1] == Datagram(WithId(reply, 5), a)
      && q in s2.cache && s2.cache[q].expires == 1300
      && |s3.outbox| == 3 && s3.outbox[2].dest == b
      && s3.outbox[2].msg.header.id == 9 && s3.outbox[2].msg.rr == [answer.(ttl := 290)]
      && s3.idCounter == s2.idCounter && s3.requests == s2.requests
      && Dispatch(s3, [upstream], stray, upstream, 1020) == (s3, Done)
  {
  }
}
