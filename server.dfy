/** The `Server` object: a DNS forwarding proxy whose handlers update its
    counter, pending-request table and cache in place. Sending a datagram is
    an append to `outbox`; the current time is the `now` argument. Each
    handler is proved to leave exactly the state that the matching function
    of `Proxy` computes from the state before. */
module Server {
  import opened Dns
  import opened Cache
  import opened Multiplexer
  import Proxy

  class Server {
    /** Upstream resolvers; only the first is ever used. */
    const forwarders: seq<Addr>
    /** Pending requests by proxy id. */
    var requests: Table
    /** Cached responses by question. */
    var cache: Store
    /** The last proxy id handed out. */
    var idCounter: int
    /** Every datagram sent on the socket so far, oldest first. */
    var outbox: seq<Datagram>

    /** The object's state as a `Proxy.State` value. */
    ghost function State(): Proxy.State
      reads this
    {
      Proxy.State(idCounter, requests, cache, outbox)
    }

    ghost predicate Valid()
      reads this
    {
      Proxy.Inv(State())
    }

    constructor (forwarders: seq<Addr>)
      ensures Valid()
      ensures this.forwarders == forwarders
      ensures State() == Proxy.Init()
    {
      this.forwarders := forwarders;
      requests := map[];
      cache := map[];
      idCounter := 0;
      outbox := [];
    }

    /** Answer `rec` from the cache, rewriting the TTL of every stored answer
        record to the entry's remaining lifetime. */
    method GetFromCache(rec: Message, now: int) returns (cached: Option<Message>)
      requires Valid()
      modifies this`cache
      ensures Valid()
      ensures cached.None? <==> rec.q !in old(cache) || now > old(cache)[rec.q].expires
      ensures cached.None? ==> cache == old(cache)
      ensures cached.Some? ==>
        && rec.q in cache
        && cached.value.header == rec.header.(rcode := old(cache)[rec.q].rcode)
        && cached.value.q == rec.q
        && cached.value.rr == cache[rec.q].rr
        && (forall i :: 0 <= i < |cached.value.rr| ==> cached.value.rr[i].ttl == old(cache)[rec.q].expires - now >= 0)
        && cache[rec.q].expires == old(cache)[rec.q].expires
      ensures (cached, cache) == Lookup(old(cache), rec, now)
    {
      var key := rec.q;
      if key !in cache {
        return None;
      }
      var entry := cache[key];
      if now > entry.expires {
        return None;
      }
      var header := rec.header.(rcode := entry.rcode);
      var remaining := entry.expires - now;
      var i := 0;
      while i < |cache[key].rr|
        invariant key in cache && |cache[key].rr| == |entry.rr|
        invariant 0 <= i <= |entry.rr|
        invariant cache == old(cache)[key := entry.(rr := cache[key].rr)]
        invariant forall j :: 0 <= j < i ==> cache[key].rr[j] == entry.rr[j].(ttl := remaining)
        invariant forall j :: i <= j < |entry.rr| ==> cache[key].rr[j] == entry.rr[j]
      {
        var r := cache[key].rr[i];
        cache := cache[key := cache[key].(rr := cache[key].rr[i := r.(ttl := remaining)])];
        i := i + 1;
      }
      assert cache[key].rr == WithTtl(entry.rr, remaining);
      cached := Some(Message(header, rec.q, cache[key].rr, cache[key].ns, cache[key].ar));
    }

    /** Store a successful response under its question, expiring after its
        smallest answer TTL. */
    method AddToCache(rec: Message, now: int) returns (outcome: Outcome)
      requires Valid()
      modifies this`cache
      ensures Valid()
      ensures rec.header.rcode != RCODE_NO_ERROR ==> outcome == Done && cache == old(cache)
      ensures rec.header.rcode == RCODE_NO_ERROR && rec.rr == [] ==>
        outcome == Raised(ValueError) && cache == old(cache)
      ensures rec.header.rcode == RCODE_NO_ERROR && rec.rr != [] ==>
        && outcome == Done
        && cache == old(cache)[rec.q := Entry(rec.rr, rec.ns, rec.ar, RCODE_NO_ERROR, now + MinTtl(rec.rr))]
      ensures (cache, outcome) == Insert(old(cache), rec, now)
    {
      if rec.header.rcode != RCODE_NO_ERROR {
        return Done;
      }
      if rec.rr == [] {
        return Raised(ValueError);
      }
      var ttl := MinTtl(rec.rr);
      var key := rec.q;
      var entry := Entry(rec.rr, [], [], rec.header.rcode, now + ttl);
      if rec.ar != [] {
        entry := entry.(ar := rec.ar);
      }
      if rec.ns != [] {
        entry := entry.(ns := rec.ns);
      }
      cache := cache[key := entry];
      return Done;
    }

    /** A query from a client: reply from the cache, or forward it upstream
        under a fresh proxy id. */
    method OnRequest(rec: Message, requestAddr: Addr, now: int) returns (outcome: Outcome)
      requires Valid()
      modifies this
      ensures Valid()
      ensures (State(), outcome) == Proxy.OnRequest(old(State()), forwarders, rec, requestAddr, now)
      ensures old(Lookup(cache, rec, now)).0.None? ==>
        && idCounter == (old(idCounter) + 1) % ID_MODULUS
        && requests == old(requests)[idCounter := Pending(rec.header.id, requestAddr)]
    {
      var cached := GetFromCache(rec, now);
      if cached.Some? {
        outbox := outbox + [Datagram(cached.value, requestAddr)];
        return Done;
      }
      var originalReqId := rec.header.id;
      idCounter := (idCounter + 1) % ID_MODULUS;
      var forwarded := WithId(rec, idCounter);
      requests := requests[forwarded.header.id := Pending(originalReqId, requestAddr)];
      if |forwarders| == 0 {
        return Raised(IndexError);
      }
      outbox := outbox + [Datagram(forwarded, forwarders[0])];
      return Done;
    }

    /** A reply from upstream: relay it to the client that asked, cache it,
        and forget the pending request. */
    method OnResponse(rec: Message, now: int) returns (outcome: Outcome)
      requires Valid()
      modifies this
      ensures Valid()
      ensures (State(), outcome) == Proxy.OnResponse(old(State()), rec, now)
      ensures rec.header.id !in old(requests) ==> State() == old(State()) && outcome == Done
      ensures rec.header.id in old(requests) && outcome.Done? ==> rec.header.id !in requests
    {
      if rec.header.id !in requests {
        return Done;
      }
      var ourReqId := rec.header.id;
      var pending := requests[rec.header.id];
      var reply := WithId(rec, pending.originalId);
      outbox := outbox + [Datagram(reply, pending.client)];
      outcome := AddToCache(reply, now);
      if outcome.Raised? {
        return;
      }
      requests := requests - {ourReqId};
    }

    /** One parsed datagram from `run`'s loop, routed by its QR bit. */
    method Dispatch(rec: Message, from: Addr, now: int) returns (outcome: Outcome)
      requires Valid()
      modifies this
      ensures Valid()
      ensures (State(), outcome) == Proxy.Dispatch(old(State()), forwarders, rec, from, now)
    {
      if rec.header.qr == QR_RESPONSE {
        outcome := OnResponse(rec, now);
      } else if rec.header.qr == QR_QUERY {
        outcome := OnRequest(rec, from, now);
      }
    }
  }

  /** A session against a fresh server forwarding to `upstream`: client `a`
      asks for example.com with id 5, the upstream answer (TTL 300) arrives
      under the proxy id, and ten seconds later client `b` asks the same
      question with id 9. Returns everything the server sent. */
  method ExampleComSession(upstream: Addr, a: Addr, b: Addr, answer: Record) returns (sent: seq<Datagram>)
    requires answer.ttl == 300
    ensures |sent| == 3
    ensures sent[0].dest == upstream && sent[0].msg.header.id != 5
    ensures sent[1].dest == a && sent[1].msg.header.id == 5 && sent[1].msg.rr == [answer]
    ensures sent[2].dest == b && sent[2].msg.header.id == 9 && sent[2].msg.rr == [answer.(ttl := 290)]
  {
    var server := new Server([upstream]);
    var q := Question("example.com", 1, 1);
    var o1 := server.Dispatch(Message(Header(5, QR_QUERY, 0), q, [], [], []), a, 1000);
    var proxyId := server.outbox[0].msg.header.id;
    assert proxyId == 1;
    var o2 := server.Dispatch(Message(Header(proxyId, QR_RESPONSE, 0), q, [answer], [], []), upstream, 1000);
    assert MinTtl([answer]) == 300;
    assert server.cache == map[q := Entry([answer], [], [], 0, 1300)];
    assert WithTtl([answer], 290) == [answer.(ttl := 290)];
    var o3 := server.Dispatch(Message(Header(9, QR_QUERY, 0), q, [], [], []), b, 1010);
    sent := server.outbox;
  }
}
