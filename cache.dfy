/** The response cache of `Server`: a map from a question's
    (qname, qtype, qclass) to the sections, rcode and absolute expiry of the
    last successful response seen for it. The functions here specify what
    `Server.GetFromCache` and `Server.AddToCache` do to the cache. */
module Cache {
  import opened Dns

  /** One cached response; `expires` is an absolute time. */
  datatype Entry = Entry(rr: seq<Record>, ns: seq<Record>, ar: seq<Record>, rcode: int, expires: int)

  /** The cache is keyed by the question triple. */
  type Store = map<Question, Entry>

  /** Every stored entry came from a NOERROR response with at least one answer. */
  ghost predicate WellFormed(store: Store)
  {
    forall k :: k in store ==> store[k].rcode == RCODE_NO_ERROR && |store[k].rr| > 0
  }

  /** `min(r.ttl for r in rr)`; Python's `min` raises on an empty sequence,
      so callers check for that first. */
  function MinTtl(rr: seq<Record>): (t: int)
    requires |rr| > 0
    ensures exists i :: 0 <= i < |rr| && rr[i].ttl == t
    ensures forall i :: 0 <= i < |rr| ==> t <= rr[i].ttl
  {
    if |rr| == 1 then rr[0].ttl
    else
      var rest := MinTtl(rr[1..]);
      if rr[0].ttl <= rest then rr[0].ttl else rest
  }

  /** The records of `rr` with every TTL set to `ttl` and nothing else changed. */
  function WithTtl(rr: seq<Record>, ttl: int): (out: seq<Record>)
    ensures |out| == |rr|
    ensures forall i :: 0 <= i < |rr| ==> out[i] == rr[i].(ttl := ttl)
  {
    if rr == [] then [] else [rr[0].(ttl := ttl)] + WithTtl(rr[1..], ttl)
  }

  /** What `add_to_cache` does: error responses are ignored; a NOERROR
      response with no answer makes `min` raise ValueError and nothing is
      stored; otherwise the entry under the question is replaced by one that
      expires at `now` plus the smallest answer TTL. */
  function Insert(store: Store, rec: Message, now: int): (r: (Store, Outcome))
    ensures rec.header.rcode != RCODE_NO_ERROR ==> r == (store, Done)
    ensures rec.header.rcode == RCODE_NO_ERROR && rec.rr == [] ==> r == (store, Raised(ValueError))
    ensures rec.header.rcode == RCODE_NO_ERROR && rec.rr != [] ==>
      && r.1 == Done
      && r.0.Keys == store.Keys + {rec.q}
      && (forall k :: k in store && k != rec.q ==> r.0[k] == store[k])
      && r.0[rec.q].rr == rec.rr && r.0[rec.q].ns == rec.ns && r.0[rec.q].ar == rec.ar
      && r.0[rec.q].rcode == RCODE_NO_ERROR
      && (exists i :: 0 <= i < |rec.rr| && r.0[rec.q].expires == now + rec.rr[i].ttl)
      && (forall i :: 0 <= i < |rec.rr| ==> r.0[rec.q].expires <= now + rec.rr[i].ttl)
    ensures WellFormed(store) ==> WellFormed(r.0)
  {
    if rec.header.rcode != RCODE_NO_ERROR then (store, Done)
    else if rec.rr == [] then (store, Raised(ValueError))
    else
      var entry := Entry(rec.rr, rec.ns, rec.ar, rec.header.rcode, now + MinTtl(rec.rr));
      (store[rec.q := entry], Done)
  }

  /** What `get_from_cache` does: a miss when the question is absent or
      `now > expires`; on a hit, every stored answer TTL is overwritten with
      the remaining lifetime and the reply is built from the request's header
      (rcode replaced) and question and the cached sections. Returns the reply
      and the cache afterwards. */
  function Lookup(store: Store, rec: Message, now: int): (r: (Option<Message>, Store))
    ensures r.0.None? <==> rec.q !in store || now > store[rec.q].expires
    ensures r.0.None? ==> r.1 == store
    ensures r.0.Some? ==>
      var e := store[rec.q];
      var reply := r.0.value;
      && reply.header == rec.header.(rcode := e.rcode)
      && reply.q == rec.q
      && reply.ns == e.ns && reply.ar == e.ar
      && |reply.rr| == |e.rr|
      && (forall i :: 0 <= i < |e.rr| ==>
            reply.rr[i] == e.rr[i].(ttl := e.expires - now) && reply.rr[i].ttl >= 0)
      && r.1 == store[rec.q := e.(rr := reply.rr)]
    ensures r.1.Keys == store.Keys
    ensures forall k :: k in store ==>
      && r.1[k].expires == store[k].expires && r.1[k].rcode == store[k].rcode
      && r.1[k].ns == store[k].ns && r.1[k].ar == store[k].ar
      && |r.1[k].rr| == |store[k].rr|
    ensures WellFormed(store) ==> WellFormed(r.1)
  {
    if rec.q !in store then (None, store)
    else
      var e := store[rec.q];
      if now > e.expires then (None, store)
      else
        var rr := WithTtl(e.rr, e.expires - now);
        (Some(Message(rec.header.(rcode := e.rcode), rec.q, rr, e.ns, e.ar)), store[rec.q := e.(rr := rr)])
  }

  /** The TTL minimum law: answers with TTLs 30, 60 and 10 give an entry that
      expires ten seconds after insertion. */
  lemma MinimumTtlExample(rec: Message, store: Store, now: int)
    requires rec.header.rcode == RCODE_NO_ERROR
    requires |rec.rr| == 3 && rec.rr[0].ttl == 30 && rec.rr[1].ttl == 60 && rec.rr[2].ttl == 10
    ensures Insert(store, rec, now).0[rec.q].expires == now + 10
  {
  }

  /** A response inserted at `t0` is served exactly until `t0` plus its
      smallest answer TTL, inclusive, with the remaining lifetime as TTL, its
      own rcode, authority and additional sections; one instant later it is a
      miss. */
  lemma FreshUntilExpiry(store: Store, resp: Message, t0: int, req: Message, now: int)
    requires resp.header.rcode == RCODE_NO_ERROR && resp.rr != []
    requires req.q == resp.q
    ensures var hit := Lookup(Insert(store, resp, t0).0, req, now).0;
      && (hit.Some? <==> now <= t0 + MinTtl(resp.rr))
      && (hit.Some? ==>
            && hit.value.header == req.header.(rcode := RCODE_NO_ERROR)
            && hit.value.ns == resp.ns && hit.value.ar == resp.ar
            && |hit.value.rr| == |resp.rr|
            && forall i :: 0 <= i < |resp.rr| ==>
                 hit.value.rr[i] == resp.rr[i].(ttl := t0 + MinTtl(resp.rr) - now))
  {
  }

  /** The last insert for a question wins: whatever an earlier successful or
      failed insert did, a later successful insert for the same question
      leaves the same cache as if it had been the only one. */
  lemma LastWriteWins(store: Store, first: Message, t1: int, second: Message, t2: int)
    requires first.q == second.q
    requires second.header.rcode == RCODE_NO_ERROR && second.rr != []
    ensures Insert(Insert(store, first, t1).0, second, t2).0 == Insert(store, second, t2).0
  {
  }

  /** Error responses never create or replace an entry. */
  lemma FailuresNeverCached(store: Store, resp: Message, now: int, req: Message, later: int)
    requires resp.header.rcode != RCODE_NO_ERROR
    ensures Lookup(Insert(store, resp, now).0, req, later) == Lookup(store, req, later)
  {
  }

  /** Rewriting the stored TTLs in place does not drift: the TTL served by a
      later lookup is the TTL served by an earlier one minus the time that
      passed, and the entry stays fresh exactly until its original expiry. */
  lemma SuccessiveLookups(store: Store, req1: Message, now1: int, req2: Message, now2: int)
    requires req1.q == req2.q && now1 <= now2
    requires Lookup(store, req1, now1).0.Some?
    ensures var (first, mid) := Lookup(store, req1, now1);
      var second := Lookup(mid, req2, now2).0;
      && (second.Some? <==> now2 <= store[req1.q].expires)
      && (second.Some? ==>
            && |second.value.rr| == |first.value.rr|
            && forall i :: 0 <= i < |first.value.rr| ==>
                 second.value.rr[i] == first.value.rr[i].(ttl := first.value.rr[i].ttl - (now2 - now1)))
  {
  }

  /** Two lookups at the same instant serve the same reply, and the second
      leaves the cache as the first left it. */
  lemma {:induction false} LookupIdempotent(store: Store, req: Message, now: int)
    ensures var (first, mid) := Lookup(store, req, now);
      Lookup(mid, req, now) == (first, mid)
  {
    var (first, mid) := Lookup(store, req, now);
    if first.Some? {
      var e := store[req.q];
      var rr := WithTtl(e.rr, e.expires - now);
      assert mid[req.q] == e.(rr := rr);
      assert WithTtl(rr, e.expires - now) == rr;
      assert mid[req.q := mid[req.q].(rr := rr)] == mid;
    }
  }
}
