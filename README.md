# pulpdns `Server` in Dafny

A model of the `Server` class of pulpdns, a small UDP DNS forwarding proxy.
The server keeps three pieces of state and updates them in place:

- `id_counter`, the last proxy-local transaction id handed out;
- `requests`, the pending-request table from proxy id to the client's own id and address;
- `cache`, the response cache from the question triple (qname, qtype, qclass) to the
  answer, authority and additional sections, rcode and absolute expiry of the last
  successful response.

A query that misses the cache is forwarded to the first upstream resolver under a
new proxy id. The upstream reply is relayed to the client under the client's own id
and is then offered to the cache. A query that hits the cache is answered directly,
with every answer TTL set to the entry's remaining lifetime.

Files:

- `dns.dfy` (module `Dns`): parsed messages, headers, questions, records, addresses,
  the datagrams the server sends, and an `Outcome` for handlers that raise.
- `cache.dfy` (module `Cache`): the cache as a value, with `Insert` (what `add_to_cache`
  does) and `Lookup` (what `get_from_cache` does), and lemmas about freshness, expiry,
  last-write-wins, failure responses and repeated lookups.
- `multiplexer.dfy` (module `Multiplexer`): the id counter arithmetic and the pending
  table, `Register` and `Resolve`, and lemmas on one-shot resolution, the id round
  trip and id wrap-around.
- `proxy.dfy` (module `Proxy`): the whole server state as a value, the two handlers
  and the dispatch as functions of it, and lemmas over several handler calls
  (duplicate replies, forward-then-relay, the example.com scenarios).
- `server.dfy` (module `Server`): the `Server` class. Its fields are the counter, the two
  maps, the forwarder list and an `outbox` of sent datagrams. Each handler is a method
  with a `modifies` clause, proved to leave exactly the state the matching `Proxy`
  function computes. `GetFromCache` rewrites the stored TTLs one record at a time in a
  loop, as the source does.

Modelling choices:

- Sending a datagram (`self.s.sendto`) is an append of (message, destination) to `outbox`.
- The clock (`time.time()`) is an integer argument `now`. So `int(expires - now)` is exact
  subtraction, and on a hit it is never negative because a hit needs `now <= expires`.
- An exception raised by a handler escapes `run` and ends the server. A handler returns
  `Raised(error)`, and the state is what it was at the moment of the raise:
  - `add_to_cache` on a NOERROR reply with an empty answer section raises ValueError
    from `min` (main.py:103). By then `on_response` has already sent the reply. It has
    not yet deleted the pending entry (main.py:64-67), so the entry stays.
  - `on_request` with no forwarders raises IndexError (main.py:47). By then the counter
    and the pending table have already been updated.
- On a hit, the reply's header is a copy of the query's header with only the rcode
  replaced (main.py:82-83). So the reply keeps the query's id and QR bit.
- `get_from_cache` writes the remaining TTL into the stored answer records themselves
  (main.py:85-86). The model rewrites the stored entry's `rr` and returns the same record
  values in the reply.
- A cache hit at exactly `now == expires` is still fresh, because the test is
  `now > expires` (main.py:79); it serves answer TTLs of 0.

## Model

| member | source | states |
|---|---|---|
| Cache.MinTtl | main.py:103 | the expiry TTL is one of the answer TTLs and no answer TTL is smaller |
| Cache.WithTtl | main.py:85-86 | the rewritten answer section has the same records in the same order, each with only its TTL changed |
| Cache.Insert | main.py:96-120 | a non-NOERROR response leaves the cache as it was; NOERROR with no answers raises ValueError and stores nothing; otherwise only the entry under the question is replaced, with the response's sections, rcode 0 and expiry `now` plus the smallest answer TTL; stored entries stay NOERROR with answers |
| Cache.Lookup | main.py:69-94 | a miss exactly when the question is absent or `now > expires`, and a miss changes nothing; a hit carries the request's header with the cached rcode, the request's question and the cached authority and additional sections, and every answer record has TTL `expires - now >= 0`; the stored answers are rewritten to those same TTLs; keys, expiries, rcodes and other sections are unchanged |
| Cache.MinimumTtlExample | main.py:103-111 | answers with TTLs 30, 60 and 10 give an entry expiring at `now + 10` |
| Cache.FreshUntilExpiry | main.py:69-120 | after a successful insert at `t0`, a lookup for the same question hits exactly when `now <= t0 + min TTL`; the hit has rcode 0, the response's authority and additional sections, and answer TTLs `t0 + min TTL - now` |
| Cache.LastWriteWins | main.py:120 | a later successful insert for the same question leaves the same cache whatever an earlier insert did |
| Cache.FailuresNeverCached | main.py:99-101 | inserting an error response changes no later lookup |
| Cache.SuccessiveLookups | main.py:79-86 | after a hit at `now1`, a lookup at `now2 >= now1` hits exactly until the original expiry and serves each TTL reduced by `now2 - now1`, so the in-place rewrite does not drift |
| Cache.LookupIdempotent | main.py:85-86 | two lookups at the same instant serve the same reply and the second leaves the cache unchanged |
| Multiplexer.NextId | main.py:40 | proxy ids lie in 0..65534; the counter goes up by one and wraps from 65534 to 0 |
| Multiplexer.Register | main.py:37-44 | the new id is the next counter value; the table gains the client's original id and address under it and no other key changes (an old entry under that id is overwritten) |
| Multiplexer.Resolve | main.py:53-67 | found exactly when the id is pending, returning its entry and removing only that key; an unknown id changes nothing |
| Multiplexer.ResolveOnce | main.py:53-67 | a proxy id resolves at most once |
| Multiplexer.RegisterThenResolve | main.py:37-67 | the id handed out resolves to the client's original id and address |
| Multiplexer.AdvanceIsShift | main.py:40 | after `k` forwarded queries the counter is `(counter + k) % 0xffff` |
| Multiplexer.ConsecutiveIdsDistinct | main.py:39-44 | queries forwarded fewer than 0xffff registrations apart get different ids |
| Multiplexer.WraparoundRepeatsId | main.py:40-44 | the query forwarded 0xffff registrations later gets the same id again |
| Dns.WithId | main.py:41 | the message with only its header id replaced, as `rec.header.id = ...` does on forwarding (main.py:41) and on relaying (main.py:61) |
| Proxy.Init | main.py:16-22 | the initial state has counter 0, empty tables, nothing sent, and satisfies the invariant |
| Proxy.OnRequest | main.py:27-47 | on a hit, exactly one reply goes to the client with its own id, and counter and pending table are unchanged; on a miss, the counter advances to the next id, the table gains the client's entry under it and no other key changes, the cache is unchanged, and exactly one datagram goes to the first forwarder with the new id (IndexError when there is none); the invariant is kept |
| Proxy.OnResponse | main.py:49-67 | an unknown id changes nothing and sends nothing; a pending id sends the reply with the original id restored to the stored client, hands it to the cache, and deletes the entry unless the cache raised; the invariant is kept |
| Proxy.Dispatch | main.py:133-141 | a datagram with QR 1 is handled as a response and one with QR 0 as a query |
| Proxy.ForwardingAdvancesCounter | main.py:37-47 | after `k` consecutive queries that miss the cache, the counter is `Advance(counter, k)` (by `Multiplexer.AdvanceIsShift`, `(counter + k) % 0xffff`) and the cache is unchanged, which ties the wrap-around lemmas to `on_request` |
| Proxy.DuplicateReplyDropped | main.py:53-67 | once a reply for a pending id has been handled, a second reply with that id sends nothing and changes nothing |
| Proxy.ForwardThenRelay | main.py:37-62 | a forwarded query goes to the first forwarder under the new id, and the reply with that id goes back to the same client with the client's own id; the pending table then ends as before apart from that id |
| Proxy.UnsolicitedReplyIgnored | main.py:52-54 | a reply with an id the counter can never produce is discarded |
| Proxy.ExampleComScenario | main.py:27-120 | example.com from `a` with id 5 is forwarded under another id; the TTL 300 answer reaches `a` with id 5 and is cached until 1300; at 1010 `b` with id 9 is answered from the cache with TTL 290 without touching the pending table; a reply with a stray id is dropped |
| Server.Server.constructor | main.py:16-22 | a new server starts with counter 0, empty tables and nothing sent |
| Server.Server.GetFromCache | main.py:69-94 | the loop rewrites each stored answer TTL to `expires - now`; result and new cache are those of `Cache.Lookup` |
| Server.Server.AddToCache | main.py:96-120 | the new cache and the outcome are those of `Cache.Insert` |
| Server.Server.OnRequest | main.py:27-47 | the new state and outcome are those of `Proxy.OnRequest`; on a miss the counter is `(old + 1) % 0xffff` and the table gains that key |
| Server.Server.OnResponse | main.py:49-67 | the new state and outcome are those of `Proxy.OnResponse`; an unknown id changes nothing; a handled id is no longer pending |
| Server.Server.Dispatch | main.py:133-141 | the new state and outcome are those of `Proxy.Dispatch` |
| Server.ExampleComSession | main.py:27-120 | on a fresh server, the example.com session sends the upstream query under a new id, relays the answer to `a` with id 5, and answers `b` from the cache with id 9 and TTL 290 |

## Left out

- Socket creation, `bind`, `sendto` and `recvfrom` (main.py:24-25, 33, 47, 62, 131) are network I/O. A send is an append to `outbox`.
- `DNSRecord.parse`, `pack` and `copy.deepcopy` (main.py:82, 133) belong to the dnslib codec, which is not part of this model. A malformed datagram, which makes `parse` raise, is therefore not modelled.
- Messages have exactly one question. dnslib's `rec.q` accessor for messages with no question or several questions is not modelled.
- `time.time()` returns a float. With an integer `now`, the truncation in `int(expires - now)` and sub-second expiry are not modelled.
- The infinite loop of `run` and `__main__` (main.py:122-145) are plumbing. The routing inside the loop is `Dispatch`. The stop of the loop on a raised exception shows up only as the `Raised` outcome.
- Aliasing between the reply built on a cache hit and the stored record objects is not modelled. Both are equal values when the reply is returned, and the reply is packed right away.
- The unused socket parameter `s` of `on_request` and `on_response` is dropped.
- Header ids and TTLs are unbounded integers. The 16-bit id and 32-bit TTL field widths are enforced by the codec, which is not part of this model.
- Cache keys compare query names as exact strings. Name equality and hashing of dnslib labels belong to the codec, which is not part of this model, so a codec that compares names case-insensitively would make "EXAMPLE.com" hit an entry stored under "example.com", where the model misses.
