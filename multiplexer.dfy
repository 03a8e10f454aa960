/** The request multiplexer of `Server`: the proxy-local id counter and the
    table of pending requests that maps a proxy id back to the client's own
    id and address. The functions here specify what `Server.OnRequest` and
    `Server.OnResponse` do to that state. */
module Multiplexer {
  import opened Dns

  /** Proxy ids are taken modulo 0xffff, so they lie in 0..65534 and 65535
      is never used. */
  const ID_MODULUS: int := 0xffff

  /** What the proxy remembers about a forwarded query. */
  datatype Pending = Pending(originalId: int, client: Addr)

  /** Pending requests by proxy id. */
  type Table = map<int, Pending>

  /** Every pending proxy id is one the counter can produce. */
  ghost predicate IdsInRange(table: Table)
  {
    forall id :: id in table ==> 0 <= id < ID_MODULUS
  }

  /** `(id_counter + 1) % 0xffff`: counts up by one and wraps from 65534 to 0. */
  function NextId(counter: int): (id: int)
    ensures 0 <= id < ID_MODULUS
    ensures -1 <= counter < ID_MODULUS - 1 ==> id == counter + 1
    ensures counter == ID_MODULUS - 1 ==> id == 0
  {
    (counter + 1) % ID_MODULUS
  }

  /** Advance the counter and record the client's id and address under the
      new proxy id; an entry already under that id (a wrap-around collision)
      is overwritten. Returns the new id, which is also the new counter. */
  function Register(table: Table, counter: int, originalId: int, client: Addr): (r: (int, Table))
    ensures 0 <= r.0 < ID_MODULUS
    ensures r.0 == NextId(counter)
    ensures r.1.Keys == table.Keys + {r.0}
    ensures r.1[r.0] == Pending(originalId, client)
    ensures forall id :: id in table && id != r.0 ==> r.1[id] == table[id]
    ensures IdsInRange(table) ==> IdsInRange(r.1)
  {
    var id := NextId(counter);
    (id, table[id := Pending(originalId, client)])
  }

  /** Look up a proxy id and take it out of the table: an unknown id is not
      found and changes nothing. */
  function Resolve(table: Table, id: int): (r: (Option<Pending>, Table))
    ensures r.0.Some? <==> id in table
    ensures r.0.Some? ==> r.0.value == table[id]
    ensures r.0.Some? ==> r.1.Keys == table.Keys - {id}
    ensures r.0.None? ==> r.1 == table
    ensures forall k :: k in r.1 ==> k in table && r.1[k] == table[k]
  {
    if id in table then (Some(table[id]), table - {id}) else (None, table)
  }

  /** A proxy id resolves once: resolving it again finds nothing. */
  lemma ResolveOnce(table: Table, id: int)
    ensures Resolve(Resolve(table, id).1, id).0 == None
  {
  }

  /** Round trip: the id handed out by `Register` resolves to the client's
      original id and address, and resolving it removes only that entry. */
  lemma RegisterThenResolve(table: Table, counter: int, originalId: int, client: Addr)
    ensures var (id, t1) := Register(table, counter, originalId, client);
      Resolve(t1, id) == (Some(Pending(originalId, client)), table - {id})
  {
    var (id, t1) := Register(table, counter, originalId, client);
    assert t1 - {id} == table - {id};
  }

  /** The counter after `k` forwarded queries. */
  function Advance(counter: int, k: nat): int
  {
    if k == 0 then counter else NextId(Advance(counter, k - 1))
  }

  lemma {:induction false} AdvanceIsShift(counter: int, k: nat)
    requires 0 <= counter < ID_MODULUS
    ensures Advance(counter, k) == (counter + k) % ID_MODULUS
  {
    if k > 0 {
      AdvanceIsShift(counter, k - 1);
      var x := counter + k - 1;
      var q := x / ID_MODULUS;
      assert x == q * ID_MODULUS + x % ID_MODULUS;
      if x % ID_MODULUS < ID_MODULUS - 1 {
        assert (x + 1) % ID_MODULUS == x % ID_MODULUS + 1 by {
          assert x + 1 == q * ID_MODULUS + (x % ID_MODULUS + 1);
        }
      } else {
        assert (x + 1) % ID_MODULUS == 0 by {
          assert x + 1 == (q + 1) * ID_MODULUS;
        }
      }
    }
  }

  /** Ids handed to fewer than 65535 consecutive forwarded queries are pairwise
      distinct; the `i`-th and the `j`-th differ whenever `j - i < 0xffff`. */
  lemma ConsecutiveIdsDistinct(counter: int, i: nat, j: nat)
    requires 0 <= counter < ID_MODULUS
    requires i < j < i + ID_MODULUS
    ensures Advance(counter, i) != Advance(counter, j)
  {
    AdvanceIsShift(counter, i);
    AdvanceIsShift(counter, j);
    var a := counter + i;
    var d := j - i;
    var q := a / ID_MODULUS;
    var r := a % ID_MODULUS;
    assert a == q * ID_MODULUS + r;
    if r + d < ID_MODULUS {
      assert (a + d) % ID_MODULUS == r + d by {
        assert a + d == q * ID_MODULUS + (r + d);
      }
    } else {
      assert (a + d) % ID_MODULUS == r + d - ID_MODULUS by {
        assert a + d == (q + 1) * ID_MODULUS + (r + d - ID_MODULUS);
      }
    }
  }

  /** Wrap-around: the query forwarded 0xffff registrations later gets the
      same id again, which is how a slow pending entry can be overwritten. */
  lemma WraparoundRepeatsId(counter: int, i: nat)
    requires 0 <= counter < ID_MODULUS
    ensures Advance(counter, i + ID_MODULUS) == Advance(counter, i)
  {
    AdvanceIsShift(counter, i);
    AdvanceIsShift(counter, i + ID_MODULUS);
    var a := counter + i;
    assert a + ID_MODULUS == (a / ID_MODULUS + 1) * ID_MODULUS + a % ID_MODULUS;
  }
}
