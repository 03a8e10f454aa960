/** The parts of a parsed DNS message that the proxy reads and writes.
    Parsing and packing the wire format belong to the message codec, which is
    not part of this model; a message here is already parsed. */
module Dns {

  /** Value of the header's QR bit for a query and for a response. */
  const QR_QUERY: int := 0
  const QR_RESPONSE: int := 1

  /** The only response code the proxy treats as success (NOERROR). */
  const RCODE_NO_ERROR: int := 0

  /** The QR field is a single bit of the header. */
  type Bit = b: int | 0 <= b <= 1

  datatype Header = Header(id: int, qr: Bit, rcode: int)

  /** The (name, type, class) triple of the message's question. */
  datatype Question = Question(qname: string, qtype: int, qclass: int)

  /** A resource record; only `ttl` is ever read or written by the proxy. */
  datatype Record = Record(rname: string, rtype: int, rclass: int, ttl: int, rdata: seq<int>)

  /** A parsed message: header, question, and the answer (`rr`),
      authority (`ns`) and additional (`ar`) sections. */
  datatype Message = Message(header: Header, q: Question, rr: seq<Record>, ns: seq<Record>, ar: seq<Record>)

  /** A UDP endpoint (host, port). */
  datatype Addr = Addr(host: string, port: int)

  /** One datagram handed to the socket: the message and where it goes. */
  datatype Datagram = Datagram(msg: Message, dest: Addr)

  datatype Option<T> = None | Some(value: T)

  /** The Python exceptions the handlers can raise. */
  datatype PyError = IndexError | ValueError

  /** How a handler ended: normally, or by raising. A raised exception leaves
      `run` and so ends the server. */
  datatype Outcome = Done | Raised(error: PyError)

  /** The message with its header id replaced, as `rec.header.id = ...` does. */
  function WithId(m: Message, id: int): (r: Message)
    ensures r.header.id == id
    ensures r.header.qr == m.header.qr && r.header.rcode == m.header.rcode
    ensures r.q == m.q && r.rr == m.rr && r.ns == m.ns && r.ar == m.ar
  {
    m.(header := m.header.(id := id))
  }
}
