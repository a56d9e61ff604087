/** A connection from accept to splice: read until the hello parses, replay what
    was read, copy the rest. */
module Relay {
  import opened Bytes
  import opened Text
  import opened ClientHello
  import opened HelloProofs
  import opened HelloErrors
  import ProxyHeader

  /** The client's side of a connection: the bytes it still has to give before
      it ends or fails. */
  class ClientConn {
    var unread: bytes

    constructor (stream: bytes)
      ensures unread == stream
    {
      unread := stream;
    }

    /** One read of a connection into a buffer of `max` bytes: any number of the
        bytes to come, at least one, or an error once there are none. */
    method Read(max: nat) returns (ok: bool, chunk: bytes)
      modifies this
      ensures old(unread) == chunk + unread && |chunk| <= max
      ensures ok <==> max == 0 || old(unread) != []
      ensures ok && max > 0 ==> chunk != []
      ensures !ok ==> chunk == []
    {
      chunk := [];
      if max == 0 {
        return true, [];
      }
      if unread == [] {
        return false, [];
      }
      var n :| 1 <= n <= max && n <= |unread|;
      assert unread == unread[..n] + unread[n..];
      ok, chunk, unread := true, unread[..n], unread[n..];
    }
  }

  datatype Outcome = Ready(host: bytes, alpns: seq<bytes>) | Refused(error: Error) | ReadError

  /** What becomes of a client whose bytes, as far as the buffer takes them,
      parse to `r`. */
  function OutcomeFrom(r: Result, full: bool): Outcome
  {
    match r
    case Hello(host, alpns) => Ready(host, alpns)
    case Failed(error, _) => if error == Truncated && !full then ReadError else Refused(error)
  }

  function Taken(stream: bytes, size: nat): bytes
  {
    if |stream| <= size then stream else stream[..size]
  }

  /** What becomes of a client that sends `stream`, given the buffer size. */
  function OutcomeOf(stream: bytes, size: nat): Outcome
  {
    OutcomeFrom(Parse(Taken(stream, size)), |stream| >= size)
  }

  /** The first read that does not parse as truncated settles the outcome, and
      so does a full buffer. */
  lemma Settled(buf: bytes, rest: bytes, size: nat)
    requires |buf| <= size && (!IsTruncated(Parse(buf)) || |buf| == size)
    ensures OutcomeOf(buf + rest, size) == OutcomeFrom(Parse(buf), true)
  {
    var whole := Taken(buf + rest, size);
    assert buf <= whole;
    if !IsTruncated(Parse(buf)) {
      ResultIsStable(buf, whole);
    } else {
      assert whole == buf;
    }
  }

  /** A client gets through exactly when its first record fits the buffer, is a
      handshake record, arrives whole, and parses; its name and protocols are
      then those of that record, whatever follows it. */
  lemma ReadyIffRecordParses(stream: bytes, size: nat, host: bytes, alpns: seq<bytes>)
    ensures var b := Taken(stream, size);
            OutcomeOf(stream, size) == Ready(host, alpns)
            <==> HasRecord(b) && Parse(Record(b)) == Hello(host, alpns)
  {
    var b := Taken(stream, size);
    if HasRecord(b) {
      RecordDecides(b);
    } else if |b| < 5 || b[0] == 0x16 {
      IncompleteRecordIsTruncated(b);
    }
  }

  /** Each way of not getting through: not TLS; not a ClientHello; a whole hello
      that names no host; no result in a full buffer; no result when the client
      stops. */
  lemma RefusedIff(stream: bytes, size: nat)
    ensures var b, r := Taken(stream, size), OutcomeOf(stream, size);
            && (r == Refused(NotTLS) <==> |b| >= 5 && b[0] != 0x16)
            && (r == Refused(NotClientHello) <==> HasRecord(b) && FromBE(b[3..5]) >= 4 && b[5] != 1)
            && (r == Refused(NoSNI) <==> HasRecord(b) && Parse(Record(b)).Failed? && Parse(Record(b)).error == NoSNI)
            && (r == Refused(Truncated) <==> |stream| >= size && Undecided(b))
            && (r == ReadError <==> |stream| < size && Undecided(b))
  {
    var b := Taken(stream, size);
    ErrorKinds(b);
    if HasRecord(b) {
      RecordDecides(b);
    } else if |b| < 5 || b[0] == 0x16 {
      IncompleteRecordIsTruncated(b);
    }
  }

  /** A handshake record that is not all there, or is cut short inside. */
  ghost predicate Undecided(b: bytes)
  {
    || |b| < 5
    || (b[0] == 0x16 && (HasRecord(b) ==> IsTruncated(Parse(Record(b)))))
  }

  /** Every well-formed hello that names a host and fits the buffer gets through,
      with its own name and its own protocol list. */
  lemma HelloGetsThrough(h: ClientHello, later: bytes, size: nat)
    requires WellFormed(h)
    ensures HostOf(h.extensions) != [] && |WriteRecord(h)| <= size ==>
              OutcomeOf(WriteRecord(h) + later, size) == Ready(HostOf(h.extensions), ProtocolsOf(h.extensions))
  {
    if HostOf(h.extensions) != [] && |WriteRecord(h)| <= size {
      ParseReadsBack(h, []);
      assert WriteRecord(h) + [] == WriteRecord(h);
      Settled(WriteRecord(h), later, size);
    }
  }

  /** However the client's bytes are split into reads, the outcome is the same,
      and no byte read is lost. */
  method ReadHello(conn: ClientConn, size: nat) returns (buf: bytes, outcome: Outcome)
    modifies conn
    ensures outcome == OutcomeOf(old(conn.unread), size)
    ensures buf + conn.unread == old(conn.unread) && |buf| <= size
  {
    ghost var stream := conn.unread;
    buf := [];
    while true
      invariant buf + conn.unread == stream && |buf| <= size
      invariant buf == [] || |buf| < size
      invariant IsTruncated(Parse(buf))
      decreases size + 1 - |buf|
    {
      var ok, chunk := conn.Read(size - |buf|);
      if !ok {
        assert Taken(stream, size) == stream == buf;
        return buf, ReadError;
      }
      ghost var was := buf;
      buf := buf + chunk;
      assert buf + conn.unread == was + (chunk + conn.unread);
      var r := ParseClientHello(buf);
      if r.Hello? {
        Settled(buf, conn.unread, size);
        return buf, Ready(r.host, r.alpns);
      }
      if r.error == Truncated && |buf| < size {
        continue;
      }
      Settled(buf, conn.unread, size);
      return buf, Refused(r.error);
    }
  }

  /** The enclave's side: what it has received, and every state it has been in. */
  class BackendConn {
    var received: bytes
    ghost var moments: seq<bytes>
    ghost var broken: bool   // some write stopped short

    constructor ()
      ensures received == [] && moments == [] && !broken
    {
      received, moments, broken := [], [], false;
    }

    /** A write may stop short, with an error, anywhere. */
    method Write(b: bytes) returns (n: nat, ok: bool)
      modifies this
      ensures n <= |b| && (ok ==> n == |b|)
      ensures received == old(received) + b[..n]
      ensures moments == old(moments) + [received] && broken == (old(broken) || !ok)
    {
      n :| 0 <= n <= |b|;
      ok := n == |b|;
      broken := broken || !ok;
      received := received + b[..n];
      moments := moments + [received];
    }
  }

  /** Every state of the backend so far is a beginning of `all`. */
  ghost predicate OnlyPrefixes(moments: seq<bytes>, all: bytes)
  {
    forall i :: 0 <= i < |moments| ==> moments[i] <= all
  }

  const COPY_BUFFER := 32 * 1024

  /** copyWithIdleTimeout. `all` is what the backend would hold if nothing failed. */
  method Copy(dst: BackendConn, src: ClientConn, ghost all: bytes) returns (total: nat, failed: bool)
    requires dst.received + src.unread == all && OnlyPrefixes(dst.moments, all) && !dst.broken
    modifies dst, src
    ensures failed <==> dst.broken
    ensures OnlyPrefixes(dst.moments, all)
    ensures dst.received <= all && |dst.received| == |old(dst.received)| + total
    ensures !failed ==> dst.received == all && src.unread == []
  {
    total, failed := 0, false;
    while true
      invariant dst.received + src.unread == all && OnlyPrefixes(dst.moments, all) && !failed && !dst.broken
      invariant |dst.received| == |old(dst.received)| + total
      decreases |src.unread|
    {
      ghost var had := dst.received;
      var ok, chunk := src.Read(COPY_BUFFER);
      if chunk != [] {
        assert all == had + chunk + src.unread;
        var n, wrote := dst.Write(chunk);
        total := total + n;
        if !wrote {
          failed := true;
          return;
        }
        assert chunk[..n] == chunk;
      }
      if !ok {
        return;
      }
    }
  }

  /** The spliced part of a connection: an optional PROXY header, the bytes read
      for the hello, then the copy loop. At every moment the backend holds a
      beginning of header and client stream, and all of it if nothing failed. */
  method Splice(client: ClientConn, backend: BackendConn, header: Option<bytes>, hello: bytes) returns (failed: bool)
    requires backend.received == [] && backend.moments == [] && !backend.broken
    modifies client, backend
    ensures failed <==> backend.broken
    ensures var all := (if header.Some? then header.value else []) + hello + old(client.unread);
            && OnlyPrefixes(backend.moments, all)
            && backend.received <= all
            && (!failed ==> backend.received == all)
  {
    ghost var hdr := if header.Some? then header.value else [];
    ghost var all := hdr + hello + client.unread;
    if header.Some? {
      var n, ok := backend.Write(header.value);
      assert backend.received == hdr[..n];
      if !ok {
        return true;
      }
    }
    assert backend.received == hdr;
    var n, ok := backend.Write(hello);
    assert backend.received == hdr + hello[..n];
    if !ok {
      return true;
    }
    assert hello[..n] == hello;
    var total;
    total, failed := Copy(backend, client, all);
  }

  // ---- From the first byte to the backend ----

  /** The PROXY header a spliced backend gets: none without TCP addresses. */
  function HeaderSent(wanted: bool, src: ProxyHeader.Addr, dst: ProxyHeader.Addr): bytes
  {
    if wanted && src.Tcp? && dst.Tcp? then ProxyHeader.HeaderOf(src, dst) else []
  }

  /** Either the header is still on its way, or what the backend holds decodes
      to both endpoints followed by a beginning of the client's stream. */
  ghost predicate AnnouncesThenRelays(held: bytes, src: ProxyHeader.Addr, dst: ProxyHeader.Addr, stream: bytes)
    requires src.Tcp? && dst.Tcp?
  {
    var n := |ProxyHeader.HeaderOf(src, dst)|;
    |held| < n || (held[n..] <= stream && ProxyHeader.Intact(ProxyHeader.Decode(held), src, dst, held[n..]))
  }

  lemma PrefixAnnounces(held: bytes, src: ProxyHeader.Addr, dst: ProxyHeader.Addr, stream: bytes)
    requires ProxyHeader.ValidAddr(src) && ProxyHeader.ValidAddr(dst)
    requires held <= ProxyHeader.HeaderOf(src, dst) + stream
    ensures AnnouncesThenRelays(held, src, dst, stream)
  {
    var h := ProxyHeader.HeaderOf(src, dst);
    if |held| >= |h| {
      CutPrefix(held, h, stream);
      ProxyHeader.HeaderRoundTrip(src, dst, held[|h|..]);
    }
  }

  lemma CutPrefix(held: bytes, h: bytes, stream: bytes)
    requires held <= h + stream && |h| <= |held|
    ensures held == h + held[|h|..] && held[|h|..] <= stream
  {
    assert held == (h + stream)[..|held|];
    assert held[|h|..] == stream[..|held| - |h|];
  }

  /** A spliced connection whole, from its first byte: the hello is read in
      whatever pieces it comes, then header, hello and the rest go out. At every
      moment the backend holds a beginning of header and client stream; with
      valid addresses that decodes to both endpoints and a beginning of the
      client's own stream, and to all of it if nothing failed. */
  method SpliceClient(client: ClientConn, backend: BackendConn, size: nat,
                      wanted: bool, src: ProxyHeader.Addr, dst: ProxyHeader.Addr)
    returns (outcome: Outcome, failed: bool)
    requires backend.received == [] && backend.moments == [] && !backend.broken
    modifies client, backend
    ensures outcome == OutcomeOf(old(client.unread), size)
    ensures failed <==> !outcome.Ready? || backend.broken
    ensures !outcome.Ready? ==> backend.received == [] && backend.moments == []
    ensures var all := HeaderSent(wanted, src, dst) + old(client.unread);
            && OnlyPrefixes(backend.moments, all) && backend.received <= all
            && (!failed ==> backend.received == all)
    ensures !wanted ==> backend.received <= old(client.unread) && OnlyPrefixes(backend.moments, old(client.unread))
    ensures wanted && ProxyHeader.ValidAddr(src) && ProxyHeader.ValidAddr(dst) ==>
              && AnnouncesThenRelays(backend.received, src, dst, old(client.unread))
              && forall i :: 0 <= i < |backend.moments| ==>
                   AnnouncesThenRelays(backend.moments[i], src, dst, old(client.unread))
  {
    ghost var stream := client.unread;
    ghost var all := HeaderSent(wanted, src, dst) + stream;
    var hello;
    failed := true;
    hello, outcome := ReadHello(client, size);
    if outcome.Ready? {
      var header := None;
      if wanted {
        header := ProxyHeader.ProxyV2Header(src, dst);
      }
      Associate(HeaderSent(wanted, src, dst), hello, client.unread);
      failed := Splice(client, backend, header, hello);
    }
    assert !wanted ==> all == stream;
    if wanted && ProxyHeader.ValidAddr(src) && ProxyHeader.ValidAddr(dst) {
      PrefixAnnounces(backend.received, src, dst, stream);
      forall i | 0 <= i < |backend.moments|
        ensures AnnouncesThenRelays(backend.moments[i], src, dst, stream)
      {
        PrefixAnnounces(backend.moments[i], src, dst, stream);
      }
    }
  }

  /** prefixConn: replays the bytes already read, then the connection. */
  class PrefixConn {
    const conn: ClientConn
    var buf: bytes

    constructor (conn: ClientConn, buf: bytes)
      ensures this.conn == conn && this.buf == buf
    {
      this.conn, this.buf := conn, buf;
    }

    /** The stream a reader of this connection will see. */
    ghost function Stream(): bytes
      reads this, conn
    {
      buf + conn.unread
    }

    method Read(max: nat) returns (ok: bool, chunk: bytes)
      modifies this, conn
      ensures old(Stream()) == chunk + Stream() && |chunk| <= max
      ensures ok <==> max == 0 || old(Stream()) != []
      ensures ok && max > 0 ==> chunk != []
    {
      if |buf| > 0 {
        var n := if max <= |buf| then max else |buf|;
        chunk := buf[..n];
        assert buf == buf[..n] + buf[n..];
        buf := buf[n..];
        return true, chunk;
      }
      ok, chunk := conn.Read(max);
    }
  }

  /** A terminated client's TLS server reads the hello again from the start:
      together the two see the client's stream once, whole and in order. */
  method Replay(conn: ClientConn, size: nat) returns (outcome: Outcome, again: PrefixConn)
    modifies conn
    ensures outcome == OutcomeOf(old(conn.unread), size)
    ensures fresh(again) && again.conn == conn && again.Stream() == old(conn.unread)
  {
    var buf;
    buf, outcome := ReadHello(conn, size);
    again := new PrefixConn(conn, buf);
  }
}
