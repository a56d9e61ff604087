/** The parser against the grammar, and against growing input. */
module HelloProofs {
  import opened Bytes
  import opened Text
  import opened ClientHello

  /** A vector at the front: its length field and contents are where a reader
      looks for them. */
  lemma ReadVector(k: nat, data: bytes, rest: bytes)
    requires |data| < Pow256(k)
    ensures var b := Vector(k, data) + rest;
            && |b| == k + |data| + |rest| && FromBE(b[..k]) == |data|
            && b[k..k + |data|] == data && b[k + |data|..] == rest
  {
    BERoundTrip(|data|, k);
    ReadPrefixed(BE(|data|, k), data, rest);
  }

  lemma ReadPrefixed(len: bytes, data: bytes, rest: bytes)
    ensures var b := len + data + rest;
            && b[..|len|] == len && b[|len|..|len| + |data|] == data && b[|len| + |data|..] == rest
  {
  }

  lemma NameLayout(t: byte, len: bytes, name: bytes, tail: bytes)
    requires |len| == 2
    ensures var b := [t] + (len + name) + tail;
            && |b| == 3 + |name| + |tail| && b[0] == t && b[1..3] == len
            && b[3..3 + |name|] == name && b[3 + |name|..] == tail
  {
  }

  lemma OneServerName(n: ServerName, tail: bytes)
    requires |n.name| <= 65535
    ensures FirstHostName([n.nameType] + Vector(2, n.name) + tail) ==
            if n.nameType == 0 then (if n.name == [] then None else Some(n.name)) else FirstHostName(tail)
  {
    NameLayout(n.nameType, BE(|n.name|, 2), n.name, tail);
    assert FromBE(BE(|n.name|, 2)) == |n.name| by {
      Powers();
      BERoundTrip(|n.name|, 2);
    }
  }

  lemma {:induction false} NamesReadBack(names: seq<ServerName>)
    requires forall i :: 0 <= i < |names| ==> |names[i].name| <= 65535
    ensures FirstHostName(WriteNames(names)) == HostName(names)
  {
    if names != [] {
      OneServerName(names[0], WriteNames(names[1..]));
      NamesReadBack(names[1..]);
    }
  }

  lemma OneName(p: bytes, rest: bytes)
    requires |p| <= 255
    ensures Names(Vector(1, p) + rest) == [p] + Names(rest)
  {
    OneByte(|p|);
    var b := [|p|] + p + rest;
    assert b[1..1 + |p|] == p && b[1 + |p|..] == rest;
  }

  lemma {:induction false} ProtocolsReadBack(protocols: seq<bytes>, tail: bytes)
    requires forall i :: 0 <= i < |protocols| ==> |protocols[i]| <= 255
    ensures Names(WriteProtocols(protocols) + tail) == protocols + Names(tail)
  {
    if protocols == [] {
      assert WriteProtocols(protocols) + tail == tail;
    } else {
      var p, rest := protocols[0], WriteProtocols(protocols[1..]) + tail;
      Associate(Vector(1, p), WriteProtocols(protocols[1..]), tail);
      OneName(p, rest);
      ProtocolsReadBack(protocols[1..], tail);
      HeadAndTail(protocols, Names(tail));
    }
  }

  lemma HeadAndTail<T>(s: seq<T>, t: seq<T>)
    requires s != []
    ensures [s[0]] + (s[1..] + t) == s + t
  {
  }

  lemma AlpnOfVector(list: bytes)
    requires |list| <= 65535
    ensures AlpnOf(Vector(2, list)) == Names(list)
  {
    Powers();
    ReadVector(2, list, []);
    assert Vector(2, list) + [] == Vector(2, list);
  }

  /** On a malformed list the parser keeps the names before the damage, where
      its comment promises none. */
  lemma MalformedAlpnKeepsEarlierNames(protocols: seq<bytes>, n: byte, short: bytes)
    requires forall i :: 0 <= i < |protocols| ==> |protocols[i]| <= 255
    requires |short| < n && |WriteProtocols(protocols) + [n] + short| <= 65535
    ensures AlpnOf(Vector(2, WriteProtocols(protocols) + [n] + short)) == protocols
  {
    var list := WriteProtocols(protocols) + ([n] + short);
    assert list == WriteProtocols(protocols) + [n] + short;
    assert Names(list) == protocols by {
      ProtocolsReadBack(protocols, [n] + short);
    }
    AlpnOfVector(list);
  }

  lemma ExtDataReadBack(e: Extension)
    requires ExtensionFits(e)
    ensures e.ServerNames? ==> SniOf(ExtData(e)) == HostName(e.names)
    ensures e.Protocols? ==> AlpnOf(ExtData(e)) == e.protocols
  {
    Powers();
    match e
    case ServerNames(names) =>
      ReadVector(2, WriteNames(names), []);
      assert Vector(2, WriteNames(names)) + [] == ExtData(e);
      NamesReadBack(names);
    case Protocols(protocols) =>
      ReadVector(2, WriteProtocols(protocols), []);
      assert Vector(2, WriteProtocols(protocols)) + [] == ExtData(e);
      ProtocolsReadBack(protocols, []);
      assert WriteProtocols(protocols) + [] == WriteProtocols(protocols);
    case Unknown(_, _) =>
  }

  /** What one more extension does to the result so far. */
  function HostAfter(e: Extension, host: bytes): bytes
  {
    if e.ServerNames? && HostName(e.names).Some? then HostName(e.names).value else host
  }

  function AlpnsAfter(e: Extension, alpns: seq<bytes>): seq<bytes>
  {
    if e.Protocols? then e.protocols else alpns
  }

  lemma ExtensionLayout(typ: bytes, len: bytes, data: bytes, tail: bytes)
    requires |typ| == 2 && |len| == 2
    ensures var b := typ + (len + data) + tail;
            && |b| == 4 + |data| + |tail| && b[..2] == typ && b[2..4] == len
            && b[4..4 + |data|] == data && b[4 + |data|..] == tail
  {
  }

  lemma ScanOne(e: Extension, tail: bytes, host: bytes, alpns: seq<bytes>)
    requires ExtensionFits(e)
    ensures Scan(BE(ExtType(e), 2) + Vector(2, ExtData(e)) + tail, host, alpns)
            == Scan(tail, HostAfter(e, host), AlpnsAfter(e, alpns))
  {
    assert FromBE(BE(ExtType(e), 2)) == ExtType(e) && FromBE(BE(|ExtData(e)|, 2)) == |ExtData(e)| by {
      Powers();
      BERoundTrip(ExtType(e), 2);
      BERoundTrip(|ExtData(e)|, 2);
    }
    ExtDataReadBack(e);
    ScanShape(BE(ExtType(e), 2), BE(|ExtData(e)|, 2), ExtData(e), tail, host, alpns);
  }

  lemma ScanShape(typ: bytes, len: bytes, data: bytes, tail: bytes, host: bytes, alpns: seq<bytes>)
    requires |typ| == 2 && |len| == 2 && FromBE(len) == |data|
    ensures Scan(typ + (len + data) + tail, host, alpns) ==
            if FromBE(typ) == EXT_SERVER_NAME then
              Scan(tail, if SniOf(data).Some? then SniOf(data).value else host, alpns)
            else if FromBE(typ) == EXT_ALPN then Scan(tail, host, AlpnOf(data))
            else Scan(tail, host, alpns)
  {
    ExtensionLayout(typ, len, data, tail);
  }

  function HostFrom(es: seq<Extension>, host: bytes): bytes
  {
    if es == [] then host else HostFrom(es[1..], HostAfter(es[0], host))
  }

  function ProtocolsFrom(es: seq<Extension>, alpns: seq<bytes>): seq<bytes>
  {
    if es == [] then alpns else ProtocolsFrom(es[1..], AlpnsAfter(es[0], alpns))
  }

  lemma {:induction false} ScanAll(es: seq<Extension>, host: bytes, alpns: seq<bytes>)
    requires forall i :: 0 <= i < |es| ==> ExtensionFits(es[i])
    ensures Scan(WriteExtensions(es), host, alpns) == Scan([], HostFrom(es, host), ProtocolsFrom(es, alpns))
  {
    if es != [] {
      ScanOne(es[0], WriteExtensions(es[1..]), host, alpns);
      ScanAll(es[1..], HostAfter(es[0], host), AlpnsAfter(es[0], alpns));
    }
  }

  lemma {:induction false} LastExtensionDecides(es: seq<Extension>, host: bytes, alpns: seq<bytes>)
    requires es != []
    ensures HostFrom(es, host) == HostAfter(es[|es| - 1], HostFrom(es[..|es| - 1], host))
    ensures ProtocolsFrom(es, alpns) == AlpnsAfter(es[|es| - 1], ProtocolsFrom(es[..|es| - 1], alpns))
  {
    var n := |es| - 1;
    if n > 0 {
      assert es[1..][..n - 1] == es[..n][1..];
      LastExtensionDecides(es[1..], HostAfter(es[0], host), AlpnsAfter(es[0], alpns));
    }
  }

  lemma {:induction false} FromIsOf(es: seq<Extension>)
    ensures HostFrom(es, []) == HostOf(es) && ProtocolsFrom(es, []) == ProtocolsOf(es)
  {
    if es != [] {
      LastExtensionDecides(es, [], []);
      FromIsOf(es[..|es| - 1]);
    }
  }

  lemma ShortVector(data: bytes, rest: bytes)
    requires |data| <= 255
    ensures var b := Vector(1, data) + rest;
            b != [] && b[0] == |data| && 1 + |data| <= |b| && b[1 + |data|..] == rest
  {
    OneByte(|data|);
    ReadPrefixed([|data|], data, rest);
  }

  lemma ExtensionsReadBack(es: seq<Extension>)
    requires forall i :: 0 <= i < |es| ==> ExtensionFits(es[i])
    requires |WriteExtensions(es)| <= 65535
    ensures Extensions(Vector(2, WriteExtensions(es))) == Scan([], HostOf(es), ProtocolsOf(es))
  {
    Powers();
    var exts := WriteExtensions(es);
    ReadVector(2, exts, []);
    assert Vector(2, exts) + [] == Vector(2, exts);
    ScanAll(es, [], []);
    FromIsOf(es);
  }

  lemma BodyReadsBack(h: ClientHello)
    requires WellFormed(h)
    ensures Body(WriteBody(h)) == Meaning(h)
  {
    Powers();
    var r4 := Vector(2, WriteExtensions(h.extensions));
    var r3 := Vector(1, h.compressionMethods) + r4;
    var r2 := Vector(2, h.cipherSuites) + r3;
    var r1 := Vector(1, h.sessionId) + r2;
    BodySplits(h, r1, r2, r3, r4);
    assert WriteBody(h)[34..] == r1;
    assert SessionId(r1) == Suites(r2) by { ShortVector(h.sessionId, r2); }
    assert Suites(r2) == Compression(r3) by { ReadVector(2, h.cipherSuites, r3); }
    assert Compression(r3) == Extensions(r4) by { ShortVector(h.compressionMethods, r4); }
    ExtensionsReadBack(h.extensions);
  }

  lemma BodySplits(h: ClientHello, r1: bytes, r2: bytes, r3: bytes, r4: bytes)
    requires r4 == Vector(2, WriteExtensions(h.extensions))
    requires r3 == Vector(1, h.compressionMethods) + r4
    requires r2 == Vector(2, h.cipherSuites) + r3
    requires r1 == Vector(1, h.sessionId) + r2
    ensures WriteBody(h) == h.version + h.random + r1
  {
  }

  /** For every well-formed hello, extensions in any order and unknown ones
      among them, parsing its record gives exactly what the hello says,
      whatever follows the record. */
  lemma ParseReadsBack(h: ClientHello, later: bytes)
    requires WellFormed(h)
    ensures Parse(WriteRecord(h) + later) == Meaning(h)
  {
    Powers();
    var msg := [1] + Vector(3, WriteBody(h));
    BodyReadsBack(h);
    HandshakeReadsBack(WriteBody(h));
    RecordReadsBack(h.recordVersion, msg, later);
    Associate([0x16] + h.recordVersion, Vector(2, msg), later);
  }

  lemma HandshakeReadsBack(body: bytes)
    requires |body| < 0x100_0000
    ensures Handshake([1] + Vector(3, body)) == Body(body)
  {
    Powers();
    BERoundTrip(|body|, 3);
    HandshakeShape(BE(|body|, 3), body);
  }

  lemma HandshakeShape(len: bytes, body: bytes)
    requires |len| == 3 && FromBE(len) == |body|
    ensures Handshake([1] + (len + body)) == Body(body)
  {
    var msg := [1] + (len + body);
    assert msg[1..4] == len && msg[4..4 + |body|] == body;
  }

  lemma RecordReadsBack(version: bytes, msg: bytes, later: bytes)
    requires |version| == 2 && |msg| <= 65535
    ensures Parse([0x16] + version + (Vector(2, msg) + later)) == Handshake(msg)
  {
    assert FromBE(BE(|msg|, 2)) == |msg| by {
      Powers();
      BERoundTrip(|msg|, 2);
    }
    RecordShape(version, BE(|msg|, 2), msg, later);
  }

  lemma RecordShape(version: bytes, len: bytes, msg: bytes, later: bytes)
    requires |version| == 2 && |len| == 2 && FromBE(len) == |msg|
    ensures Parse([0x16] + version + (len + msg + later)) == Handshake(msg)
  {
    RecordLayout([0x16] + version, len, msg, later);
  }

  lemma RecordLayout(head: bytes, len: bytes, msg: bytes, later: bytes)
    requires |head| == 3 && |len| == 2
    ensures var b := head + (len + msg + later);
            && |b| >= 5 + |msg| && b[0] == head[0] && b[3..5] == len && b[5..5 + |msg|] == msg
  {
    var b := head + (len + msg + later);
    assert b == (head + len) + msg + later;
  }

  /** The usual hello: one server name extension with a host, one protocol
      list, each anywhere among unknown extensions. */
  lemma {:induction false} OneHostOneList(es: seq<Extension>, i: nat, j: nat)
    requires i < |es| && j < |es| && es[i].ServerNames? && es[j].Protocols?
    requires HostName(es[i].names).Some?
    requires forall k :: 0 <= k < |es| && k != i && k != j ==> es[k].Unknown?
    ensures HostOf(es) == HostName(es[i].names).value && ProtocolsOf(es) == es[j].protocols
  {
    LastHost(es, i);
    LastList(es, j);
  }

  lemma {:induction false} LastHost(es: seq<Extension>, i: nat)
    requires i < |es| && es[i].ServerNames? && HostName(es[i].names).Some?
    requires forall k :: i < k < |es| ==> !es[k].ServerNames?
    ensures HostOf(es) == HostName(es[i].names).value
  {
    if i < |es| - 1 {
      LastHost(es[..|es| - 1], i);
    }
  }

  lemma {:induction false} LastList(es: seq<Extension>, j: nat)
    requires j < |es| && es[j].Protocols?
    requires forall k :: j < k < |es| ==> !es[k].Protocols?
    ensures ProtocolsOf(es) == es[j].protocols
  {
    if j < |es| - 1 {
      LastList(es[..|es| - 1], j);
    }
  }

  // ---- Growing input ----

  predicate IsTruncated(r: Result)
  {
    r.Failed? && r.error == Truncated
  }

  /** Once the record is complete, later bytes never change the result. */
  lemma ResultIsStable(p: bytes, q: bytes)
    requires p <= q && !IsTruncated(Parse(p))
    ensures Parse(q) == Parse(p)
  {
    SamePrefix(p, q, 3, 5);
    var n := FromBE(p[3..5]);
    if p[0] == 0x16 {
      SamePrefix(p, q, 5, 5 + n);
    }
  }

  lemma SamePrefix(p: bytes, q: bytes, i: nat, j: nat)
    requires p <= q && i <= j <= |p|
    ensures p[i..j] == q[i..j]
  {
  }

  /** A handshake record that is not all there always reads as truncated. */
  lemma IncompleteRecordIsTruncated(p: bytes)
    requires |p| < 5 || (p[0] == 0x16 && |p| < 5 + FromBE(p[3..5]))
    ensures IsTruncated(Parse(p))
  {
  }
}
