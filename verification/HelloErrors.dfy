/** Which error the parser gives, and where a hello must be cut for it. */
module HelloErrors {
  import opened Bytes
  import opened Text
  import opened ClientHello
  import opened HelloProofs

  /** The first record is a handshake record and all there. */
  predicate HasRecord(b: bytes)
  {
    |b| >= 5 && b[0] == 0x16 && |b| >= 5 + FromBE(b[3..5])
  }

  function Record(b: bytes): bytes
    requires HasRecord(b)
  {
    b[..5 + FromBE(b[3..5])]
  }

  /** Nothing after the first record matters. */
  lemma RecordDecides(b: bytes)
    requires HasRecord(b)
    ensures Parse(b) == Parse(Record(b))
  {
    SamePrefix(Record(b), b, 3, 5);
    SamePrefix(Record(b), b, 5, |Record(b)|);
  }

  ghost predicate InsideError(r: Result)
  {
    r.Failed? ==> r.error == Truncated || r.error == NoSNI
  }

  lemma {:induction false} ScanErrors(rest: bytes, host: bytes, alpns: seq<bytes>)
    ensures InsideError(Scan(rest, host, alpns))
    decreases |rest|
  {
    if |rest| >= 4 {
      var typ, n := FromBE(rest[..2]), FromBE(rest[2..4]);
      if 4 + n <= |rest| {
        var ext, next := rest[4..4 + n], rest[4 + n..];
        ScanErrors(next, if SniOf(ext).Some? then SniOf(ext).value else host, alpns);
        ScanErrors(next, host, AlpnOf(ext));
        ScanErrors(next, host, alpns);
      }
    }
  }

  lemma ExtensionsErrors(r: bytes)
    ensures InsideError(Extensions(r))
  {
    if |r| >= 2 && 2 + FromBE(r[..2]) <= |r| {
      ScanErrors(r[2..2 + FromBE(r[..2])], [], []);
    }
  }

  lemma BodyErrors(d: bytes)
    ensures InsideError(Body(d))
  {
    forall r: bytes
      ensures InsideError(Extensions(r))
    {
      ExtensionsErrors(r);
    }
  }

  /** The two errors about what the bytes are. */
  lemma ErrorKinds(b: bytes)
    ensures var r := Parse(b);
            && (r == Failed(NotTLS, []) <==> |b| >= 5 && b[0] != 0x16)
            && (r == Failed(NotClientHello, []) <==> HasRecord(b) && FromBE(b[3..5]) >= 4 && b[5] != 1)
            && (r.Failed? && (r.error == NotTLS || r.error == NotClientHello) ==> r.alpns == [])
  {
    if HasRecord(b) {
      var d := b[5..5 + FromBE(b[3..5])];
      if |d| >= 4 && d[0] == 1 && |d| >= 4 + FromBE(d[1..4]) {
        BodyErrors(d[4..4 + FromBE(d[1..4])]);
      }
    }
  }

  // ---- A hello cut short inside its record ----

  lemma ShortVectorCut(data: bytes, rest: bytes, j: nat)
    requires |data| <= 255 && j <= 1 + |data| + |rest|
    ensures var b := (Vector(1, data) + rest)[..j];
            && |b| == j && (j > 0 ==> b[0] == |data|)
            && (1 + |data| <= j ==> b[1 + |data|..] == rest[..j - 1 - |data|])
  {
    ShortVector(data, rest);
    var all := Vector(1, data) + rest;
    if 1 + |data| <= j {
      assert all[..j][1 + |data|..] == all[1 + |data|..][..j - 1 - |data|];
    }
  }

  lemma VectorCut(data: bytes, rest: bytes, j: nat)
    requires |data| <= 65535 && j <= 2 + |data| + |rest|
    ensures var b := (Vector(2, data) + rest)[..j];
            && |b| == j && (j >= 2 ==> FromBE(b[..2]) == |data|)
            && (2 + |data| <= j ==> b[2 + |data|..] == rest[..j - 2 - |data|])
  {
    Powers();
    ReadVector(2, data, rest);
    var all := Vector(2, data) + rest;
    if j >= 2 {
      assert all[..j][..2] == all[..2];
    }
    if 2 + |data| <= j {
      assert all[..j][2 + |data|..] == all[2 + |data|..][..j - 2 - |data|];
    }
  }

  lemma SessionIdCut(sid: bytes, rest: bytes, j: nat)
    requires |sid| <= 255 && j <= 1 + |sid| + |rest|
    ensures SessionId((Vector(1, sid) + rest)[..j]) ==
            if j < 1 + |sid| then TRUNCATED else Suites(rest[..j - 1 - |sid|])
  {
    ShortVectorCut(sid, rest, j);
  }

  lemma SuitesCut(suites: bytes, rest: bytes, j: nat)
    requires |suites| <= 65535 && j <= 2 + |suites| + |rest|
    ensures Suites((Vector(2, suites) + rest)[..j]) ==
            if j < 2 + |suites| then TRUNCATED else Compression(rest[..j - 2 - |suites|])
  {
    VectorCut(suites, rest, j);
  }

  lemma CompressionCut(methods: bytes, rest: bytes, j: nat)
    requires |methods| <= 255 && j <= 1 + |methods| + |rest|
    ensures Compression((Vector(1, methods) + rest)[..j]) ==
            if j == 0 then TRUNCATED
            else if j < 1 + |methods| then Failed(NoSNI, [])
            else Extensions(rest[..j - 1 - |methods|])
  {
    ShortVectorCut(methods, rest, j);
  }

  lemma ExtensionsCut(exts: bytes, j: nat)
    requires |exts| <= 65535 && j < 2 + |exts|
    ensures Extensions(Vector(2, exts)[..j]) == if j < 2 then Failed(NoSNI, []) else TRUNCATED
  {
    VectorCut(exts, [], j);
    assert Vector(2, exts) + [] == Vector(2, exts);
  }

  /** Where the compression methods start and end in a hello's body. */
  function SuitesEnd(h: ClientHello): nat { 37 + |h.sessionId| + |h.cipherSuites| }

  function CompressionEnd(h: ClientHello): nat { SuitesEnd(h) + 1 + |h.compressionMethods| }

  /** A body cut after `k` octets, with lengths to match on the outside, reads as
      truncated up to the end of the cipher suites and inside the extensions, and
      as naming no host where it ends with the compression methods, inside them
      or one octet later: a hello without an extension block among these. */
  lemma CutBody(h: ClientHello, k: nat)
    requires WellFormed(h) && k < |WriteBody(h)|
    ensures Body(WriteBody(h)[..k]) ==
            if SuitesEnd(h) < k < CompressionEnd(h) + 2 then Failed(NoSNI, []) else TRUNCATED
  {
    var r4 := Vector(2, WriteExtensions(h.extensions));
    var r3 := Vector(1, h.compressionMethods) + r4;
    var r2 := Vector(2, h.cipherSuites) + r3;
    var r1 := Vector(1, h.sessionId) + r2;
    BodySplits(h, r1, r2, r3, r4);
    if k >= 34 {
      CutAfter(h.version + h.random, r1, k);
      CutFromSessionId(h.sessionId, h.cipherSuites, h.compressionMethods, WriteExtensions(h.extensions), k - 34);
    }
  }

  lemma CutFromCompression(methods: bytes, exts: bytes, j: nat)
    requires |methods| <= 255 && |exts| <= 65535 && j < 3 + |methods| + |exts|
    ensures Compression((Vector(1, methods) + Vector(2, exts))[..j]) ==
            if 0 < j < 3 + |methods| then Failed(NoSNI, []) else TRUNCATED
  {
    CompressionCut(methods, Vector(2, exts), j);
    if j >= 1 + |methods| {
      ExtensionsCut(exts, j - 1 - |methods|);
    }
  }

  lemma CutFromSuites(suites: bytes, methods: bytes, exts: bytes, j: nat)
    requires |suites| <= 65535 && |methods| <= 255 && |exts| <= 65535
    requires j < 5 + |suites| + |methods| + |exts|
    ensures Suites((Vector(2, suites) + (Vector(1, methods) + Vector(2, exts)))[..j]) ==
            if 0 < j - 2 - |suites| < 3 + |methods| then Failed(NoSNI, []) else TRUNCATED
  {
    SuitesCut(suites, Vector(1, methods) + Vector(2, exts), j);
    if j >= 2 + |suites| {
      CutFromCompression(methods, exts, j - 2 - |suites|);
    }
  }

  lemma CutFromSessionId(sid: bytes, suites: bytes, methods: bytes, exts: bytes, j: nat)
    requires |sid| <= 255 && |suites| <= 65535 && |methods| <= 255 && |exts| <= 65535
    requires j < 6 + |sid| + |suites| + |methods| + |exts|
    ensures SessionId((Vector(1, sid) + (Vector(2, suites) + (Vector(1, methods) + Vector(2, exts))))[..j]) ==
            if 0 < j - 3 - |sid| - |suites| < 3 + |methods| then Failed(NoSNI, []) else TRUNCATED
  {
    SessionIdCut(sid, Vector(2, suites) + (Vector(1, methods) + Vector(2, exts)), j);
    if j >= 1 + |sid| {
      CutFromSuites(suites, methods, exts, j - 1 - |sid|);
    }
  }

  lemma CutAfter(a: bytes, b: bytes, k: nat)
    requires |a| <= k <= |a| + |b|
    ensures (a + b)[..k][|a|..] == b[..k - |a|]
  {
  }

  /** The same for the whole record. */
  lemma CutHello(h: ClientHello, k: nat, later: bytes)
    requires WellFormed(h) && k < |WriteBody(h)|
    ensures Parse([0x16] + h.recordVersion + (Vector(2, [1] + Vector(3, WriteBody(h)[..k])) + later)) ==
            if SuitesEnd(h) < k < CompressionEnd(h) + 2 then Failed(NoSNI, []) else TRUNCATED
  {
    var body := WriteBody(h)[..k];
    CutBody(h, k);
    HandshakeReadsBack(body);
    RecordReadsBack(h.recordVersion, [1] + Vector(3, body), later);
  }

  // ---- Inside the extensions ----

  /** An extension block that ends inside an extension: with less than the four
      octets of its header the piece is ignored, otherwise the hello is
      truncated. */
  lemma {:induction false} CutExtension(es: seq<Extension>, e: Extension, k: nat, host: bytes, alpns: seq<bytes>)
    requires ExtensionFits(e) && k < 4 + |ExtData(e)|
    requires forall i :: 0 <= i < |es| ==> ExtensionFits(es[i])
    ensures var piece := (BE(ExtType(e), 2) + Vector(2, ExtData(e)))[..k];
            Scan(WriteExtensions(es) + piece, host, alpns) ==
            if k < 4 then Scan([], HostFrom(es, host), ProtocolsFrom(es, alpns)) else TRUNCATED
  {
    var piece := (BE(ExtType(e), 2) + Vector(2, ExtData(e)))[..k];
    if es == [] {
      assert WriteExtensions(es) + piece == piece;
      PieceOfExtension(e, k);
    } else {
      var head := BE(ExtType(es[0]), 2) + Vector(2, ExtData(es[0]));
      Associate(head, WriteExtensions(es[1..]), piece);
      ScanOne(es[0], WriteExtensions(es[1..]) + piece, host, alpns);
      CutExtension(es[1..], e, k, HostAfter(es[0], host), AlpnsAfter(es[0], alpns));
    }
  }

  lemma PieceOfExtension(e: Extension, k: nat)
    requires ExtensionFits(e) && k < 4 + |ExtData(e)|
    ensures var piece := (BE(ExtType(e), 2) + Vector(2, ExtData(e)))[..k];
            |piece| == k && (k >= 4 ==> FromBE(piece[2..4]) == |ExtData(e)|)
  {
    if k >= 4 {
      var typ, len := BE(ExtType(e), 2), BE(|ExtData(e)|, 2);
      assert FromBE(len) == |ExtData(e)| by {
        Powers();
        BERoundTrip(|ExtData(e)|, 2);
      }
      PieceLayout(typ, len, ExtData(e), k);
    }
  }

  lemma PieceLayout(typ: bytes, len: bytes, data: bytes, k: nat)
    requires |typ| == 2 && |len| == 2 && 4 <= k <= 4 + |data|
    ensures (typ + (len + data))[..k][2..4] == len
  {
  }

  /** A server name list that ends inside a name says what the names before it
      say; a list or protocol list shorter than its length says nothing. */
  lemma {:induction false} CutNames(names: seq<ServerName>, n: ServerName, k: nat)
    requires forall i :: 0 <= i < |names| ==> |names[i].name| <= 65535
    requires |n.name| <= 65535 && k < 3 + |n.name|
    ensures FirstHostName(WriteNames(names) + ([n.nameType] + Vector(2, n.name))[..k]) == HostName(names)
  {
    var piece := ([n.nameType] + Vector(2, n.name))[..k];
    if names == [] {
      assert WriteNames(names) + piece == piece;
      if k >= 3 {
        NameLayout(n.nameType, BE(|n.name|, 2), n.name, []);
        assert [n.nameType] + Vector(2, n.name) + [] == [n.nameType] + Vector(2, n.name);
        assert piece[1..3] == BE(|n.name|, 2);
        Powers();
        BERoundTrip(|n.name|, 2);
      }
    } else {
      var head := [names[0].nameType] + Vector(2, names[0].name);
      Associate(head, WriteNames(names[1..]), piece);
      OneServerName(names[0], WriteNames(names[1..]) + piece);
      CutNames(names[1..], n, k);
    }
  }

  lemma ShortLists(list: bytes, k: nat)
    requires |list| <= 65535 && k < 2 + |list|
    ensures SniOf(Vector(2, list)[..k]) == None && AlpnOf(Vector(2, list)[..k]) == []
  {
    VectorCut(list, [], k);
    assert Vector(2, list) + [] == Vector(2, list);
  }
}
