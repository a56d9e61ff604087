/** The ClientHello parser: SNI hostname and ALPN list out of the first TLS
    record, by index arithmetic over the bytes. */
module ClientHello {
  import opened Bytes
  import opened Text

  datatype Error = NotTLS | NotClientHello | NoSNI | Truncated

  datatype Result =
    | Hello(host: bytes, alpns: seq<bytes>)
    | Failed(error: Error, alpns: seq<bytes>)

  const TRUNCATED: Result := Failed(Truncated, [])

  // ---- What the parser computes, over what is left to read ----

  /** The first host_name in a server name list, if it is well formed that far
      and not empty. */
  function FirstHostName(rest: bytes): (host: Option<bytes>)
    ensures host != Some([])
    decreases |rest|
  {
    if |rest| < 3 then None
    else
      var n := FromBE(rest[1..3]);
      if 3 + n > |rest| then None
      else if rest[0] == 0 then (if n == 0 then None else Some(rest[3..3 + n]))
      else FirstHostName(rest[3 + n..])
  }

  function SniOf(data: bytes): Option<bytes>
  {
    if |data| < 2 then None
    else
      var n := FromBE(data[..2]);
      if |data| < 2 + n then None else FirstHostName(data[2..2 + n])
  }

  /** The names of a protocol list up to the first malformed one. */
  function Names(rest: bytes): seq<bytes>
    decreases |rest|
  {
    if rest == [] then []
    else
      var n := rest[0];
      if 1 + n > |rest| then [] else [rest[1..1 + n]] + Names(rest[1 + n..])
  }

  function AlpnOf(data: bytes): seq<bytes>
  {
    if |data| < 2 then []
    else
      var n := FromBE(data[..2]);
      if 2 + n > |data| then [] else Names(data[2..2 + n])
  }

  const EXT_SERVER_NAME := 0x0000
  const EXT_ALPN := 0x0010

  function Scan(rest: bytes, host: bytes, alpns: seq<bytes>): Result
    decreases |rest|
  {
    if |rest| < 4 then (if host == [] then Failed(NoSNI, alpns) else Hello(host, alpns))
    else
      var typ, n := FromBE(rest[..2]), FromBE(rest[2..4]);
      if 4 + n > |rest| then TRUNCATED
      else
        var data, next := rest[4..4 + n], rest[4 + n..];
        if typ == EXT_SERVER_NAME then
          Scan(next, if SniOf(data).Some? then SniOf(data).value else host, alpns)
        else if typ == EXT_ALPN then Scan(next, host, AlpnOf(data))
        else Scan(next, host, alpns)
  }

  /** From the extensions' length field on. */
  function Extensions(r: bytes): Result
  {
    if |r| < 2 then Failed(NoSNI, [])
    else
      var n := FromBE(r[..2]);
      if 2 + n > |r| then TRUNCATED else Scan(r[2..2 + n], [], [])
  }

  /** From the compression methods on; running out inside them counts as a
      hello without extensions. */
  function Compression(r: bytes): Result
  {
    if r == [] then TRUNCATED
    else
      var n := r[0];
      if 1 + n > |r| then Failed(NoSNI, []) else Extensions(r[1 + n..])
  }

  /** From the cipher suites on. */
  function Suites(r: bytes): Result
  {
    if |r| < 2 then TRUNCATED
    else
      var n := FromBE(r[..2]);
      if 2 + n > |r| then TRUNCATED else Compression(r[2 + n..])
  }

  /** From the session id on. */
  function SessionId(r: bytes): Result
  {
    if r == [] then TRUNCATED
    else
      var n := r[0];
      if 1 + n > |r| then TRUNCATED else Suites(r[1 + n..])
  }

  /** The ClientHello body: version and random, then the rest. */
  function Body(d: bytes): Result
  {
    if |d| < 34 then TRUNCATED else SessionId(d[34..])
  }

  function Handshake(d: bytes): Result
  {
    if |d| < 4 then TRUNCATED
    else if d[0] != 1 then Failed(NotClientHello, [])
    else
      var n := FromBE(d[1..4]);
      if |d| < 4 + n then TRUNCATED else Body(d[4..4 + n])
  }

  function Parse(buf: bytes): Result
  {
    if |buf| < 5 then TRUNCATED
    else if buf[0] != 0x16 then Failed(NotTLS, [])
    else
      var n := FromBE(buf[3..5]);
      if |buf| < 5 + n then TRUNCATED else Handshake(buf[5..5 + n])
  }

  // ---- The parser as written ----

  method ParseSniExtension(data: bytes) returns (r: Option<bytes>)
    ensures r == SniOf(data) && r != Some([])
  {
    if |data| < 2 {
      return None;
    }
    var listLen := FromBE(data[..2]);
    if |data| < 2 + listLen {
      return None;
    }
    var pos, listEnd := 2, 2 + listLen;
    while pos + 3 <= listEnd
      invariant 2 <= pos <= listEnd <= |data|
      invariant FirstHostName(data[pos..listEnd]) == FirstHostName(data[2..listEnd])
    {
      ghost var rest := data[pos..listEnd];
      var nameType := data[pos];
      var nameLen := FromBE(data[pos + 1..pos + 3]);
      SliceOfSlice(data, pos, listEnd, 1, 3);
      ghost var at := pos;
      pos := pos + 3;
      if pos + nameLen > listEnd {
        return None;
      }
      SliceOfSlice(data, at, listEnd, 3, 3 + nameLen);
      SliceOfSlice(data, at, listEnd, 3 + nameLen, listEnd - at);
      if nameType == 0 {
        var hostname := data[pos..pos + nameLen];
        if hostname == [] {
          return None;
        }
        return Some(hostname);
      }
      pos := pos + nameLen;
      assert rest[3 + nameLen..] == rest[3 + nameLen..listEnd - at];
    }
    return None;
  }

  /** The protocol list by index, on top of the names already read. */
  function NamesFrom(data: bytes, pos: nat, end: nat, out: seq<bytes>): seq<bytes>
    requires pos <= end <= |data|
    decreases end - pos
  {
    if pos == end then out
    else
      var n: int := data[pos];
      if pos + 1 + n > end then out
      else NamesFrom(data, pos + 1 + n, end, out + [data[pos + 1..pos + 1 + n]])
  }

  lemma {:induction false} NamesByIndex(data: bytes, pos: nat, end: nat, out: seq<bytes>)
    requires pos <= end <= |data|
    ensures NamesFrom(data, pos, end, out) == out + Names(data[pos..end])
    decreases end - pos
  {
    if pos < end {
      var n: int := data[pos];
      if pos + 1 + n <= end {
        var name, next := data[pos + 1..pos + 1 + n], pos + 1 + n;
        SliceOfSlice(data, pos, end, 1, 1 + n);
        SliceOfSlice(data, pos, end, 1 + n, end - pos);
        NamesByIndex(data, next, end, out + [name]);
        Regroup(out, name, Names(data[next..end]));
      }
    }
  }

  lemma Regroup<T>(a: seq<T>, x: T, b: seq<T>)
    ensures a + [x] + b == a + ([x] + b)
  {
  }

  method ParseAlpnExtension(data: bytes) returns (out: seq<bytes>)
    ensures out == AlpnOf(data)
  {
    if |data| < 2 {
      return [];
    }
    var listLen := FromBE(data[..2]);
    if 2 + listLen > |data| {
      return [];
    }
    var pos, end := 2, 2 + listLen;
    out := [];
    NamesByIndex(data, 2, end, []);
    while pos < end
      invariant 2 <= pos <= end <= |data|
      invariant NamesFrom(data, pos, end, out) == AlpnOf(data)
    {
      var nLen: int := data[pos];
      pos := pos + 1;
      if pos + nLen > end {
        return;
      }
      out := out + [data[pos..pos + nLen]];
      pos := pos + nLen;
    }
  }

  /** The extension scan by index. */
  function ScanFrom(data: bytes, pos: nat, end: nat, host: bytes, alpns: seq<bytes>): Result
    requires pos <= end <= |data|
    decreases end - pos
  {
    if pos + 4 > end then (if host == [] then Failed(NoSNI, alpns) else Hello(host, alpns))
    else
      var typ, n := FromBE(data[pos..pos + 2]), FromBE(data[pos + 2..pos + 4]);
      if pos + 4 + n > end then TRUNCATED
      else
        var ext, next := data[pos + 4..pos + 4 + n], pos + 4 + n;
        if typ == EXT_SERVER_NAME then
          ScanFrom(data, next, end, if SniOf(ext).Some? then SniOf(ext).value else host, alpns)
        else if typ == EXT_ALPN then ScanFrom(data, next, end, host, AlpnOf(ext))
        else ScanFrom(data, next, end, host, alpns)
  }

  /** One extension's effect on the scan of what follows it. */
  function ScanOn(typ: nat, ext: bytes, next: bytes, host: bytes, alpns: seq<bytes>): Result
  {
    if typ == EXT_SERVER_NAME then Scan(next, if SniOf(ext).Some? then SniOf(ext).value else host, alpns)
    else if typ == EXT_ALPN then Scan(next, host, AlpnOf(ext))
    else Scan(next, host, alpns)
  }

  lemma ScanStep(rest: bytes, host: bytes, alpns: seq<bytes>)
    requires |rest| >= 4
    ensures var typ, n := FromBE(rest[..2]), FromBE(rest[2..4]);
            Scan(rest, host, alpns) ==
            if 4 + n > |rest| then TRUNCATED else ScanOn(typ, rest[4..4 + n], rest[4 + n..], host, alpns)
  {
  }

  /** One round of the extension scan, by index. */
  lemma ScanAt(data: bytes, pos: nat, end: nat, host: bytes, alpns: seq<bytes>)
    requires pos + 4 <= end <= |data|
    ensures var typ, n := FromBE(data[pos..pos + 2]), FromBE(data[pos + 2..pos + 4]);
            Scan(data[pos..end], host, alpns) ==
            if pos + 4 + n > end then TRUNCATED
            else ScanOn(typ, data[pos + 4..pos + 4 + n], data[pos + 4 + n..end], host, alpns)
  {
    var rest := data[pos..end];
    ScanStep(rest, host, alpns);
    assert rest[..2] == data[pos..pos + 2];
    SliceOfSlice(data, pos, end, 2, 4);
    var n := FromBE(data[pos + 2..pos + 4]);
    if pos + 4 + n <= end {
      SliceOfSlice(data, pos, end, 4, 4 + n);
      SliceOfSlice(data, pos, end, 4 + n, end - pos);
      assert rest[4 + n..] == rest[4 + n..end - pos];
    }
  }

  lemma {:induction false} ScanByIndex(data: bytes, pos: nat, end: nat, host: bytes, alpns: seq<bytes>)
    requires pos <= end <= |data|
    ensures ScanFrom(data, pos, end, host, alpns) == Scan(data[pos..end], host, alpns)
    decreases end - pos
  {
    if pos + 4 <= end {
      ScanAt(data, pos, end, host, alpns);
      var typ, n := FromBE(data[pos..pos + 2]), FromBE(data[pos + 2..pos + 4]);
      if pos + 4 + n <= end {
        var ext, next := data[pos + 4..pos + 4 + n], pos + 4 + n;
        if typ == EXT_SERVER_NAME {
          ScanByIndex(data, next, end, if SniOf(ext).Some? then SniOf(ext).value else host, alpns);
        } else if typ == EXT_ALPN {
          ScanByIndex(data, next, end, host, AlpnOf(ext));
        } else {
          ScanByIndex(data, next, end, host, alpns);
        }
      }
    }
  }

  method ScanExtensions(data: bytes, start: nat, end: nat) returns (r: Result)
    requires start <= end <= |data|
    ensures r == Scan(data[start..end], [], [])
  {
    var pos, hostname, alpns := start, [], [];
    ScanByIndex(data, start, end, [], []);
    while pos + 4 <= end
      invariant start <= pos <= end
      invariant ScanFrom(data, pos, end, hostname, alpns) == ScanFrom(data, start, end, [], [])
    {
      var extType := FromBE(data[pos..pos + 2]);
      var extDataLen := FromBE(data[pos + 2..pos + 4]);
      pos := pos + 4;
      if pos + extDataLen > end {
        return TRUNCATED;
      }
      if extType == EXT_SERVER_NAME {
        var h := ParseSniExtension(data[pos..pos + extDataLen]);
        if h.Some? {
          hostname := h.value;
        }
      } else if extType == EXT_ALPN {
        alpns := ParseAlpnExtension(data[pos..pos + extDataLen]);
      }
      pos := pos + extDataLen;
    }
    if hostname == [] {
      return Failed(NoSNI, alpns);
    }
    return Hello(hostname, alpns);
  }

  method ParseClientHello(buf: bytes) returns (r: Result)
    ensures r == Parse(buf)
  {
    if |buf| < 5 {
      return TRUNCATED;
    }
    if buf[0] != 0x16 {
      return Failed(NotTLS, []);
    }
    var recordLen := FromBE(buf[3..5]);
    if |buf| < 5 + recordLen {
      return TRUNCATED;
    }
    var data := buf[5..5 + recordLen];
    if |data| < 4 {
      return TRUNCATED;
    }
    if data[0] != 0x01 {
      return Failed(NotClientHello, []);
    }
    var hsLen := FromBE(data[1..4]);
    if |data| < 4 + hsLen {
      return TRUNCATED;
    }
    r := ParseBody(data[4..4 + hsLen]);
  }

  method ParseBody(data: bytes) returns (r: Result)
    ensures r == Body(data)
  {
    if |data| < 34 {
      return TRUNCATED;
    }
    var pos := 34;
    if pos >= |data| {
      return TRUNCATED;
    }
    var sidLen: int := data[pos];
    ghost var r1 := data[pos..];
    pos := pos + 1;
    pos := pos + sidLen;
    if pos + 2 > |data| {
      return TRUNCATED;
    }
    Suffix(data, 34, r1, 0, 1 + sidLen);
    r := ParseFromSuites(data, pos);
  }

  method ParseFromSuites(data: bytes, start: nat) returns (r: Result)
    requires start + 2 <= |data|
    ensures r == Suites(data[start..])
  {
    var pos := start;
    var csLen := FromBE(data[pos..pos + 2]);
    ghost var r2 := data[pos..];
    Suffix(data, start, r2, 0, 2);
    pos := pos + 2 + csLen;
    if pos >= |data| {
      return TRUNCATED;
    }
    Suffix(data, start, r2, 0, 2 + csLen);
    r := ParseFromCompression(data, pos);
  }

  method ParseFromCompression(data: bytes, start: nat) returns (r: Result)
    requires start < |data|
    ensures r == Compression(data[start..])
  {
    var pos := start;
    ghost var r3 := data[pos..];
    var cmLen: int := data[pos];
    pos := pos + 1 + cmLen;
    if pos + 2 > |data| {
      return Failed(NoSNI, []);
    }
    Suffix(data, start, r3, 0, 1 + cmLen);
    ghost var e, r4 := pos, data[pos..];
    Suffix(data, e, r4, 0, 2);
    var extLen := FromBE(data[pos..pos + 2]);
    pos := pos + 2;
    var end := pos + extLen;
    if end > |data| {
      return TRUNCATED;
    }
    Suffix(data, e, r4, 2, 2 + extLen);
    r := ScanExtensions(data, pos, end);
  }

  // ---- The grammar: sections 4.1.2 and 4.2 of RFC 8446, 3 of RFC 6066, 3.1 of RFC 7301 ----

  datatype ServerName = ServerName(nameType: byte, name: bytes)

  datatype Extension =
    | ServerNames(names: seq<ServerName>)
    | Protocols(protocols: seq<bytes>)
    | Unknown(typ: nat, data: bytes)

  datatype ClientHello = ClientHello(
    recordVersion: bytes,
    version: bytes,
    random: bytes,
    sessionId: bytes,
    cipherSuites: bytes,
    compressionMethods: bytes,
    extensions: seq<Extension>)

  /** A vector with a length prefix of `k` octets. */
  function Vector(k: nat, data: bytes): bytes
  {
    BE(|data|, k) + data
  }

  function WriteNames(names: seq<ServerName>): bytes
  {
    if names == [] then [] else [names[0].nameType] + Vector(2, names[0].name) + WriteNames(names[1..])
  }

  function WriteProtocols(protocols: seq<bytes>): bytes
  {
    if protocols == [] then [] else Vector(1, protocols[0]) + WriteProtocols(protocols[1..])
  }

  /** The registered numbers of the two extensions. */
  function ExtType(e: Extension): nat
  {
    match e
    case ServerNames(_) => 0
    case Protocols(_) => 16
    case Unknown(t, _) => t
  }

  function ExtData(e: Extension): bytes
  {
    match e
    case ServerNames(names) => Vector(2, WriteNames(names))
    case Protocols(protocols) => Vector(2, WriteProtocols(protocols))
    case Unknown(_, data) => data
  }

  function WriteExtensions(es: seq<Extension>): bytes
  {
    if es == [] then [] else BE(ExtType(es[0]), 2) + Vector(2, ExtData(es[0])) + WriteExtensions(es[1..])
  }

  function WriteBody(h: ClientHello): bytes
  {
    h.version + h.random + Vector(1, h.sessionId) + Vector(2, h.cipherSuites)
    + Vector(1, h.compressionMethods) + Vector(2, WriteExtensions(h.extensions))
  }

  /** The whole hello in one handshake record. */
  function WriteRecord(h: ClientHello): bytes
  {
    [0x16] + h.recordVersion + Vector(2, [1] + Vector(3, WriteBody(h)))
  }

  predicate ExtensionFits(e: Extension)
  {
    && |ExtData(e)| <= 65535
    && match e
       case ServerNames(names) =>
         |WriteNames(names)| <= 65535 && forall i :: 0 <= i < |names| ==> |names[i].name| <= 65535
       case Protocols(protocols) =>
         |WriteProtocols(protocols)| <= 65535 && forall i :: 0 <= i < |protocols| ==> |protocols[i]| <= 255
       case Unknown(t, _) => t <= 65535 && t != 0 && t != 16
  }

  /** Every length fits the field that carries it. */
  predicate WellFormed(h: ClientHello)
  {
    && |h.recordVersion| == 2 && |h.version| == 2 && |h.random| == 32
    && |h.sessionId| <= 255 && |h.cipherSuites| <= 65535 && |h.compressionMethods| <= 255
    && (forall i :: 0 <= i < |h.extensions| ==> ExtensionFits(h.extensions[i]))
    && |WriteExtensions(h.extensions)| <= 65535
    && 4 + |WriteBody(h)| <= 65535
  }

  // ---- What a hello means ----

  /** The host_name of a server name list: its first entry of that type. */
  function HostName(names: seq<ServerName>): Option<bytes>
  {
    if names == [] then None
    else if names[0].nameType == 0 then (if names[0].name == [] then None else Some(names[0].name))
    else HostName(names[1..])
  }

  /** The last server name extension that names a host decides. */
  function HostOf(es: seq<Extension>): bytes
  {
    if es == [] then []
    else
      var last := es[|es| - 1];
      if last.ServerNames? && HostName(last.names).Some? then HostName(last.names).value
      else HostOf(es[..|es| - 1])
  }

  /** The last protocol list decides. */
  function ProtocolsOf(es: seq<Extension>): seq<bytes>
  {
    if es == [] then []
    else if es[|es| - 1].Protocols? then es[|es| - 1].protocols
    else ProtocolsOf(es[..|es| - 1])
  }

  function Meaning(h: ClientHello): Result
  {
    if HostOf(h.extensions) == [] then Failed(NoSNI, ProtocolsOf(h.extensions))
    else Hello(HostOf(h.extensions), ProtocolsOf(h.extensions))
  }
}
