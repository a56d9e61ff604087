/** The privasys-mux/1 frame codec: u8 type, u8 sid length, sid, u64 stream,
    u32 payload length, payload. */
module MuxCodec {
  import opened Bytes
  import opened Text

  const MAX_FRAME := 16 * 1024 * 1024 + 64 * 1024

  const STATUS_NORMAL_CLOSURE := 1000

  type u64 = n: int | 0 <= n < 0x1_0000_0000_0000_0000

  datatype Frame = Frame(typ: byte, sid: bytes, stream: u64, payload: bytes)

  /** The lengths the casts in the writer carry without loss and the reader accepts. */
  predicate Fits(f: Frame)
  {
    |f.sid| <= 255 && |f.payload| <= 16 * 1024 * 1024 + 64 * 1024
  }

  /** The four writes a frame is sent with, lengths truncated as the casts do. */
  function Parts(f: Frame): (p: seq<bytes>)
    ensures |p| == 4
  {
    [[f.typ] + BE(|f.sid|, 1), f.sid, BE(f.stream, 8) + BE(|f.payload|, 4), f.payload]
  }

  function EncodeFrame(f: Frame): bytes
  {
    Parts(f)[0] + Parts(f)[1] + Parts(f)[2] + Parts(f)[3]
  }

  datatype Decoded = Got(frame: Frame, rest: bytes) | Short | TooLarge

  /** One frame off the front of a byte stream. */
  function DecodeFrame(b: bytes): Decoded
  {
    if |b| < 2 then Short
    else
      var n := b[1];
      if |b| < 2 + n + 12 then Short
      else
        FromBEBound(b[2 + n..10 + n]);
        Powers();
        var plen := FromBE(b[10 + n..14 + n]);
        if plen > MAX_FRAME then TooLarge
        else if |b| < 14 + n + plen then Short
        else Got(Frame(b[0], b[2..2 + n], FromBE(b[2 + n..10 + n]), b[14 + n..14 + n + plen]), b[14 + n + plen..])
  }

  /** Where the fields of a frame stand. */
  lemma FrameLayout(head: bytes, sid: bytes, stream: bytes, plen: bytes, payload: bytes, rest: bytes)
    requires |head| == 2 && |stream| == 8 && |plen| == 4
    ensures var b, n := head + sid + (stream + plen) + payload + rest, |sid|;
            && |b| == 14 + n + |payload| + |rest|
            && b[0] == head[0] && b[1] == head[1] && b[2..2 + n] == sid
            && b[2 + n..10 + n] == stream && b[10 + n..14 + n] == plen
            && b[14 + n..14 + n + |payload|] == payload && b[14 + n + |payload|..] == rest
  {
  }

  lemma FittingFrameComesBack(f: Frame, rest: bytes)
    requires Fits(f)
    ensures DecodeFrame(EncodeFrame(f) + rest) == Got(f, rest)
  {
    OneByte(|f.sid|);
    FrameLayout(Parts(f)[0], f.sid, BE(f.stream, 8), BE(|f.payload|, 4), f.payload, rest);
    assert FromBE(BE(f.stream, 8)) == f.stream && FromBE(BE(|f.payload|, 4)) == |f.payload| by {
      Powers();
      BERoundTrip(f.stream, 8);
      BERoundTrip(|f.payload|, 4);
    }
  }

  /** A frame comes back exactly when its lengths fit; what follows it on the
      wire is left for the next read. */
  lemma FrameRoundTrip(f: Frame, rest: bytes)
    ensures DecodeFrame(EncodeFrame(f) + rest) == Got(f, rest) <==> Fits(f)
  {
    if Fits(f) {
      FittingFrameComesBack(f, rest);
    } else if DecodeFrame(EncodeFrame(f) + rest).Got? {
      DecodedFrameFits(EncodeFrame(f) + rest);
    }
  }

  /** Whatever the reader hands on has lengths that fit. */
  lemma DecodedFrameFits(b: bytes)
    requires DecodeFrame(b).Got?
    ensures Fits(DecodeFrame(b).frame)
  {
    var n: int := b[1];
    FromBEBound(b[2 + n..10 + n]);
    Powers();
  }

  /** Where everything stands on the wire. */
  lemma FrameOnTheWire(f: Frame)
    requires Fits(f)
    ensures var b, n := EncodeFrame(f), |f.sid|;
            && |b| == 14 + n + |f.payload|
            && b[0] == f.typ && b[1] == n && b[2..2 + n] == f.sid
            && FromBE(b[2 + n..10 + n]) == f.stream && FromBE(b[10 + n..14 + n]) == |f.payload|
            && b[14 + n..] == f.payload
  {
    OneByte(|f.sid|);
    FrameLayout(Parts(f)[0], f.sid, BE(f.stream, 8), BE(|f.payload|, 4), f.payload, []);
    assert EncodeFrame(f) + [] == EncodeFrame(f);
    Powers();
    BERoundTrip(f.stream, 8);
    BERoundTrip(|f.payload|, 4);
    var b, n := EncodeFrame(f), |f.sid|;
    assert b[14 + n..] == b[14 + n..14 + n + |f.payload|];
  }

  /** A frame cut off anywhere reads as incomplete, never as another frame. */
  lemma TruncatedFrameIsShort(f: Frame, b: bytes)
    requires Fits(f) && b < EncodeFrame(f)
    ensures DecodeFrame(b) == Short
  {
    OneByte(|f.sid|);
    Powers();
    BERoundTrip(|f.payload|, 4);
    var e, n := EncodeFrame(f), |f.sid|;
    assert e[1] == n;
    assert e[10 + n..14 + n] == BE(|f.payload|, 4);
    if |b| >= 14 + n {
      assert b[10 + n..14 + n] == e[10 + n..14 + n];
    }
  }

  function EncodeFrames(fs: seq<Frame>): bytes
  {
    if fs == [] then [] else EncodeFrame(fs[0]) + EncodeFrames(fs[1..])
  }

  lemma {:induction false} EncodeFramesAppend(fs: seq<Frame>, f: Frame)
    ensures EncodeFrames(fs + [f]) == EncodeFrames(fs) + EncodeFrame(f)
  {
    if fs == [] {
      assert [f][1..] == [];
    } else {
      assert (fs + [f])[1..] == fs[1..] + [f];
      EncodeFramesAppend(fs[1..], f);
    }
  }

  /** Reading frames until one is incomplete or refused. */
  function DecodeFrames(b: bytes): (fs: seq<Frame>)
    decreases |b|
  {
    match DecodeFrame(b)
    case Got(f, rest) => [f] + DecodeFrames(rest)
    case _ => []
  }

  /** Frames written back to back, followed by anything that is not yet a whole
      frame, read back as exactly those frames. */
  lemma {:induction false} FramesRoundTrip(fs: seq<Frame>, tail: bytes)
    requires forall i :: 0 <= i < |fs| ==> Fits(fs[i])
    requires !DecodeFrame(tail).Got?
    ensures DecodeFrames(EncodeFrames(fs) + tail) == fs
  {
    if fs == [] {
      assert EncodeFrames(fs) + tail == tail;
    } else {
      var rest := EncodeFrames(fs[1..]) + tail;
      assert EncodeFrames(fs) + tail == EncodeFrame(fs[0]) + rest;
      FrameRoundTrip(fs[0], rest);
      FramesRoundTrip(fs[1..], tail);
    }
  }

  // ---- The reader and the writer as the gateway runs them ----

  /** The buffered reader: what is still to come on the connection. */
  class FrameReader {
    var pending: bytes

    constructor (pending: bytes)
      ensures this.pending == pending
    {
      this.pending := pending;
    }

    /** io.ReadFull: all `n` bytes, or an error with the input drained. */
    method ReadFull(n: nat) returns (ok: bool, b: bytes)
      modifies this
      ensures ok <==> n <= |old(pending)|
      ensures ok ==> b == old(pending)[..n] && pending == old(pending)[n..]
      ensures !ok ==> pending == []
    {
      if n <= |pending| {
        ok, b, pending := true, pending[..n], pending[n..];
      } else {
        ok, b, pending := false, [], [];
      }
    }

    method ReadMuxFrame() returns (r: Option<Frame>)
      modifies this
      ensures r.Some? <==> DecodeFrame(old(pending)).Got?
      ensures r.Some? ==> DecodeFrame(old(pending)) == Got(r.value, pending)
    {
      ghost var b := pending;
      var ok, pre := ReadFull(2);
      if !ok {
        return None;
      }
      var typ, sidLen: int := pre[0], pre[1];
      var buf;
      ok, buf := ReadFull(sidLen + 12);
      if !ok {
        return None;
      }
      assert buf == b[2..14 + sidLen];
      SliceOfSlice(b, 2, 14 + sidLen, 0, sidLen);
      SliceOfSlice(b, 2, 14 + sidLen, sidLen, sidLen + 8);
      SliceOfSlice(b, 2, 14 + sidLen, sidLen + 8, sidLen + 12);
      FromBEBound(buf[sidLen..sidLen + 8]);
      Powers();
      var stream := FromBE(buf[sidLen..sidLen + 8]);
      var plen := FromBE(buf[sidLen + 8..sidLen + 12]);
      if plen > MAX_FRAME {
        return None;
      }
      var payload;
      ok, payload := ReadFull(plen);
      if !ok {
        return None;
      }
      assert payload == b[14 + sidLen..14 + sidLen + plen];
      return Some(Frame(typ, buf[..sidLen], stream, payload));
    }
  }

  // ---- OPEN and CLOSE payloads ----

  /** encodeMuxOpen: the output buffer filled by offset. */
  method EncodeMuxOpen(host: bytes, path: bytes, env: bytes) returns (out: array<byte>)
    ensures fresh(out) && out[..] == OpenPayload(host, path, env)
  {
    out := new byte[2 + |host| + 2 + |path| + |env|](_ => 0);
    FillOpen(out, BE(|host|, 2), host, BE(|path|, 2), path, env);
  }

  method FillOpen(out: array<byte>, hl: bytes, host: bytes, pl: bytes, path: bytes, env: bytes)
    requires |hl| == 2 && |pl| == 2 && out.Length == 2 + |host| + 2 + |path| + |env|
    modifies out
    ensures out[..] == hl + host + pl + path + env
  {
    Fill(out, 0, hl);
    assert out[..2] == hl;
    Fill(out, 2, host);
    var off := 2 + |host|;
    Fill(out, off, pl);
    Fill(out, off + 2, path);
    Fill(out, off + 2 + |path|, env);
    assert out[..] == out[..off + 2 + |path| + |env|];
  }

  /** copy(out[at:], src) where all of src fits: what lay before stays. */
  method Fill(out: array<byte>, at: nat, src: bytes)
    requires at + |src| <= out.Length
    modifies out
    ensures out[..at + |src|] == old(out[..at]) + src
  {
    for i := 0 to |src|
      invariant out[..at + i] == old(out[..at]) + src[..i]
    {
      out[at + i] := src[i];
      assert out[..at + i + 1] == out[..at + i] + [src[i]];
      assert src[..i + 1] == src[..i] + [src[i]];
    }
  }

  function OpenPayload(host: bytes, path: bytes, env: bytes): bytes
  {
    BE(|host|, 2) + host + BE(|path|, 2) + path + env
  }

  datatype Open = Open(host: bytes, path: bytes, env: bytes)

  /** The enclave's side of the OPEN payload. */
  function ParseOpen(b: bytes): Option<Open>
  {
    if |b| < 2 then None
    else
      var hl := FromBE(b[..2]);
      if |b| < 2 + hl + 2 then None
      else
        var off := 2 + hl;
        var pl := FromBE(b[off..off + 2]);
        if |b| < off + 2 + pl then None
        else Some(Open(b[2..off], b[off + 2..off + 2 + pl], b[off + 2 + pl..]))
  }

  /** The open reaches the enclave intact exactly when both lengths fit their
      16-bit fields, which nothing before the casts checks. */
  lemma OpenRoundTrip(host: bytes, path: bytes, env: bytes)
    ensures ParseOpen(OpenPayload(host, path, env)) == Some(Open(host, path, env))
            <==> |host| <= 65535 && |path| <= 65535
  {
    Powers();
    BERoundTrip(|host|, 2);
    BERoundTrip(|path|, 2);
    if |host| <= 65535 && |path| <= 65535 {
      OpenIntact(BE(|host|, 2), host, BE(|path|, 2), path, env);
    } else {
      OpenGarbled(host, path, env);
    }
  }

  lemma OpenIntact(h: bytes, host: bytes, p: bytes, path: bytes, env: bytes)
    requires |h| == |p| == 2 && FromBE(h) == |host| && FromBE(p) == |path|
    ensures ParseOpen(h + host + p + path + env) == Some(Open(host, path, env))
  {
    var b, off := h + host + p + path + env, 2 + |host|;
    assert b[..2] == h;
    assert b[2..off] == host;
    assert b[off..off + 2] == p;
    assert b[off + 2..off + 2 + |path|] == path;
    assert b[off + 2 + |path|..] == env;
  }

  lemma OpenGarbled(host: bytes, path: bytes, env: bytes)
    requires FromBE(BE(|host|, 2)) != |host| || FromBE(BE(|path|, 2)) != |path|
    ensures ParseOpen(OpenPayload(host, path, env)) != Some(Open(host, path, env))
  {
    var b, off := OpenPayload(host, path, env), 2 + |host|;
    var r := ParseOpen(b);
    assert b[..2] == BE(|host|, 2);
    if FromBE(BE(|host|, 2)) == |host| && r.Some? {
      assert b[off..off + 2] == BE(|path|, 2);
      assert |r.value.path| == FromBE(BE(|path|, 2));
    }
  }

  /** encodeMuxClose: the code truncated to 16 bits as the cast does. */
  function ClosePayload(code: int, reason: bytes): bytes
  {
    BE(code % 0x1_0000, 2) + reason
  }

  function ParseClose(b: bytes): (int, bytes)
  {
    if |b| < 2 then (STATUS_NORMAL_CLOSURE, [])
    else
      var code := FromBE(b[..2]);
      (if code == 0 then STATUS_NORMAL_CLOSURE else code, b[2..])
  }

  /** A close keeps its reason, and its code up to 0 becoming normal closure,
      exactly when the code fits 16 bits. */
  lemma CloseRoundTrip(code: int, reason: bytes)
    ensures ParseClose(ClosePayload(code, reason)).1 == reason
    ensures ParseClose(ClosePayload(code, reason)).0 == (if code == 0 then 1000 else code)
            <==> 0 <= code < 0x1_0000
  {
    var sent := code % 0x1_0000;
    Powers();
    BERoundTrip(sent, 2);
    assert ClosePayload(code, reason)[..2] == BE(sent, 2);
    assert ClosePayload(code, reason)[2..] == reason;
  }

  /** Where everything stands in the OPEN and CLOSE payloads. */
  lemma OpenOnTheWire(host: bytes, path: bytes, env: bytes)
    requires |host| < 0x1_0000 && |path| < 0x1_0000
    ensures var b, n := OpenPayload(host, path, env), |host|;
            && |b| == 4 + n + |path| + |env|
            && FromBE(b[..2]) == n && b[2..2 + n] == host
            && FromBE(b[2 + n..4 + n]) == |path| && b[4 + n..4 + n + |path|] == path
            && b[4 + n + |path|..] == env
  {
    OpenLayout(BE(|host|, 2), host, BE(|path|, 2), path, env);
    Powers();
    BERoundTrip(|host|, 2);
    BERoundTrip(|path|, 2);
  }

  lemma OpenLayout(hl: bytes, host: bytes, pl: bytes, path: bytes, env: bytes)
    requires |hl| == 2 && |pl| == 2
    ensures var b, n := hl + host + pl + path + env, |host|;
            && |b| == 4 + n + |path| + |env| && b[..2] == hl && b[2..2 + n] == host && b[2 + n..4 + n] == pl
            && b[4 + n..4 + n + |path|] == path && b[4 + n + |path|..] == env
  {
  }

  lemma CloseOnTheWire(code: int, reason: bytes)
    ensures var b := ClosePayload(code, reason);
            |b| == 2 + |reason| && FromBE(b[..2]) == code % 0x1_0000 && b[2..] == reason
  {
    Powers();
    BERoundTrip(code % 0x1_0000, 2);
    assert ClosePayload(code, reason)[..2] == BE(code % 0x1_0000, 2);
  }
}
