/** The response writer's body framing: one chunk per write, and the chunked
    coding of section 7.1 of RFC 9112 to read it back. */
module ChunkedWriter {
  import opened Bytes
  import opened Text

  const CRLF: bytes := [13, 10]
  const LAST: bytes := [48, 13, 10, 13, 10]

  function Digit(d: nat): byte
    requires d < 16
  {
    if d < 10 then 48 + d else 87 + d
  }

  /** strconv.FormatInt(n, 16). */
  function Hex(n: nat): (b: bytes)
    ensures b != []
  {
    if n < 16 then [Digit(n)] else Hex(n / 16) + [Digit(n % 16)]
  }

  function Chunk(p: bytes): bytes
  {
    Hex(|p|) + CRLF + p + CRLF
  }

  function Chunks(ws: seq<bytes>): bytes
  {
    if ws == [] then [] else Chunk(ws[0]) + Chunks(ws[1..])
  }

  lemma JoinChunk(body: bytes, p: bytes)
    ensures body + Hex(|p|) + CRLF + p + CRLF == body + Chunk(p)
  {
    var h := Hex(|p|);
    Associate(body, h, CRLF);
    Associate(body, h + CRLF, p);
    Associate(body, h + CRLF + p, CRLF);
  }

  lemma {:induction false} ChunksAppend(ws: seq<bytes>, w: bytes)
    ensures Chunks(ws + [w]) == Chunks(ws) + Chunk(w)
  {
    if ws == [] {
      assert [w][1..] == [];
    } else {
      assert (ws + [w])[1..] == ws[1..] + [w];
      ChunksAppend(ws[1..], w);
      Associate(Chunk(ws[0]), Chunks(ws[1..]), Chunk(w));
    }
  }

  // ---- Reading it back ----

  function HexValue(b: byte): Option<nat>
  {
    if 48 <= b <= 57 then Some(b - 48)
    else if 97 <= b <= 102 then Some(b - 87)
    else if 65 <= b <= 70 then Some(b - 55)
    else None
  }

  /** A chunk's delimiters and the last chunk, in characters. */
  lemma FramingOctets()
    ensures |CRLF| == 2 && CRLF[0] as int == '\r' as int && CRLF[1] as int == '\n' as int
    ensures |LAST| == 5 && LAST[0] as int == '0' as int && LAST[1..3] == CRLF && LAST[3..] == CRLF
  {
  }

  /** Digits are written in lower case and read in either. */
  lemma DigitsAreHex(d: nat, b: byte)
    requires d < 16
    ensures Digit(d) as int == "0123456789abcdef"[d] as int
    ensures HexValue(b) == Some(d) <==> b as int == "0123456789abcdef"[d] as int || b as int == "0123456789ABCDEF"[d] as int
    ensures HexValue(b).Some? ==> HexValue(b).value < 16
  {
  }

  /** Reads hex digits; what follows them is left. */
  function Size(b: bytes, acc: nat): (r: (nat, bytes))
    ensures |r.1| <= |b|
  {
    if b != [] && HexValue(b[0]).Some? then Size(b[1..], acc * 16 + HexValue(b[0]).value) else (acc, b)
  }

  /** A chunked body without extensions or trailers: its content and whatever
      follows it on the connection. */
  function Decode(b: bytes): Option<(bytes, bytes)>
    decreases |b|
  {
    if b == [] || HexValue(b[0]).None? then None
    else
      var (n, r) := Size(b, 0);
      if !(CRLF <= r) then None
      else
        var data := r[2..];
        if n == 0 then (if CRLF <= data then Some(([], data[2..])) else None)
        else if |data| < n || !(CRLF <= data[n..]) then None
        else
          match Decode(data[n..][2..])
          case None => None
          case Some((rest, after)) => Some((data[..n] + rest, after))
  }

  lemma DigitReadsBack(d: nat, t: bytes, acc: nat)
    requires d < 16
    ensures HexValue(Digit(d)) == Some(d)
    ensures Size([Digit(d)] + t, acc) == Size(t, acc * 16 + d)
  {
    assert ([Digit(d)] + t)[1..] == t;
  }

  lemma {:induction false} HexReadsBack(n: nat, t: bytes)
    ensures Size(Hex(n) + t, 0) == Size(t, n)
    ensures HexValue(Hex(n)[0]).Some?
  {
    if n < 16 {
      DigitReadsBack(n, t, 0);
    } else {
      Associate(Hex(n / 16), [Digit(n % 16)], t);
      HexReadsBack(n / 16, [Digit(n % 16)] + t);
      DigitReadsBack(n % 16, t, n / 16);
    }
  }

  lemma ChunkHeader(n: nat, t: bytes)
    ensures var b := Hex(n) + (CRLF + t);
            && b != [] && HexValue(b[0]).Some?
            && Size(b, 0) == (n, CRLF + t)
  {
    HexReadsBack(n, CRLF + t);
    assert (CRLF + t)[0] == 13;
  }

  lemma SplitChunk(w: bytes, t: bytes)
    ensures Chunk(w) + t == Hex(|w|) + (CRLF + (w + (CRLF + t)))
  {
    var h := Hex(|w|);
    Associate(h + CRLF + w, CRLF, t);
    Associate(h + CRLF, w, CRLF + t);
    Associate(h, CRLF, w + (CRLF + t));
  }

  lemma OneChunkReadsBack(w: bytes, t: bytes)
    requires w != []
    ensures Decode(Chunk(w) + t) ==
            match Decode(t)
            case None => None
            case Some((rest, after)) => Some((w + rest, after))
  {
    SplitChunk(w, t);
    ChunkHeader(|w|, w + (CRLF + t));
    var r := CRLF + (w + (CRLF + t));
    var data := r[2..];
    assert data == w + (CRLF + t);
    assert data[|w|..] == CRLF + t && data[..|w|] == w;
    assert (CRLF + t)[2..] == t;
  }

  lemma LastReadsBack(after: bytes)
    ensures Decode(LAST + after) == Some(([], after))
  {
    ChunkHeader(0, CRLF + after);
    assert Hex(0) == [48];
    assert LAST + after == [48] + (CRLF + (CRLF + after));
    assert (CRLF + (CRLF + after))[2..] == CRLF + after;
    assert (CRLF + after)[2..] == after;
  }

  /** An empty write frames as the last chunk: the body ends there. */
  lemma EmptyWriteEndsBody(t: bytes)
    ensures Decode(Chunk([]) + t) == Some(([], t))
  {
    assert Chunk([]) == LAST by { assert Hex(0) == [48]; }
    LastReadsBack(t);
  }

  lemma {:induction false} BodyReadsBack(ws: seq<bytes>, after: bytes)
    requires forall i :: 0 <= i < |ws| ==> ws[i] != []
    ensures Decode(Chunks(ws) + LAST + after) == Some((Concat(ws), after))
  {
    if ws == [] {
      assert Chunks(ws) + LAST + after == LAST + after;
      LastReadsBack(after);
    } else {
      var t := Chunks(ws[1..]) + LAST + after;
      assert Chunks(ws) + LAST + after == Chunk(ws[0]) + t;
      BodyReadsBack(ws[1..], after);
      OneChunkReadsBack(ws[0], t);
    }
  }

  lemma {:induction false} BodyCutShort(ws: seq<bytes>, k: nat, after: bytes)
    requires k < |ws| && ws[k] == [] && forall i :: 0 <= i < k ==> ws[i] != []
    ensures Decode(Chunks(ws) + LAST + after) == Some((Concat(ws[..k]), Chunks(ws[k + 1..]) + LAST + after))
  {
    var t := Chunks(ws[1..]) + LAST + after;
    assert Chunks(ws) + LAST + after == Chunk(ws[0]) + t;
    if k == 0 {
      EmptyWriteEndsBody(t);
    } else {
      BodyCutShort(ws[1..], k - 1, after);
      OneChunkReadsBack(ws[0], t);
      assert ws[..k][1..] == ws[1..][..k - 1];
      assert ws[1..][k - 1 + 1..] == ws[k + 1..];
    }
  }

  /** As far as the chunked coding goes, a finished body reads back as the
      concatenation of its writes with nothing left over exactly when no write
      was empty. */
  lemma ChunkedBodyIntactIffNoEmptyWrite(ws: seq<bytes>, after: bytes)
    ensures Decode(Chunks(ws) + LAST + after) == Some((Concat(ws), after))
            <==> forall i :: 0 <= i < |ws| ==> ws[i] != []
  {
    if i :| 0 <= i < |ws| && ws[i] == [] {
      var k := FirstEmpty(ws, i);
      BodyCutShort(ws, k, after);
      assert |Chunks(ws[k + 1..]) + LAST + after| > |after|;
    } else {
      BodyReadsBack(ws, after);
    }
  }

  lemma {:induction false} FirstEmpty(ws: seq<bytes>, i: nat) returns (k: nat)
    requires i < |ws| && ws[i] == []
    ensures k <= i && ws[k] == [] && forall j :: 0 <= j < k ==> ws[j] != []
  {
    k := i;
    if j :| 0 <= j < i && ws[j] == [] {
      k := FirstEmpty(ws, j);
    }
  }

  // ---- Reading a whole response ----

  /** How the header declares the length of the body. */
  datatype Framing = Chunked | Length(n: nat)

  /** Section 6.3 of RFC 9112, rule 1: the answer to a HEAD request and these
      statuses end with the header, whatever the header declares. */
  predicate MayCarryBody(status: nat, head: bool)
  {
    !head && status >= 200 && status != 204 && status != 304
  }

  /** What a client takes for the body, and what it takes for the start of the
      next response: rules 1, 4 and 6 of that section. */
  function ReadBody(status: nat, head: bool, framing: Framing, wire: bytes): Option<(bytes, bytes)>
  {
    if !MayCarryBody(status, head) then Some(([], wire))
    else
      match framing
      case Chunked => Decode(wire)
      case Length(n) => if |wire| < n then None else Some((wire[..n], wire[n..]))
  }

  /** What the writer has put after the header once the response is finished. */
  function Finished(framing: Framing, ws: seq<bytes>): bytes
  {
    if framing.Chunked? then Chunks(ws) + LAST else Concat(ws)
  }

  ghost predicate NoneEmpty(ws: seq<bytes>)
  {
    forall i :: 0 <= i < |ws| ==> ws[i] != []
  }

  /** Chunked: the message may carry a body and no write was empty. With a
      declared length: the writes add up to it, or to nothing when there is no
      body to carry. */
  ghost predicate Fits(status: nat, head: bool, framing: Framing, ws: seq<bytes>)
  {
    match framing
    case Chunked => !head && status >= 200 && status != 204 && status != 304 && NoneEmpty(ws)
    case Length(n) => |Concat(ws)| == if head || status < 200 || status == 204 || status == 304 then 0 else n
  }

  /** Exactly when the client reads the writes and finds the next response in
      its place. A chunked response that may not carry a body never does: the
      last chunk is sent all the same, five octets in front of what follows. */
  lemma ResponseIntactIff(status: nat, head: bool, framing: Framing, ws: seq<bytes>, after: bytes)
    ensures ReadBody(status, head, framing, Finished(framing, ws) + after) == Some((Concat(ws), after))
            <==> Fits(status, head, framing, ws)
  {
    var wire := Finished(framing, ws) + after;
    if framing.Chunked? {
      ChunkedBodyIntactIffNoEmptyWrite(ws, after);
      assert |wire| > |after|;
    } else if MayCarryBody(status, head) && framing.n <= |wire| {
      if |Concat(ws)| == framing.n {
        assert wire[..framing.n] == Concat(ws) && wire[framing.n..] == after;
      } else {
        assert |wire[..framing.n]| == framing.n;
      }
    } else if Concat(ws) == [] {
      assert wire == after;
    }
  }

  /** The run behind it: a 204 or 304, or the answer to a HEAD request, without
      Content-Length and without a single write. */
  lemma BodilessResponseLeavesLastChunk(status: nat, head: bool, after: bytes)
    requires head || status == 204 || status == 304
    ensures ReadBody(status, head, Chunked, Finished(Chunked, []) + after) == Some(([], LAST + after))
  {
    assert Chunks([]) + LAST == LAST;
  }

  // ---- The writer ----

  class ConnResponseWriter {
    // What the handler declared: a length, a transfer coding, a close.
    var contentLength: Option<nat>
    var transferEncoding: bool
    var connectionClose: bool

    var status: nat
    var wroteHeader: bool
    var chunked: bool
    var closeRequested: bool
    var body: bytes
    ghost var writes: seq<bytes>

    /** Until the response is finished, the body is the writes, chunked or plain. */
    ghost predicate Valid()
      reads this
    {
      && (!wroteHeader ==> !chunked && writes == [])
      && (chunked ==> transferEncoding)
      && body == if chunked then Chunks(writes) else Concat(writes)
    }

    constructor (contentLength: Option<nat>, transferEncoding: bool, connectionClose: bool)
      ensures Valid() && !wroteHeader && writes == [] && status == 200 && !closeRequested
      ensures this.contentLength == contentLength && this.transferEncoding == transferEncoding
      ensures this.connectionClose == connectionClose
    {
      this.contentLength, this.transferEncoding := contentLength, transferEncoding;
      this.connectionClose := connectionClose;
      status, wroteHeader, chunked, closeRequested, body, writes := 200, false, false, false, [], [];
    }

    /** The first call decides the framing; later ones do nothing. */
    method WriteHeader(code: nat)
      requires Valid()
      modifies this
      ensures Valid() && wroteHeader && writes == old(writes) && body == old(body)
      ensures old(wroteHeader) ==> unchanged(this)
      ensures !old(wroteHeader) ==>
                && status == code
                && (chunked <==> code >= 200 && old(contentLength).None? && !old(transferEncoding))
                && transferEncoding == (old(transferEncoding) || chunked)
                && closeRequested == (old(closeRequested) || connectionClose)
      ensures contentLength == old(contentLength) && connectionClose == old(connectionClose)
    {
      if wroteHeader {
        return;
      }
      wroteHeader := true;
      status := code;
      if code >= 200 && contentLength.None? && !transferEncoding {
        chunked := true;
        transferEncoding := true;
      }
      if connectionClose {
        closeRequested := true;
      }
    }

    method Write(p: bytes) returns (n: nat)
      requires Valid()
      modifies this
      ensures Valid() && wroteHeader && n == |p| && writes == old(writes) + [p]
      ensures contentLength == old(contentLength) && transferEncoding == (old(transferEncoding) || chunked)
      ensures connectionClose == old(connectionClose)
      ensures closeRequested == (old(closeRequested) || (!old(wroteHeader) && connectionClose))
      ensures old(wroteHeader) ==> chunked == old(chunked) && status == old(status)
      ensures !old(wroteHeader) ==> status == 200 && (chunked <==> old(contentLength).None? && !old(transferEncoding))
    {
      if !wroteHeader {
        WriteHeader(200);
      }
      ChunksAppend(writes, p);
      ConcatAppend(writes, p);
      if chunked {
        JoinChunk(body, p);
        body := body + Hex(|p|);
        body := body + CRLF;
        body := body + p;
        body := body + CRLF;
      } else {
        body := body + p;
      }
      writes := writes + [p];
      n := |p|;
    }

    /** The framing the header declares, when it is the writer's own chunking or
        a length. */
    function Framing(): Framing
      reads this
      requires chunked || (contentLength.Some? && !transferEncoding)
    {
      if chunked then Chunked else Length(contentLength.value)
    }

    /** Ends the response to a request, a HEAD request or not. A client reading
        on finds exactly the writes and then the next response, if and only if
        the response was one that fits its framing. */
    method FlushClose(head: bool)
      requires Valid()
      modifies this
      ensures wroteHeader && writes == old(writes) && contentLength == old(contentLength)
      ensures transferEncoding == (old(transferEncoding) || chunked)
      ensures connectionClose == old(connectionClose)
      ensures closeRequested == (old(closeRequested) || (!old(wroteHeader) && connectionClose))
      ensures old(wroteHeader) ==> chunked == old(chunked) && status == old(status)
      ensures !old(wroteHeader) ==> status == 200 && (chunked <==> old(contentLength).None? && !old(transferEncoding))
      ensures body == if chunked then Chunks(writes) + LAST else Concat(writes)
      ensures chunked || (contentLength.Some? && !transferEncoding) ==>
                forall after :: ReadBody(status, head, Framing(), body + after) == Some((Concat(writes), after))
                                <==> Fits(status, head, Framing(), writes)
    {
      if !wroteHeader {
        WriteHeader(200);
      }
      if chunked {
        body := body + LAST;
      }
      if chunked || (contentLength.Some? && !transferEncoding) {
        ghost var framing := Framing();
        forall after
          ensures ReadBody(status, head, framing, body + after) == Some((Concat(writes), after))
                  <==> Fits(status, head, framing, writes)
        {
          ResponseIntactIff(status, head, framing, writes, after);
        }
      }
    }
  }
}
