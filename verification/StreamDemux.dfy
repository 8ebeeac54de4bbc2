/** Demultiplexing a container's attach stream into two bounded captures.

    A frame is an 8-byte header (stream type, three bytes of padding, big-endian payload size)
    followed by its payload. */
module StreamDemux {
  import opened Common

  newtype byte = x: int | 0 <= x < 256

  const HEADER: nat := 8
  const STDOUT: byte := 1
  const STDERR: byte := 2
  const MAX_OUTPUT_SIZE: int := 1048576
  /** The largest chunk io.Copy reads in one go. */
  const COPY_BUFFER: nat := 32768

  // ----- What a byte stream means -----

  function FrameSize(d: seq<byte>): nat
    requires |d| >= HEADER
  {
    d[4] as int * 0x100_0000 + d[5] as int * 0x1_0000 + d[6] as int * 0x100 + d[7] as int
  }

  /** Where the first frame of d ends, be it whole or cut short. */
  function FrameEnd(d: seq<byte>): (end: nat)
    requires |d| >= HEADER
    ensures HEADER <= end <= |d|
  {
    if HEADER + FrameSize(d) <= |d| then HEADER + FrameSize(d) else |d|
  }

  /** The payload of the first frame of d, if it belongs to the stream. */
  function FirstPayload(stream: byte, d: seq<byte>): seq<byte>
    requires |d| >= HEADER
  {
    if d[0] == stream then d[HEADER..FrameEnd(d)] else []
  }

  /** The payload bytes of one stream; a frame that is cut short contributes what is there, a header
      that is cut short contributes nothing. */
  function Payload(stream: byte, d: seq<byte>): seq<byte>
    decreases |d|
  {
    if |d| < HEADER then [] else FirstPayload(stream, d) + Payload(stream, d[FrameEnd(d)..])
  }

  /** The number of payload bytes of all streams, known or not. */
  function PayloadBytes(d: seq<byte>): nat
    decreases |d|
  {
    if |d| < HEADER then 0 else FrameEnd(d) - HEADER + PayloadBytes(d[FrameEnd(d)..])
  }

  predicate WholeFrames(d: seq<byte>)
    decreases |d|
  {
    d == [] || (|d| >= HEADER && HEADER + FrameSize(d) <= |d| && WholeFrames(d[FrameEnd(d)..]))
  }

  lemma FirstFrameOf(stream: byte, a: seq<byte>, b: seq<byte>)
    requires |a| >= HEADER && HEADER + FrameSize(a) <= |a|
    ensures FrameEnd(a + b) == FrameEnd(a) == HEADER + FrameSize(a + b)
    ensures FirstPayload(stream, a + b) == FirstPayload(stream, a)
    ensures (a + b)[FrameEnd(a)..] == a[FrameEnd(a)..] + b
  {
    assert FrameSize(a + b) == FrameSize(a);
    assert (a + b)[HEADER..FrameEnd(a)] == a[HEADER..FrameEnd(a)];
  }

  /** What follows whole frames is read as if it came first. */
  lemma {:induction false} AfterWholeFrames(stream: byte, a: seq<byte>, b: seq<byte>)
    requires WholeFrames(a)
    ensures Payload(stream, a + b) == Payload(stream, a) + Payload(stream, b)
    ensures PayloadBytes(a + b) == PayloadBytes(a) + PayloadBytes(b)
    ensures WholeFrames(b) ==> WholeFrames(a + b)
    decreases |a|
  {
    if a == [] {
      assert a + b == b;
    } else {
      var rest := a[FrameEnd(a)..];
      FirstFrameOf(stream, a, b);
      AfterWholeFrames(stream, rest, b);
      Associative(FirstPayload(stream, a), Payload(stream, rest), Payload(stream, b));
    }
  }

  /** A frame on the wire: the type in its first byte, three bytes that are not looked at, and the
      size of the payload in four bytes, the most significant first.  Its payload belongs to the
      stream of that type; it may be cut short only by the end of the stream. */
  lemma WireFrame(stream: byte, t: byte, x: byte, y: byte, z: byte, b4: byte, b3: byte, b2: byte, b1: byte,
                  p: seq<byte>, rest: seq<byte>)
    requires var size := ((b4 as int * 256 + b3 as int) * 256 + b2 as int) * 256 + b1 as int;
      |p| == size || (|p| < size && rest == [])
    ensures Payload(stream, [t, x, y, z, b4, b3, b2, b1] + p + rest)
            == (if t == stream then p else []) + Payload(stream, rest)
    ensures PayloadBytes([t, x, y, z, b4, b3, b2, b1] + p + rest) == |p| + PayloadBytes(rest)
    ensures |rest| < 8 ==> Payload(stream, rest) == [] && PayloadBytes(rest) == 0
  {
    var hdr := [t, x, y, z, b4, b3, b2, b1];
    OneFrame(stream, hdr, p);
    if |p| == FrameSize(hdr) {
      AfterWholeFrames(stream, hdr + p, rest);
    } else {
      assert hdr + p + rest == hdr + p;
    }
  }

  lemma FrameOfPrefix(stream: byte, d: seq<byte>, k: nat)
    requires HEADER <= k <= |d|
    ensures FrameEnd(d[..k]) == if k >= FrameEnd(d) then FrameEnd(d) else k
    ensures FirstPayload(stream, d[..k]) <= FirstPayload(stream, d)
    ensures k >= FrameEnd(d) ==> FirstPayload(stream, d[..k]) == FirstPayload(stream, d)
  {
    var c := d[..k];
    assert c[0] == d[0] && c[4] == d[4] && c[5] == d[5] && c[6] == d[6] && c[7] == d[7];
    assert FrameSize(c) == FrameSize(d);
    var end := FrameEnd(c);
    assert d[HEADER..FrameEnd(d)][..end - HEADER] == d[HEADER..end];
    assert c[HEADER..end] == d[HEADER..end];
  }

  /** A shorter stream yields prefixes. */
  lemma {:induction false} PayloadOfPrefix(stream: byte, d: seq<byte>, k: nat)
    requires k <= |d|
    ensures Payload(stream, d[..k]) <= Payload(stream, d)
    ensures PayloadBytes(d[..k]) <= PayloadBytes(d)
    decreases |d|
  {
    if k >= HEADER {
      var c, end := d[..k], FrameEnd(d);
      FrameOfPrefix(stream, d, k);
      if k >= end {
        PayloadOfPrefix(stream, d[end..], k - end);
        assert c[end..] == d[end..][..k - end];
      } else {
        assert c[k..] == [];
      }
    }
  }

  // ----- Framing -----

  datatype Frame = Frame(stream: byte, payload: seq<byte>)

  function Header(stream: byte, n: nat): seq<byte>
    requires n < 0x1_0000_0000
  {
    [stream, 0, 0, 0,
     (n / 0x100_0000) as byte, (n / 0x1_0000 % 256) as byte, (n / 0x100 % 256) as byte, (n % 256) as byte]
  }

  predicate Encodable(frames: seq<Frame>) {
    forall k :: 0 <= k < |frames| ==> |frames[k].payload| < 0x1_0000_0000
  }

  function Encode(frames: seq<Frame>): seq<byte>
    requires Encodable(frames)
  {
    if frames == [] then []
    else Header(frames[0].stream, |frames[0].payload|) + frames[0].payload + Encode(frames[1..])
  }

  function Sent(stream: byte, frames: seq<Frame>): seq<byte> {
    if frames == [] then []
    else (if frames[0].stream == stream then frames[0].payload else []) + Sent(stream, frames[1..])
  }

  function SentBytes(frames: seq<Frame>): nat {
    if frames == [] then 0 else |frames[0].payload| + SentBytes(frames[1..])
  }

  /** Writing a number to base 256. */
  lemma Digits(n: nat)
    ensures n == n / 0x100_0000 * 0x100_0000 + n / 0x1_0000 % 256 * 0x1_0000 + n / 0x100 % 256 * 0x100 + n % 256
  {
    var a, b, c := n / 0x100, n / 0x1_0000, n / 0x100_0000;
    assert b == a / 256 && c == b / 256;
    Horner(n, a, b, c);
  }

  lemma Horner(n: nat, a: nat, b: nat, c: nat)
    requires a == n / 256 && b == a / 256 && c == b / 256
    ensures n == c * 0x100_0000 + b % 256 * 0x1_0000 + a % 256 * 0x100 + n % 256
  {
  }

  lemma HeaderSize(stream: byte, n: nat, rest: seq<byte>)
    requires n < 0x1_0000_0000
    ensures |Header(stream, n)| == HEADER && FrameSize(Header(stream, n) + rest) == n
  {
    var h, d := Header(stream, n), Header(stream, n) + rest;
    assert d[4] == h[4] && d[5] == h[5] && d[6] == h[6] && d[7] == h[7];
    Digits(n);
  }

  /** Demultiplexing inverts framing, unknown stream types included in the byte count. */
  lemma {:induction false} DemuxInvertsFraming(stream: byte, frames: seq<Frame>)
    requires Encodable(frames)
    ensures WholeFrames(Encode(frames))
    ensures Payload(stream, Encode(frames)) == Sent(stream, frames)
    ensures PayloadBytes(Encode(frames)) == SentBytes(frames)
  {
    if frames != [] {
      var f := frames[0];
      DemuxInvertsFraming(stream, frames[1..]);
      HeaderSize(f.stream, |f.payload|, f.payload);
      var first := Header(f.stream, |f.payload|) + f.payload;
      assert FrameEnd(first) == |first|;
      assert first[HEADER..|first|] == f.payload;
      assert first[|first|..] == [];
      AfterWholeFrames(stream, first, Encode(frames[1..]));
    }
  }

  /** Cutting the encoded bytes anywhere yields a prefix of what was sent. */
  lemma CutYieldsPrefix(stream: byte, frames: seq<Frame>, k: nat)
    requires Encodable(frames) && k <= |Encode(frames)|
    ensures Payload(stream, Encode(frames)[..k]) <= Sent(stream, frames)
    ensures PayloadBytes(Encode(frames)[..k]) <= SentBytes(frames)
  {
    DemuxInvertsFraming(stream, frames);
    PayloadOfPrefix(stream, Encode(frames), k);
  }

  // ----- Bounded capture -----

  function Truncate<T>(s: seq<T>, maxBytes: int): (r: seq<T>)
    requires maxBytes >= 0
    ensures |s| <= maxBytes ==> r == s
    ensures |s| > maxBytes ==> |r| == maxBytes && r <= s
  {
    if |s| <= maxBytes then s else s[..maxBytes]
  }

  lemma TruncateAgain<T>(a: seq<T>, b: seq<T>, limit: int)
    requires limit >= 0
    ensures Truncate(Truncate(a, limit) + b, limit) == Truncate(a + b, limit)
  {
  }

  /** A limit that was never set, or is not positive, means MAX_OUTPUT_SIZE. */
  function EffectiveLimit(limit: int): (l: int)
    ensures l == if limit > 0 then limit else 1048576
  {
    if limit <= 0 then MAX_OUTPUT_SIZE else limit
  }

  class LimitedWriter {
    var buf: seq<byte>
    var limit: int
    var n: int

    constructor ()
      ensures buf == [] && limit == 0 && Valid()
    {
      buf, limit, n := [], 0, 0;
    }

    function Limit(): (l: int)
      reads this
      ensures l > 0
    {
      EffectiveLimit(limit)
    }

    predicate Valid()
      reads this
    {
      n == |buf| <= Limit()
    }

    /** Must be called before any Write. */
    method SetLimit(l: int)
      requires Valid() && buf == []
      modifies this
      ensures Valid() && limit == l && buf == []
    {
      limit := l;
    }

    method Reset()
      modifies this
      ensures Valid() && buf == [] && limit == old(limit)
    {
      buf, n := [], 0;
    }

    /** Keeps what fits.  The answer is |p| unless the limit is crossed inside p: then it is the
        number of bytes kept, which callers see as a short write. */
    method Write(p: seq<byte>) returns (written: nat)
      requires Valid()
      modifies this
      ensures Valid() && limit == old(limit)
      ensures buf == Truncate(old(buf) + p, Limit())
      ensures written == if |old(buf)| < Limit() < |old(buf)| + |p| then Limit() - |old(buf)| else |p|
    {
      var lim := limit;
      if lim <= 0 {
        lim := MAX_OUTPUT_SIZE;
      }
      var remaining := lim - n;
      if remaining <= 0 {
        return |p|;
      }
      var kept := p;
      if |p| > remaining {
        kept := p[..remaining];
      }
      buf := buf + kept;
      n := n + |kept|;
      written := |kept|;
    }
  }

  /** The attach connection: its bytes, how it ends, and how far it has been read. */
  class Source {
    const data: seq<byte>
    const broken: bool       // ends in an error instead of EOF
    var pos: nat

    constructor (data: seq<byte>, broken: bool)
      ensures this.data == data && this.broken == broken && pos == 0
    {
      this.data, this.broken, pos := data, broken, 0;
    }

    predicate Valid()
      reads this
    {
      pos <= |data|
    }

    /** One Read: any non-empty part of what is left, up to max bytes; nothing at the end. */
    method Read(max: nat) returns (chunk: seq<byte>)
      requires Valid() && max > 0
      modifies this
      ensures Valid() && old(pos) <= pos && chunk == data[old(pos)..pos]
      ensures |chunk| <= max
      ensures chunk == [] <==> old(pos) == |data|
    {
      if pos == |data| {
        return [];
      }
      var k: nat :| 1 <= k <= max && pos + k <= |data|;
      chunk := data[pos..pos + k];
      pos := pos + k;
    }

    /** io.ReadFull: all k bytes, or what is left. */
    method ReadFull(k: nat) returns (full: bool, bytes: seq<byte>)
      requires Valid()
      modifies this
      ensures Valid() && old(pos) <= pos && bytes == data[old(pos)..pos]
      ensures full ==> |bytes| == k
      ensures !full ==> pos == |data| && |bytes| < k
    {
      var end := if pos + k <= |data| then pos + k else |data|;
      bytes := data[pos..end];
      full := |bytes| == k;
      pos := end;
    }
  }

  datatype CopyError = NoError | Eof | ShortWrite | ReadFailed

  /** io.CopyN of n bytes; a null writer is io.Discard. */
  method CopyN(w: LimitedWriter?, src: Source, n: nat) returns (copied: nat, err: CopyError)
    requires src.Valid() && (w != null ==> w.Valid())
    modifies w, src
    ensures src.Valid() && old(src.pos) <= src.pos <= old(src.pos) + n
    ensures w != null ==> w.Valid() && w.limit == old(w.limit)
    ensures w != null ==> w.buf == Truncate(old(w.buf) + src.data[old(src.pos)..src.pos], w.Limit())
    ensures err == NoError ==> copied == n == src.pos - old(src.pos)
    ensures err == Eof || err == ReadFailed ==>
              copied == src.pos - old(src.pos) < n && src.pos == |src.data| && (src.broken <==> err == ReadFailed)
    ensures err == ShortWrite ==>
              && w != null
              && |old(w.buf)| < w.Limit() < |old(w.buf)| + (src.pos - old(src.pos))
              && copied == w.Limit() - |old(w.buf)|
  {
    copied := 0;
    ghost var had, lim := if w != null then w.buf else [], if w != null then w.Limit() else 1;
    while copied < n
      invariant src.Valid() && copied <= n && src.pos == old(src.pos) + copied
      invariant w != null ==> w.Valid() && w.limit == old(w.limit)
      invariant w != null ==> w.buf == Truncate(had + src.data[old(src.pos)..src.pos], lim)
    {
      var max := if n - copied < COPY_BUFFER then n - copied else COPY_BUFFER;
      ghost var from := src.pos;
      var chunk := src.Read(max);
      if chunk == [] {
        return copied, if src.broken then ReadFailed else Eof;
      }
      CaptureMore(had, src.data, old(src.pos), from, src.pos, lim);
      var nw := |chunk|;
      if w != null {
        nw := w.Write(chunk);
      }
      copied := copied + nw;
      if nw != |chunk| {
        return copied, ShortWrite;
      }
    }
    err := NoError;
  }

  lemma CaptureMore(had: seq<byte>, data: seq<byte>, start: nat, from: nat, to: nat, limit: int)
    requires start <= from <= to <= |data| && limit > 0
    ensures Truncate(Truncate(had + data[start..from], limit) + data[from..to], limit)
            == Truncate(had + data[start..to], limit)
  {
    TruncateAgain(had + data[start..from], data[from..to], limit);
    assert had + data[start..from] + data[from..to] == had + data[start..to];
  }

  /** A header and at most its payload. */
  lemma OneFrame(stream: byte, hdr: seq<byte>, got: seq<byte>)
    requires |hdr| == HEADER && |got| <= FrameSize(hdr)
    ensures Payload(stream, hdr + got) == if hdr[0] == stream then got else []
    ensures PayloadBytes(hdr + got) == |got|
    ensures |got| == FrameSize(hdr) ==> WholeFrames(hdr + got)
  {
    var d := hdr + got;
    assert FrameSize(d) == FrameSize(hdr);
    assert FrameEnd(d) == |d|;
    assert d[HEADER..|d|] == got;
    assert d[|d|..] == [];
  }

  lemma FrameSoFar(stream: byte, whole: seq<byte>, hdr: seq<byte>, got: seq<byte>)
    requires WholeFrames(whole) && |hdr| == HEADER && |got| <= FrameSize(hdr)
    ensures Payload(stream, whole + (hdr + got)) == Payload(stream, whole) + if hdr[0] == stream then got else []
    ensures PayloadBytes(whole + (hdr + got)) == PayloadBytes(whole) + |got|
    ensures |got| == FrameSize(hdr) ==> WholeFrames(whole + (hdr + got))
  {
    OneFrame(stream, hdr, got);
    AfterWholeFrames(stream, whole, hdr + got);
  }

  lemma HeaderCutShort(stream: byte, whole: seq<byte>, hdr: seq<byte>)
    requires WholeFrames(whole) && |hdr| < HEADER
    ensures Payload(stream, whole + hdr) == Payload(stream, whole)
    ensures PayloadBytes(whole + hdr) == PayloadBytes(whole)
  {
    AfterWholeFrames(stream, whole, hdr);
  }

  /** The capture of a stream after seen has gone through the demultiplexer. */
  function Captured(had: seq<byte>, stream: byte, seen: seq<byte>, limit: int): seq<byte>
    requires limit > 0
  {
    Truncate(had + Payload(stream, seen), limit)
  }

  ghost predicate Overflows(had: seq<byte>, stream: byte, seen: seq<byte>, limit: int) {
    |had| + |Payload(stream, seen)| > limit
  }

  /** A short write: the stream overflows, and the bytes beyond its limit are not counted. */
  ghost predicate StopsIn(had: seq<byte>, stream: byte, seen: seq<byte>, limit: int, written: nat) {
    && Overflows(had, stream, seen, limit)
    && written + (|had| + |Payload(stream, seen)| - limit) == PayloadBytes(seen)
  }

  /** What a demultiplexer owes for the bytes seen: both captures, the count, and a reason to stop. */
  ghost predicate Demuxed(had: seq<byte>, hadErr: seq<byte>, limit: int, limitErr: int, seen: seq<byte>,
                          buf: seq<byte>, bufErr: seq<byte>, written: nat, err: CopyError)
    requires limit > 0 && limitErr > 0
  {
    && buf == Captured(had, STDOUT, seen, limit)
    && bufErr == Captured(hadErr, STDERR, seen, limitErr)
    && if err == ShortWrite
       then StopsIn(had, STDOUT, seen, limit, written) || StopsIn(hadErr, STDERR, seen, limitErr, written)
       else written == PayloadBytes(seen)
  }

  /** What the captures hold once the frame behind whole has delivered got. */
  lemma CaptureFrame(had: seq<byte>, stream: byte, whole: seq<byte>, hdr: seq<byte>, got: seq<byte>, limit: int)
    requires WholeFrames(whole) && |hdr| == HEADER && |got| <= FrameSize(hdr) && limit > 0
    ensures Captured(had, stream, whole + (hdr + got), limit)
            == if hdr[0] == stream then Truncate(Captured(had, stream, whole, limit) + got, limit)
                else Captured(had, stream, whole, limit)
  {
    FrameSoFar(stream, whole, hdr, got);
    if hdr[0] == stream {
      TruncateAgain(had + Payload(stream, whole), got, limit);
      Associative(had, Payload(stream, whole), got);
    } else {
      assert Payload(stream, whole) + [] == Payload(stream, whole);
    }
  }

  lemma ShortStop(had: seq<byte>, stream: byte, whole: seq<byte>, hdr: seq<byte>, got: seq<byte>, limit: int, n: nat)
    requires WholeFrames(whole) && |hdr| == HEADER && |got| <= FrameSize(hdr) && limit > 0 && hdr[0] == stream
    requires |Captured(had, stream, whole, limit)| < limit < |Captured(had, stream, whole, limit)| + |got|
    requires n == limit - |Captured(had, stream, whole, limit)|
    ensures StopsIn(had, stream, whole + (hdr + got), limit, PayloadBytes(whole) + n)
  {
    FrameSoFar(stream, whole, hdr, got);
  }

  /** A frame whose payload has been copied to its writer, in full or up to a short write. */
  lemma FrameDemuxed(had: seq<byte>, hadErr: seq<byte>, limit: int, limitErr: int, whole: seq<byte>, hdr: seq<byte>,
                     got: seq<byte>, buf: seq<byte>, bufErr: seq<byte>, n: nat, err: CopyError)
    requires WholeFrames(whole) && |hdr| == HEADER && |got| <= FrameSize(hdr) && limit > 0 && limitErr > 0
    requires var before := Captured(had, STDOUT, whole, limit);
      && buf == (if hdr[0] == STDOUT then Truncate(before + got, limit) else before)
      && (err == ShortWrite && hdr[0] == STDOUT ==> |before| < limit < |before| + |got| && n == limit - |before|)
    requires var before := Captured(hadErr, STDERR, whole, limitErr);
      && bufErr == (if hdr[0] == STDERR then Truncate(before + got, limitErr) else before)
      && (err == ShortWrite && hdr[0] == STDERR ==> |before| < limitErr < |before| + |got| && n == limitErr - |before|)
    requires if err == ShortWrite then hdr[0] in {STDOUT, STDERR} else n == |got|
    ensures Demuxed(had, hadErr, limit, limitErr, whole + (hdr + got), buf, bufErr, PayloadBytes(whole) + n, err)
    ensures |got| == FrameSize(hdr) ==> WholeFrames(whole + (hdr + got))
  {
    CaptureFrame(had, STDOUT, whole, hdr, got, limit);
    CaptureFrame(hadErr, STDERR, whole, hdr, got, limitErr);
    FrameSoFar(STDOUT, whole, hdr, got);
    if err == ShortWrite && hdr[0] == STDOUT {
      ShortStop(had, STDOUT, whole, hdr, got, limit, n);
    } else if err == ShortWrite {
      ShortStop(hadErr, STDERR, whole, hdr, got, limitErr, n);
    }
  }

  lemma Slices(data: seq<byte>, a: nat, b: nat, c: nat, d: nat)
    requires a <= b <= c <= d <= |data|
    ensures data[a..d] == data[a..b] + (data[b..c] + data[c..d])
    ensures data[a..c] == data[a..b] + data[b..c]
  {
  }

  /** The rest of a frame whose header has been read, copied to the writer of its stream; whole is
      what came before the header. */
  method CopyFrame(dst: LimitedWriter, dstErr: LimitedWriter, src: Source, hdr: seq<byte>,
                   ghost whole: seq<byte>, ghost had: seq<byte>, ghost hadErr: seq<byte>)
    returns (n: nat, err: CopyError)
    requires dst != dstErr && dst.Valid() && dstErr.Valid() && src.Valid()
    requires |hdr| == HEADER && WholeFrames(whole)
    requires dst.buf == Captured(had, STDOUT, whole, dst.Limit())
    requires dstErr.buf == Captured(hadErr, STDERR, whole, dstErr.Limit())
    modifies dst, dstErr, src
    ensures src.Valid() && old(src.pos) <= src.pos
    ensures dst.Valid() && dstErr.Valid() && dst.limit == old(dst.limit) && dstErr.limit == old(dstErr.limit)
    ensures var seen := whole + (hdr + src.data[old(src.pos)..src.pos]);
            && Demuxed(had, hadErr, dst.Limit(), dstErr.Limit(), seen, dst.buf, dstErr.buf,
                       PayloadBytes(whole) + n, err)
            && (err == NoError ==> WholeFrames(seen))
    ensures err == Eof || err == ReadFailed ==> src.pos == |src.data| && (src.broken <==> err == ReadFailed)
  {
    var frameSize := FrameSize(hdr);
    ghost var body := src.pos;
    if hdr[0] == STDOUT {
      n, err := CopyN(dst, src, frameSize);
    } else if hdr[0] == STDERR {
      n, err := CopyN(dstErr, src, frameSize);
    } else {
      n, err := CopyN(null, src, frameSize);
    }
    ghost var got := src.data[body..src.pos];
    FrameDemuxed(had, hadErr, dst.Limit(), dstErr.Limit(), whole, hdr, got, dst.buf, dstErr.buf, n, err);
  }

  /** For every chunking of the reads, the captures are the payloads of the bytes consumed, cut at
      the limit; all bytes are consumed unless a stream overflows in the middle of a chunk. */
  method StdCopy(dst: LimitedWriter, dstErr: LimitedWriter, src: Source) returns (written: nat, err: CopyError)
    requires dst != dstErr && dst.Valid() && dstErr.Valid() && src.Valid()
    modifies dst, dstErr, src
    ensures src.Valid() && old(src.pos) <= src.pos
    ensures dst.Valid() && dstErr.Valid() && dst.limit == old(dst.limit) && dstErr.limit == old(dstErr.limit)
    ensures Demuxed(old(dst.buf), old(dstErr.buf), dst.Limit(), dstErr.Limit(), src.data[old(src.pos)..src.pos],
                    dst.buf, dstErr.buf, written, err)
    ensures err != Eof
    ensures err != ShortWrite ==> src.pos == |src.data| && (err == ReadFailed <==> src.broken)
  {
    written := 0;
    ghost var start, whole := src.pos, [];
    Keeps(dst.buf, STDOUT, dst.Limit());
    Keeps(dstErr.buf, STDERR, dstErr.Limit());
    while true
      invariant src.Valid() && start <= src.pos && whole == src.data[start..src.pos]
      invariant dst.Valid() && dstErr.Valid() && dst.limit == old(dst.limit) && dstErr.limit == old(dstErr.limit)
      invariant WholeFrames(whole)
      invariant Demuxed(old(dst.buf), old(dstErr.buf), dst.Limit(), dstErr.Limit(), whole,
                        dst.buf, dstErr.buf, written, NoError)
      decreases |src.data| - src.pos
    {
      ghost var from := src.pos;
      var full, hdr := src.ReadFull(HEADER);
      ghost var body := src.pos;
      Slices(src.data, start, from, body, body);
      if !full {
        HeaderCutShort(STDOUT, whole, hdr);
        HeaderCutShort(STDERR, whole, hdr);
        return written, if src.broken then ReadFailed else NoError;
      }
      var n;
      n, err := CopyFrame(dst, dstErr, src, hdr, whole, old(dst.buf), old(dstErr.buf));
      Slices(src.data, start, from, body, src.pos);
      written := written + n;
      if err != NoError {
        if err == Eof {
          return written, NoError;
        }
        return written, err;
      }
      whole := src.data[start..src.pos];
    }
  }

  lemma Keeps(had: seq<byte>, stream: byte, limit: int)
    requires limit > 0 && |had| <= limit
    ensures Captured(had, stream, [], limit) == had
  {
    assert had + [] == had;
  }

  /** The capture of a container run: two fresh writers, one demultiplexing, and the final
      truncations, which change nothing.  Each output is a prefix of what its stream carried and
      within the limit; both are complete exactly when both streams fit.  They hold what was read of
      the stream, and reading stops early only when one of them is full. */
  method CaptureRun(src: Source) returns (stdout: seq<byte>, stderr: seq<byte>)
    requires src.pos == 0
    modifies src
    ensures stdout <= Payload(1, src.data) && |stdout| <= 1048576
    ensures stderr <= Payload(2, src.data) && |stderr| <= 1048576
    ensures stdout == Payload(1, src.data) && stderr == Payload(2, src.data)
            <==> |Payload(1, src.data)| <= 1048576 && |Payload(2, src.data)| <= 1048576
    ensures src.pos <= |src.data|
    ensures stdout == Truncate(Payload(1, src.data[..src.pos]), 1048576)
    ensures stderr == Truncate(Payload(2, src.data[..src.pos]), 1048576)
    ensures src.pos == |src.data| || |stdout| == 1048576 || |stderr| == 1048576
  {
    var stdoutBuf := new LimitedWriter();
    var stderrBuf := new LimitedWriter();
    stdoutBuf.SetLimit(MAX_OUTPUT_SIZE);
    stderrBuf.SetLimit(MAX_OUTPUT_SIZE);
    var _, err := StdCopy(stdoutBuf, stderrBuf, src);
    assert src.data[0..src.pos] == src.data[..src.pos];
    PayloadOfPrefix(STDOUT, src.data, src.pos);
    PayloadOfPrefix(STDERR, src.data, src.pos);
    assert [] + Payload(STDOUT, src.data[..src.pos]) == Payload(STDOUT, src.data[..src.pos]);
    assert [] + Payload(STDERR, src.data[..src.pos]) == Payload(STDERR, src.data[..src.pos]);
    if err != ShortWrite {
      assert src.data[..src.pos] == src.data;
    }
    stdout := Truncate(stdoutBuf.buf, MAX_OUTPUT_SIZE);
    stderr := Truncate(stderrBuf.buf, MAX_OUTPUT_SIZE);
    assert stdout == stdoutBuf.buf && stderr == stderrBuf.buf;
  }

  /** The smallest stream that shows which bytes go where: one frame, captured. */
  method CaptureWireFrame(t: byte, x: byte, y: byte, z: byte, b4: byte, b3: byte, b2: byte, b1: byte, p: seq<byte>)
    returns (stdout: seq<byte>, stderr: seq<byte>)
    requires |p| <= ((b4 as int * 256 + b3 as int) * 256 + b2 as int) * 256 + b1 as int && |p| <= 1048576
    ensures stdout == if t == 1 then p else []
    ensures stderr == if t == 2 then p else []
  {
    var src := new Source([t, x, y, z, b4, b3, b2, b1] + p, false);
    WireFrame(1, t, x, y, z, b4, b3, b2, b1, p, []);
    WireFrame(2, t, x, y, z, b4, b3, b2, b1, p, []);
    assert src.data == [t, x, y, z, b4, b3, b2, b1] + p + [];
    stdout, stderr := CaptureRun(src);
  }

  /** Frames whose totals fit never make a stream overflow, wherever the bytes are cut. */
  lemma FittingFramesNeverOverflow(stream: byte, frames: seq<Frame>, k: nat, limit: int)
    requires Encodable(frames) && k <= |Encode(frames)| && limit > 0
    ensures |Sent(stream, frames)| <= limit ==>
              && !Overflows([], stream, Encode(frames)[..k], limit)
              && Captured([], stream, Encode(frames)[..k], limit) <= Sent(stream, frames)
    ensures Captured([], stream, Encode(frames), limit) == Sent(stream, frames) <==> |Sent(stream, frames)| <= limit
  {
    CutYieldsPrefix(stream, frames, k);
    DemuxInvertsFraming(stream, frames);
    assert [] + Payload(stream, Encode(frames)[..k]) == Payload(stream, Encode(frames)[..k]);
    assert [] + Payload(stream, Encode(frames)) == Payload(stream, Encode(frames));
  }

  /** Framing a list of payloads and running the demultiplexer on the bytes, or on any beginning of
      them, ends without an error when both streams fit; it yields prefixes of what was sent on each
      stream, and at full length exactly that, all payload bytes counted. */
  method DemuxFrames(frames: seq<Frame>, k: nat, limit: int, limitErr: int)
    returns (stdout: seq<byte>, stderr: seq<byte>, written: nat, err: CopyError)
    requires Encodable(frames) && k <= |Encode(frames)|
    requires |Sent(1, frames)| <= EffectiveLimit(limit) && |Sent(2, frames)| <= EffectiveLimit(limitErr)
    ensures err == NoError
    ensures stdout <= Sent(1, frames) && stderr <= Sent(2, frames) && written <= SentBytes(frames)
    ensures k == |Encode(frames)| ==>
              stdout == Sent(1, frames) && stderr == Sent(2, frames) && written == SentBytes(frames)
  {
    var dst := new LimitedWriter();
    var dstErr := new LimitedWriter();
    dst.SetLimit(limit);
    dstErr.SetLimit(limitErr);
    var bytes := Encode(frames);
    var src := new Source(bytes[..k], false);
    written, err := StdCopy(dst, dstErr, src);
    stdout, stderr := dst.buf, dstErr.buf;
    ghost var m := src.pos;
    assert src.data[0..m] == bytes[..m];
    FittingFramesNeverOverflow(STDOUT, frames, m, dst.Limit());
    FittingFramesNeverOverflow(STDERR, frames, m, dstErr.Limit());
    PayloadOfPrefix(STDOUT, bytes, m);
    DemuxInvertsFraming(STDOUT, frames);
    assert k == |bytes| && m == k ==> bytes[..m] == bytes;
  }
}
