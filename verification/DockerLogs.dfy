/**
Decoding of container logs (agent/docker.go): the multiplexed framing is the
"Stream format" of the Docker Engine API's attach operation. Each frame is an
8-byte header (stream, three zero bytes, big-endian length) and a payload.
 */
module DockerLogs {
  import opened Basics

  type Byte = x: int | 0 <= x < 256
  type Bytes = seq<Byte>

  const HEADER_SIZE: nat := 8
  const MAX_FRAME_SIZE: nat := 0x10_0000 // 1 MiB
  const MAX_TOTAL_SIZE: nat := 0x50_0000 // 5 MiB
  const U32: nat := 0x1_0000_0000

  datatype Status = Complete | FrameTooLarge(len: nat) | ReadFailed

  /** A byte stream seen through its framing; a payload shorter than declared means the stream ends inside it. */
  datatype Wire = Done | Chunk(declared: nat, payload: Bytes, rest: Wire)

  datatype Frame = Frame(stream: Byte, payload: Bytes)

  // ---------------------------------------------------------------- decoding

  /** binary.BigEndian.Uint32 */
  function BigEndian(b: Bytes): nat
    requires |b| == 4
  {
    ((b[0] as int * 0x100 + b[1] as int) * 0x100 + b[2] as int) * 0x100 + b[3] as int
  }

  function Parse(bytes: Bytes): Wire
    decreases |bytes|
  {
    if |bytes| < HEADER_SIZE then Done
    else
      var len, body := BigEndian(bytes[4..8]), bytes[HEADER_SIZE..];
      if |body| < len then Chunk(len, body, Done)
      else Chunk(len, body[..len], Parse(body[len..]))
  }

  function AtEnd(fails: bool): Status {
    if fails then ReadFailed else Complete
  }

  /** What is written to the builder, after `total` payload bytes were already copied. */
  function Output(w: Wire, total: nat): Bytes {
    match w
    case Done => []
    case Chunk(len, payload, rest) =>
      if len > MAX_FRAME_SIZE || total + len > MAX_TOTAL_SIZE then []
      else if |payload| < len then payload
      else payload + Output(rest, total + len)
  }

  /** How the decoder returns. `fails` says whether the stream ends in a read error rather than in end-of-file. */
  function Outcome(w: Wire, fails: bool, total: nat): Status {
    match w
    case Done => AtEnd(fails)
    case Chunk(len, payload, rest) =>
      if len > MAX_FRAME_SIZE then FrameTooLarge(len)
      else if total + len > MAX_TOTAL_SIZE then Complete
      else if |payload| < len then AtEnd(fails)
      else Outcome(rest, fails, total + len)
  }

  predicate Sound(w: Wire) {
    w.Chunk? ==> |w.payload| <= w.declared && Sound(w.rest)
  }

  lemma {:induction false} ParseSound(bytes: Bytes)
    ensures Sound(Parse(bytes))
    decreases |bytes|
  {
    if |bytes| >= HEADER_SIZE {
      var len, body := BigEndian(bytes[4..8]), bytes[HEADER_SIZE..];
      if len <= |body| {
        ParseSound(body[len..]);
      }
    }
  }

  lemma {:induction false} WireBounded(w: Wire, total: nat)
    requires total <= MAX_TOTAL_SIZE && Sound(w)
    ensures total + |Output(w, total)| <= MAX_TOTAL_SIZE
  {
    if w.Chunk? && total + w.declared <= MAX_TOTAL_SIZE {
      WireBounded(w.rest, total + w.declared);
    }
  }

  /** Whatever the bytes are, the output never exceeds the limit. */
  lemma OutputBounded(bytes: Bytes)
    ensures |Output(Parse(bytes), 0)| <= 5 * 1024 * 1024
  {
    ParseSound(bytes);
    WireBounded(Parse(bytes), 0);
  }

  /** decodeDockerLogStream: copies an unframed stream up to the limit, a framed one frame by frame. */
  method DecodeLogStream(bytes: Bytes, fails: bool, multiplexed: bool) returns (builder: Bytes, status: Status)
    ensures |builder| <= MAX_TOTAL_SIZE
    ensures multiplexed ==> builder == Output(Parse(bytes), 0) && status == Outcome(Parse(bytes), fails, 0)
    ensures !multiplexed ==>
              builder <= bytes && |builder| == if |bytes| < MAX_TOTAL_SIZE then |bytes| else MAX_TOTAL_SIZE
    ensures !multiplexed ==> status == if |bytes| < MAX_TOTAL_SIZE then AtEnd(fails) else Complete
  {
    if !multiplexed {
      if |bytes| < MAX_TOTAL_SIZE {
        return bytes, AtEnd(fails);
      }
      return bytes[..MAX_TOTAL_SIZE], Complete;
    }
    OutputBounded(bytes);
    builder := [];
    var reader, total := bytes, 0;
    while true
      invariant 0 <= total <= MAX_TOTAL_SIZE
      invariant Output(Parse(bytes), 0) == builder + Output(Parse(reader), total)
      invariant Outcome(Parse(bytes), fails, 0) == Outcome(Parse(reader), fails, total)
      decreases |reader|
    {
      if |reader| < HEADER_SIZE {
        return builder, AtEnd(fails);
      }
      var len := BigEndian(reader[4..8]);
      ghost var wire := Parse(reader);
      reader := reader[HEADER_SIZE..];
      if len == 0 {
        EmptyChunk(wire, fails, total);
        assert reader[0..] == reader;
        continue;
      }
      if len > MAX_FRAME_SIZE {
        return builder, FrameTooLarge(len);
      }
      if total + len > MAX_TOTAL_SIZE {
        return builder, Complete;
      }
      if |reader| < len {
        return builder + reader, AtEnd(fails);
      }
      assert wire == Chunk(len, reader[..len], Parse(reader[len..]));
      Assoc(builder, reader[..len], Output(wire.rest, total + len));
      builder := builder + reader[..len];
      reader, total := reader[len..], total + len;
    }
  }

  /** The decoder's early `continue` on an empty frame changes nothing. */
  lemma EmptyChunk(w: Wire, fails: bool, total: nat)
    requires w.Chunk? && w.declared == 0 && w.payload == [] && total <= MAX_TOTAL_SIZE
    ensures Output(w, total) == Output(w.rest, total) && Outcome(w, fails, total) == Outcome(w.rest, fails, total)
  {
    assert [] + Output(w.rest, total) == Output(w.rest, total);
  }

  // ---------------------------------------------------------------- truncation

  ghost predicate Extends(a: Bytes, b: Bytes) {
    exists c: Bytes :: b == a + c
  }

  /** c is what is left of w when the stream is cut somewhere. */
  ghost predicate CutOf(c: Wire, w: Wire) {
    c.Done? ||
    (c.Chunk? && w.Chunk? && c.declared == w.declared &&
     if c.payload == w.payload then CutOf(c.rest, w.rest)
     else c.rest.Done? && |c.payload| < c.declared && Extends(c.payload, w.payload))
  }

  lemma ExtendsSlice(bytes: Bytes, a: nat, b: nat)
    requires a <= b <= |bytes|
    ensures Extends(bytes[..a], bytes[..b])
  {
    assert bytes[..b] == bytes[..a] + bytes[a..b];
  }

  lemma {:induction false} ParseCut(bytes: Bytes, n: nat)
    requires n <= |bytes|
    ensures CutOf(Parse(bytes[..n]), Parse(bytes))
    decreases |bytes|
  {
    if n >= HEADER_SIZE {
      var len, body := BigEndian(bytes[4..8]), bytes[HEADER_SIZE..];
      var left := n - HEADER_SIZE;
      assert bytes[..n][4..8] == bytes[4..8];
      assert bytes[..n][HEADER_SIZE..] == body[..left];
      if left < len {
        ExtendsSlice(body, left, if |body| < len then |body| else len);
        assert body[..|body|] == body;
      } else {
        assert body[..left][..len] == body[..len];
        assert body[..left][len..] == body[len..][..left - len];
        ParseCut(body[len..], left - len);
      }
    }
  }

  lemma {:induction false} CutOutput(c: Wire, w: Wire, total: nat)
    requires CutOf(c, w)
    ensures Extends(Output(c, total), Output(w, total))
  {
    if c.Done? {
      assert Output(w, total) == [] + Output(w, total);
    } else if c.payload == w.payload {
      CutOutput(c.rest, w.rest, total + c.declared);
      var d :| Output(w.rest, total + c.declared) == Output(c.rest, total + c.declared) + d;
      Assoc(c.payload, Output(c.rest, total + c.declared), d);
      ExtendsSelf(c.payload);
      ExtendsSelf([]);
    } else {
      var d :| w.payload == c.payload + d;
      Assoc(c.payload, d, Output(w.rest, total + c.declared));
      ExtendsSelf([]);
    }
  }

  lemma ExtendsSelf(a: Bytes)
    ensures Extends(a, a)
  {
    assert a == a + [];
  }

  /** Cutting any stream short, at any byte, only cuts the output short. */
  lemma TruncationIsPrefix(bytes: Bytes, n: nat)
    requires n <= |bytes|
    ensures Output(Parse(bytes[..n]), 0) <= Output(Parse(bytes), 0)
  {
    ParseCut(bytes, n);
    CutOutput(Parse(bytes[..n]), Parse(bytes), 0);
  }

  // ---------------------------------------------------------------- encoding

  function ToBigEndian(n: nat): (b: Bytes)
    requires n < U32
    ensures |b| == 4 && BigEndian(b) == n
  {
    [n / 0x100 / 0x100 / 0x100, n / 0x100 / 0x100 % 0x100, n / 0x100 % 0x100, n % 0x100]
  }

  predicate Encodable(frames: seq<Frame>) {
    forall f <- frames :: |f.payload| < U32
  }

  function EncodeFrame(f: Frame): (b: Bytes)
    requires |f.payload| < U32
  {
    [f.stream, 0, 0, 0] + ToBigEndian(|f.payload|) + f.payload
  }

  function Encode(frames: seq<Frame>): Bytes
    requires Encodable(frames)
  {
    if frames == [] then [] else EncodeFrame(frames[0]) + Encode(frames[1..])
  }

  function Payloads(frames: seq<Frame>): Bytes {
    if frames == [] then [] else frames[0].payload + Payloads(frames[1..])
  }

  function WireOf(frames: seq<Frame>): Wire {
    if frames == [] then Done else Chunk(|frames[0].payload|, frames[0].payload, WireOf(frames[1..]))
  }

  lemma ParseFrame(f: Frame, after: Bytes)
    requires |f.payload| < U32
    ensures Parse(EncodeFrame(f) + after) == Chunk(|f.payload|, f.payload, Parse(after))
  {
    var bytes := EncodeFrame(f) + after;
    assert bytes[4..8] == ToBigEndian(|f.payload|);
    assert bytes[HEADER_SIZE..] == f.payload + after;
    assert (f.payload + after)[..|f.payload|] == f.payload;
    assert (f.payload + after)[|f.payload|..] == after;
  }

  lemma {:induction false} ParseEncode(frames: seq<Frame>)
    requires Encodable(frames)
    ensures Parse(Encode(frames)) == WireOf(frames)
  {
    if frames != [] {
      ParseFrame(frames[0], Encode(frames[1..]));
      ParseEncode(frames[1..]);
    }
  }

  /** A prefix the decoder can take whole: no frame too large, and together within the limit. */
  predicate Fits(frames: seq<Frame>, total: nat) {
    && (forall f <- frames :: |f.payload| <= 1024 * 1024)
    && total + |Payloads(frames)| <= 5 * 1024 * 1024
  }

  /** n is the length of the longest prefix that fits. */
  predicate LongestFit(frames: seq<Frame>, total: nat, n: nat) {
    && n <= |frames|
    && Fits(frames[..n], total)
    && (n < |frames| ==> !Fits(frames[..n + 1], total))
  }

  function EndStatus(frames: seq<Frame>, fails: bool, n: nat): Status
    requires n <= |frames|
  {
    if n == |frames| then (if fails then ReadFailed else Complete)
    else if |frames[n].payload| > 1024 * 1024 then FrameTooLarge(|frames[n].payload|)
    else Complete
  }

  lemma FitsTail(frames: seq<Frame>, total: nat, n: nat)
    requires 1 <= n <= |frames| && |frames[0].payload| <= MAX_FRAME_SIZE
    ensures Fits(frames[..n], total) <==> Fits(frames[1..][..n - 1], total + |frames[0].payload|)
    ensures Payloads(frames[..n]) == frames[0].payload + Payloads(frames[1..][..n - 1])
  {
    assert frames[..n][1..] == frames[1..][..n - 1];
    assert frames[..n] == [frames[0]] + frames[1..][..n - 1];
  }

  lemma FirstMisfit(frames: seq<Frame>, total: nat)
    requires frames != [] && LongestFit(frames, total, 0)
    ensures |frames[0].payload| > MAX_FRAME_SIZE || total + |frames[0].payload| > MAX_TOTAL_SIZE
  {
    assert frames[..1] == [frames[0]] && Payloads([frames[0]]) == frames[0].payload;
  }

  lemma LongestFitTail(frames: seq<Frame>, fails: bool, total: nat, n: nat)
    requires 1 <= n && LongestFit(frames, total, n)
    ensures |frames[0].payload| <= MAX_FRAME_SIZE && total + |frames[0].payload| <= MAX_TOTAL_SIZE
    ensures LongestFit(frames[1..], total + |frames[0].payload|, n - 1)
    ensures Payloads(frames[..n]) == frames[0].payload + Payloads(frames[1..][..n - 1])
    ensures EndStatus(frames, fails, n) == EndStatus(frames[1..], fails, n - 1)
  {
    assert frames[..n][0] == frames[0];
    FitsTail(frames, total, n);
    if n < |frames| {
      FitsTail(frames, total, n + 1);
    }
  }

  lemma {:induction false} WireRoundTrip(frames: seq<Frame>, fails: bool, total: nat, n: nat)
    requires total <= MAX_TOTAL_SIZE && LongestFit(frames, total, n)
    ensures Output(WireOf(frames), total) == Payloads(frames[..n])
    ensures Outcome(WireOf(frames), fails, total) == EndStatus(frames, fails, n)
    decreases |frames|
  {
    if frames == [] {
    } else if n == 0 {
      FirstMisfit(frames, total);
    } else {
      LongestFitTail(frames, fails, total, n);
      WireRoundTrip(frames[1..], fails, total + |frames[0].payload|, n - 1);
    }
  }

  /**
  Round trip: decoding an encoding yields exactly the payloads of the longest prefix of frames that fits,
  and fails exactly when the first frame that does not fit is too large on its own.
   */
  lemma RoundTrip(frames: seq<Frame>, fails: bool, n: nat)
    requires Encodable(frames) && LongestFit(frames, 0, n)
    ensures Output(Parse(Encode(frames)), 0) == Payloads(frames[..n])
    ensures Outcome(Parse(Encode(frames)), fails, 0) == EndStatus(frames, fails, n)
  {
    ParseEncode(frames);
    WireRoundTrip(frames, fails, 0, n);
  }

  /** Such a prefix always exists. */
  lemma {:induction false} LongestFitExists(frames: seq<Frame>, total: nat, k: nat) returns (n: nat)
    requires k <= |frames| && Fits(frames[..k], total)
    ensures k <= n && LongestFit(frames, total, n)
    decreases |frames| - k
  {
    if k < |frames| && Fits(frames[..k + 1], total) {
      n := LongestFitExists(frames, total, k + 1);
    } else {
      n := k;
    }
  }

  lemma {:induction false} PayloadsConcat(a: seq<Frame>, b: seq<Frame>)
    ensures Payloads(a + b) == Payloads(a) + Payloads(b)
  {
    if a == [] {
      assert a + b == b;
    } else {
      assert (a + b)[1..] == a[1..] + b;
      PayloadsConcat(a[1..], b);
    }
  }

  lemma ShorterFits(frames: seq<Frame>, total: nat, k: nat, n: nat)
    requires k <= n <= |frames| && Fits(frames[..n], total)
    ensures Fits(frames[..k], total)
  {
    assert frames[..k] + frames[k..n] == frames[..n];
    PayloadsConcat(frames[..k], frames[k..n]);
  }

  /** It is the only such prefix, and no longer one fits. */
  lemma LongestFitUnique(frames: seq<Frame>, total: nat, k: nat, n: nat)
    requires LongestFit(frames, total, n) && k <= |frames|
    ensures Fits(frames[..k], total) <==> k <= n
  {
    if k <= n {
      ShorterFits(frames, total, k, n);
    } else if Fits(frames[..k], total) {
      ShorterFits(frames, total, n + 1, k);
    }
  }

  /** Any truncation of an encoding decodes to a prefix of the payloads. */
  lemma TruncatedRoundTrip(frames: seq<Frame>, cut: nat)
    requires Encodable(frames) && cut <= |Encode(frames)|
    ensures Output(Parse(Encode(frames)[..cut]), 0) <= Payloads(frames)
  {
    assert frames[..0] == [];
    var n := LongestFitExists(frames, 0, 0);
    RoundTrip(frames, false, n);
    TruncationIsPrefix(Encode(frames), cut);
    PayloadsConcat(frames[..n], frames[n..]);
    assert frames[..n] + frames[n..] == frames;
  }

  // ---------------------------------------------------------------- detection

  /** detectDockerMultiplexedStream: peeks at the first header when the content type does not say. */
  predicate LooksMultiplexed(bytes: Bytes) {
    && |bytes| >= HEADER_SIZE
    && (bytes[0] == 1 || bytes[0] == 2)
    && bytes[1] == 0 && bytes[2] == 0 && bytes[3] == 0
    && BigEndian(bytes[4..8]) <= MAX_FRAME_SIZE
  }

  /** Sniffing recognises an encoding exactly when it starts with an acceptable stdout or stderr frame. */
  lemma SniffsEncodings(frames: seq<Frame>)
    requires Encodable(frames)
    ensures LooksMultiplexed(Encode(frames)) <==>
            frames != [] && (frames[0].stream == 1 || frames[0].stream == 2) && |frames[0].payload| <= MAX_FRAME_SIZE
  {
    if frames != [] {
      assert Encode(frames)[4..8] == ToBigEndian(|frames[0].payload|);
    }
  }
}
