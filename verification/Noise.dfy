/**
 Encrypted message framing over an established Noise transport: a message is cut into frames, each
 sealed under the next nonce and prefixed by its length, and read back by a loop that counts bytes.

 The cipher is a parameter. Sections 3 and 5.1 of the Noise Protocol Framework, revision 34, give
 the frame limit, the tag and the nonce counter.
 */
module Noise {
  import opened Prelude

  type Byte = x: int | 0 <= x < 256
  type Bytes = seq<Byte>

  const MAX_FRAME: nat := 65535
  const TAG_LEN: nat := 16
  const MAX_PLAINTEXT: nat := MAX_FRAME - TAG_LEN
  const MAX_MSG_BYTES: nat := 16 * 1024 * 1024
  /** The nonce a cipher state refuses to use. */
  const NONCE_LIMIT: nat := 0xFFFF_FFFF_FFFF_FFFF

  datatype Cipher = Cipher(seal: (nat, Bytes) -> Bytes, open: (nat, Bytes) -> Option<Bytes>)

  function Seal(c: Cipher, nonce: nat, p: Bytes): Bytes { c.seal(nonce, p) }

  function Open(c: Cipher, nonce: nat, f: Bytes): Option<Bytes> { c.open(nonce, f) }

  /** Authenticated encryption with a 16-byte tag: opening undoes sealing under the same nonce. */
  ghost predicate Aead(c: Cipher) {
    && (forall n, p :: |Seal(c, n, p)| == |p| + TAG_LEN && Open(c, n, Seal(c, n, p)) == Some(p))
    && (forall n, f :: Open(c, n, f).Some? ==> |f| == |Open(c, n, f).value| + TAG_LEN)
  }

  // ---------------------------------------------------------------------------
  // Lengths on the wire
  // ---------------------------------------------------------------------------

  /** Byte `k` of `n`, counting from the least significant. */
  function Digit(n: nat, k: nat): Byte {
    if k == 0 then n % 0x100 else Digit(n / 0x100, k - 1)
  }

  /** The low `width` bytes of `n`, big-endian: a cast to that width, then the bytes. */
  function Put(n: nat, width: nat): (b: Bytes)
    ensures |b| == width
  {
    seq(width, i requires 0 <= i < width => Digit(n, width - 1 - i))
  }

  function GetU16(b: Bytes): nat
    requires |b| == 2
  {
    var high: int, low: int := b[0], b[1];
    0x100 * high + low
  }

  function GetU32(b: Bytes): nat
    requires |b| == 4
  {
    var b3: int, b2: int, b1: int, b0: int := b[0], b[1], b[2], b[3];
    0x1_0000 * (0x100 * b3 + b2) + (0x100 * b1 + b0)
  }

  /** The two low bytes of a number. */
  lemma {:induction false} TwoBytes(n: nat)
    ensures 0x100 * (n / 0x100 % 0x100) + n % 0x100 == n % 0x1_0000
  {
  }

  lemma {:induction false} U16RoundTrip(n: nat)
    ensures GetU16(Put(n, 2)) == n % 0x1_0000
  {
    var b := Put(n, 2);
    assert b[0] == Digit(n, 1) == Digit(n / 0x100, 0) && b[1] == Digit(n, 0);
    TwoBytes(n);
  }

  /** A four-byte number is its high half in front of its low half. */
  lemma {:induction false} PutHalves(n: nat)
    ensures Put(n, 4)[..2] == Put(n / 0x1_0000, 2) && Put(n, 4)[2..] == Put(n, 2)
  {
    assert n / 0x100 / 0x100 == n / 0x1_0000;
    assert Digit(n, 3) == Digit(n / 0x100, 2) == Digit(n / 0x1_0000, 1);
    assert Digit(n, 2) == Digit(n / 0x100, 1) == Digit(n / 0x1_0000, 0);
  }

  lemma {:induction false} TwoHalves(n: nat)
    ensures 0x1_0000 * (n / 0x1_0000 % 0x1_0000) + n % 0x1_0000 == n % 0x1_0000_0000
  {
  }

  lemma {:induction false} U32RoundTrip(n: nat)
    ensures GetU32(Put(n, 4)) == n % 0x1_0000_0000
  {
    TwoHalves(n);
    PutHalves(n);
    U16RoundTrip(n);
    U16RoundTrip(n / 0x1_0000);
    var b := Put(n, 4);
    assert b[..2][0] == b[0] && b[..2][1] == b[1] && b[2..][0] == b[2] && b[2..][1] == b[3];
  }

  /** Lengths stand on the wire most significant byte first. */
  lemma {:induction false} BigEndian(n: nat)
    ensures Put(n, 2) == [n / 0x100 % 0x100, n % 0x100]
    ensures Put(n, 4) == [n / 0x100_0000 % 0x100, n / 0x1_0000 % 0x100, n / 0x100 % 0x100, n % 0x100]
  {
    PutHalves(n);
    assert Put(n, 2)[0] == Digit(n, 1) == Digit(n / 0x100, 0) && Put(n, 2)[1] == Digit(n, 0);
    var h := n / 0x1_0000;
    assert Put(h, 2)[0] == Digit(h, 1) == Digit(h / 0x100, 0) && Put(h, 2)[1] == Digit(h, 0);
    assert h / 0x100 == n / 0x100_0000;
    assert Put(n, 4) == Put(n, 4)[..2] + Put(n, 4)[2..];
  }

  lemma {:induction false} Rejoin<T>(got: seq<T>, s: seq<T>, k: nat)
    requires k <= |s|
    ensures got + s[..k] + s[k..] == got + s
  {
  }

  lemma {:induction false} Resume<T>(got: seq<T>, s: seq<T>)
    requires s != []
    ensures got + [s[0]] + s[1..] == got + s
  {
  }

  lemma {:induction false} Nothing<T>(s: seq<T>)
    ensures s + [] == s && [] + s == s
  {
  }

  lemma {:induction false} Suffix<T>(s: seq<T>, a: nat, r: nat)
    requires a + r <= |s|
    ensures s[a..][|s| - a - r..] == s[|s| - r..]
  {
  }

  lemma {:induction false} HeadTail<T>(x: T, t: seq<T>)
    ensures ([x] + t)[0] == x && ([x] + t)[1..] == t
  {
  }

  lemma {:induction false} Assoc<T>(a: seq<T>, b: seq<T>, c: seq<T>)
    ensures a + b + c == a + (b + c)
  {
  }

  // ---------------------------------------------------------------------------
  // What is sent
  // ---------------------------------------------------------------------------

  /** Frames needed for `len` bytes. */
  function Chunks(len: nat): nat {
    if len == 0 then 0 else 1 + Chunks(len - Min(len, MAX_PLAINTEXT))
  }

  /** One frame for every started 65,519 bytes: the frame limit less the tag. */
  lemma {:induction false} ChunkCount(len: nat)
    ensures Chunks(len) == (len + 65518) / 65519
    decreases len
  {
    if len > 65519 { ChunkCount(len - 65519); }
  }

  function Frame(c: Cipher, nonce: nat, chunk: Bytes): Bytes {
    Put(|Seal(c, nonce, chunk)|, 2) + Seal(c, nonce, chunk)
  }

  /** One frame after another, as long as there are nonces. */
  function Frames(c: Cipher, nonce: nat, p: Bytes): Bytes
    decreases |p|
  {
    if p == [] || nonce >= NONCE_LIMIT then []
    else var k := Min(|p|, MAX_PLAINTEXT);
         Frame(c, nonce, p[..k]) + Frames(c, nonce + 1, p[k..])
  }

  function Wire(c: Cipher, nonce: nat, p: Bytes): Bytes {
    Put(|p|, 4) + Frames(c, nonce, p)
  }

  /** The messages the writer loop sends: it skips what does not encode and what is too long. */
  function Kept(queue: seq<Option<Bytes>>): seq<Bytes>
    decreases |queue|
  {
    if queue == [] then []
    else (if queue[0].Some? && |queue[0].value| <= MAX_MSG_BYTES then [queue[0].value] else []) + Kept(queue[1..])
  }

  /** Message by message, in order: kept exactly if it encodes and has at most 16 MiB. */
  lemma {:induction false} KeptParts(a: seq<Option<Bytes>>, b: seq<Option<Bytes>>)
    ensures Kept(a + b) == Kept(a) + Kept(b)
    decreases |a|
  {
    if a == [] {
      Nothing(b);
      Nothing(Kept(b));
    } else {
      KeptParts(a[1..], b);
      assert (a + b)[0] == a[0] && (a + b)[1..] == a[1..] + b;
      Assoc(Kept([a[0]]), Kept(a[1..]), Kept(b));
      KeptOne(a[0]);
    }
  }

  lemma {:induction false} KeptOne(m: Option<Bytes>)
    ensures Kept([m]) == if m.Some? && |m.value| <= 16_777_216 then [m.value] else []
  {
    assert [m][1..] == [];
  }

  function StreamWire(c: Cipher, nonce: nat, ms: seq<Bytes>): Bytes
    decreases |ms|
  {
    if ms == [] then [] else Wire(c, nonce, ms[0]) + StreamWire(c, nonce + Chunks(|ms[0]|), ms[1..])
  }

  function TotalChunks(ms: seq<Bytes>): nat {
    if ms == [] then 0 else Chunks(|ms[0]|) + TotalChunks(ms[1..])
  }

  // ---------------------------------------------------------------------------
  // What is received
  // ---------------------------------------------------------------------------

  /** A message with the unread rest of the stream, or a failure; with the nonce reached. */
  datatype Parse = Done(msg: Bytes, rest: Bytes, nonce: nat) | Failed(nonce: nat)

  function RecvFrames(c: Cipher, nonce: nat, total: nat, got: Bytes, s: Bytes): Parse
    decreases |s|
  {
    if |got| >= total then Done(got, s, nonce)
    else if |s| < 2 || |s| < 2 + GetU16(s[..2]) || nonce >= NONCE_LIMIT then Failed(nonce)
    else
      var end := 2 + GetU16(s[..2]);
      match Open(c, nonce, s[2..end])
      case None => Failed(nonce)
      case Some(chunk) => RecvFrames(c, nonce + 1, total, got + chunk, s[end..])
  }

  function Recv(c: Cipher, nonce: nat, s: Bytes): Parse {
    if |s| < 4 || GetU32(s[..4]) > MAX_MSG_BYTES then Failed(nonce)
    else RecvFrames(c, nonce, GetU32(s[..4]), [], s[4..])
  }

  /** The peer loop drops a message that came out longer than allowed. */
  function RecvMsg(c: Cipher, nonce: nat, s: Bytes): Parse {
    var r := Recv(c, nonce, s);
    if r.Done? && |r.msg| > MAX_MSG_BYTES then Failed(r.nonce) else r
  }

  /** `k` more messages after `got`, with the unread rest and the nonce reached. */
  function RecvAll(c: Cipher, nonce: nat, got: seq<Bytes>, s: Bytes, k: nat): Option<(seq<Bytes>, Bytes, nat)>
    decreases k
  {
    if k == 0 then Some((got, s, nonce))
    else match RecvMsg(c, nonce, s)
      case Failed(_) => None
      case Done(msg, rest, n) => RecvAll(c, n, got + [msg], rest, k - 1)
  }

  // ---------------------------------------------------------------------------
  // The transport
  // ---------------------------------------------------------------------------

  lemma {:induction false} FramesStep(c: Cipher, nonce: nat, p: Bytes, offset: nat, k: nat, sent: Bytes)
    requires offset < |p| && nonce < NONCE_LIMIT && k == Min(|p| - offset, MAX_PLAINTEXT)
    ensures sent + Frames(c, nonce, p[offset..])
         == sent + Frame(c, nonce, p[offset..offset + k]) + Frames(c, nonce + 1, p[offset + k..])
  {
    assert p[offset..][..k] == p[offset..offset + k] && p[offset..][k..] == p[offset + k..];
    Assoc(sent, Frame(c, nonce, p[offset..offset + k]), Frames(c, nonce + 1, p[offset + k..]));
  }

  lemma {:induction false} KeptStep(c: Cipher, nonce: nat, queue: seq<Option<Bytes>>, sent: Bytes)
    requires queue != [] && queue[0].Some? && |queue[0].value| <= MAX_MSG_BYTES
    ensures var p := queue[0].value;
            && TotalChunks(Kept(queue)) == Chunks(|p|) + TotalChunks(Kept(queue[1..]))
            && sent + StreamWire(c, nonce, Kept(queue))
            == sent + Wire(c, nonce, p) + StreamWire(c, nonce + Chunks(|p|), Kept(queue[1..]))
  {
    var p := queue[0].value;
    HeadTail(p, Kept(queue[1..]));
    Assoc(sent, Wire(c, nonce, p), StreamWire(c, nonce + Chunks(|p|), Kept(queue[1..])));
  }

  /** The first `offset` bytes are framed on the wire, under the nonces up to `now`. */
  ghost predicate Sending(c: Cipher, nonce: nat, p: Bytes, offset: nat, now: nat, wire: Bytes) {
    && offset <= |p| && nonce <= now <= NONCE_LIMIT
    && now + Chunks(|p| - offset) == nonce + Chunks(|p|)
    && wire + Frames(c, now, p[offset..]) == Wire(c, nonce, p)
  }

  lemma {:induction false} SendingStarts(c: Cipher, nonce: nat, p: Bytes)
    requires nonce <= NONCE_LIMIT
    ensures Sending(c, nonce, p, 0, nonce, Put(|p|, 4))
  {
    assert p[0..] == p;
  }

  lemma {:induction false} SendingGoesOn(c: Cipher, nonce: nat, p: Bytes, offset: nat, now: nat, wire: Bytes, k: nat)
    requires Sending(c, nonce, p, offset, now, wire) && offset < |p| && now < NONCE_LIMIT
    requires k == Min(|p| - offset, MAX_PLAINTEXT)
    ensures Sending(c, nonce, p, offset + k, now + 1, wire + Frame(c, now, p[offset..offset + k]))
  {
    FramesStep(c, now, p, offset, k, wire);
  }

  lemma {:induction false} SendingEnds(c: Cipher, nonce: nat, p: Bytes, offset: nat, now: nat, wire: Bytes)
    requires Sending(c, nonce, p, offset, now, wire) && (offset == |p| || now == NONCE_LIMIT)
    ensures offset == |p| <==> nonce + Chunks(|p|) <= NONCE_LIMIT
    ensures wire == Wire(c, nonce, p) && now == Min(nonce + Chunks(|p|), NONCE_LIMIT)
  {
    Nothing(wire);
  }

  /** Seal and write frame after frame; fails once the nonces run out. */
  method SendEncrypted(c: Cipher, nonce: nat, p: Bytes) returns (ok: bool, wire: Bytes, nonce': nat)
    requires nonce <= NONCE_LIMIT
    ensures ok <==> nonce + Chunks(|p|) <= 0xFFFF_FFFF_FFFF_FFFF
    ensures wire == Wire(c, nonce, p)
    ensures nonce' == Min(nonce + Chunks(|p|), NONCE_LIMIT)
  {
    wire, nonce' := Put(|p|, 4), nonce;
    var offset := 0;
    SendingStarts(c, nonce, p);
    while offset < |p| && nonce' < NONCE_LIMIT
      invariant 0 <= offset <= |p| && nonce' <= NONCE_LIMIT && Sending(c, nonce, p, offset, nonce', wire)
    {
      var chunk := Min(|p| - offset, MAX_PLAINTEXT);
      SendingGoesOn(c, nonce, p, offset, nonce', wire, chunk);
      wire := wire + Frame(c, nonce', p[offset..offset + chunk]);
      nonce' := nonce' + 1;
      offset := offset + chunk;
    }
    SendingEnds(c, nonce, p, offset, nonce', wire);
    ok := offset == |p|;
  }

  /** The first `i` queued messages are dealt with, under the nonces up to `now`. */
  ghost predicate Streaming(c: Cipher, nonce: nat, queue: seq<Option<Bytes>>, i: nat, now: nat, wire: Bytes) {
    && i <= |queue| && now <= NONCE_LIMIT
    && now + TotalChunks(Kept(queue[i..])) == nonce + TotalChunks(Kept(queue))
    && wire + StreamWire(c, now, Kept(queue[i..])) == StreamWire(c, nonce, Kept(queue))
  }

  predicate Skipped(m: Option<Bytes>) {
    m.None? || |m.value| > MAX_MSG_BYTES
  }

  lemma {:induction false} StreamingStarts(c: Cipher, nonce: nat, queue: seq<Option<Bytes>>)
    requires nonce <= NONCE_LIMIT
    ensures Streaming(c, nonce, queue, 0, nonce, [])
  {
    assert queue[0..] == queue;
    Nothing(StreamWire(c, nonce, Kept(queue)));
  }

  lemma {:induction false} StreamingSkips(c: Cipher, nonce: nat, queue: seq<Option<Bytes>>, i: nat, now: nat,
                                          wire: Bytes)
    requires Streaming(c, nonce, queue, i, now, wire) && i < |queue| && Skipped(queue[i])
    ensures Streaming(c, nonce, queue, i + 1, now, wire)
  {
    assert queue[i..][1..] == queue[i + 1..];
    Nothing(Kept(queue[i + 1..]));
  }

  lemma {:induction false} StreamingSends(c: Cipher, nonce: nat, queue: seq<Option<Bytes>>, i: nat, now: nat,
                                          wire: Bytes)
    requires Streaming(c, nonce, queue, i, now, wire) && i < |queue| && !Skipped(queue[i])
    ensures var p := queue[i].value;
            && wire + Wire(c, now, p) <= StreamWire(c, nonce, Kept(queue))
            && (now + Chunks(|p|) <= NONCE_LIMIT
                ==> Streaming(c, nonce, queue, i + 1, now + Chunks(|p|), wire + Wire(c, now, p)))
            && (now + Chunks(|p|) > NONCE_LIMIT ==> nonce + TotalChunks(Kept(queue)) > NONCE_LIMIT)
  {
    assert queue[i..][1..] == queue[i + 1..];
    KeptStep(c, now, queue[i..], wire);
  }

  lemma {:induction false} StreamingEnds(c: Cipher, nonce: nat, queue: seq<Option<Bytes>>, now: nat, wire: Bytes)
    requires Streaming(c, nonce, queue, |queue|, now, wire)
    ensures now == nonce + TotalChunks(Kept(queue)) && wire == StreamWire(c, nonce, Kept(queue))
  {
    Nothing(wire);
  }

  /** Send the queued messages one after another until one fails. */
  method WriterLoop(c: Cipher, nonce: nat, queue: seq<Option<Bytes>>) returns (ok: bool, wire: Bytes, nonce': nat)
    requires nonce <= NONCE_LIMIT
    ensures ok <==> nonce + TotalChunks(Kept(queue)) <= 0xFFFF_FFFF_FFFF_FFFF
    ensures ok ==> nonce' == nonce + TotalChunks(Kept(queue))
    ensures ok ==> wire == StreamWire(c, nonce, Kept(queue))
    ensures wire <= StreamWire(c, nonce, Kept(queue))
  {
    wire, nonce' := [], nonce;
    StreamingStarts(c, nonce, queue);
    for i := 0 to |queue|
      invariant nonce' <= NONCE_LIMIT && Streaming(c, nonce, queue, i, nonce', wire)
    {
      if Skipped(queue[i]) {
        StreamingSkips(c, nonce, queue, i, nonce', wire);
      } else {
        StreamingSends(c, nonce, queue, i, nonce', wire);
        var sent, bytes, n := SendEncrypted(c, nonce', queue[i].value);
        wire, nonce' := wire + bytes, n;
        if !sent { return false, wire, nonce'; }
      }
    }
    StreamingEnds(c, nonce, queue, nonce', wire);
    return true, wire, nonce';
  }

  /** Read the length header, then open frames until that many bytes are out. */
  method RecvEncrypted(c: Cipher, nonce: nat, input: Bytes) returns (r: Parse)
    ensures r == Recv(c, nonce, input)
  {
    if |input| < 4 { return Failed(nonce); }
    var total := GetU32(input[..4]);
    if total > MAX_MSG_BYTES { return Failed(nonce); }
    var got: Bytes, s, n: nat := [], input[4..], nonce;
    while |got| < total
      invariant RecvFrames(c, n, total, got, s) == RecvFrames(c, nonce, total, [], input[4..])
      decreases |s|
    {
      if |s| < 2 { return Failed(n); }
      var end := 2 + GetU16(s[..2]);
      if |s| < end || n >= NONCE_LIMIT { return Failed(n); }
      var chunk := Open(c, n, s[2..end]);
      if chunk.None? { return Failed(n); }
      n := n + 1;
      got, s := got + chunk.value, s[end..];
    }
    return Done(got, s, n);
  }

  // ---------------------------------------------------------------------------
  // Totality of the receiver
  // ---------------------------------------------------------------------------

  /** What one call of the frame loop delivers is bounded by the announced length and one frame more. */
  lemma {:induction false} FramesBounded(c: Cipher, nonce: nat, total: nat, got: Bytes, s: Bytes)
    requires Aead(c) && (total > 0 ==> |got| <= total + MAX_PLAINTEXT - 1)
    ensures var r := RecvFrames(c, nonce, total, got, s);
            && nonce <= r.nonce && (r.Done? && |got| < total ==> r.nonce <= 0xFFFF_FFFF_FFFF_FFFF)
            && (r.Done? ==>
                  && got <= r.msg && total <= |r.msg|
                  && (total > 0 ==> |r.msg| <= total + MAX_PLAINTEXT - 1))
    decreases |s|
  {
    if |got| < total && |s| >= 2 && |s| >= 2 + GetU16(s[..2]) && nonce < NONCE_LIMIT {
      var end := 2 + GetU16(s[..2]);
      match Open(c, nonce, s[2..end])
      case None =>
      case Some(chunk) =>
        assert |s[2..end]| == |chunk| + TAG_LEN;
        FramesBounded(c, nonce + 1, total, got + chunk, s[end..]);
    }
  }

  /** The frame loop accounts for every byte: 18 bytes of overhead per frame, and the message. */
  lemma {:induction false} FramesConsume(c: Cipher, nonce: nat, total: nat, got: Bytes, s: Bytes)
    requires Aead(c)
    ensures var r := RecvFrames(c, nonce, total, got, s);
            r.Done? ==> |s| == |r.rest| + |r.msg| - |got| + 18 * (r.nonce - nonce)
    decreases |s|
  {
    if |got| < total && |s| >= 2 && |s| >= 2 + GetU16(s[..2]) && nonce < NONCE_LIMIT {
      var end := 2 + GetU16(s[..2]);
      match Open(c, nonce, s[2..end])
      case None =>
      case Some(chunk) =>
        assert |s[2..end]| == |chunk| + TAG_LEN;
        FramesConsume(c, nonce + 1, total, got + chunk, s[end..]);
    }
  }

  /** What the frame loop leaves unread is the end of the stream. */
  lemma {:induction false} FramesSuffix(c: Cipher, nonce: nat, total: nat, got: Bytes, s: Bytes)
    ensures var r := RecvFrames(c, nonce, total, got, s);
            r.Done? ==> |r.rest| <= |s| && s[|s| - |r.rest|..] == r.rest
    decreases |s|
  {
    if |got| < total && |s| >= 2 && |s| >= 2 + GetU16(s[..2]) && nonce < NONCE_LIMIT {
      var end := 2 + GetU16(s[..2]);
      match Open(c, nonce, s[2..end])
      case None =>
      case Some(chunk) =>
        FramesSuffix(c, nonce + 1, total, got + chunk, s[end..]);
        var r := RecvFrames(c, nonce, total, got, s);
        if r.Done? { Suffix(s, end, |r.rest|); }
    }
  }

  /**
   On any byte stream the receiver stops. A delivered message holds at least the announced bytes and
   at most 65518 more, none when none were announced, and accounts for every byte consumed.
   */
  lemma {:induction false} ReceiverTotal(c: Cipher, nonce: nat, s: Bytes)
    requires Aead(c)
    ensures var r := Recv(c, nonce, s);
            && nonce <= r.nonce
            && (r.Done? ==>
                  var total := GetU32(s[..4]);
                  && total <= MAX_MSG_BYTES && total <= |r.msg| <= total + 65518
                  && (total == 0 ==> r.msg == []) && (total > 0 ==> r.nonce <= 0xFFFF_FFFF_FFFF_FFFF)
                  && |s| == 4 + |r.msg| + 18 * (r.nonce - nonce) + |r.rest|
                  && s[|s| - |r.rest|..] == r.rest)
  {
    if |s| >= 4 && GetU32(s[..4]) <= MAX_MSG_BYTES {
      FramesBounded(c, nonce, GetU32(s[..4]), [], s[4..]);
      FramesConsume(c, nonce, GetU32(s[..4]), [], s[4..]);
      FramesSuffix(c, nonce, GetU32(s[..4]), [], s[4..]);
      var r := Recv(c, nonce, s);
      if r.Done? { Suffix(s, 4, |r.rest|); }
    }
  }

  // ---------------------------------------------------------------------------
  // Round trips
  // ---------------------------------------------------------------------------

  /** The first frame in front of anything: its length field is exact and it opens to its chunk. */
  lemma {:induction false} FrameReads(c: Cipher, nonce: nat, chunk: Bytes, tail: Bytes)
    requires Aead(c) && |chunk| <= MAX_PLAINTEXT
    ensures var s := Frame(c, nonce, chunk) + tail;
            var end := 2 + |chunk| + TAG_LEN;
            && |s| == end + |tail| && GetU16(s[..2]) == end - 2
            && Open(c, nonce, s[2..end]) == Some(chunk) && s[end..] == tail
  {
    var f := Seal(c, nonce, chunk);
    U16RoundTrip(|f|);
    var s := Frame(c, nonce, chunk) + tail;
    assert |f| == |chunk| + TAG_LEN && Open(c, nonce, f) == Some(chunk);
    assert s[..2] == Put(|f|, 2);
    assert s[2..2 + |f|] == f;
  }

  /** Reading a well-formed frame is one round of the receive loop. */
  lemma {:induction false} RecvStep(c: Cipher, nonce: nat, total: nat, got: Bytes, chunk: Bytes, tail: Bytes)
    requires Aead(c) && |chunk| <= MAX_PLAINTEXT && |got| < total && nonce < NONCE_LIMIT
    ensures RecvFrames(c, nonce, total, got, Frame(c, nonce, chunk) + tail)
         == RecvFrames(c, nonce + 1, total, got + chunk, tail)
  {
    FrameReads(c, nonce, chunk, tail);
  }

  lemma {:induction false} FramesSplit(c: Cipher, nonce: nat, p: Bytes, k: nat, rest: Bytes)
    requires p != [] && nonce < NONCE_LIMIT && k == Min(|p|, MAX_PLAINTEXT)
    ensures Frames(c, nonce, p) + rest == Frame(c, nonce, p[..k]) + (Frames(c, nonce + 1, p[k..]) + rest)
  {
    Assoc(Frame(c, nonce, p[..k]), Frames(c, nonce + 1, p[k..]), rest);
  }

  /** `s` starts with frames that open, one nonce after another, to the chunks of `p`, and `rest` follows. */
  ghost predicate Encodes(c: Cipher, nonce: nat, p: Bytes, s: Bytes, rest: Bytes)
    decreases |p|
  {
    if p == [] then s == rest
    else
      var k := Min(|p|, MAX_PLAINTEXT);
      && nonce < NONCE_LIMIT && |s| >= 2 && GetU16(s[..2]) == k + TAG_LEN && |s| >= 2 + k + TAG_LEN
      && Open(c, nonce, s[2..2 + k + TAG_LEN]) == Some(p[..k])
      && Encodes(c, nonce + 1, p[k..], s[2 + k + TAG_LEN..], rest)
  }

  lemma {:induction false} FramesEncode(c: Cipher, nonce: nat, p: Bytes, rest: Bytes)
    requires Aead(c) && nonce + Chunks(|p|) <= NONCE_LIMIT
    ensures Encodes(c, nonce, p, Frames(c, nonce, p) + rest, rest)
    decreases |p|
  {
    if p == [] {
      Nothing(rest);
    } else {
      var k := Min(|p|, MAX_PLAINTEXT);
      FramesSplit(c, nonce, p, k, rest);
      FrameReads(c, nonce, p[..k], Frames(c, nonce + 1, p[k..]) + rest);
      FramesEncode(c, nonce + 1, p[k..], rest);
    }
  }

  lemma {:induction false} EncodedReads(c: Cipher, nonce: nat, p: Bytes, got: Bytes, total: nat, s: Bytes, rest: Bytes)
    requires Encodes(c, nonce, p, s, rest) && total == |got| + |p|
    ensures RecvFrames(c, nonce, total, got, s) == Done(got + p, rest, nonce + Chunks(|p|))
    decreases |p|
  {
    if p == [] {
      Nothing(got);
    } else {
      var k := Min(|p|, MAX_PLAINTEXT);
      EncodedReads(c, nonce + 1, p[k..], got + p[..k], total, s[2 + k + TAG_LEN..], rest);
      Rejoin(got, p, k);
    }
  }

  lemma {:induction false} WireReads(c: Cipher, nonce: nat, p: Bytes, rest: Bytes)
    requires Aead(c)
    ensures var s := Wire(c, nonce, p) + rest;
            |s| >= 4 && GetU32(s[..4]) == |p| % 0x1_0000_0000 && s[4..] == Frames(c, nonce, p) + rest
  {
    U32RoundTrip(|p|);
    assert (Wire(c, nonce, p) + rest)[..4] == Put(|p|, 4);
    assert (Wire(c, nonce, p) + rest)[4..] == Frames(c, nonce, p) + rest;
  }

  lemma {:induction false} RecvOf(c: Cipher, nonce: nat, s: Bytes, total: nat, body: Bytes)
    requires |s| >= 4 && GetU32(s[..4]) == total && s[4..] == body
    ensures Recv(c, nonce, s) == if total > MAX_MSG_BYTES then Failed(nonce) else RecvFrames(c, nonce, total, [], body)
  {
  }

  lemma {:induction false} ShortArrives(c: Cipher, nonce: nat, p: Bytes, rest: Bytes, s: Bytes)
    requires Aead(c) && nonce + Chunks(|p|) <= NONCE_LIMIT && |p| <= MAX_MSG_BYTES
    requires |s| >= 4 && GetU32(s[..4]) == |p| % 0x1_0000_0000 && s[4..] == Frames(c, nonce, p) + rest
    ensures Recv(c, nonce, s) == Done(p, rest, nonce + Chunks(|p|))
  {
    RecvOf(c, nonce, s, |p|, Frames(c, nonce, p) + rest);
    FramesEncode(c, nonce, p, rest);
    EncodedReads(c, nonce, p, [], |p|, Frames(c, nonce, p) + rest, rest);
    Nothing(p);
  }

  lemma {:induction false} LongDiffers(c: Cipher, nonce: nat, p: Bytes, s: Bytes)
    requires Aead(c) && |p| > MAX_MSG_BYTES && |s| >= 4 && GetU32(s[..4]) == |p| % 0x1_0000_0000
    ensures Recv(c, nonce, s).Done? ==> Recv(c, nonce, s).msg != p
  {
    ReceiverTotal(c, nonce, s);
  }

  /**
   A sent message is received exactly, with nothing else consumed and both nonces in step, precisely
   when it is at most 16 MiB; beyond 4 GiB the length field wraps and never leads back to it.
   */
  lemma {:induction false} RoundTripIff(c: Cipher, nonce: nat, p: Bytes, rest: Bytes)
    requires Aead(c) && nonce + Chunks(|p|) <= NONCE_LIMIT
    ensures Recv(c, nonce, Wire(c, nonce, p) + rest) == Done(p, rest, nonce + Chunks(|p|)) <==> |p| <= 16_777_216
  {
    var s := Wire(c, nonce, p) + rest;
    WireReads(c, nonce, p, rest);
    if |p| <= MAX_MSG_BYTES { ShortArrives(c, nonce, p, rest, s); } else { LongDiffers(c, nonce, p, s); }
  }

  /** Reading `s` message by message yields `ms` and leaves `rest`. */
  ghost predicate EncodesAll(c: Cipher, nonce: nat, ms: seq<Bytes>, s: Bytes, rest: Bytes)
    decreases |ms|
  {
    if ms == [] then s == rest
    else
      var r := RecvMsg(c, nonce, s);
      && r.Done? && r.msg == ms[0] && r.nonce == nonce + Chunks(|ms[0]|)
      && EncodesAll(c, r.nonce, ms[1..], r.rest, rest)
  }

  lemma {:induction false} StreamStep(c: Cipher, nonce: nat, ms: seq<Bytes>, tail: Bytes, rest: Bytes)
    requires Aead(c) && ms != [] && nonce + Chunks(|ms[0]|) <= NONCE_LIMIT && |ms[0]| <= MAX_MSG_BYTES
    requires EncodesAll(c, nonce + Chunks(|ms[0]|), ms[1..], tail, rest)
    ensures EncodesAll(c, nonce, ms, Wire(c, nonce, ms[0]) + tail, rest)
  {
    RoundTripIff(c, nonce, ms[0], tail);
  }

  lemma {:induction false} StreamEncodes(c: Cipher, nonce: nat, ms: seq<Bytes>, rest: Bytes)
    requires Aead(c) && nonce + TotalChunks(ms) <= NONCE_LIMIT
    requires forall i | 0 <= i < |ms| :: |ms[i]| <= MAX_MSG_BYTES
    ensures EncodesAll(c, nonce, ms, StreamWire(c, nonce, ms) + rest, rest)
    decreases |ms|
  {
    if ms == [] {
      Nothing(rest);
    } else {
      var n := nonce + Chunks(|ms[0]|);
      StreamEncodes(c, n, ms[1..], rest);
      StreamStep(c, nonce, ms, StreamWire(c, n, ms[1..]) + rest, rest);
      Assoc(Wire(c, nonce, ms[0]), StreamWire(c, n, ms[1..]), rest);
    }
  }

  lemma {:induction false} EncodedAllRead(c: Cipher, nonce: nat, got: seq<Bytes>, ms: seq<Bytes>, s: Bytes, rest: Bytes)
    requires EncodesAll(c, nonce, ms, s, rest)
    ensures RecvAll(c, nonce, got, s, |ms|) == Some((got + ms, rest, nonce + TotalChunks(ms)))
    decreases |ms|
  {
    if ms == [] {
      Nothing(got);
    } else {
      var r := RecvMsg(c, nonce, s);
      EncodedAllRead(c, r.nonce, got + [ms[0]], ms[1..], r.rest, rest);
      Resume(got, ms);
    }
  }

  /** The stream of all messages reads back as exactly those messages, byte for byte and nonce for nonce. */
  lemma {:induction false} StreamRoundTrip(c: Cipher, nonce: nat, ms: seq<Bytes>, rest: Bytes)
    requires Aead(c) && nonce + TotalChunks(ms) <= NONCE_LIMIT
    requires forall i | 0 <= i < |ms| :: |ms[i]| <= MAX_MSG_BYTES
    ensures RecvAll(c, nonce, [], StreamWire(c, nonce, ms) + rest, |ms|) == Some((ms, rest, nonce + TotalChunks(ms)))
  {
    StreamEncodes(c, nonce, ms, rest);
    EncodedAllRead(c, nonce, [], ms, StreamWire(c, nonce, ms) + rest, rest);
    Nothing(ms);
  }

  lemma {:induction false} StreamAlone(c: Cipher, nonce: nat, ms: seq<Bytes>)
    requires Aead(c) && nonce + TotalChunks(ms) <= NONCE_LIMIT
    requires forall i | 0 <= i < |ms| :: |ms[i]| <= MAX_MSG_BYTES
    ensures RecvAll(c, nonce, [], StreamWire(c, nonce, ms), |ms|) == Some((ms, [], nonce + TotalChunks(ms)))
  {
    StreamRoundTrip(c, nonce, ms, []);
    Nothing(StreamWire(c, nonce, ms));
  }

  lemma {:induction false} KeptFits(queue: seq<Option<Bytes>>)
    ensures forall i | 0 <= i < |Kept(queue)| :: |Kept(queue)[i]| <= MAX_MSG_BYTES
    decreases |queue|
  {
    if queue != [] { KeptFits(queue[1..]); }
  }

  /** Whatever is queued, the peer reads exactly the messages the writer loop did not skip. */
  lemma {:induction false} QueueRoundTrip(c: Cipher, nonce: nat, queue: seq<Option<Bytes>>)
    requires Aead(c) && nonce + TotalChunks(Kept(queue)) <= NONCE_LIMIT
    ensures RecvAll(c, nonce, [], StreamWire(c, nonce, Kept(queue)), |Kept(queue)|)
         == Some((Kept(queue), [], nonce + TotalChunks(Kept(queue))))
  {
    KeptFits(queue);
    StreamAlone(c, nonce, Kept(queue));
  }

  // ---------------------------------------------------------------------------
  // Truncated streams
  // ---------------------------------------------------------------------------

  /** Cut inside its first frame, the receive loop fails at once. */
  lemma {:induction false} CutFrameFails(c: Cipher, nonce: nat, total: nat, got: Bytes, chunk: Bytes, s: Bytes)
    requires Aead(c) && |chunk| <= MAX_PLAINTEXT && |got| < total && s < Frame(c, nonce, chunk)
    ensures RecvFrames(c, nonce, total, got, s).Failed?
  {
    FrameReads(c, nonce, chunk, []);
    assert Frame(c, nonce, chunk) + [] == Frame(c, nonce, chunk);
    if |s| >= 2 { assert s[..2] == Frame(c, nonce, chunk)[..2]; }
  }

  lemma {:induction false} CutFramesFail(c: Cipher, nonce: nat, p: Bytes, got: Bytes, total: nat, s: Bytes)
    requires Aead(c) && nonce + Chunks(|p|) <= NONCE_LIMIT && total == |got| + |p| && s < Frames(c, nonce, p)
    ensures RecvFrames(c, nonce, total, got, s).Failed?
    decreases |p|
  {
    var k := Min(|p|, MAX_PLAINTEXT);
    var first, tail := Frame(c, nonce, p[..k]), Frames(c, nonce + 1, p[k..]);
    assert first + tail == Frames(c, nonce, p);
    if |s| >= |first| {
      var s' := s[|first|..];
      CutAfter(first, tail, s);
      RecvStep(c, nonce, total, got, p[..k], s');
      CutFramesFail(c, nonce + 1, p[k..], got + p[..k], total, s');
    } else {
      assert s == (first + tail)[..|s|];
      CutFrameFails(c, nonce, total, got, p[..k], s);
    }
  }

  lemma {:induction false} CutAfter(first: Bytes, tail: Bytes, s: Bytes)
    requires s < first + tail && |s| >= |first|
    ensures s == first + s[|first|..] && s[|first|..] < tail
  {
    assert s == (first + tail)[..|s|];
    assert s[..|first|] == first;
    assert s[|first|..] == tail[..|s| - |first|];
  }

  lemma {:induction false} CutBodyFails(c: Cipher, nonce: nat, p: Bytes, s: Bytes)
    requires Aead(c) && nonce + Chunks(|p|) <= NONCE_LIMIT && |s| >= 4
    requires GetU32(s[..4]) == |p| && s[4..] < Frames(c, nonce, p)
    ensures Recv(c, nonce, s).Failed?
  {
    RecvOf(c, nonce, s, |p|, s[4..]);
    CutFramesFail(c, nonce, p, [], |p|, s[4..]);
  }

  lemma {:induction false} CutParts(c: Cipher, nonce: nat, p: Bytes, s: Bytes)
    requires Aead(c) && |s| >= 4 && s < Wire(c, nonce, p)
    ensures GetU32(s[..4]) == |p| % 0x1_0000_0000 && s[4..] < Frames(c, nonce, p)
  {
    U32RoundTrip(|p|);
    var w := Wire(c, nonce, p);
    assert w[..4] == Put(|p|, 4) && w[4..] == Frames(c, nonce, p);
    assert s == w[..|s|];
    assert s[..4] == w[..4] && s[4..] == w[4..][..|s| - 4];
  }

  lemma {:induction false} CutLength(c: Cipher, nonce: nat, p: Bytes, s: Bytes)
    requires Aead(c) && |p| <= MAX_MSG_BYTES && |s| >= 4 && s < Wire(c, nonce, p)
    ensures GetU32(s[..4]) == |p| && s[4..] < Frames(c, nonce, p)
  {
    CutParts(c, nonce, p, s);
    Unwrapped(|p|);
  }

  lemma {:induction false} Unwrapped(n: nat)
    requires n <= MAX_MSG_BYTES
    ensures n % 0x1_0000_0000 == n
  {
  }

  /** A stream cut anywhere inside a message never yields a message. */
  lemma {:induction false} CutStreamFails(c: Cipher, nonce: nat, p: Bytes, s: Bytes)
    requires Aead(c) && nonce + Chunks(|p|) <= NONCE_LIMIT && |p| <= MAX_MSG_BYTES
    requires s < Wire(c, nonce, p)
    ensures Recv(c, nonce, s).Failed?
  {
    if |s| >= 4 {
      CutLength(c, nonce, p, s);
      CutBodyFails(c, nonce, p, s);
    }
  }
}
