/** Payload transfer over an encrypted channel: chunks, 16-byte tags and length prefixes.

    The channel's cipher is a parameter: sealing adds 16 bytes, and opening with the same message
    counter inverts it. */
module Framing {
  import opened Domain

  const MAX_CIPHERTEXT_FRAME := 65_535
  const TAG := 16
  const MAX_PLAINTEXT_FRAME := MAX_CIPHERTEXT_FRAME - TAG
  const MAX_CONTENT_TRANSFER_SIZE := 256 * 1024 * 1024
  const U32_LIMIT := 0x1_0000_0000

  datatype WireError = Io | InvalidMessage | ContentTooLarge | SecureChannel
  datatype Received<+T> = Got(value: T) | Lost(error: WireError)

  datatype Cipher = Cipher(seal: (nat, Bytes) -> Bytes, unseal: (nat, Bytes) -> Option<Bytes>)

  ghost predicate SoundCipher(k: Cipher) {
    forall n: nat, p: Bytes :: |k.seal(n, p)| == |p| + TAG && k.unseal(n, k.seal(n, p)) == Some(p)
  }

  // ---- length prefixes ---------------------------------------------------------------------------

  function BigEndian(n: nat): (r: Bytes)
    requires n < U32_LIMIT
    ensures |r| == 4
  {
    [n / 0x100_0000, n / 0x1_0000 % 0x100, n / 0x100 % 0x100, n % 0x100]
  }

  function FromBigEndian(b: Bytes): nat
    requires |b| == 4
  {
    ((b[0] as int * 0x100 + b[1]) * 0x100 + b[2]) * 0x100 + b[3]
  }

  /** The four bytes hold the number, most significant byte first. */
  lemma BigEndianRoundTrip(n: nat)
    requires n < U32_LIMIT
    ensures FromBigEndian(BigEndian(n)) == n
    ensures
      var b := BigEndian(n);
      n == b[0] as int * 16_777_216 + b[1] as int * 65_536 + b[2] as int * 256 + b[3] as int
  {
    var a, b := n / 0x100, n / 0x1_0000;
    assert b == a / 0x100 && n / 0x100_0000 == b / 0x100;
    assert b == 0x100 * (b / 0x100) + b % 0x100;
    assert a == 0x100 * b + a % 0x100;
    assert n == 0x100 * a + n % 0x100;
  }

  function Framed(bytes: Bytes): Bytes
    requires |bytes| < U32_LIMIT
  {
    BigEndian(|bytes|) + bytes
  }

  /** One frame and what follows it. */
  function ReadFrame(input: Bytes, maximum: nat): Received<(Bytes, Bytes)> {
    if |input| < 4 then Lost(Io)
    else
      var size := FromBigEndian(input[..4]);
      if size == 0 || size > maximum then Lost(InvalidMessage)
      else if |input| < 4 + size then Lost(Io)
      else Got((input[4..4 + size], input[4 + size..]))
  }

  lemma FrameRoundTrip(bytes: Bytes, rest: Bytes, maximum: nat)
    requires 0 < |bytes| <= maximum && |bytes| < U32_LIMIT
    ensures ReadFrame(Framed(bytes) + rest, maximum) == Got((bytes, rest))
  {
    BigEndianRoundTrip(|bytes|);
    var input := Framed(bytes) + rest;
    assert input[..4] == BigEndian(|bytes|);
    assert input[4..4 + |bytes|] == bytes && input[4 + |bytes|..] == rest;
  }

  lemma BytesRoundTrip(b: Bytes)
    requires |b| == 4
    ensures FromBigEndian(b) < U32_LIMIT && BigEndian(FromBigEndian(b)) == b
  {
    var a: int := b[0] as int * 0x100 + b[1] as int;
    var c: int := a * 0x100 + b[2] as int;
    var n: int := c * 0x100 + b[3] as int;
    assert n == FromBigEndian(b);
    assert n / 0x100 == c && n % 0x100 == b[3];
    assert c / 0x100 == a && c % 0x100 == b[2];
    assert a / 0x100 == b[0] && a % 0x100 == b[1];
    assert n / 0x1_0000 == c / 0x100 && n / 0x100_0000 == a / 0x100;
  }

  /** A frame is read exactly from a stream that starts with it, and only if it is neither empty nor too
      large; every other stream is cut short or announces such a frame. */
  lemma FrameExact(input: Bytes, maximum: nat, bytes: Bytes, rest: Bytes)
    requires maximum < U32_LIMIT
    ensures ReadFrame(input, maximum) == Got((bytes, rest)) <==>
      0 < |bytes| <= maximum && input == Framed(bytes) + rest
    ensures |input| < 4 ==> ReadFrame(input, maximum) == Lost(Io)
    ensures |input| >= 4 ==>
      var size := input[0] as int * 16_777_216 + input[1] as int * 65_536 + input[2] as int * 256 + input[3] as int;
      && (ReadFrame(input, maximum) == Lost(InvalidMessage) <==> size == 0 || size > maximum)
      && (ReadFrame(input, maximum) == Lost(Io) <==> 0 < size <= maximum && |input| < 4 + size)
  {
    if 0 < |bytes| <= maximum && input == Framed(bytes) + rest {
      FrameRoundTrip(bytes, rest, maximum);
    }
    if |input| >= 4 {
      BytesRoundTrip(input[..4]);
      if ReadFrame(input, maximum) == Got((bytes, rest)) {
        assert input == input[..4] + bytes + rest;
      }
    }
  }

  // ---- writing -------------------------------------------------------------------------------------

  /** The payload cut into pieces of the largest size a frame can carry. */
  function Chunks(p: Bytes): seq<Bytes>
    decreases |p|
  {
    if p == [] then []
    else if |p| <= MAX_PLAINTEXT_FRAME then [p]
    else [p[..MAX_PLAINTEXT_FRAME]] + Chunks(p[MAX_PLAINTEXT_FRAME..])
  }

  predicate SmallChunks(cs: seq<Bytes>) {
    forall i :: 0 <= i < |cs| ==> 0 < |cs[i]| <= MAX_PLAINTEXT_FRAME
  }

  function Flatten(cs: seq<Bytes>): Bytes {
    if cs == [] then [] else cs[0] + Flatten(cs[1..])
  }

  /** Chunking loses nothing, and every sealed chunk fits the channel's message limit. */
  lemma {:induction false} ChunksCover(p: Bytes)
    ensures Flatten(Chunks(p)) == p && SmallChunks(Chunks(p))
    decreases |p|
  {
    if |p| > MAX_PLAINTEXT_FRAME {
      ChunksCover(p[MAX_PLAINTEXT_FRAME..]);
      assert Chunks(p)[0] == p[..MAX_PLAINTEXT_FRAME];
      assert Chunks(p)[1..] == Chunks(p[MAX_PLAINTEXT_FRAME..]);
      assert p == p[..MAX_PLAINTEXT_FRAME] + p[MAX_PLAINTEXT_FRAME..];
    } else if p != [] {
      assert Chunks(p)[1..] == [];
      assert p + [] == p;
    }
  }

  /** Every chunk but the last is as large as a frame can carry. */
  lemma {:induction false} ChunkSizes(p: Bytes, i: nat)
    requires i < |Chunks(p)|
    ensures if i < |Chunks(p)| - 1 then |Chunks(p)[i]| == 65_519 else 0 < |Chunks(p)[i]| <= 65_519
    decreases |p|
  {
    if i > 0 {
      ChunkSizes(p[MAX_PLAINTEXT_FRAME..], i - 1);
    } else if |p| > MAX_PLAINTEXT_FRAME {
      assert Chunks(p[MAX_PLAINTEXT_FRAME..]) != [];
    }
  }

  lemma SealedFits(k: Cipher, n: nat, chunk: Bytes)
    requires SoundCipher(k) && 0 < |chunk| <= MAX_PLAINTEXT_FRAME
    ensures 0 < |k.seal(n, chunk)| <= MAX_CIPHERTEXT_FRAME == 65_535
  {
  }

  ghost function Encode(k: Cipher, n: nat, cs: seq<Bytes>): Bytes
    requires SoundCipher(k) && SmallChunks(cs)
    decreases |cs|
  {
    if cs == [] then []
    else
      SealedFits(k, n, cs[0]);
      Framed(k.seal(n, cs[0])) + Encode(k, n + 1, cs[1..])
  }

  lemma EncodeFrom(k: Cipher, n: nat, cs: seq<Bytes>, i: nat, wire: Bytes)
    requires SoundCipher(k) && SmallChunks(cs) && i < |cs|
    ensures |k.seal(n, cs[i])| < U32_LIMIT
    ensures wire + Encode(k, n, cs[i..]) == wire + Framed(k.seal(n, cs[i])) + Encode(k, n + 1, cs[i + 1..])
  {
    SealedFits(k, n, cs[i]);
    assert cs[i..][0] == cs[i] && cs[i..][1..] == cs[i + 1..];
    hide Framed;
  }

  lemma EncodeEnd(k: Cipher, n: nat, cs: seq<Bytes>, wire: Bytes)
    requires SoundCipher(k) && SmallChunks(cs)
    ensures wire + Encode(k, n, cs[|cs|..]) == wire
  {
  }

  class SecureWriter {
    const cipher: Cipher
    var wire: Bytes
    var counter: nat

    constructor (cipher: Cipher)
      ensures this.cipher == cipher && wire == [] && counter == 0
    {
      this.cipher := cipher;
      wire, counter := [], 0;
    }

    method WriteBinaryFrame(bytes: Bytes) returns (r: Received<()>)
      modifies this`wire
      ensures |bytes| >= U32_LIMIT ==> r == Lost(InvalidMessage) && wire == old(wire)
      ensures |bytes| < U32_LIMIT ==> r == Got(()) && wire == old(wire) + Framed(bytes)
    {
      if |bytes| >= U32_LIMIT { return Lost(InvalidMessage); }
      wire := wire + BigEndian(|bytes|);
      wire := wire + bytes;
      return Got(());
    }

    method WritePayload(payload: Bytes)
      requires SoundCipher(cipher)
      modifies this`wire, this`counter
      ensures SmallChunks(Chunks(payload))
      ensures wire == old(wire) + Encode(cipher, old(counter), Chunks(payload))
      ensures counter == old(counter) + |Chunks(payload)|
    {
      hide Encode, SoundCipher, Framed, Flatten;
      ChunksCover(payload);
      var cs := Chunks(payload);
      var k := 0;
      assert cs[0..] == cs;
      while k < |cs|
        invariant 0 <= k <= |cs| && counter == old(counter) + k
        invariant old(wire) + Encode(cipher, old(counter), cs) == wire + Encode(cipher, counter, cs[k..])
      {
        SealedFits(cipher, counter, cs[k]);
        EncodeFrom(cipher, counter, cs, k, wire);
        var _ := WriteBinaryFrame(cipher.seal(counter, cs[k]));
        counter := counter + 1;
        k := k + 1;
      }
      EncodeEnd(cipher, counter, cs, wire);
    }
  }

  // ---- reading -------------------------------------------------------------------------------------

  /** Reads frames until `size` bytes have arrived; a frame may neither be empty nor overshoot. */
  function ReadLoop(k: Cipher, n: nat, input: Bytes, size: nat, got: Bytes): Received<(Bytes, Bytes, nat)>
    decreases size - |got|
  {
    if |got| >= size then Got((got, input, n))
    else match ReadFrame(input, MAX_CIPHERTEXT_FRAME)
      case Lost(e) => Lost(e)
      case Got((sealed, rest)) =>
        match k.unseal(n, sealed)
        case None => Lost(SecureChannel)
        case Some(plain) =>
          if plain == [] || |got| + |plain| > size then Lost(InvalidMessage)
          else ReadLoop(k, n + 1, rest, size, got + plain)
  }

  function ReadPayload(k: Cipher, n: nat, input: Bytes, size: nat): Received<(Bytes, Bytes, nat)> {
    if size > MAX_CONTENT_TRANSFER_SIZE then Lost(ContentTooLarge) else ReadLoop(k, n, input, size, [])
  }

  class SecureReader {
    const cipher: Cipher
    var input: Bytes
    var counter: nat

    constructor (cipher: Cipher, input: Bytes)
      ensures this.cipher == cipher && this.input == input && counter == 0
    {
      this.cipher := cipher;
      this.input, counter := input, 0;
    }

    /** The receiving loop over the stream position. */
    method Receive(size: nat) returns (r: Received<Bytes>)
      modifies this`input, this`counter
      ensures
        match ReadPayload(cipher, old(counter), old(input), size)
        case Got((payload, rest, n)) => r == Got(payload) && input == rest && counter == n
        case Lost(e) => r == Lost(e)
    {
      if size > MAX_CONTENT_TRANSFER_SIZE { return Lost(ContentTooLarge); }
      var payload := [];
      while |payload| < size
        invariant ReadLoop(cipher, old(counter), old(input), size, []) ==
          ReadLoop(cipher, counter, input, size, payload)
        decreases size - |payload|
      {
        var frame := ReadFrame(input, MAX_CIPHERTEXT_FRAME);
        if frame.Lost? { return Lost(frame.error); }
        var plain := cipher.unseal(counter, frame.value.0);
        if plain.None? { return Lost(SecureChannel); }
        if plain.value == [] || |payload| + |plain.value| > size { return Lost(InvalidMessage); }
        payload := payload + plain.value;
        input := frame.value.1;
        counter := counter + 1;
      }
      return Got(payload);
    }
  }

  // ---- round trip --------------------------------------------------------------------------------------

  lemma ReadSealed(k: Cipher, n: nat, chunk: Bytes, tail: Bytes, size: nat, got: Bytes)
    requires SoundCipher(k) && 0 < |chunk| <= MAX_PLAINTEXT_FRAME && |got| < size
    ensures |k.seal(n, chunk)| < U32_LIMIT
    ensures ReadLoop(k, n, Framed(k.seal(n, chunk)) + tail, size, got) ==
      if |got| + |chunk| > size then Lost(InvalidMessage) else ReadLoop(k, n + 1, tail, size, got + chunk)
  {
    SealedFits(k, n, chunk);
    FrameRoundTrip(k.seal(n, chunk), tail, MAX_CIPHERTEXT_FRAME);
  }

  /** A frame that the cipher does not open, or that opens to nothing or to more than is wanted, ends the
      transfer with an error. */
  lemma ForeignFrame(k: Cipher, n: nat, bytes: Bytes, tail: Bytes, size: nat, got: Bytes)
    requires 0 < |bytes| <= MAX_CIPHERTEXT_FRAME && |got| < size
    ensures
      var r := ReadLoop(k, n, Framed(bytes) + tail, size, got);
      match k.unseal(n, bytes)
      case None => r == Lost(SecureChannel)
      case Some(plain) => plain == [] || |got| + |plain| > size ==> r == Lost(InvalidMessage)
  {
    FrameRoundTrip(bytes, tail, MAX_CIPHERTEXT_FRAME);
    hide Framed, ReadFrame;
  }

  lemma FirstChunk(p: Bytes)
    requires p != []
    ensures
      var c := Chunks(p)[0];
      && 0 < |c| <= |p| && |c| <= MAX_PLAINTEXT_FRAME && (|c| == |p| || |c| == MAX_PLAINTEXT_FRAME)
      && p == c + p[|c|..] && Chunks(p) == [c] + Chunks(p[|c|..])
  {
  }

  lemma EncodeFirst(k: Cipher, n: nat, p: Bytes, rest: Bytes)
    requires SoundCipher(k) && p != []
    ensures
      var c := Chunks(p)[0];
      && SmallChunks(Chunks(p)) && SmallChunks(Chunks(p[|c|..])) && |k.seal(n, c)| < U32_LIMIT
      && Encode(k, n, Chunks(p)) + rest == Framed(k.seal(n, c)) + (Encode(k, n + 1, Chunks(p[|c|..])) + rest)
  {
    FirstChunk(p);
    ChunksCover(p);
    var c := Chunks(p)[0];
    ChunksCover(p[|c|..]);
    SealedFits(k, n, c);
    assert Chunks(p)[1..] == Chunks(p[|c|..]);
  }

  lemma EncodeNothing(k: Cipher, n: nat, p: Bytes, rest: Bytes)
    requires SoundCipher(k) && p == []
    ensures Chunks(p) == [] && SmallChunks(Chunks(p)) && Encode(k, n, Chunks(p)) + rest == rest
  {
  }

  /** While more is wanted than `p` holds, reading consumes exactly the frames of `p`. */
  lemma {:induction false} ReadThrough(k: Cipher, n: nat, p: Bytes, rest: Bytes, size: nat, got: Bytes)
    requires SoundCipher(k) && |got| + |p| <= size
    ensures SmallChunks(Chunks(p))
    ensures ReadLoop(k, n, Encode(k, n, Chunks(p)) + rest, size, got) ==
      ReadLoop(k, n + |Chunks(p)|, rest, size, got + p)
    decreases |p|
  {
    hide Chunks, Encode, SoundCipher, SmallChunks, Framed, ReadLoop;
    ChunksCover(p);
    if p == [] {
      EncodeNothing(k, n, p, rest);
      assert got + p == got;
    } else {
      FirstChunk(p);
      EncodeFirst(k, n, p, rest);
      var c := Chunks(p)[0];
      var q := p[|c|..];
      ReadSealed(k, n, c, Encode(k, n + 1, Chunks(q)) + rest, size, got);
      ReadThrough(k, n + 1, q, rest, size, got + c);
      assert got + c + q == got + p;
      assert |Chunks(p)| == 1 + |Chunks(q)|;
    }
  }

  /** Whole frames can be cut off the front of a payload. */
  lemma {:induction false} ChunksSplit(p: Bytes, left: nat)
    requires left <= |p| && left % MAX_PLAINTEXT_FRAME == 0
    ensures Chunks(p) == Chunks(p[..left]) + Chunks(p[left..])
    decreases left
  {
    hide Chunks;
    if left == 0 {
      ChunksNothing(p[..0]);
      assert p[0..] == p;
    } else {
      OneFrameLess(left);
      var m := MAX_PLAINTEXT_FRAME;
      var q, front := p[m..], p[..left];
      ChunksSplit(q, left - m);
      assert q[..left - m] == front[m..] && q[left - m..] == p[left..] && front[..m] == p[..m];
      ChunksHead(p);
      ChunksHead(front);
    }
  }

  lemma ChunksNothing(p: Bytes)
    requires p == []
    ensures Chunks(p) == []
  {
  }

  lemma OneFrameLess(left: nat)
    requires left > 0 && left % MAX_PLAINTEXT_FRAME == 0
    ensures left >= MAX_PLAINTEXT_FRAME && (left - MAX_PLAINTEXT_FRAME) % MAX_PLAINTEXT_FRAME == 0
  {
  }

  lemma ChunksHead(p: Bytes)
    requires |p| >= MAX_PLAINTEXT_FRAME
    ensures Chunks(p) == [p[..MAX_PLAINTEXT_FRAME]] + Chunks(p[MAX_PLAINTEXT_FRAME..])
  {
    if |p| == MAX_PLAINTEXT_FRAME {
      assert p[..MAX_PLAINTEXT_FRAME] == p && p[MAX_PLAINTEXT_FRAME..] == [];
    }
  }

  lemma {:induction false} EncodeConcat(k: Cipher, n: nat, cs: seq<Bytes>, ds: seq<Bytes>)
    requires SoundCipher(k) && SmallChunks(cs) && SmallChunks(ds)
    ensures SmallChunks(cs + ds) && Encode(k, n, cs + ds) == Encode(k, n, cs) + Encode(k, n + |cs|, ds)
    decreases |cs|
  {
    hide Framed, Encode, SmallChunks;
    if cs == [] {
      EncodeNone(k, n, cs);
      assert cs + ds == ds;
    } else {
      SmallParts(cs, ds);
      EncodeConcat(k, n + 1, cs[1..], ds);
      EncodeCons(k, n, cs);
      EncodeCons(k, n, cs + ds);
      assert (cs + ds)[1..] == cs[1..] + ds;
    }
  }

  lemma EncodeNone(k: Cipher, n: nat, cs: seq<Bytes>)
    requires SoundCipher(k) && SmallChunks(cs) && cs == []
    ensures Encode(k, n, cs) == []
  {
  }

  lemma SmallParts(cs: seq<Bytes>, ds: seq<Bytes>)
    requires SmallChunks(cs) && SmallChunks(ds) && cs != []
    ensures SmallChunks(cs[1..]) && SmallChunks(cs + ds)
  {
  }

  lemma EncodeCons(k: Cipher, n: nat, cs: seq<Bytes>)
    requires SoundCipher(k) && SmallChunks(cs) && cs != []
    ensures SmallChunks(cs[1..]) && |k.seal(n, cs[0])| < U32_LIMIT
    ensures Encode(k, n, cs) == Framed(k.seal(n, cs[0])) + Encode(k, n + 1, cs[1..])
  {
    hide Framed;
    SealedFits(k, n, cs[0]);
  }

  /** Reading only `left` bytes of `p`: possible exactly at a frame boundary, and then the other
      frames are left in the stream. */
  lemma ReadPart(k: Cipher, n: nat, p: Bytes, rest: Bytes, size: nat, got: Bytes)
    requires SoundCipher(k) && |got| <= size < |got| + |p|
    ensures SmallChunks(Chunks(p)) && SmallChunks(Chunks(p[size - |got|..]))
    ensures
      var left := size - |got|;
      var read := n + |Chunks(p[..left])|;
      ReadLoop(k, n, Encode(k, n, Chunks(p)) + rest, size, got) ==
        if left % MAX_PLAINTEXT_FRAME == 0
        then Got((got + p[..left], Encode(k, read, Chunks(p[left..])) + rest, read))
        else Lost(InvalidMessage)
  {
    hide Chunks, SoundCipher, SmallChunks, Framed, Encode, ReadLoop;
    var left := size - |got|;
    var whole := left - left % MAX_PLAINTEXT_FRAME;
    WholeFrames(left);
    var a, b := p[..whole], p[whole..];
    var read := n + |Chunks(a)|;
    EncodeSplit(k, n, p, rest, whole);
    ReadThrough(k, n, a, Encode(k, read, Chunks(b)) + rest, size, got);
    ChunksCover(p[left..]);
    if whole < left {
      FirstChunk(b);
      EncodeFirst(k, read, b, rest);
      var c := Chunks(b)[0];
      ReadSealed(k, read, c, Encode(k, read + 1, Chunks(b[|c|..])) + rest, size, got + a);
    } else {
      ReadDone(k, read, Encode(k, read, Chunks(b)) + rest, got + a);
    }
  }

  lemma WholeFrames(left: nat)
    ensures
      var whole := left - left % MAX_PLAINTEXT_FRAME;
      0 <= whole <= left < whole + MAX_PLAINTEXT_FRAME && whole % MAX_PLAINTEXT_FRAME == 0
  {
  }

  lemma ReadDone(k: Cipher, n: nat, input: Bytes, got: Bytes)
    ensures ReadLoop(k, n, input, |got|, got) == Got((got, input, n))
  {
  }

  lemma EncodeSplit(k: Cipher, n: nat, p: Bytes, rest: Bytes, whole: nat)
    requires SoundCipher(k) && whole <= |p| && whole % MAX_PLAINTEXT_FRAME == 0
    ensures SmallChunks(Chunks(p)) && SmallChunks(Chunks(p[..whole])) && SmallChunks(Chunks(p[whole..]))
    ensures Encode(k, n, Chunks(p)) + rest ==
      Encode(k, n, Chunks(p[..whole])) + (Encode(k, n + |Chunks(p[..whole])|, Chunks(p[whole..])) + rest)
  {
    hide Chunks, SoundCipher, SmallChunks, Encode;
    ChunksCover(p);
    ChunksCover(p[..whole]);
    ChunksCover(p[whole..]);
    ChunksSplit(p, whole);
    EncodeConcat(k, n, Chunks(p[..whole]), Chunks(p[whole..]));
  }

  /** What was written is what is read, and exactly its frames are consumed. */
  lemma PayloadRoundTrip(k: Cipher, n: nat, p: Bytes, rest: Bytes)
    requires SoundCipher(k) && |p| <= 256 * 1024 * 1024
    ensures SmallChunks(Chunks(p))
    ensures ReadPayload(k, n, Encode(k, n, Chunks(p)) + rest, |p|) == Got((p, rest, n + |Chunks(p)|))
  {
    ReadThrough(k, n, p, rest, |p|, []);
    assert [] + p == p;
  }

  /** An announced size is refused at once exactly if it is over 256 MiB. */
  lemma TooLargeRefused(k: Cipher, n: nat, input: Bytes, size: nat)
    ensures ReadPayload(k, n, input, size) == Lost(ContentTooLarge) <==> size > 256 * 1024 * 1024
  {
    LoopNeverTooLarge(k, n, input, size, []);
  }

  lemma {:induction false} LoopNeverTooLarge(k: Cipher, n: nat, input: Bytes, size: nat, got: Bytes)
    ensures ReadLoop(k, n, input, size, got) != Lost(ContentTooLarge)
    decreases size - |got|
  {
    if |got| < size && ReadFrame(input, MAX_CIPHERTEXT_FRAME).Got? {
      var (sealed, rest) := ReadFrame(input, MAX_CIPHERTEXT_FRAME).value;
      if k.unseal(n, sealed).Some? {
        var plain := k.unseal(n, sealed).value;
        if plain != [] && |got| + |plain| <= size {
          LoopNeverTooLarge(k, n + 1, rest, size, got + plain);
        }
      }
    }
  }

  /** An announced size below the payload's is accepted exactly at a frame boundary. It then yields
      that prefix and leaves the frames of the remainder in the stream; anywhere else it is reported
      as an invalid message. */
  lemma ShortAnnouncement(k: Cipher, n: nat, p: Bytes, rest: Bytes, size: nat)
    requires SoundCipher(k) && size < |p| && size <= MAX_CONTENT_TRANSFER_SIZE
    ensures SmallChunks(Chunks(p)) && SmallChunks(Chunks(p[size..]))
    ensures
      var read := n + |Chunks(p[..size])|;
      ReadPayload(k, n, Encode(k, n, Chunks(p)) + rest, size) ==
        if size % MAX_PLAINTEXT_FRAME == 0
        then Got((p[..size], Encode(k, read, Chunks(p[size..])) + rest, read))
        else Lost(InvalidMessage)
  {
    ReadPart(k, n, p, rest, size, []);
    assert [] + p[..size] == p[..size];
  }

  /** An announced size above the payload's keeps reading whatever follows the payload's frames. */
  lemma LongAnnouncement(k: Cipher, n: nat, p: Bytes, rest: Bytes, size: nat)
    requires SoundCipher(k) && |p| < size <= MAX_CONTENT_TRANSFER_SIZE
    ensures SmallChunks(Chunks(p))
    ensures ReadPayload(k, n, Encode(k, n, Chunks(p)) + rest, size) == ReadLoop(k, n + |Chunks(p)|, rest, size, p)
    ensures rest == [] ==> ReadPayload(k, n, Encode(k, n, Chunks(p)) + rest, size) == Lost(Io)
  {
    ReadThrough(k, n, p, rest, size, []);
    assert [] + p == p;
  }

  /** So if another payload follows, too large a size is not noticed exactly when it ends on a frame
      boundary of that payload: the reader then returns bytes of both, joined, and leaves the frames of
      the remainder in the stream. */
  lemma LongIntoNext(k: Cipher, n: nat, p: Bytes, q: Bytes, rest: Bytes, size: nat)
    requires SoundCipher(k) && |p| < size <= |p| + |q| && size <= MAX_CONTENT_TRANSFER_SIZE
    ensures SmallChunks(Chunks(p)) && SmallChunks(Chunks(q)) && SmallChunks(Chunks(q[size - |p|..]))
    ensures
      var next, left := n + |Chunks(p)|, size - |p|;
      var read := next + |Chunks(q[..left])|;
      ReadPayload(k, n, Encode(k, n, Chunks(p)) + (Encode(k, next, Chunks(q)) + rest), size) ==
        if size == |p| + |q| then Got((p + q, rest, next + |Chunks(q)|))
        else if left % MAX_PLAINTEXT_FRAME == 0
        then Got((p + q[..left], Encode(k, read, Chunks(q[left..])) + rest, read))
        else Lost(InvalidMessage)
  {
    hide Chunks, SoundCipher, SmallChunks, Encode, ReadLoop, ReadPayload;
    var next := n + |Chunks(p)|;
    ChunksCover(p);
    ChunksCover(q);
    ChunksCover(q[size - |p|..]);
    LongAnnouncement(k, n, p, Encode(k, next, Chunks(q)) + rest, size);
    if size == |p| + |q| {
      ReadThrough(k, next, q, rest, size, p);
      ReadDone(k, next + |Chunks(q)|, rest, p + q);
    } else {
      ReadPart(k, next, q, rest, size, p);
    }
  }
}
