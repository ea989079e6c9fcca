/**
 Frames on a byte stream: encoding, batched scatter/gather sending under partial writes, and receiving
 under partial reads.
 */
module Frames {
  import opened Ints
  import opened Codec

  datatype Frame = Frame(kind: u8, streamId: u32, payload: Bytes)

  const HEADER_SIZE: nat := 9
  const MAX_PAYLOAD: nat := 0x4000_0000
  const FRAME_CHUNK: nat := 256

  predicate IsKnown(kind: u8) {
    1 <= kind <= 6 || 10 <= kind <= 13 || 20 <= kind <= 27 || 30 <= kind <= 41 || kind == 255
  }

  /** The message types of the protocol. */
  const MESSAGE_TYPES: seq<int> :=
    [1, 2, 3, 4, 5, 6, 10, 11, 12, 13, 20, 21, 22, 23, 24, 25, 26, 27,
     30, 31, 32, 33, 34, 35, 36, 37, 38, 39, 40, 41, 255]

  lemma KnownAreTypes(kind: u8)
    ensures IsKnown(kind) <==> kind in MESSAGE_TYPES
  {
    assert MESSAGE_TYPES[0] == 1 && MESSAGE_TYPES[30] == 255;
    assert forall k :: 0 <= k < 6 ==> MESSAGE_TYPES[k] == k + 1;
    assert forall k :: 6 <= k < 10 ==> MESSAGE_TYPES[k] == k + 4;
    assert forall k :: 10 <= k < 18 ==> MESSAGE_TYPES[k] == k + 10;
    assert forall k :: 18 <= k < 30 ==> MESSAGE_TYPES[k] == k + 12;
  }

  /** Type, stream and payload length; the length is narrowed to 32 bits. */
  function HeaderOf(f: Frame): (h: Bytes)
    ensures |h| == HEADER_SIZE
  {
    [f.kind] + Little(4, f.streamId) + Little(4, Wrap32(|f.payload|))
  }

  function Encoded(f: Frame): Bytes {
    HeaderOf(f) + f.payload
  }

  function EncodedAll(fs: seq<Frame>): Bytes {
    if fs == [] then [] else EncodedAll(fs[..|fs|-1]) + Encoded(fs[|fs|-1])
  }

  /** Buffers end to end. */
  function Flat(bufs: seq<Bytes>): Bytes {
    if bufs == [] then [] else Flat(bufs[..|bufs|-1]) + bufs[|bufs|-1]
  }

  // ----- Sending -----

  method EncodeHeader(f: Frame) returns (r: Result<Bytes>)
    ensures r == if IsKnown(f.kind) then Ok(HeaderOf(f)) else Err("refusing to send corrupted frame")
  {
    if !IsKnown(f.kind) {
      return Err("refusing to send corrupted frame");
    }
    var h := [f.kind];
    h := AppendU32(h, f.streamId);
    h := AppendU32(h, Wrap32(|f.payload|));
    return Ok(h);
  }

  lemma EndToEnd(out: Bytes, a: Bytes, b: Bytes, c: Bytes, d: Bytes)
    ensures out + a + b + c + d == out + (a + b + c + d)
  {
  }

  method AppendEncodedFrame(out: Bytes, f: Frame) returns (r: Bytes)
    ensures r == out + Encoded(f)
  {
    hide Little;
    EndToEnd(out, [f.kind], Little(4, f.streamId), Little(4, Wrap32(|f.payload|)), f.payload);
    r := out + [f.kind];
    r := AppendU32(r, f.streamId);
    r := AppendU32(r, Wrap32(|f.payload|));
    if f.payload != [] {
      r := r + f.payload;
    }
  }

  /** A connected socket. Writes take any positive part of what is offered, reads deliver any positive
      part of what is asked for; a sound socket fails only when the other side has no more to give. */
  class Socket {
    const sound: bool
    var wire: Bytes
    const incoming: Bytes
    var pos: nat

    ghost predicate Valid()
      reads this
    {
      pos <= |incoming|
    }

    constructor (incoming: Bytes, sound: bool)
      ensures Valid() && wire == [] && pos == 0 && this.incoming == incoming && this.sound == sound
    {
      this.incoming, this.sound, wire, pos := incoming, sound, [], 0;
    }

    method Writev(bufs: seq<Bytes>) returns (sent: int)
      requires Flat(bufs) != []
      modifies this`wire
      ensures sent <= |Flat(bufs)| && (sound ==> sent > 0)
      ensures wire == old(wire) + if sent > 0 then Flat(bufs)[..sent] else []
    {
      var all := Flat(bufs);
      sent :| -1 <= sent <= |all| && (sound ==> sent > 0);
      wire := wire + if sent > 0 then all[..sent] else [];
    }

    method Recv(maxLen: nat) returns (data: Bytes, received: int)
      requires Valid() && maxLen > 0
      modifies this`pos
      ensures Valid() && received <= maxLen && (sound && old(pos) < |incoming| ==> received > 0)
      ensures if received > 0 then pos == old(pos) + received && data == incoming[old(pos)..pos]
              else pos == old(pos) && data == []
    {
      var most := Min(maxLen, |incoming| - pos);
      received :| -1 <= received <= most && (sound && pos < |incoming| ==> received > 0);
      if received > 0 {
        data := incoming[pos..pos + received];
        pos := pos + received;
      } else {
        data := [];
      }
    }
  }

  lemma {:induction false} FlatSplit(a: seq<Bytes>, b: seq<Bytes>)
    ensures Flat(a + b) == Flat(a) + Flat(b)
  {
    if b == [] {
      assert a + b == a;
    } else {
      FlatSplit(a, b[..|b|-1]);
      assert (a + b)[..|a + b|-1] == a + b[..|b|-1];
    }
  }

  lemma FlatHead(bufs: seq<Bytes>)
    requires bufs != []
    ensures Flat(bufs) == bufs[0] + Flat(bufs[1..])
  {
    var one := [bufs[0]];
    assert bufs == one + bufs[1..] && one[..0] == [];
    FlatSplit(one, bufs[1..]);
  }

  lemma FlatPush(bufs: seq<Bytes>, b: Bytes)
    ensures Flat(bufs + [b]) == Flat(bufs) + b
  {
    assert (bufs + [b])[..|bufs|] == bufs;
  }

  ghost predicate NonEmpty(bufs: seq<Bytes>) {
    forall i :: 0 <= i < |bufs| ==> bufs[i] != []
  }

  lemma FlatNonEmpty(bufs: seq<Bytes>)
    requires NonEmpty(bufs) && bufs != []
    ensures Flat(bufs) != []
  {
    FlatHead(bufs);
  }

  /** Drops what was sent: whole buffers, then the sent part of the next. */
  method Consume(pending: seq<Bytes>, cursor: nat, sent: nat) returns (rest: seq<Bytes>, next: nat)
    requires cursor <= |pending| && NonEmpty(pending) && sent <= |Flat(pending[cursor..])|
    ensures |rest| == |pending| && cursor <= next <= |rest| && NonEmpty(rest)
    ensures Flat(rest[next..]) == Flat(pending[cursor..])[sent..]
  {
    rest, next := pending, cursor;
    var consumed := sent;
    while next < |rest| && consumed >= |rest[next]|
      invariant cursor <= next <= |rest| && rest == pending && 0 <= consumed <= |Flat(rest[next..])|
      invariant Flat(rest[next..])[consumed..] == Flat(pending[cursor..])[sent..]
      decreases |rest| - next
    {
      FlatHead(rest[next..]);
      assert rest[next..][1..] == rest[next + 1..];
      consumed := consumed - |rest[next]|;
      next := next + 1;
    }
    if next < |rest| && consumed > 0 {
      FlatHead(rest[next..]);
      assert rest[next..][1..] == rest[next + 1..];
      rest := rest[next := rest[next][consumed..]];
      FlatHead(rest[next..]);
      assert rest[next..][1..] == pending[next + 1..];
    } else {
      assert next == |rest| ==> rest[next..] == [];
    }
  }

  /** Sends every byte of the buffers, in order, however little each write takes. */
  method SendBuffersAll(socket: Socket, buffers: seq<Bytes>, iovLimit: nat) returns (ok: bool)
    requires iovLimit > 0
    modifies socket`wire
    ensures ok ==> socket.wire == old(socket.wire) + Flat(buffers)
    ensures old(socket.wire) <= socket.wire <= old(socket.wire) + Flat(buffers)
    ensures socket.sound ==> ok
  {
    var pending: seq<Bytes>, i := [], 0;
    while i < |buffers|
      invariant 0 <= i <= |buffers| && NonEmpty(pending) && Flat(pending) == Flat(buffers[..i])
      invariant socket.wire == old(socket.wire)
    {
      assert buffers[..i + 1] == buffers[..i] + [buffers[i]];
      FlatPush(buffers[..i], buffers[i]);
      FlatPush(pending, buffers[i]);
      if |buffers[i]| > 0 {
        pending := pending + [buffers[i]];
      }
      i := i + 1;
    }
    assert buffers[..i] == buffers && pending[0..] == pending;
    ok := SendPending(socket, pending, iovLimit);
  }

  method SendPending(socket: Socket, buffers: seq<Bytes>, iovLimit: nat) returns (ok: bool)
    requires iovLimit > 0 && NonEmpty(buffers)
    modifies socket`wire
    ensures ok ==> socket.wire == old(socket.wire) + Flat(buffers)
    ensures old(socket.wire) <= socket.wire <= old(socket.wire) + Flat(buffers)
    ensures socket.sound ==> ok
  {
    var pending, cursor := buffers, 0;
    assert pending[0..] == pending;
    while cursor < |pending|
      invariant cursor <= |pending| && NonEmpty(pending)
      invariant old(socket.wire) <= socket.wire
                && socket.wire + Flat(pending[cursor..]) == old(socket.wire) + Flat(buffers)
      decreases |Flat(pending[cursor..])|, |pending| - cursor
    {
      var n := Min(|pending| - cursor, iovLimit);
      var chunk, after := pending[cursor..cursor + n], pending[cursor + n..];
      assert pending[cursor..] == chunk + after;
      FlatSplit(chunk, after);
      FlatNonEmpty(chunk);
      var sent := socket.Writev(chunk);
      if sent <= 0 {
        return false;
      }
      pending, cursor := Consume(pending, cursor, sent);
    }
    assert pending[cursor..] == [];
    return true;
  }

  ghost predicate AllKnown(fs: seq<Frame>) {
    forall i :: 0 <= i < |fs| ==> IsKnown(fs[i].kind)
  }

  lemma {:induction false} EncodedSplit(a: seq<Frame>, b: seq<Frame>)
    ensures EncodedAll(a + b) == EncodedAll(a) + EncodedAll(b)
  {
    hide Encoded;
    if b == [] {
      assert a + b == a;
    } else {
      EncodedSplit(a, b[..|b|-1]);
      assert (a + b)[..|a + b|-1] == a + b[..|b|-1];
    }
  }

  lemma EncodedPush(fs: seq<Frame>, f: Frame)
    ensures EncodedAll(fs + [f]) == EncodedAll(fs) + Encoded(f)
  {
    assert (fs + [f])[..|fs|] == fs;
  }

  /** One frame's buffers: a header, and its payload if there is one. */
  method GatherOne(buffers: seq<Bytes>, f: Frame) returns (ok: bool, more: seq<Bytes>)
    ensures ok <==> IsKnown(f.kind)
    ensures ok ==> Flat(more) == Flat(buffers) + Encoded(f)
  {
    var header := EncodeHeader(f);
    if header.Err? {
      return false, buffers;
    }
    FlatPush(buffers, header.value);
    more := buffers + [header.value];
    assert Flat(buffers) + Encoded(f) == Flat(more) + f.payload;
    if f.payload != [] {
      FlatPush(more, f.payload);
      more := more + [f.payload];
    }
    ok := true;
  }

  /** The scatter list of a chunk of frames. */
  method GatherBuffers(frames: seq<Frame>) returns (ok: bool, buffers: seq<Bytes>)
    ensures ok <==> AllKnown(frames)
    ensures ok ==> Flat(buffers) == EncodedAll(frames)
  {
    hide Encoded, IsKnown, Flat;
    buffers := [];
    NoBytes();
    assert frames[..0] == [];
    var i := 0;
    while i < |frames|
      invariant 0 <= i <= |frames| && AllKnown(frames[..i]) && Flat(buffers) == EncodedAll(frames[..i])
    {
      assert frames[..i + 1] == frames[..i] + [frames[i]];
      EncodedPush(frames[..i], frames[i]);
      var known;
      known, buffers := GatherOne(buffers, frames[i]);
      if !known {
        return false, [];
      }
      i := i + 1;
    }
    assert frames[..i] == frames;
    ok := true;
  }

  lemma NoBytes()
    ensures Flat([]) == []
  {
  }

  /** One chunk: nothing is sent if a type is unknown. */
  method SendChunk(socket: Socket, chunk: seq<Frame>, iovLimit: nat) returns (ok: bool)
    requires iovLimit > 0
    modifies socket`wire
    ensures ok ==> socket.wire == old(socket.wire) + EncodedAll(chunk) && AllKnown(chunk)
    ensures old(socket.wire) <= socket.wire <= old(socket.wire) + EncodedAll(chunk)
    ensures socket.sound ==> (ok <==> AllKnown(chunk))
  {
    var known, buffers := GatherBuffers(chunk);
    if !known {
      return false;
    }
    ok := SendBuffersAll(socket, buffers, iovLimit);
  }

  lemma ChunkAt(frames: seq<Frame>, offset: nat, count: nat)
    requires offset + count <= |frames|
    ensures var chunk := frames[offset..offset + count];
            && EncodedAll(frames[..offset + count]) == EncodedAll(frames[..offset]) + EncodedAll(chunk)
            && EncodedAll(frames[..offset + count]) <= EncodedAll(frames)
            && (AllKnown(frames[..offset]) && AllKnown(chunk) ==> AllKnown(frames[..offset + count]))
            && (AllKnown(frames) ==> AllKnown(chunk))
  {
    hide EncodedAll, IsKnown;
    var chunk, rest := frames[offset..offset + count], frames[offset + count..];
    assert frames[..offset + count] == frames[..offset] + chunk && frames == frames[..offset + count] + rest;
    EncodedSplit(frames[..offset], chunk);
    EncodedSplit(frames[..offset + count], rest);
  }

  /** Sends the frames in chunks; a frame of unknown type is refused, with its chunk. */
  method SendFrameBatch(socket: Socket, frames: seq<Frame>, iovLimit: nat) returns (ok: bool)
    requires iovLimit > 0
    modifies socket`wire
    ensures ok ==> socket.wire == old(socket.wire) + EncodedAll(frames) && AllKnown(frames)
    ensures old(socket.wire) <= socket.wire <= old(socket.wire) + EncodedAll(frames)
    ensures socket.sound ==> (ok <==> AllKnown(frames))
  {
    hide EncodedAll, AllKnown;
    var offset := 0;
    assert frames[..0] == [];
    NoFrames();
    while offset < |frames|
      invariant 0 <= offset <= |frames| && AllKnown(frames[..offset])
      invariant socket.wire == old(socket.wire) + EncodedAll(frames[..offset])
    {
      var count := Min(FRAME_CHUNK, |frames| - offset);
      ChunkAt(frames, offset, count);
      var sent := SendChunk(socket, frames[offset..offset + count], iovLimit);
      if !sent {
        return false;
      }
      offset := offset + count;
    }
    assert frames[..offset] == frames;
    return true;
  }

  // ----- Receiving -----

  /** The frame at a position of a stream, and where it ends; an unknown type or an absurd length is a
      loss of alignment. */
  function ParseFrame(stream: Bytes, pos: nat): Result<(Frame, nat)> {
    match BytesAt(stream, pos, HEADER_SIZE)
    case Err(e) => Err(e)
    case Ok(h) =>
      var id, len := FromLittle(h[1..5]), FromLittle(h[5..9]);
      if !IsKnown(h[0]) || len > MAX_PAYLOAD then Err("desync")
      else
        match BytesAt(stream, pos + HEADER_SIZE, len)
        case Err(e) => Err(e)
        case Ok(payload) => Ok((Frame(h[0], U32Of(h[1..5]), payload), pos + HEADER_SIZE + len))
  }

  method RecvAll(socket: Socket, len: nat) returns (r: Result<Bytes>)
    requires socket.Valid()
    modifies socket`pos
    ensures socket.Valid() && old(socket.pos) <= socket.pos
    ensures r.Ok? ==> socket.pos == old(socket.pos) + len && r.value == socket.incoming[old(socket.pos)..socket.pos]
    ensures socket.sound ==> (r.Ok? <==> old(socket.pos) + len <= |socket.incoming|)
  {
    var data: Bytes := [];
    while |data| < len
      invariant |data| <= len && socket.Valid() && socket.pos == old(socket.pos) + |data|
      invariant data == socket.incoming[old(socket.pos)..socket.pos]
      decreases len - |data|
    {
      var part, received := socket.Recv(len - |data|);
      if received <= 0 {
        return Err("recv failed");
      }
      data := data + part;
    }
    return Ok(data);
  }

  method RecvFrame(socket: Socket) returns (r: Result<Frame>)
    requires socket.Valid()
    modifies socket`pos
    ensures socket.Valid()
    ensures r.Ok? ==> ParseFrame(socket.incoming, old(socket.pos)) == Ok((r.value, socket.pos))
    ensures socket.sound ==> (r.Ok? <==> ParseFrame(socket.incoming, old(socket.pos)).Ok?)
  {
    var header := RecvAll(socket, HEADER_SIZE);
    if header.Err? {
      return Err(header.error);
    }
    var h := header.value;
    assert BytesAt(socket.incoming, old(socket.pos), HEADER_SIZE) == Ok(h);
    var id, len := FromLittle(h[1..5]), FromLittle(h[5..9]);
    if !IsKnown(h[0]) || len > MAX_PAYLOAD {
      return Err("desync");
    }
    var payload := [];
    if len > 0 {
      var p := RecvAll(socket, len);
      if p.Err? {
        return Err(p.error);
      }
      payload := p.value;
    }
    assert socket.incoming[old(socket.pos) + HEADER_SIZE..old(socket.pos) + HEADER_SIZE + len] == payload;
    return Ok(Frame(h[0], U32Of(h[1..5]), payload));
  }

  /** n frames in a row. */
  function ParseFrames(stream: Bytes, pos: nat, n: nat): Result<(seq<Frame>, nat)>
    decreases n
  {
    if n == 0 then Ok(([], pos))
    else
      match ParseFrame(stream, pos)
      case Err(e) => Err(e)
      case Ok((f, q)) => Prepended([f], ParseFrames(stream, q, n - 1))
  }

  function Prepended(fs: seq<Frame>, r: Result<(seq<Frame>, nat)>): Result<(seq<Frame>, nat)> {
    match r
    case Err(e) => Err(e)
    case Ok((more, q)) => Ok((fs + more, q))
  }

  lemma PrependNone(r: Result<(seq<Frame>, nat)>)
    ensures Prepended([], r) == r
  {
    if r.Ok? {
      assert [] + r.value.0 == r.value.0;
    }
  }

  lemma PrependTwice(a: seq<Frame>, b: seq<Frame>, r: Result<(seq<Frame>, nat)>)
    ensures Prepended(a, Prepended(b, r)) == Prepended(a + b, r)
  {
    if r.Ok? {
      assert a + (b + r.value.0) == a + b + r.value.0;
    }
  }

  /** Receives n frames, or stops at the first that cannot be had. */
  method RecvFrames(socket: Socket, n: nat) returns (ok: bool, fs: seq<Frame>)
    requires socket.Valid()
    modifies socket`pos
    ensures socket.Valid()
    ensures ok ==> ParseFrames(socket.incoming, old(socket.pos), n) == Ok((fs, socket.pos))
    ensures socket.sound ==> (ok <==> ParseFrames(socket.incoming, old(socket.pos), n).Ok?)
  {
    hide ParseFrame, Prepended;
    fs := [];
    var i := 0;
    PrependNone(ParseFrames(socket.incoming, socket.pos, n));
    while i < n
      invariant i <= n && socket.Valid()
      invariant ParseFrames(socket.incoming, old(socket.pos), n)
                == Prepended(fs, ParseFrames(socket.incoming, socket.pos, n - i))
    {
      ghost var q := socket.pos;
      var r := RecvFrame(socket);
      if r.Err? {
        PrependFails(fs, ParseFrames(socket.incoming, q, n - i));
        return false, fs;
      }
      PrependTwice(fs, [r.value], ParseFrames(socket.incoming, socket.pos, n - i - 1));
      fs := fs + [r.value];
      i := i + 1;
    }
    PrependLast(fs, socket.pos);
    ok := true;
  }

  lemma PrependLast(fs: seq<Frame>, q: nat)
    ensures Prepended(fs, Ok(([], q))) == Ok((fs, q))
  {
    assert fs + [] == fs;
  }

  lemma PrependFails(fs: seq<Frame>, r: Result<(seq<Frame>, nat)>)
    ensures Prepended(fs, r).Ok? <==> r.Ok?
  {
  }

  // ----- Round trips -----

  lemma SliceBetween(a: Bytes, b: Bytes, c: Bytes)
    ensures (a + b + c)[|a|..|a| + |b|] == b
  {
  }

  lemma HeaderFields(f: Frame)
    ensures var h := HeaderOf(f);
            h[0] == f.kind && h[1..5] == Little(4, f.streamId) && h[5..9] == Little(4, Wrap32(|f.payload|))
  {
    var kind, id, len := [f.kind], Little(4, f.streamId), Little(4, Wrap32(|f.payload|));
    SliceBetween(kind, id, len);
    SliceBetween(kind + id, len, []);
    assert kind + id + len + [] == kind + id + len;
  }

  /** Where header and payload lie in the stream. */
  lemma FrameBytes(before: Bytes, f: Frame, after: Bytes)
    ensures var stream, p := before + Encoded(f) + after, |before|;
            && p + HEADER_SIZE + |f.payload| <= |stream|
            && stream[p..p + HEADER_SIZE] == HeaderOf(f)
            && stream[p + HEADER_SIZE..p + HEADER_SIZE + |f.payload|] == f.payload
  {
    var h := HeaderOf(f);
    hide HeaderOf;
    SliceBetween(before, h, f.payload + after);
    SliceBetween(before + h, f.payload, after);
    assert before + h + (f.payload + after) == before + Encoded(f) + after == before + h + f.payload + after;
  }

  /** The nine bytes of the header; the length is taken modulo 2^32. */
  lemma HeaderLayout(f: Frame)
    ensures var id, len := f.streamId, |f.payload| % 0x1_0000_0000;
            HeaderOf(f) == [f.kind, id % 256, id / 0x100 % 256, id / 0x1_0000 % 256, id / 0x100_0000 % 256,
                            len % 256, len / 0x100 % 256, len / 0x1_0000 % 256, len / 0x100_0000 % 256]
  {
    LowestFirst(f.streamId);
    LowestFirst(Wrap32(|f.payload|));
  }

  /** One frame survives the wire, whatever comes before and after it, exactly when it is of one of the types of
      the protocol and its payload is at most 2^30 bytes. */
  lemma FrameRoundTrip(before: Bytes, f: Frame, after: Bytes)
    ensures ParseFrame(before + Encoded(f) + after, |before|) == Ok((f, |before| + |Encoded(f)|))
            <==> f.kind in MESSAGE_TYPES && |f.payload| <= 0x4000_0000
  {
    KnownAreTypes(f.kind);
    hide HeaderOf;
    Bounds();
    NumberRoundTrip(4, f.streamId);
    NumberRoundTrip(4, Wrap32(|f.payload|));
    HeaderFields(f);
    FrameBytes(before, f, after);
  }

  ghost predicate Sendable(fs: seq<Frame>) {
    AllKnown(fs) && forall i :: 0 <= i < |fs| ==> |fs[i].payload| <= MAX_PAYLOAD
  }

  /** A list of frames comes back as it was sent. */
  lemma {:induction false} FramesRoundTrip(before: Bytes, fs: seq<Frame>, after: Bytes)
    requires Sendable(fs)
    ensures ParseFrames(before + EncodedAll(fs) + after, |before|, |fs|) == Ok((fs, |before| + |EncodedAll(fs)|))
    decreases |fs|
  {
    hide ParseFrame, Encoded, EncodedAll;
    if fs == [] {
      NoFrames();
    } else {
      var f, rest := fs[0], fs[1..];
      assert fs == [f] + rest;
      EncodedSplit([f], rest);
      OneFrame(f);
      var stream := before + EncodedAll(fs) + after;
      assert stream == before + Encoded(f) + (EncodedAll(rest) + after);
      KnownAreTypes(f.kind);
      FrameRoundTrip(before, f, EncodedAll(rest) + after);
      assert stream == (before + Encoded(f)) + EncodedAll(rest) + after;
      FramesRoundTrip(before + Encoded(f), rest, after);
    }
  }

  lemma NoFrames()
    ensures EncodedAll([]) == [] && AllKnown([])
  {
  }

  lemma OneFrame(f: Frame)
    ensures EncodedAll([f]) == Encoded(f)
  {
    var one := [f];
    assert one[..0] == [];
  }

  /** What one end sends is what the other receives, for every pattern of partial writes and reads. */
  method Transfer(frames: seq<Frame>, iovLimit: nat) returns (received: seq<Frame>)
    requires iovLimit > 0 && Sendable(frames)
    ensures received == frames
  {
    var sender := new Socket([], true);
    var sent := SendFrameBatch(sender, frames, iovLimit);
    var receiver := new Socket(sender.wire, true);
    assert sender.wire == [] + EncodedAll(frames) + [];
    FramesRoundTrip([], frames, []);
    var ok, got := RecvFrames(receiver, |frames|);
    received := got;
  }
}
