/**
 A forward-only window over a sequential byte source. The source delivers its bytes in order, in
 pieces of any length; only at its end does it deliver none.
 */
module SlidingWindow {
  import opened Ints

  /** How many bytes a read of at most maxLen delivers when `left` are left: any number is possible, by the
      choice of pace, but none only at the end. */
  function Delivered(pace: nat -> nat, calls: nat, left: nat, maxLen: nat): (n: nat)
    ensures n <= maxLen && n <= left && (n == 0 ==> maxLen == 0 || left == 0)
  {
    Min(maxLen, Min(left, if pace(calls) == 0 then 1 else pace(calls)))
  }

  /** Where reads of these sizes, one after the other, have got to. */
  function Reached(data: Bytes, sizes: seq<nat>): (at: nat)
    ensures at <= |data|
  {
    if sizes == [] then 0 else Min(Reached(data, sizes[..|sizes|-1]) + sizes[|sizes|-1], |data|)
  }

  /** The data cut into reads of these sizes; past the end there is nothing. */
  function Portions(data: Bytes, sizes: seq<nat>): seq<Bytes> {
    if sizes == [] then []
    else
      var before := sizes[..|sizes|-1];
      Portions(data, before) + [data[Reached(data, before)..Min(Reached(data, before) + sizes[|sizes|-1], |data|)]]
  }

  lemma {:induction false} PortionPushed(data: Bytes, before: seq<nat>, n: nat)
    ensures Reached(data, before + [n]) == Min(Reached(data, before) + n, |data|)
    ensures Portions(data, before + [n])
            == Portions(data, before) + [data[Reached(data, before)..Reached(data, before + [n])]]
  {
    assert (before + [n])[..|before|] == before;
  }

  lemma {:induction false} NextPortion(data: Bytes, sizes: seq<nat>, k: nat, part: Bytes)
    requires k < |sizes|
    requires var at := Reached(data, sizes[..k]); part == data[at..Min(at + sizes[k], |data|)]
    ensures Portions(data, sizes[..k + 1]) == Portions(data, sizes[..k]) + [part]
    ensures Reached(data, sizes[..k + 1]) == Reached(data, sizes[..k]) + |part|
  {
    hide Portions, Reached;
    assert sizes[..k + 1] == sizes[..k] + [sizes[k]];
    PortionPushed(data, sizes[..k], sizes[k]);
  }

  /** Any byte source: the i-th read delivers at most pace(i) bytes (at least one before the end). */
  class ByteSource {
    const data: Bytes
    const pace: nat -> nat
    var pos: nat
    var calls: nat
    /** The sizes it was asked for, and what it delivered. */
    var asked: seq<nat>
    ghost var given: seq<Bytes>

    /** Every read delivers as much as is asked for and there is. */
    ghost predicate Generous() {
      forall i: nat :: pace(i) >= |data|
    }

    ghost predicate Valid()
      reads this
    {
      && pos <= |data|
      && (Generous() ==> given == Portions(data, asked) && pos == Reached(data, asked))
    }

    constructor (data: Bytes, pace: nat -> nat)
      ensures Valid() && this.data == data && this.pace == pace && pos == 0 && calls == 0
      ensures asked == [] && given == []
    {
      this.data, this.pace, pos, calls := data, pace, 0, 0;
      asked, given := [], [];
    }

    method Read(maxLen: nat) returns (chunk: Bytes)
      requires Valid()
      modifies this
      ensures Valid() && pos == old(pos) + |chunk| && chunk == data[old(pos)..pos]
      ensures |chunk| == Delivered(pace, old(calls), |data| - old(pos), maxLen) && calls == old(calls) + 1
      ensures asked == old(asked) + [maxLen] && given == old(given) + [chunk]
    {
      hide Portions, Reached;
      PortionPushed(data, asked, maxLen);
      var n := Delivered(pace, calls, |data| - pos, maxLen);
      chunk := data[pos..pos + n];
      pos, calls := pos + n, calls + 1;
      asked, given := asked + [maxLen], given + [chunk];
    }
  }

  lemma SliceOfSlice(d: Bytes, a: nat, b: nat, i: nat, j: nat)
    requires a <= i <= j <= b <= |d|
    ensures d[a..b][i - a..j - a] == d[i..j]
  {
    var x := d[a..b];
    assert |x[i - a..j - a]| == |d[i..j]|;
    forall k | 0 <= k < j - i ensures x[i - a..j - a][k] == d[i..j][k] {
      assert x[i - a..j - a][k] == x[i - a + k];
    }
  }

  // ----- How much room the buffer takes -----

  /** What a window is fed with: the pace and length of its source, the file size and the chunk. */
  datatype Feed = Feed(pace: nat -> nat, dataLen: nat, total: nat, chunk: nat)

  /** Where the buffer begins, its size, the largest size it was ever resized to, and the reads so far. */
  datatype Room = Room(base: nat, size: nat, peak: nat, calls: nat)

  /** A refill resizes the buffer for at least a chunk, and keeps what the read delivers. */
  function Refilled(feed: Feed, r: Room, deficit: nat): Room {
    var want := if feed.chunk > deficit then feed.chunk else deficit;
    var left := if r.base + r.size < feed.dataLen then feed.dataLen - (r.base + r.size) else 0;
    Room(r.base, r.size + Delivered(feed.pace, r.calls, left, want),
         if r.size + want > r.peak then r.size + want else r.peak, r.calls + 1)
  }

  lemma Delivers(feed: Feed, r: Room, deficit: nat)
    requires deficit > 0 && r.base + r.size < feed.dataLen
    ensures Refilled(feed, r, deficit).size > r.size
  {
  }

  function LoadedRoom(feed: Feed, r: Room, end: nat): Room
    decreases end - (r.base + r.size)
  {
    var goal: nat := Min(end, feed.total);
    if r.base + r.size >= goal then r
    else
      var t := Refilled(feed, r, goal - (r.base + r.size));
      if t.size == r.size then t else LoadedRoom(feed, t, end)
  }

  function AdvancedRoom(feed: Feed, r: Room, p: nat): Room {
    if r.base <= p <= r.base + r.size && p - r.base >= feed.chunk then r.(base := p, size := r.base + r.size - p) else r
  }

  /** Loading keeps what is there, takes at most a chunk beyond the goal, and never lowers the peak. */
  lemma {:induction false} LoadBounds(feed: Feed, r: Room, end: nat)
    requires feed.chunk > 0 && feed.total <= feed.dataLen && r.base + r.size <= feed.dataLen
    ensures var t := LoadedRoom(feed, r, end);
            && t.base == r.base && t.size >= r.size && t.base + t.size <= feed.dataLen
            && t.base + t.size >= Min(end, feed.total)
            && t.peak >= r.peak && (t.peak == r.peak || t.peak < Min(end, feed.total) - r.base + feed.chunk)
    decreases end - (r.base + r.size)
  {
    var goal: nat := Min(end, feed.total);
    if r.base + r.size < goal {
      LoadBounds(feed, Refilled(feed, r, goal - (r.base + r.size)), end);
    }
  }

  class Window {
    const total: nat
    const chunk: nat
    const src: ByteSource
    var buf: Bytes
    var physBase: nat
    /** The largest size the buffer was ever resized to. */
    ghost var peak: nat

    ghost function FedBy(): Feed {
      Feed(src.pace, |src.data|, total, chunk)
    }

    ghost function Taken(): Room
      reads this, src
    {
      Room(physBase, |buf|, peak, src.calls)
    }

    ghost predicate Valid()
      reads this, src
    {
      && src.Valid() && chunk > 0 && total <= |src.data|
      && physBase + |buf| == src.pos && buf == src.data[physBase..src.pos]
    }

    constructor (total: nat, src: ByteSource, chunk: nat)
      requires src.Valid() && src.pos == 0 && total <= |src.data|
      ensures Valid() && this.total == total && this.src == src && physBase == 0 && buf == [] && peak == 0
      ensures this.chunk == if chunk == 0 then 1 else chunk
    {
      this.total, this.src, this.chunk := total, src, if chunk == 0 then 1 else chunk;
      buf, physBase, peak := [], 0, 0;
    }

    /** Bytes up to `off` have been loaded. */
    ghost predicate Loaded(off: nat)
      reads this
    {
      off <= physBase + |buf|
    }

    /** Drop the prefix below p once it has grown to a chunk. */
    method Advance(p: nat)
      requires Valid() && physBase <= p && Loaded(p)
      modifies this`buf, this`physBase
      ensures Valid() && physBase <= p < physBase + chunk && Loaded(p)
      ensures Taken() == AdvancedRoom(FedBy(), old(Taken()), p)
    {
      var drop := p - physBase;
      if drop >= chunk {
        buf := buf[drop..];
        physBase := p;
      }
    }

    /** One refill: room for at least a chunk, of which the read fills what it delivers. */
    method Refill(deficit: nat) returns (got: nat)
      requires Valid() && 0 < deficit <= |src.data| - (physBase + |buf|)
      modifies this`buf, this`peak, src
      ensures Valid() && Taken() == Refilled(FedBy(), old(Taken()), deficit) && |buf| == old(|buf|) + got
    {
      var want := if chunk > deficit then chunk else deficit;
      if |buf| + want > peak {
        peak := |buf| + want;
      }
      ghost var from := src.pos;
      var bytes := src.Read(want);
      assert src.data[physBase..from] + src.data[from..src.pos] == src.data[physBase..src.pos];
      buf := buf + bytes;
      got := |bytes|;
    }

    /** Load up to `end` (at most the file size), in refills of at least a chunk. */
    method LoadTo(end: nat)
      requires Valid()
      modifies this`buf, this`peak, src
      ensures Valid() && Loaded(Min(end, total))
      ensures Taken() == LoadedRoom(FedBy(), old(Taken()), end)
    {
      hide Refilled, Delivered;
      var goal := Min(end, total);
      while physBase + |buf| < goal
        invariant Valid()
        invariant LoadedRoom(FedBy(), Taken(), end) == LoadedRoom(FedBy(), old(Taken()), end)
        decreases goal - (physBase + |buf|)
      {
        ghost var r := Taken();
        var deficit := goal - (physBase + |buf|);
        Delivers(FedBy(), r, deficit);
        var got := Refill(deficit);
        if got == 0 {
          break;
        }
      }
    }

    /** The bytes [p, p+len), which the source must have been able to deliver. */
    method View(p: nat, len: nat) returns (bytes: Bytes)
      requires Valid() && physBase <= p && p + len <= total
      modifies this`buf, this`peak, src
      ensures Valid() && Loaded(p + len) && bytes == src.data[p..p + len]
      ensures Taken() == LoadedRoom(FedBy(), old(Taken()), p + len)
    {
      LoadTo(p + len);
      SliceOfSlice(src.data, physBase, src.pos, p, p + len);
      bytes := buf[p - physBase..p - physBase + len];
    }

    method ByteAt(off: nat) returns (x: u8)
      requires Valid() && physBase <= off < total
      modifies this`buf, this`peak, src
      ensures Valid() && Loaded(off + 1) && x == src.data[off]
      ensures Taken() == LoadedRoom(FedBy(), old(Taken()), off + 1)
    {
      LoadTo(off + 1);
      x := buf[off - physBase];
    }
  }
}
