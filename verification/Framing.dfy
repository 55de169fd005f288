/**
 * The TCP framing of internal/gateway/transport_gnet.go (Write) and internal/gateway/gnet_handler.go
 * (OnTraffic): a 4-byte big-endian length before each payload, decoded as bytes arrive.
 */
module Framing {

  newtype Byte = x: int | 0 <= x < 256
  type Bytes = seq<Byte>

  const HEADER: nat := 4
  const UINT32: nat := 0x1_0000_0000

  /** binary.BigEndian.PutUint32 of uint32(n): only the low 32 bits of the length survive. */
  function Header(n: nat): (h: Bytes)
    ensures |h| == HEADER
  {
    [(n / 0x100_0000 % 256) as Byte, (n / 0x1_0000 % 256) as Byte, (n / 0x100 % 256) as Byte, (n % 256) as Byte]
  }

  function Length(h: Bytes): (n: nat)
    requires |h| == HEADER
    ensures n < UINT32
  {
    h[0] as nat * 0x100_0000 + h[1] as nat * 0x1_0000 + h[2] as nat * 0x100 + h[3] as nat
  }

  lemma ByteShifts(n: nat)
    ensures n / 0x1_0000 == n / 0x100 / 0x100
    ensures n / 0x100_0000 == n / 0x1_0000 / 0x100
  {
  }

  lemma LowWord(n: nat, high: nat, low: nat)
    requires n == high * UINT32 + low && low < UINT32
    ensures n % UINT32 == low
  {
  }

  lemma HeaderLength(n: nat)
    ensures Length(Header(n)) == n % UINT32
  {
    var a, b, c := n / 0x100, n / 0x1_0000, n / 0x100_0000;
    ByteShifts(n);
    assert n == a * 0x100 + n % 256 && a == b * 0x100 + a % 256;
    assert b == c * 0x100 + b % 256 && c == c / 256 * 256 + c % 256;
    LowWord(n, c / 256, Length(Header(n)));
  }

  /** The length is big-endian: the byte sent first weighs most. */
  lemma HeaderBytes(n: nat, a: Byte, b: Byte, c: Byte, d: Byte)
    ensures n < 0x100 ==> Header(n) == [0, 0, 0, n as Byte]
    ensures Length([a, b, c, d]) == 16777216 * a as nat + 65536 * b as nat + 256 * c as nat + d as nat
    ensures Header(16777216 * a as nat + 65536 * b as nat + 256 * c as nat + d as nat) == [a, b, c, d]
  {
    if n < 0x100 { assert n / 0x100_0000 == 0 && n / 0x1_0000 == 0 && n / 0x100 == 0; }
    BigEndian(a, b, c, d);
  }

  lemma BigEndian(a: Byte, b: Byte, c: Byte, d: Byte)
    ensures Header(16777216 * a as nat + 65536 * b as nat + 256 * c as nat + d as nat) == [a, b, c, d]
  {
    var n: nat := 16777216 * a as nat + 65536 * b as nat + 256 * c as nat + d as nat;
    assert n / 0x100 == 65536 * a as nat + 256 * b as nat + c as nat;
    assert n / 0x1_0000 == 256 * a as nat + b as nat;
    assert n / 0x100_0000 == a as nat;
  }

  function Frame(p: Bytes): Bytes { Header(|p|) + p }

  function Stream(ps: seq<Bytes>): Bytes {
    if ps == [] then [] else Frame(ps[0]) + Stream(ps[1..])
  }

  /** The frames handed out, the bytes left over, and whether the connection was closed for an oversize header. */
  datatype Decoded = Decoded(frames: seq<Bytes>, rest: Bytes, closed: bool)

  function Drain(buf: Bytes, max: nat): Decoded
    decreases |buf|
  {
    if |buf| < HEADER then Decoded([], buf, false)
    else
      var n := Length(buf[..HEADER]);
      if n > max then Decoded([], buf, true)
      else if |buf| < HEADER + n then Decoded([], buf, false)
      else
        var d := Drain(buf[HEADER + n..], max);
        Decoded([buf[HEADER..HEADER + n]] + d.frames, d.rest, d.closed)
  }

  /** Decoding goes on with `b` where it stopped after `a`. */
  function Resume(d: Decoded, b: Bytes, max: nat): Decoded {
    if d.closed then Decoded(d.frames, d.rest + b, true)
    else
      var e := Drain(d.rest + b, max);
      Decoded(d.frames + e.frames, e.rest, e.closed)
  }

  function Prepend(p: Bytes, d: Decoded): Decoded { Decoded([p] + d.frames, d.rest, d.closed) }

  /** A complete frame at the front is handed out and decoding goes on behind it. */
  lemma DrainFrame(head: Bytes, p: Bytes, more: Bytes, max: nat)
    requires |head| == HEADER && Length(head) == |p| <= max
    ensures Drain(head + p + more, max) == Prepend(p, Drain(more, max))
  {
    var buf := head + p + more;
    assert buf[..HEADER] == head;
    assert buf[HEADER..HEADER + |p|] == p;
    assert buf[HEADER + |p|..] == more;
  }

  predicate Complete(buf: Bytes, max: nat) {
    |buf| >= HEADER && Length(buf[..HEADER]) <= max && |buf| >= HEADER + Length(buf[..HEADER])
  }

  lemma AppendToPart(a: Bytes, b: Bytes, max: nat)
    requires !Complete(a, max)
    ensures Drain(a + b, max) == Resume(Drain(a, max), b, max)
  {
    if |a| >= HEADER {
      assert (a + b)[..HEADER] == a[..HEADER];
    }
    assert [] + Drain(a + b, max).frames == Drain(a + b, max).frames;
  }

  /** Where the bytes are cut does not matter, for any bytes at all. */
  lemma {:induction false} DrainAppend(a: Bytes, b: Bytes, max: nat)
    ensures Drain(a + b, max) == Resume(Drain(a, max), b, max)
    decreases |a|
  {
    if !Complete(a, max) {
      AppendToPart(a, b, max);
    } else {
      var n := Length(a[..HEADER]);
      DrainAppend(a[HEADER + n..], b, max);
      AppendBehind(a[..HEADER], a[HEADER..HEADER + n], a[HEADER + n..], b, max);
      assert a == a[..HEADER] + a[HEADER..HEADER + n] + a[HEADER + n..];
    }
  }

  lemma AppendBehind(head: Bytes, p: Bytes, more: Bytes, b: Bytes, max: nat)
    requires |head| == HEADER && Length(head) == |p| <= max
    requires Drain(more + b, max) == Resume(Drain(more, max), b, max)
    ensures Drain(head + p + more + b, max) == Resume(Drain(head + p + more, max), b, max)
  {
    DrainFrame(head, p, more, max);
    BehindFrame(head, p, more, b, max);
    PrependResume(p, Drain(more, max), b, max);
  }

  lemma BehindFrame(head: Bytes, p: Bytes, more: Bytes, b: Bytes, max: nat)
    requires |head| == HEADER && Length(head) == |p| <= max
    ensures Drain(head + p + more + b, max) == Prepend(p, Drain(more + b, max))
  {
    var front := head + p;
    assert front + more + b == front + (more + b);
    DrainFrame(head, p, more + b, max);
  }

  lemma PrependResume(p: Bytes, d: Decoded, b: Bytes, max: nat)
    ensures Resume(Prepend(p, d), b, max) == Prepend(p, Resume(d, b, max))
  {
  }

  // ---- a connection fed chunk by chunk ---------------------------------------------------------

  /** OnTraffic after `chunk` arrives; a closed connection hands out nothing more. */
  function Receive(c: Decoded, chunk: Bytes, max: nat): Decoded {
    if c.closed then c
    else
      var e := Drain(c.rest + chunk, max);
      Decoded(c.frames + e.frames, e.rest, e.closed)
  }

  function ReceiveAll(chunks: seq<Bytes>, max: nat): Decoded {
    if chunks == [] then Decoded([], [], false)
    else Receive(ReceiveAll(chunks[..|chunks| - 1], max), chunks[|chunks| - 1], max)
  }

  function Concat(chunks: seq<Bytes>): Bytes {
    if chunks == [] then [] else Concat(chunks[..|chunks| - 1]) + chunks[|chunks| - 1]
  }

  /** Chunked decoding hands out what decoding the whole stream at once would. */
  lemma {:induction false} ChunkingIsInvisible(chunks: seq<Bytes>, max: nat)
    ensures var c, d := ReceiveAll(chunks, max), Drain(Concat(chunks), max);
            c.frames == d.frames && c.closed == d.closed && (!d.closed ==> c.rest == d.rest)
  {
    if chunks != [] {
      var front, last := chunks[..|chunks| - 1], chunks[|chunks| - 1];
      ChunkingIsInvisible(front, max);
      DrainAppend(Concat(front), last, max);
    }
  }

  function After(ps: seq<Bytes>, d: Decoded): Decoded { Decoded(ps + d.frames, d.rest, d.closed) }

  lemma DrainOneMore(p: Bytes, ps: seq<Bytes>, buf: Bytes, d: Decoded, max: nat)
    requires |p| <= max < UINT32 && Drain(buf, max) == After(ps, d)
    ensures Drain(Frame(p) + buf, max) == After([p] + ps, d)
  {
    DrainWritten(p, buf, max);
    assert [p] + ps + d.frames == [p] + (ps + d.frames);
  }

  lemma StreamHead(ps: seq<Bytes>, tail: Bytes)
    requires ps != []
    ensures Stream(ps) + tail == Frame(ps[0]) + (Stream(ps[1..]) + tail)
  {
  }

  lemma {:induction false} DrainStream(ps: seq<Bytes>, tail: Bytes, max: nat)
    requires max < UINT32 && forall p | p in ps :: |p| <= max
    ensures Drain(Stream(ps) + tail, max) == After(ps, Drain(tail, max))
  {
    if ps == [] {
      assert Stream(ps) + tail == tail;
      assert ps + Drain(tail, max).frames == Drain(tail, max).frames;
    } else {
      assert ps[0] in ps;
      DrainStream(ps[1..], tail, max);
      DrainOneMore(ps[0], ps[1..], Stream(ps[1..]) + tail, Drain(tail, max), max);
      StreamHead(ps, tail);
      assert ps == [ps[0]] + ps[1..];
    }
  }

  lemma DrainWritten(p: Bytes, more: Bytes, max: nat)
    requires |p| <= max < UINT32
    ensures Drain(Frame(p) + more, max) == Prepend(p, Drain(more, max))
  {
    HeaderLength(|p|);
    DrainFrame(Header(|p|), p, more, max);
  }

  predicate Incomplete(tail: Bytes, max: nat) {
    |tail| < HEADER || (Length(tail[..HEADER]) <= max && |tail| < HEADER + Length(tail[..HEADER]))
  }

  predicate Oversize(tail: Bytes, max: nat) {
    |tail| >= HEADER && Length(tail[..HEADER]) > max
  }

  /**
   * Frames written by Write, cut anywhere, come out as exactly the payloads in order; an unfinished
   * frame stays buffered, and an oversize header closes the connection with nothing after it handed out.
   */
  lemma StreamRoundTrip(ps: seq<Bytes>, tail: Bytes, chunks: seq<Bytes>, max: nat)
    requires max < UINT32 && forall p | p in ps :: |p| <= max
    requires Concat(chunks) == Stream(ps) + tail
    ensures Incomplete(tail, max) ==> ReceiveAll(chunks, max) == Decoded(ps, tail, false)
    ensures Oversize(tail, max) ==> ReceiveAll(chunks, max).frames == ps && ReceiveAll(chunks, max).closed
  {
    ChunkingIsInvisible(chunks, max);
    DrainStream(ps, tail, max);
    assert ps + [] == ps;
  }

  // ---- what the network library adds --------------------------------------------------------------

  /** What Next(0) returns for an empty frame: no bytes, or everything that is buffered. */
  datatype ZeroRead = Nothing | Everything

  /**
   * A read error other than a short buffer: when the header is peeked at, when the whole frame is, or when the
   * payload is taken with the header already discarded.
   */
  datatype Fault = Fine | HeaderFails | PeekFails | PayloadFails

  function Clean(k: nat): Fault { Fine }

  /** OnTraffic's loop on what is buffered; `faults` says what goes wrong at the k-th frame of this call. */
  function Serve(buf: Bytes, max: nat, zero: ZeroRead, faults: nat -> Fault, k: nat): Decoded
    decreases |buf|
  {
    if faults(k) == HeaderFails then Decoded([], buf, true)
    else if |buf| < HEADER then Decoded([], buf, false)
    else
      var n := Length(buf[..HEADER]);
      if n > max then Decoded([], buf, true)
      else if |buf| < HEADER + n then
        if faults(k) == PeekFails then Decoded([], buf[HEADER..], true) else Decoded([], buf, false)
      else if faults(k) == PayloadFails then Decoded([], buf[HEADER..], true)
      else if n == 0 && zero == Everything then Prepend(buf[HEADER..], Serve([], max, zero, faults, k + 1))
      else Prepend(buf[HEADER..HEADER + n], Serve(buf[HEADER + n..], max, zero, faults, k + 1))
  }

  function Arrive(c: Decoded, chunk: Bytes, max: nat, zero: ZeroRead, faults: nat -> Fault): Decoded {
    if c.closed then c
    else
      var e := Serve(c.rest + chunk, max, zero, faults, 0);
      Decoded(c.frames + e.frames, e.rest, e.closed)
  }

  function ArriveAll(chunks: seq<Bytes>, max: nat, zero: ZeroRead, faults: nat -> nat -> Fault): Decoded {
    if chunks == [] then Decoded([], [], false)
    else
      var last := |chunks| - 1;
      Arrive(ArriveAll(chunks[..last], max, zero, faults), chunks[last], max, zero, faults(last))
  }

  function NoFaults(call: nat): nat -> Fault { Clean }

  /** An empty frame is the last one and nothing is behind it. */
  ghost predicate Settled(d: Decoded) {
    forall i | 0 <= i < |d.frames| && d.frames[i] == [] :: i == |d.frames| - 1 && d.rest == [] && !d.closed
  }

  lemma {:induction false} ServeIsDrain(buf: Bytes, max: nat, zero: ZeroRead, k: nat)
    requires zero == Nothing || Settled(Drain(buf, max))
    ensures Serve(buf, max, zero, Clean, k) == Drain(buf, max)
    decreases |buf|
  {
    if Complete(buf, max) {
      var n := Length(buf[..HEADER]);
      var p, more := buf[HEADER..HEADER + n], buf[HEADER + n..];
      var d, e := Drain(buf, max), Drain(more, max);
      assert d.frames == [p] + e.frames;
      if zero == Everything {
        assert Settled(e) by {
          forall i | 0 <= i < |e.frames| && e.frames[i] == []
            ensures i == |e.frames| - 1 && e.rest == [] && !e.closed
          {
            assert d.frames[i + 1] == e.frames[i];
          }
        }
        if n == 0 {
          assert d.frames[0] == [];
          assert more == [] == buf[HEADER..];
        }
      }
      ServeIsDrain(more, max, zero, k + 1);
    }
  }

  lemma SettledParts(c: Decoded, e: Decoded)
    requires !c.closed && Settled(Decoded(c.frames + e.frames, e.rest, e.closed))
    requires e.frames == [] && e.rest == [] ==> c.rest == []
    ensures Settled(c) && Settled(e)
  {
    var all := c.frames + e.frames;
    forall i | 0 <= i < |e.frames| && e.frames[i] == []
      ensures i == |e.frames| - 1 && e.rest == [] && !e.closed
    {
      assert all[|c.frames| + i] == [];
    }
    forall i | 0 <= i < |c.frames| && c.frames[i] == []
      ensures i == |c.frames| - 1 && c.rest == []
    {
      assert all[i] == [];
    }
  }

  lemma {:induction false} ArriveIsReceive(chunks: seq<Bytes>, max: nat, zero: ZeroRead)
    requires zero == Nothing || Settled(ReceiveAll(chunks, max))
    ensures ArriveAll(chunks, max, zero, NoFaults) == ReceiveAll(chunks, max)
  {
    if chunks != [] {
      var front, last := chunks[..|chunks| - 1], chunks[|chunks| - 1];
      var c := ReceiveAll(front, max);
      if !c.closed {
        var e := Drain(c.rest + last, max);
        if zero == Everything { SettledParts(c, e); }
        ServeIsDrain(c.rest + last, max, zero, 0);
      }
      ArriveIsReceive(front, max, zero);
    }
  }

  /** No payload is empty, except perhaps the last one when nothing follows it. */
  ghost predicate Solid(ps: seq<Bytes>, tail: Bytes) {
    forall i | 0 <= i < |ps| && ps[i] == [] :: i == |ps| - 1 && tail == []
  }

  /** Decoding with the library's empty reads in the way gives back what was written if that does no harm. */
  lemma StreamArrives(ps: seq<Bytes>, tail: Bytes, chunks: seq<Bytes>, max: nat, zero: ZeroRead)
    requires max < UINT32 && forall p | p in ps :: |p| <= max
    requires Concat(chunks) == Stream(ps) + tail && (zero == Nothing || Solid(ps, tail))
    ensures Incomplete(tail, max) ==> ArriveAll(chunks, max, zero, NoFaults) == Decoded(ps, tail, false)
    ensures Oversize(tail, max) ==> ArriveAll(chunks, max, zero, NoFaults).frames == ps && ArriveAll(chunks, max, zero, NoFaults).closed
  {
    StreamRoundTrip(ps, tail, chunks, max);
    if Incomplete(tail, max) || Oversize(tail, max) {
      ArriveIsReceive(chunks, max, zero);
    }
  }

  /** One complete frame at the front, without a fault. */
  lemma ServeFrame(head: Bytes, p: Bytes, more: Bytes, max: nat, zero: ZeroRead, faults: nat -> Fault, k: nat)
    requires |head| == HEADER && Length(head) == |p| <= max && faults(k) in {Fine, PeekFails}
    ensures Serve(head + p + more, max, zero, faults, k) ==
            if p == [] && zero == Everything then Prepend(more, Serve([], max, zero, faults, k + 1))
            else Prepend(p, Serve(more, max, zero, faults, k + 1))
  {
    var buf := head + p + more;
    assert buf[..HEADER] == head;
    assert buf[HEADER..] == p + more;
    assert buf[HEADER..HEADER + |p|] == p;
    assert buf[HEADER + |p|..] == more;
    assert p == [] ==> p + more == more;
  }

  lemma PrependDiffers(p: Bytes, d: Decoded, ps: seq<Bytes>)
    requires ps != [] && (p != ps[0] || d.frames != ps[1..])
    ensures Prepend(p, d).frames != ps
  {
    assert Prepend(p, d).frames[1..] == d.frames;
  }

  lemma ServeWritten(p: Bytes, more: Bytes, max: nat, k: nat)
    requires |p| <= max < UINT32
    ensures Serve(Frame(p) + more, max, Everything, Clean, k) ==
            if p == [] then Prepend(more, Serve([], max, Everything, Clean, k + 1))
            else Prepend(p, Serve(more, max, Everything, Clean, k + 1))
  {
    HeaderLength(|p|);
    ServeFrame(Header(|p|), p, more, max, Everything, Clean, k);
  }

  lemma {:induction false} EmptySwallows(ps: seq<Bytes>, tail: Bytes, max: nat, k: nat)
    requires max < UINT32 && (forall p | p in ps :: |p| <= max) && !Solid(ps, tail)
    ensures Serve(Stream(ps) + tail, max, Everything, Clean, k).frames != ps
  {
    var rest := Stream(ps[1..]) + tail;
    assert ps[0] in ps;
    StreamHead(ps, tail);
    ServeWritten(ps[0], rest, max, k);
    if ps[0] == [] {
      SomethingBehind(ps, tail);
      PrependDiffers(rest, Serve([], max, Everything, Clean, k + 1), ps);
    } else {
      StillNotSolid(ps, tail);
      EmptySwallows(ps[1..], tail, max, k + 1);
      PrependDiffers(ps[0], Serve(rest, max, Everything, Clean, k + 1), ps);
    }
  }

  lemma SomethingBehind(ps: seq<Bytes>, tail: Bytes)
    requires !Solid(ps, tail)
    ensures Stream(ps[1..]) + tail != []
  {
    if tail == [] { assert |ps| > 1; }
  }

  lemma StillNotSolid(ps: seq<Bytes>, tail: Bytes)
    requires !Solid(ps, tail) && ps[0] != []
    ensures !Solid(ps[1..], tail)
  {
    var i :| 0 <= i < |ps| && ps[i] == [] && !(i == |ps| - 1 && tail == []);
    assert ps[1..][i - 1] == [];
  }

  lemma OneChunk(whole: Bytes, max: nat, zero: ZeroRead)
    ensures ArriveAll([whole], max, zero, NoFaults) == Serve(whole, max, zero, Clean, 0)
  {
    var start := Decoded([], [], false);
    assert [whole][..0] == [];
    assert ArriveAll([], max, zero, NoFaults) == start;
    assert start.rest + whole == whole;
    var d := Serve(whole, max, zero, NoFaults(0), 0);
    assert [] + d.frames == d.frames;
  }

  /**
   * Frames written by Write arrive as the payloads in order, however the bytes are cut, if and only if the library
   * reads nothing for an empty frame or no empty payload has anything behind it.
   */
  lemma StreamArrivesIff(ps: seq<Bytes>, tail: Bytes, max: nat, zero: ZeroRead)
    requires max < UINT32 && (forall p | p in ps :: |p| <= max) && Incomplete(tail, max)
    ensures (forall chunks | Concat(chunks) == Stream(ps) + tail :: ArriveAll(chunks, max, zero, NoFaults) == Decoded(ps, tail, false))
            <==> zero == Nothing || Solid(ps, tail)
  {
    if zero == Nothing || Solid(ps, tail) {
      forall chunks | Concat(chunks) == Stream(ps) + tail
        ensures ArriveAll(chunks, max, zero, NoFaults) == Decoded(ps, tail, false)
      {
        StreamArrives(ps, tail, chunks, max, zero);
      }
    } else {
      var whole := Stream(ps) + tail;
      var chunks := [whole];
      assert chunks[..0] == [] && [] + whole == whole;
      assert Concat(chunks) == whole;
      EmptySwallows(ps, tail, max, 0);
      var d := Serve(whole, max, zero, Clean, 0);
      OneChunk(whole, max, zero);
      assert ArriveAll(chunks, max, zero, NoFaults) == d;
    }
  }

  /** The faulty decoder is where the faultless one is, or it has closed after a prefix of its frames. */
  ghost predicate CutShort(c: Decoded, d: Decoded) {
    c == d || (c.closed && c.frames <= d.frames)
  }

  lemma {:induction false} ServeCutShort(buf: Bytes, max: nat, zero: ZeroRead, faults: nat -> Fault, k: nat)
    ensures CutShort(Serve(buf, max, zero, faults, k), Serve(buf, max, zero, Clean, k))
    decreases |buf|
  {
    if faults(k) in {Fine, PeekFails} && Complete(buf, max) {
      var n := Length(buf[..HEADER]);
      var more := if n == 0 && zero == Everything then [] else buf[HEADER + n..];
      ServeCutShort(more, max, zero, faults, k + 1);
    }
  }

  /** Read errors only cut: whatever goes wrong and whenever, the frames handed out are a prefix of the faultless ones. */
  lemma {:induction false} FaultsOnlyCut(chunks: seq<Bytes>, max: nat, zero: ZeroRead, faults: nat -> nat -> Fault)
    ensures CutShort(ArriveAll(chunks, max, zero, faults), ArriveAll(chunks, max, zero, NoFaults))
  {
    if chunks != [] {
      var last := |chunks| - 1;
      FaultsOnlyCut(chunks[..last], max, zero, faults);
      var c, d := ArriveAll(chunks[..last], max, zero, faults), ArriveAll(chunks[..last], max, zero, NoFaults);
      if c == d && !c.closed {
        ServeCutShort(c.rest + chunks[last], max, zero, faults(last), 0);
      }
    }
  }

  /** The same faults, but for one that does not occur. */
  function Mended(faults: nat -> Fault, k: nat): nat -> Fault { (i: nat) => if i == k then Fine else faults(i) }

  lemma {:induction false} ServeLooksAhead(buf: Bytes, max: nat, zero: ZeroRead, f: nat -> Fault, g: nat -> Fault, k: nat)
    requires forall i | i >= k :: f(i) == g(i)
    ensures Serve(buf, max, zero, f, k) == Serve(buf, max, zero, g, k)
    decreases |buf|
  {
    if f(k) in {Fine, PeekFails} && Complete(buf, max) {
      var n := Length(buf[..HEADER]);
      var more := if n == 0 && zero == Everything then [] else buf[HEADER + n..];
      ServeLooksAhead(more, max, zero, f, g, k + 1);
    }
  }

  /**
   * The second Peek's error, tested on the wrong variable, goes unnoticed exactly when the frame is complete; on an
   * incomplete one the header is discarded, the read behind it fails and the connection is closed.
   */
  lemma PeekErrorUnnoticedIff(buf: Bytes, max: nat, zero: ZeroRead, faults: nat -> Fault, k: nat)
    requires |buf| >= HEADER && Length(buf[..HEADER]) <= max && faults(k) == PeekFails
    ensures Serve(buf, max, zero, faults, k) == Serve(buf, max, zero, Mended(faults, k), k) <==> Complete(buf, max)
    ensures !Complete(buf, max) ==> Serve(buf, max, zero, faults, k) == Decoded([], buf[HEADER..], true)
  {
    var mended := Mended(faults, k);
    if Complete(buf, max) {
      MendedSame(buf, max, zero, faults, mended, k);
    } else {
      assert Serve(buf, max, zero, mended, k) == Decoded([], buf, false);
    }
  }

  lemma MendedSame(buf: Bytes, max: nat, zero: ZeroRead, faults: nat -> Fault, mended: nat -> Fault, k: nat)
    requires Complete(buf, max) && faults(k) == PeekFails && mended(k) == Fine && forall i | i > k :: faults(i) == mended(i)
    ensures Serve(buf, max, zero, faults, k) == Serve(buf, max, zero, mended, k)
  {
    var n := Length(buf[..HEADER]);
    ServeLooksAhead(if n == 0 && zero == Everything then [] else buf[HEADER + n..], max, zero, faults, mended, k + 1);
  }

  // ---- the class ----------------------------------------------------------------------------------

  class Conn {
    const maxFrameSize: nat
    const zero: ZeroRead
    var inbound: Bytes
    var handed: seq<Bytes>
    var closed: bool

    ghost function Abs(): Decoded
      reads this
    {
      Decoded(handed, inbound, closed)
    }

    constructor (maxFrameSize: nat, zero: ZeroRead)
      ensures Abs() == Decoded([], [], false) && this.maxFrameSize == maxFrameSize && this.zero == zero
    {
      this.maxFrameSize, this.zero := maxFrameSize, zero;
      inbound, handed, closed := [], [], false;
    }

    /** An error of the second Peek is tested on the wrong variable, so only a short buffer stops there; Next fails instead. */
    method OnTraffic(chunk: Bytes, faults: nat -> Fault)
      modifies this
      ensures Abs() == Arrive(old(Abs()), chunk, maxFrameSize, zero, faults)
    {
      if closed { return; }
      inbound := inbound + chunk;
      ghost var goal := Arrive(old(Abs()), chunk, maxFrameSize, zero, faults);
      var k := 0;
      while true
        invariant !closed && goal == After(handed, Serve(inbound, maxFrameSize, zero, faults, k))
        decreases |inbound|
      {
        assert handed + [] == handed;
        if faults(k) == HeaderFails {
          closed := true;
          return;
        }
        if |inbound| < HEADER { return; }
        var length := Length(inbound[..HEADER]);
        if length > maxFrameSize {
          closed := true;
          return;
        }
        if |inbound| < HEADER + length && faults(k) != PeekFails { return; }
        ghost var buf := inbound;
        inbound := inbound[HEADER..];
        if |inbound| < length || faults(k) == PayloadFails {
          closed := true;
          return;
        }
        var size := if length == 0 && zero == Everything then |inbound| else length;
        var payload := inbound[..size];
        inbound := inbound[size..];
        ServeTurn(handed, buf, payload, inbound, maxFrameSize, zero, faults, k);
        handed := handed + [payload];
        k := k + 1;
      }
    }
  }

  lemma AfterPrepend(handed: seq<Bytes>, p: Bytes, d: Decoded)
    ensures After(handed, Prepend(p, d)) == After(handed + [p], d)
  {
  }

  lemma ServeTurn(handed: seq<Bytes>, buf: Bytes, payload: Bytes, left: Bytes, max: nat, zero: ZeroRead, faults: nat -> Fault, k: nat)
    requires Complete(buf, max) && faults(k) in {Fine, PeekFails}
    requires var n := Length(buf[..HEADER]);
             var size := if n == 0 && zero == Everything then |buf| - HEADER else n;
             payload == buf[HEADER..][..size] && left == buf[HEADER..][size..]
    ensures After(handed, Serve(buf, max, zero, faults, k)) == After(handed + [payload], Serve(left, max, zero, faults, k + 1))
  {
    var n := Length(buf[..HEADER]);
    Parts(buf, n);
    if n == 0 && zero == Everything { assert left == [] && payload == buf[HEADER..]; }
    AfterPrepend(handed, payload, Serve(left, max, zero, faults, k + 1));
  }

  lemma Parts(buf: Bytes, n: nat)
    requires HEADER + n <= |buf|
    ensures buf == buf[..HEADER] + buf[HEADER..HEADER + n] + buf[HEADER + n..]
    ensures buf[HEADER..][..n] == buf[HEADER..HEADER + n] && buf[HEADER..][n..] == buf[HEADER + n..]
  {
  }

  /** Write's frame, assembled in a pooled buffer and copied out. */
  method Write(p: Bytes) returns (frame: Bytes)
    ensures frame == Frame(p)
  {
    var buf: Bytes := [];
    buf := buf + Header(|p|);
    buf := buf + p;
    frame := buf;
  }
}
