/** Length-prefixed frames on the daemon's stdin/stdout (src/bt_daemon.c,
    `recv_frame` and `send_frame`): a 4-byte big-endian (network byte order)
    length, then exactly that many payload bytes. A `read` or `write` may move
    fewer bytes than asked, or fail; how each call behaves is given as a script. */
module Framing {
  import opened Base

  const TwoTo32: nat := 0x1_0000_0000

  // ---------------------------------------------------------------------------
  // network byte order

  /** `htonl`, as the four bytes it puts on the wire. */
  function BE32(n: nat): (b: seq<byte>)
    requires n < TwoTo32
    ensures |b| == 4
  {
    [n / 0x100_0000, n / 0x1_0000 % 0x100, n / 0x100 % 0x100, n % 0x100]
  }

  /** `ntohl` of four bytes read off the wire. */
  function FromBE32(b: seq<byte>): (n: nat)
    requires |b| == 4
    ensures n < TwoTo32
  {
    (b[0] as int) * 0x100_0000 + (b[1] as int) * 0x1_0000 + (b[2] as int) * 0x100 + b[3] as int
  }

  lemma BE32RoundTrip(n: nat)
    requires n < TwoTo32
    ensures FromBE32(BE32(n)) == n
  {
    var b := BE32(n);
    assert n / 0x100 == (n / 0x1_0000) * 0x100 + b[2];
    assert n / 0x1_0000 == (b[0] as int) * 0x100 + b[1] as int;
  }

  lemma FromBE32RoundTrip(b: seq<byte>)
    requires |b| == 4
    ensures BE32(FromBE32(b)) == b
  {
    var n := FromBE32(b);
    var b0, b1, b2, b3: int := b[0], b[1], b[2], b[3];
    assert n == ((b0 * 0x100 + b1) * 0x100 + b2) * 0x100 + b3;
    assert n / 0x100 == (b0 * 0x100 + b1) * 0x100 + b2;
    assert n / 0x1_0000 == b0 * 0x100 + b1;
    assert n / 0x100_0000 == b0;
  }

  // ---------------------------------------------------------------------------
  // reading

  /** How one `read` call behaves: it returns at most `atMost` bytes, or fails. */
  datatype ReadStep = Deliver(atMost: pos) | ReadFails

  /** The input side: the bytes still to come, and how the next reads behave.
      Once the script runs out, every read returns as much as it can. */
  datatype Pipe = Pipe(data: seq<byte>, steps: seq<ReadStep>)

  /** What one `read(fd, buf, n)` returns (-1, 0 at end of input, or a count)
      and which bytes it stored. */
  datatype ReadOut = ReadOut(pipe: Pipe, count: int, bytes: seq<byte>)

  function Read(p: Pipe, n: pos): (r: ReadOut)
    ensures -1 <= r.count <= n
    ensures r.count >= 0 ==> |r.bytes| == r.count
  {
    var rest := if p.steps == [] then [] else p.steps[1..];
    if p.steps != [] && p.steps[0].ReadFails? then ReadOut(Pipe(p.data, rest), -1, [])
    else
      var m := if p.steps == [] then n else p.steps[0].atMost;
      var k := Min(Min(m, n), |p.data|);
      ReadOut(Pipe(p.data[k..], rest), k, p.data[..k])
  }

  /** A read returns 0 only at end of input, and otherwise takes the bytes
      it returns off the front of the input and uses up one step of the script. */
  lemma ReadConsumes(p: Pipe, n: pos)
    ensures var r := Read(p, n);
      && (r.count == 0 <==> p.data == [] && (p.steps == [] || p.steps[0].Deliver?))
      && |r.bytes| <= |p.data|
      && r.bytes == p.data[..|r.bytes|] && r.pipe.data == p.data[|r.bytes|..]
      && r.pipe.steps == if p.steps == [] then [] else p.steps[1..]
  {
  }

  /** The result of the partial-read loop: the input afterwards, and the bytes
      gathered, or `None` when a read returned 0 or -1 first. */
  datatype Gathered = Gathered(pipe: Pipe, bytes: Option<seq<byte>>)

  function Prepend(pre: seq<byte>, g: Gathered): Gathered
  {
    Gathered(g.pipe, if g.bytes.Some? then Some(pre + g.bytes.value) else None)
  }

  lemma PrependNothing(g: Gathered)
    ensures Prepend([], g) == g
  {
    if g.bytes.Some? {
      assert [] + g.bytes.value == g.bytes.value;
    }
  }

  lemma PrependTwice(a: seq<byte>, c: seq<byte>, g: Gathered)
    ensures Prepend(a, Prepend(c, g)) == Prepend(a + c, g)
  {
    if g.bytes.Some? {
      assert a + (c + g.bytes.value) == (a + c) + g.bytes.value;
    }
  }

  /** Reading until exactly `n` bytes have arrived. */
  function ReadExactly(p: Pipe, n: nat): (g: Gathered)
    ensures g.bytes.Some? ==> |g.bytes.value| == n
    decreases n
  {
    if n == 0 then Gathered(p, Some([]))
    else
      var r := Read(p, n);
      if r.count <= 0 then Gathered(r.pipe, None)
      else Prepend(r.bytes, ReadExactly(r.pipe, n - r.count))
  }

  /** What `recv_frame` returns: 1 at end of input, -1 on a bad or short read
      or a failed allocation, 0 with the payload otherwise. */
  datatype Received = Received(rc: int, payload: seq<byte>, pipe: Pipe)

  /** `recv_frame`, as a function of the input. `allocFails` says whether
      `malloc` returns NULL. */
  function RecvSpec(p: Pipe, allocFails: bool): (r: Received)
    ensures r.rc in {-1, 0, 1}
  {
    var h := Read(p, 4);
    if h.count == 0 then Received(1, [], h.pipe)
    else if h.count != 4 then Received(-1, [], h.pipe)
    else if allocFails then Received(-1, [], h.pipe)
    else
      var g := ReadExactly(h.pipe, FromBE32(h.bytes));
      if g.bytes.None? then Received(-1, [], g.pipe)
      else Received(0, g.bytes.value, g.pipe)
  }

  // ---------------------------------------------------------------------------
  // the receive buffer

  /** `malloc(len + 1)` as written: `len` is a `uint32_t`, so the sum is taken
      modulo 2^32 before it widens to `size_t`. */
  function AllocSizeAsWritten(len: nat): (size: nat)
    requires len < TwoTo32
    ensures size < TwoTo32
  {
    (len + 1) % TwoTo32
  }

  /** The length is read off the wire unchecked, so the largest one makes the
      sum wrap: the buffer gets 0 bytes while the loop goes on to store up to
      4294967295 bytes and then the terminator into it. */
  lemma AllocWrapsForLargestLength()
    ensures AllocSizeAsWritten(TwoTo32 - 1) == 0
    ensures exists len :: 0 <= len < TwoTo32 && AllocSizeAsWritten(len) <= len
  {
    assert AllocSizeAsWritten(TwoTo32 - 1) == 0;
  }

  /** The intended allocation: the sum taken in `size_t`, room for every
      payload byte and the terminator. */
  function AllocSize(len: nat): (size: nat)
    requires len < TwoTo32
    ensures size == len + 1 && size > len
  {
    len + 1
  }

  /** `recv_frame` with the allocation corrected: read the prefix, allocate,
      gather the payload in as many reads as it takes, and NUL-terminate it. */
  method RecvFrame(p: Pipe, allocFails: bool) returns (rc: int, buf: array?<byte>, len: nat, rest: Pipe)
    ensures var s := RecvSpec(p, allocFails);
      rc == s.rc && rest == s.pipe &&
      (rc == 0 ==>
         buf != null && fresh(buf) && len == |s.payload| &&
         buf.Length == AllocSize(len) && buf[..len] == s.payload && buf[len] == 0) &&
      (rc != 0 ==> buf == null)
  {
    buf := null;
    len := 0;
    var h := Read(p, 4);
    rest := h.pipe;
    if h.count == 0 {
      return 1, buf, len, rest;
    }
    if h.count != 4 {
      return -1, buf, len, rest;
    }
    len := FromBE32(h.bytes);
    if allocFails {
      return -1, buf, len, rest;
    }
    var b := new byte[AllocSize(len)];
    var ok;
    ok, rest := ReadPayload(b, rest, len);
    if !ok {
      return -1, null, len, rest;
    }
    b[len] := 0;
    buf := b;
    rc := 0;
  }

  /** The loop invariant of the partial-read loop: the bytes gathered so far,
      followed by what reading the remaining `m` bytes from `rest` gives, is
      what reading the whole payload gives. */
  predicate Gathers(got: seq<byte>, rest: Pipe, m: nat, target: Gathered)
  {
    Prepend(got, ReadExactly(rest, m)) == target
  }

  /** One successful read moves its bytes from what is still to gather to what has been gathered. */
  lemma GatherStep(before: seq<byte>, rest: Pipe, n: pos, target: Gathered, after: seq<byte>, next: Pipe, m: nat)
    requires Read(rest, n).count > 0 && Gathers(before, rest, n, target)
    requires after == before + Read(rest, n).bytes && next == Read(rest, n).pipe && m == n - Read(rest, n).count
    ensures Gathers(after, next, m, target)
  {
    var r := Read(rest, n);
    var tail := ReadExactly(r.pipe, n - r.count);
    calc {
      target;
      Prepend(before, ReadExactly(rest, n));
      { assert ReadExactly(rest, n) == Prepend(r.bytes, tail); }
      Prepend(before, Prepend(r.bytes, tail));
      { PrependTwice(before, r.bytes, tail); }
      Prepend(after, tail);
    }
  }

  /** A read that returns 0 or -1 ends the loop with nothing gathered. */
  lemma GatherStop(before: seq<byte>, rest: Pipe, n: pos, target: Gathered)
    requires Read(rest, n).count <= 0 && Gathers(before, rest, n, target)
    ensures target == Gathered(Read(rest, n).pipe, None)
  {
    assert ReadExactly(rest, n) == Gathered(Read(rest, n).pipe, None);
  }

  /** Nothing left to read: the loop has gathered the whole payload. */
  lemma GatherDone(got: seq<byte>, rest: Pipe, target: Gathered)
    requires Gathers(got, rest, 0, target)
    ensures target == Gathered(rest, Some(got))
  {
    assert got + [] == got;
  }

  /** The partial-read loop of `recv_frame`: keep reading into the buffer
      after the bytes already there until `len` have arrived. */
  method ReadPayload(b: array<byte>, p: Pipe, len: nat) returns (ok: bool, rest: Pipe)
    requires len < b.Length
    modifies b
    ensures var g := ReadExactly(p, len);
      rest == g.pipe && (ok <==> g.bytes.Some?) && (ok ==> b[..len] == g.bytes.value)
  {
    ghost var target := ReadExactly(p, len);
    rest := p;
    var readn := 0;
    ghost var got: seq<byte> := [];
    PrependNothing(target);
    while readn < len
      invariant 0 <= readn <= len && |got| == readn
      invariant b[..readn] == got
      invariant Gathers(got, rest, len - readn, target)
      decreases len - readn
    {
      var want := len - readn;
      var r := Read(rest, want);
      if r.count <= 0 {
        GatherStop(got, rest, want, target);
        return false, r.pipe;
      }
      CopyInto(b, readn, r.bytes);
      ghost var before, from := got, rest;
      got, rest, readn := got + r.bytes, r.pipe, readn + r.count;
      GatherStep(before, from, want, target, got, rest, len - readn);
    }
    GatherDone(got, rest, target);
    ok := true;
  }

  /** Where `read(fd, buf + at, ..)` stores what it returns. */
  method CopyInto(b: array<byte>, at: nat, bytes: seq<byte>)
    requires at + |bytes| <= b.Length
    modifies b
    ensures b[..at + |bytes|] == old(b[..at]) + bytes
  {
    forall j | 0 <= j < |bytes| {
      b[at + j] := bytes[j];
    }
  }

  // ---------------------------------------------------------------------------
  // writing

  /** How one `write` call behaves: it takes at most `atMost` bytes, or fails. */
  datatype WriteStep = Accept(atMost: pos) | WriteFails

  /** The output side: the bytes written so far, and how the next writes behave.
      Once the script runs out, every write takes everything. */
  datatype Sink = Sink(out: seq<byte>, steps: seq<WriteStep>)

  datatype WriteOut = WriteOut(sink: Sink, count: int)

  function Write(s: Sink, bytes: seq<byte>): (w: WriteOut)
    requires |bytes| > 0
    ensures -1 <= w.count <= |bytes| && w.count != 0
    ensures w.count > 0 ==> w.sink.out == s.out + bytes[..w.count]
    ensures w.count < 0 ==> w.sink.out == s.out
  {
    var rest := if s.steps == [] then [] else s.steps[1..];
    if s.steps != [] && s.steps[0].WriteFails? then WriteOut(Sink(s.out, rest), -1)
    else
      var k := if s.steps == [] then |bytes| else Min(s.steps[0].atMost, |bytes|);
      WriteOut(Sink(s.out + bytes[..k], rest), k)
  }

  /** The write loop: keep writing the rest until it is all out, or -1 as soon
      as a write returns 0 or less. */
  function WriteAll(s: Sink, bytes: seq<byte>): (r: WriteOut)
    ensures r.count in {-1, 0}
    decreases |bytes|
  {
    if bytes == [] then WriteOut(s, 0)
    else
      var w := Write(s, bytes);
      if w.count <= 0 then WriteOut(w.sink, -1)
      else WriteAll(w.sink, bytes[w.count..])
  }

  /** `send_frame`, as a function of the output: the length cut to 32 bits,
      written in one call that must take all 4 bytes, then the payload. */
  function SendSpec(s: Sink, payload: seq<byte>): (r: WriteOut)
    ensures r.count in {-1, 0}
  {
    var w := Write(s, BE32(|payload| % TwoTo32));
    if w.count != 4 then WriteOut(w.sink, -1)
    else WriteAll(w.sink, payload)
  }

  method SendFrame(s: Sink, payload: seq<byte>) returns (rc: int, after: Sink)
    ensures SendSpec(s, payload) == WriteOut(after, rc)
  {
    var w := Write(s, BE32(|payload| % TwoTo32));
    after := w.sink;
    if w.count != 4 {
      return -1, after;
    }
    var written := 0;
    while written < |payload|
      invariant 0 <= written <= |payload|
      invariant WriteAll(after, payload[written..]) == SendSpec(s, payload)
      decreases |payload| - written
    {
      var x := Write(after, payload[written..]);
      if x.count <= 0 {
        return -1, x.sink;
      }
      assert payload[written..][x.count..] == payload[written + x.count..];
      after := x.sink;
      written := written + x.count;
    }
    rc := 0;
  }

  // ---------------------------------------------------------------------------
  // properties

  predicate ReadsReliable(steps: seq<ReadStep>)
  {
    forall i :: 0 <= i < |steps| ==> steps[i].Deliver?
  }

  predicate WritesReliable(steps: seq<WriteStep>)
  {
    forall i :: 0 <= i < |steps| ==> steps[i].Accept?
  }

  /** With reads that never fail, the loop gathers exactly the next `n` bytes. */
  lemma {:induction false} ReadExactlyReliable(p: Pipe, n: nat)
    requires ReadsReliable(p.steps) && n <= |p.data|
    ensures ReadExactly(p, n).bytes == Some(p.data[..n])
    ensures ReadExactly(p, n).pipe.data == p.data[n..]
    decreases n
  {
    if n > 0 {
      var r := Read(p, n);
      ReliableRead(p, n);
      var k := r.count;
      ReadExactlyReliable(r.pipe, n - k);
      SplitTwice(p.data, k, n);
    }
  }

  /** A read that cannot fail on pending data takes some of it off the front
      and leaves reads that cannot fail. */
  lemma ReliableRead(p: Pipe, n: pos)
    requires ReadsReliable(p.steps) && p.data != []
    ensures var r := Read(p, n);
      && 0 < r.count <= n && r.count <= |p.data|
      && r.bytes == p.data[..r.count] && r.pipe.data == p.data[r.count..]
      && ReadsReliable(r.pipe.steps)
  {
    ReadConsumes(p, n);
    assert p.steps != [] ==> Read(p, n).pipe.steps == p.steps[1..];
  }

  /** Cutting at `k` and then at `n - k` is cutting at `n`. */
  lemma SplitTwice(d: seq<byte>, k: nat, n: nat)
    requires k <= n <= |d|
    ensures d[..n] == d[..k] + d[k..][..n - k] && d[n..] == d[k..][n - k..]
  {
  }

  /** Input that ends inside the payload makes the loop fail. */
  lemma {:induction false} ReadExactlyTruncated(p: Pipe, n: nat)
    requires ReadsReliable(p.steps) && |p.data| < n
    ensures ReadExactly(p, n).bytes.None?
    decreases n
  {
    if p.data != [] {
      var r := Read(p, n);
      ReliableRead(p, n);
      ReadExactlyTruncated(r.pipe, n - r.count);
    }
  }

  /** With writes that never fail, the loop writes all the bytes, in order. */
  lemma {:induction false} WriteAllReliable(s: Sink, bytes: seq<byte>)
    requires WritesReliable(s.steps)
    ensures WriteAll(s, bytes).count == 0
    ensures WriteAll(s, bytes).sink.out == s.out + bytes
    decreases |bytes|
  {
    if bytes != [] {
      var w := Write(s, bytes);
      WriteAllReliable(w.sink, bytes[w.count..]);
      assert bytes == bytes[..w.count] + bytes[w.count..];
    }
  }

  /** With writes that never fail and a prefix that goes out in one call,
      `send_frame` puts exactly the prefix and the payload on the wire. */
  lemma SendReliable(s: Sink, payload: seq<byte>)
    requires |payload| < TwoTo32
    requires WritesReliable(s.steps) && (s.steps == [] || s.steps[0].atMost >= 4)
    ensures SendSpec(s, payload).count == 0
    ensures SendSpec(s, payload).sink.out == s.out + BE32(|payload|) + payload
  {
    var n := |payload|;
    assert n % TwoTo32 == n;
    var w := Write(s, BE32(n));
    PrefixGoesOut(s, BE32(n));
    WriteAllReliable(w.sink, payload);
    assert s.out + BE32(n) + payload == (s.out + BE32(n)) + payload;
  }

  /** A write that cannot fail and takes at least 4 bytes takes all of a 4-byte prefix. */
  lemma PrefixGoesOut(s: Sink, header: seq<byte>)
    requires |header| == 4
    requires WritesReliable(s.steps) && (s.steps == [] || s.steps[0].atMost >= 4)
    ensures var w := Write(s, header);
      w.count == 4 && w.sink.out == s.out + header && WritesReliable(w.sink.steps)
  {
    var w := Write(s, header);
    assert header[..4] == header;
    assert s.steps != [] ==> w.sink.steps == s.steps[1..];
  }

  /** With reads that never fail and a prefix that arrives in one call,
      `recv_frame` takes one whole frame off the front of the input. */
  lemma RecvReliable(payload: seq<byte>, rs: seq<ReadStep>, more: seq<byte>)
    requires |payload| < TwoTo32
    requires ReadsReliable(rs) && (rs == [] || rs[0].atMost >= 4)
    ensures var got := RecvSpec(Pipe(BE32(|payload|) + payload + more, rs), false);
      got.rc == 0 && got.payload == payload && got.pipe.data == more
  {
    var header := BE32(|payload|);
    var h := Read(Pipe(header + payload + more, rs), 4);
    assert h.count == 4;
    assert h.bytes == header by {
      assert (header + payload + more)[..4] == header;
    }
    BE32RoundTrip(|payload|);
    assert h.pipe.data == payload + more;
    ReadExactlyReliable(h.pipe, |payload|);
    assert (payload + more)[..|payload|] == payload;
    assert (payload + more)[|payload|..] == more;
  }

  /** A frame that is sent and then read back delivers the same payload and
      leaves whatever followed it unread, provided no call fails and the
      4-byte prefix moves in one call on each side. */
  lemma FrameRoundTrip(payload: seq<byte>, ws: seq<WriteStep>, rs: seq<ReadStep>, more: seq<byte>)
    requires |payload| < TwoTo32
    requires WritesReliable(ws) && (ws == [] || ws[0].atMost >= 4)
    requires ReadsReliable(rs) && (rs == [] || rs[0].atMost >= 4)
    ensures var sent := SendSpec(Sink([], ws), payload);
      var got := RecvSpec(Pipe(sent.sink.out + more, rs), false);
      sent.count == 0 && got.rc == 0 && got.payload == payload && got.pipe.data == more
  {
    SendReliable(Sink([], ws), payload);
    assert SendSpec(Sink([], ws), payload).sink.out == BE32(|payload|) + payload;
    RecvReliable(payload, rs, more);
  }

  /** End of input before the prefix is reported as 1. */
  lemma EofBeforePrefix(rs: seq<ReadStep>, allocFails: bool)
    requires rs == [] || rs[0].Deliver?
    ensures RecvSpec(Pipe([], rs), allocFails).rc == 1
  {
  }

  /** A prefix read that returns 1 to 3 bytes is an error, and those bytes are gone. */
  lemma ShortPrefix(data: seq<byte>, rs: seq<ReadStep>, allocFails: bool)
    requires 0 < |data| < 4 && ReadsReliable(rs) && (rs == [] || rs[0].atMost >= |data|)
    ensures RecvSpec(Pipe(data, rs), allocFails).rc == -1
    ensures RecvSpec(Pipe(data, rs), allocFails).pipe.data == []
  {
  }

  /** A frame whose payload is cut short by the end of input is an error. */
  lemma TruncatedFrame(header: seq<byte>, body: seq<byte>, rs: seq<ReadStep>)
    requires |header| == 4 && |body| < FromBE32(header)
    requires ReadsReliable(rs) && (rs == [] || rs[0].atMost >= 4)
    ensures RecvSpec(Pipe(header + body, rs), false).rc == -1
  {
    var h := Read(Pipe(header + body, rs), 4);
    assert h.count == 4 && h.bytes == header && h.pipe.data == body;
    ReadExactlyTruncated(h.pipe, FromBE32(header));
  }
}
