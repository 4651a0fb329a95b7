/** Point-to-point send and recv: each tensor travels as an 8-byte header (tag and byte count, both
    32-bit little-endian) followed by its bytes, over a socket that may split any transfer. */
module Frames {
  import opened Common

  type Byte = x: int | 0 <= x < 256

  const I31 := 0x8000_0000

  // ---------------------------------------------------------------- 32-bit words

  /** Four bytes, lowest first. */
  function Word(u: nat): (w: seq<Byte>)
    requires u < U32
    ensures |w| == 4
  {
    [u % 256, u / 0x100 % 256, u / 0x1_0000 % 256, u / 0x100_0000]
  }

  function Unword(w: seq<Byte>): (u: nat)
    requires |w| == 4
    ensures u < U32
  {
    var a: int, b: int, c: int, d: int := w[0], w[1], w[2], w[3];
    a + 0x100 * b + 0x1_0000 * c + 0x100_0000 * d
  }

  lemma WordRoundTrip(u: nat)
    requires u < U32
    ensures Unword(Word(u)) == u
  {
    var a, b := u / 0x100, u / 0x1_0000;
    assert b == a / 0x100 && u / 0x100_0000 == b / 0x100;
  }

  predicate IsTag(tag: int) {
    -I31 <= tag < I31
  }

  function Signed(u: nat): int {
    if u < I31 then u else u - U32
  }

  function Unsigned(tag: int): nat
    requires IsTag(tag)
  {
    if tag >= 0 then tag else tag + U32
  }

  // ---------------------------------------------------------------- frames

  datatype Frame = Frame(tag: int, payload: seq<Byte>)

  /** The byte count is cut to 32 bits, and only that many bytes are sent. */
  function Cut(n: nat): nat {
    n % U32
  }

  function Header(f: Frame): (h: seq<Byte>)
    requires IsTag(f.tag)
    ensures |h| == 8
  {
    Word(Unsigned(f.tag)) + Word(Cut(|f.payload|))
  }

  function Body(f: Frame): seq<Byte> {
    f.payload[..Cut(|f.payload|)]
  }

  predicate Tagged(fs: seq<Frame>) {
    forall i :: 0 <= i < |fs| ==> IsTag(fs[i].tag)
  }

  function Encode(fs: seq<Frame>): seq<Byte>
    requires Tagged(fs)
  {
    if fs == [] then []
    else Header(fs[0]) + Body(fs[0]) + Encode(fs[1..])
  }

  datatype Outcome = Got(payloads: seq<seq<Byte>>) | TagMismatch(at: nat) | SizeMismatch(at: nat) | Starved(at: nat)

  datatype Received = Received(outcome: Outcome, rest: seq<Byte>)

  predicate TagOk(want: int, tag: int) {
    want < 0 || tag == want
  }

  /** What receives for tensors of the given sizes make of a stream: check the tag, then the size,
      then take the payload. */
  function Receive(wire: seq<Byte>, sizes: seq<nat>, want: int, at: nat): Received
    decreases |sizes|
  {
    if sizes == [] then Received(Got([]), wire)
    else if |wire| < 8 then Received(Starved(at), wire)
    else
      var tag, n, body := Signed(Unword(wire[..4])), Unword(wire[4..8]), wire[8..];
      if !TagOk(want, tag) then Received(TagMismatch(at), body)
      else if n != sizes[0] then Received(SizeMismatch(at), body)
      else if |body| < n then Received(Starved(at), body)
      else Extend([body[..n]], Receive(body[n..], sizes[1..], want, at + 1))
  }

  /** A result with earlier payloads put in front. */
  function Extend(got: seq<seq<Byte>>, r: Received): Received {
    if r.outcome.Got? then r.(outcome := Got(got + r.outcome.payloads)) else r
  }

  lemma ExtendMore(got: seq<seq<Byte>>, more: seq<seq<Byte>>, r: Received)
    ensures Extend(got, Extend(more, r)) == Extend(got + more, r)
  {
    if r.outcome.Got? {
      assert got + (more + r.outcome.payloads) == (got + more) + r.outcome.payloads;
    }
  }

  lemma HeaderRoundTrip(f: Frame, tail: seq<Byte>)
    requires IsTag(f.tag)
    ensures Signed(Unword((Header(f) + tail)[..4])) == f.tag
    ensures Unword((Header(f) + tail)[4..8]) == Cut(|f.payload|)
    ensures (Header(f) + tail)[8..] == tail
  {
    var w := Header(f) + tail;
    assert w[..4] == Word(Unsigned(f.tag)) && w[4..8] == Word(Cut(|f.payload|));
    WordRoundTrip(Unsigned(f.tag));
    WordRoundTrip(Cut(|f.payload|));
  }

  predicate Matches(f: Frame, size: nat, want: int) {
    TagOk(want, f.tag) && |f.payload| == size && size < U32
  }

  function Payloads(fs: seq<Frame>): (ps: seq<seq<Byte>>)
    ensures |ps| == |fs| && forall i :: 0 <= i < |fs| ==> ps[i] == fs[i].payload
  {
    seq(|fs|, i requires 0 <= i < |fs| => fs[i].payload)
  }

  lemma EncodeCons(fs: seq<Frame>, tail: seq<Byte>)
    requires Tagged(fs) && fs != []
    ensures Encode(fs) + tail == Header(fs[0]) + (Body(fs[0]) + (Encode(fs[1..]) + tail))
  {
  }

  /** One receive against a stream that starts with a frame. */
  lemma ReceiveFrame(fs: seq<Frame>, sizes: seq<nat>, want: int, tail: seq<Byte>, at: nat)
    requires Tagged(fs) && |sizes| == |fs| > 0
    ensures var f, later := fs[0], Encode(fs[1..]) + tail;
            Receive(Encode(fs) + tail, sizes, want, at) ==
            if !TagOk(want, f.tag) then Received(TagMismatch(at), Body(f) + later)
            else if Cut(|f.payload|) != sizes[0] then Received(SizeMismatch(at), Body(f) + later)
            else Extend([Body(f)], Receive(later, sizes[1..], want, at + 1))
  {
    var f, later, n := fs[0], Encode(fs[1..]) + tail, Cut(|fs[0].payload|);
    EncodeCons(fs, tail);
    HeaderRoundTrip(f, Body(f) + later);
    assert (Body(f) + later)[..n] == Body(f) && (Body(f) + later)[n..] == later;
  }

  /** The receives frame by frame, without the bytes. */
  ghost function Replay(fs: seq<Frame>, sizes: seq<nat>, want: int, tail: seq<Byte>, at: nat): Received
    requires Tagged(fs) && |sizes| == |fs|
    decreases |fs|
  {
    if fs == [] then Received(Got([]), tail)
    else if !TagOk(want, fs[0].tag) then Received(TagMismatch(at), Unread(fs, tail))
    else if Cut(|fs[0].payload|) != sizes[0] then Received(SizeMismatch(at), Unread(fs, tail))
    else Extend([Body(fs[0])], Replay(fs[1..], sizes[1..], want, tail, at + 1))
  }

  /** What a header leaves on the wire: its own payload and everything after it. */
  ghost function Unread(fs: seq<Frame>, tail: seq<Byte>): seq<Byte>
    requires Tagged(fs) && fs != []
  {
    Body(fs[0]) + (Encode(fs[1..]) + tail)
  }

  lemma {:induction false} ReceiveIsReplay(fs: seq<Frame>, sizes: seq<nat>, want: int, tail: seq<Byte>, at: nat)
    requires Tagged(fs) && |sizes| == |fs|
    ensures Receive(Encode(fs) + tail, sizes, want, at) == Replay(fs, sizes, want, tail, at)
    decreases |fs|
  {
    if fs == [] {
      assert Encode(fs) + tail == tail;
    } else {
      ReceiveFrame(fs, sizes, want, tail, at);
      ReceiveIsReplay(fs[1..], sizes[1..], want, tail, at + 1);
    }
  }

  lemma ExtendIs(head: seq<Byte>, want: seq<Byte>, r: Received, rest: seq<seq<Byte>>, tail: seq<Byte>)
    ensures Extend([head], r) == Received(Got([want] + rest), tail) <==> head == want && r == Received(Got(rest), tail)
  {
    if r.outcome.Got? && [head] + r.outcome.payloads == [want] + rest {
      assert head == ([head] + r.outcome.payloads)[0] == want;
      assert r.outcome.payloads == ([head] + r.outcome.payloads)[1..] == ([want] + rest)[1..] == rest;
    }
  }

  lemma {:induction false} ReplayIff(fs: seq<Frame>, sizes: seq<nat>, want: int, tail: seq<Byte>, at: nat)
    requires Tagged(fs) && |sizes| == |fs|
    ensures Replay(fs, sizes, want, tail, at) == Received(Got(Payloads(fs)), tail)
       <==> forall i :: 0 <= i < |fs| ==> Matches(fs[i], sizes[i], want)
    decreases |fs|
  {
    if fs != [] {
      var f, rest := fs[0], fs[1..];
      ReplayIff(rest, sizes[1..], want, tail, at + 1);
      AllMatch(fs, sizes, want);
      assert Payloads(fs) == [f.payload] + Payloads(rest);
      ExtendIs(Body(f), f.payload, Replay(rest, sizes[1..], want, tail, at + 1), Payloads(rest), tail);
      BodyIsAll(f);
    }
  }

  /** The receives recover exactly the payloads that were sent, in order, and consume exactly those
      frames, if and only if every tag and size matches and no tensor reaches 2^32 bytes. */
  lemma RoundTripIff(fs: seq<Frame>, sizes: seq<nat>, want: int, tail: seq<Byte>, at: nat)
    requires Tagged(fs) && |sizes| == |fs|
    ensures Receive(Encode(fs) + tail, sizes, want, at) == Received(Got(Payloads(fs)), tail)
       <==> forall i :: 0 <= i < |fs| ==> Matches(fs[i], sizes[i], want)
  {
    ReceiveIsReplay(fs, sizes, want, tail, at);
    ReplayIff(fs, sizes, want, tail, at);
  }

  lemma BodyIsAll(f: Frame)
    ensures Body(f) == f.payload <==> |f.payload| < U32
  {
    assert |f.payload| < U32 ==> Body(f) == f.payload;
    assert |Body(f)| < U32;
  }

  lemma AllMatch(fs: seq<Frame>, sizes: seq<nat>, want: int)
    requires |fs| == |sizes| > 0
    ensures (forall i :: 0 <= i < |fs| ==> Matches(fs[i], sizes[i], want))
       <==> (Matches(fs[0], sizes[0], want)
             && forall i :: 0 <= i < |fs[1..]| ==> Matches(fs[1..][i], sizes[1..][i], want))
  {
    if Matches(fs[0], sizes[0], want) && forall i :: 0 <= i < |fs[1..]| ==> Matches(fs[1..][i], sizes[1..][i], want) {
      forall i | 0 <= i < |fs| ensures Matches(fs[i], sizes[i], want) {
        if i > 0 { assert Matches(fs[1..][i - 1], sizes[1..][i - 1], want); }
      }
    }
  }

  lemma {:induction false} ReplayStops(fs: seq<Frame>, sizes: seq<nat>, want: int, tail: seq<Byte>, at: nat, bad: nat)
    requires Tagged(fs) && |sizes| == |fs| && bad < |fs|
    requires forall i :: 0 <= i < bad ==> Matches(fs[i], sizes[i], want)
    requires !TagOk(want, fs[bad].tag) || Cut(|fs[bad].payload|) != sizes[bad]
    ensures Replay(fs, sizes, want, tail, at) ==
            Received(if TagOk(want, fs[bad].tag)
                then SizeMismatch(at + bad) else TagMismatch(at + bad), Unread(fs[bad..], tail))
    decreases |fs|
  {
    if bad == 0 {
      assert fs[0..] == fs;
    } else {
      assert Matches(fs[0], sizes[0], want);
      assert forall i :: 0 <= i < bad - 1 ==> fs[1..][i] == fs[i + 1] && sizes[1..][i] == sizes[i + 1];
      ReplayStops(fs[1..], sizes[1..], want, tail, at + 1, bad - 1);
      assert fs[1..][bad - 1..] == fs[bad..];
    }
  }

  /** The first frame that does not match is reported before any byte of its payload is consumed. */
  lemma MismatchStopsEarly(fs: seq<Frame>, sizes: seq<nat>, want: int, tail: seq<Byte>, at: nat, bad: nat)
    requires Tagged(fs) && |sizes| == |fs| && bad < |fs|
    requires forall i :: 0 <= i < bad ==> Matches(fs[i], sizes[i], want)
    requires !TagOk(want, fs[bad].tag) || Cut(|fs[bad].payload|) != sizes[bad]
    ensures Receive(Encode(fs) + tail, sizes, want, at) ==
            Received(if TagOk(want, fs[bad].tag)
                then SizeMismatch(at + bad) else TagMismatch(at + bad), Unread(fs[bad..], tail))
  {
    ReceiveIsReplay(fs, sizes, want, tail, at);
    ReplayStops(fs, sizes, want, tail, at, bad);
  }

  /** The number a sequence of bytes stands for, lowest byte first. */
  function LowFirst(w: seq<Byte>): nat {
    if w == [] then 0 else w[0] as int + 0x100 * LowFirst(w[1..])
  }

  lemma FourBytes(w: seq<Byte>)
    requires |w| == 4
    ensures LowFirst(w) == Unword(w)
  {
    assert LowFirst(w[3..]) == w[3] as int by { assert w[3..][1..] == []; }
    assert LowFirst(w[2..]) == w[2] as int + 0x100 * w[3] as int by { assert w[2..][1..] == w[3..]; }
    assert LowFirst(w[1..]) == w[1] as int + 0x100 * LowFirst(w[2..]) by { assert w[1..][1..] == w[2..]; }
  }

  lemma Bytes(a: nat, b: nat, c: nat, d: nat, u: nat)
    requires a < 256 && b < 256 && c < 256 && d < 256 && u == a + 0x100 * b + 0x1_0000 * c + 0x100_0000 * d
    ensures u % 256 == a && u / 0x100 % 256 == b && u / 0x1_0000 % 256 == c && u / 0x100_0000 == d
  {
    var high := c + 0x100 * d;
    assert u / 0x100 == b + 0x100 * high && u / 0x1_0000 == high;
  }

  lemma WordOf(w: seq<Byte>)
    requires |w| == 4
    ensures LowFirst(w) < U32 && Word(LowFirst(w)) == w
  {
    FourBytes(w);
    Bytes(w[0], w[1], w[2], w[3], Unword(w));
  }

  lemma HeaderWords(f: Frame, front: seq<Byte>, back: seq<Byte>, tag: nat, length: nat)
    requires IsTag(f.tag) && tag == Unsigned(f.tag) && length == Cut(|f.payload|) && tag < U32
    requires front == Word(tag) && back == Word(length)
    ensures Header(f) == front + back
  {
  }

  /** The layout of a header: the tag in two's complement, then the length, each lowest byte first. */
  lemma HeaderLayout(f: Frame, w: seq<Byte>)
    requires IsTag(f.tag) && |w| == 8
    requires LowFirst(w[..4]) == if f.tag >= 0 then f.tag else f.tag + 0x1_0000_0000
    requires LowFirst(w[4..]) == |f.payload|
    ensures Header(f) == w
  {
    var front, back := w[..4], w[4..];
    WordOf(front);
    WordOf(back);
    HeaderWords(f, front, back, LowFirst(front), LowFirst(back));
    assert w == front + back;
  }

  /** Asking for a tag that is not negative and not the frame's is a tag mismatch, whatever the size; asking for
      the frame's own tag, or for a negative one, never is. */
  lemma TagMismatchIff(f: Frame, size: nat, want: int, tail: seq<Byte>, at: nat)
    requires IsTag(f.tag)
    ensures Receive(Encode([f]) + tail, [size], want, at).outcome == TagMismatch(at) <==> want >= 0 && want != f.tag
  {
    var fs, sizes := [f], [size];
    assert fs[1..] == [] && sizes[1..] == [];
    ReceiveFrame(fs, sizes, want, tail, at);
    assert Receive(Encode([]) + tail, [], want, at + 1).outcome.Got?;
  }

  /** With a tag that is accepted, the mismatch reported is of the size, exactly if the frame's length is not the
      size of the tensor. */
  lemma SizeMismatchIff(f: Frame, size: nat, want: int, tail: seq<Byte>, at: nat)
    requires IsTag(f.tag) && (want < 0 || want == f.tag)
    ensures Receive(Encode([f]) + tail, [size], want, at).outcome == SizeMismatch(at) <==> |f.payload| % U32 != size
  {
    var fs, sizes := [f], [size];
    assert fs[1..] == [] && sizes[1..] == [];
    ReceiveFrame(fs, sizes, want, tail, at);
    assert Receive(Encode([]) + tail, [], want, at + 1).outcome.Got?;
  }

  // ---------------------------------------------------------------- the socket

  function FramesOf(tag: int, tensors: seq<seq<Byte>>): (fs: seq<Frame>)
    requires IsTag(tag)
    ensures |fs| == |tensors| && Tagged(fs) && Payloads(fs) == tensors
  {
    seq(|tensors|, i requires 0 <= i < |tensors| => Frame(tag, tensors[i]))
  }

  function Encoded(f: Frame): seq<Byte>
    requires IsTag(f.tag)
  {
    Header(f) + Body(f)
  }

  lemma PrefixStep(start: seq<Byte>, before: seq<Byte>, after: seq<Byte>, all: seq<Byte>, e: seq<Byte>, rest: seq<Byte>)
    requires before + (e + rest) == start + all && start <= before <= after <= before + e
    ensures start <= after <= start + all
    ensures after == before + e ==> after + rest == start + all
  {
    assert (before + e) + rest == start + all;
    assert before + e <= start + all;
  }

  lemma SentOne(start: seq<Byte>, before: seq<Byte>, after: seq<Byte>, all: seq<Byte>, fs: seq<Frame>)
    requires Tagged(fs) && fs != [] && before + Encode(fs) == start + all
    requires start <= before <= after <= before + Encoded(fs[0])
    ensures start <= after <= start + all
    ensures after == before + Encoded(fs[0]) ==> after + Encode(fs[1..]) == start + all
  {
    assert Encode(fs) == Encoded(fs[0]) + Encode(fs[1..]);
    PrefixStep(start, before, after, all, Encoded(fs[0]), Encode(fs[1..]));
  }

  /** Receiving one tensor and then the rest. */
  lemma ReceiveSplit(wire: seq<Byte>, sizes: seq<nat>, want: int, at: nat)
    requires sizes != []
    ensures var first := Receive(wire, sizes[..1], want, at);
            Receive(wire, sizes, want, at) ==
            if first.outcome.Got?
                then Extend(first.outcome.payloads, Receive(first.rest, sizes[1..], want, at + 1)) else first
  {
    assert sizes[..1][0] == sizes[0] && sizes[..1][1..] == [];
    if |wire| >= 8 {
      var n, body := Unword(wire[4..8]), wire[8..];
      if n <= |body| {
        assert [body[..n]] + [] == [body[..n]];
        assert Receive(body[n..], [], want, at + 1) == Received(Got([]), body[n..]);
      }
    }
  }

  /** The bytes that the first `n` receives can consume at most. */
  function Asked(sizes: seq<nat>, n: nat): nat
    requires n <= |sizes|
  {
    if n == 0 then 0 else Asked(sizes, n - 1) + 8 + sizes[n - 1]
  }

  predicate Dropped(before: seq<Byte>, after: seq<Byte>, k: nat) {
    k <= |before| && after == before[k..]
  }

  lemma DroppedTwice(a: seq<Byte>, b: seq<Byte>, c: seq<Byte>, j: nat, k: nat)
    requires Dropped(a, b, j) && Dropped(b, c, k)
    ensures Dropped(a, c, j + k)
  {
  }

  lemma {:induction false} AskedMono(sizes: seq<nat>, i: nat, n: nat)
    requires i <= n <= |sizes|
    ensures Asked(sizes, i) <= Asked(sizes, n)
    decreases n
  {
    if i < n { AskedMono(sizes, i, n - 1); }
  }

  /** What is gone was at the front, and at most `most` bytes. */
  predicate DroppedWithin(before: seq<Byte>, after: seq<Byte>, most: nat) {
    exists k :: 0 <= k <= most && Dropped(before, after, k)
  }

  lemma DroppedNext(a: seq<Byte>, b: seq<Byte>, c: seq<Byte>, sizes: seq<nat>, i: nat, k: nat)
    requires i < |sizes| && DroppedWithin(a, b, Asked(sizes, i)) && Dropped(b, c, k) && k <= 8 + sizes[i]
    ensures DroppedWithin(a, c, Asked(sizes, i + 1)) && DroppedWithin(a, c, Asked(sizes, |sizes|))
  {
    var j :| 0 <= j <= Asked(sizes, i) && Dropped(a, b, j);
    DroppedTwice(a, b, c, j, k);
    AskedMono(sizes, i + 1, |sizes|);
  }

  /** One step of a sequence of receives, given what the first one makes of the stream. */
  lemma ReceiveStep(all: Received, got: seq<seq<Byte>>, wire: seq<Byte>,
                    sizes: seq<nat>, want: int, at: nat, first: Received)
    requires sizes != [] && all == Extend(got, Receive(wire, sizes, want, at))
        && first == Receive(wire, sizes[..1], want, at)
    ensures if first.outcome.Got?
            then all == Extend(got + first.outcome.payloads, Receive(first.rest, sizes[1..], want, at + 1))
            else all == first
  {
    ReceiveSplit(wire, sizes, want, at);
    if first.outcome.Got? {
      ExtendMore(got, first.outcome.payloads, Receive(first.rest, sizes[1..], want, at + 1));
    }
  }

  /** One direction of a connected socket: the bytes written and not read yet. */
  class Socket {
    var wire: seq<Byte>

    constructor ()
      ensures wire == []
    {
      wire := [];
    }

    /** Each call of the system's send takes some of the bytes, or fails. */
    method WriteAll(buf: seq<Byte>) returns (ok: bool)
      modifies this
      ensures ok ==> wire == old(wire) + buf
      ensures old(wire) <= wire <= old(wire) + buf
    {
      var p := 0;
      while p < |buf|
        invariant 0 <= p <= |buf| && wire == old(wire) + buf[..p]
      {
        var n :| n <= |buf| - p;
        if n <= 0 {
          return false;
        }
        assert buf[..p + n] == buf[..p] + buf[p..p + n];
        wire := wire + buf[p..p + n];
        p := p + n;
      }
      assert buf[..p] == buf;
      return true;
    }

    /** Each call of the system's recv gives some of what is there, or fails. */
    method ReadAll(len: nat) returns (ok: bool, data: seq<Byte>)
      modifies this
      ensures old(wire) == data + wire
      ensures ok <==> |data| == len
      ensures |data| <= len
    {
      data := [];
      while |data| < len
        invariant old(wire) == data + wire && |data| <= len
        decreases len - |data|
      {
        var n :| n <= len - |data| && n <= |wire|;
        if n <= 0 {
          return false, data;
        }
        data := data + wire[..n];
        wire := wire[n..];
      }
      return true, data;
    }

    method SendTensor(tag: int, tensor: seq<Byte>) returns (ok: bool)
      requires IsTag(tag)
      modifies this
      ensures ok ==> wire == old(wire) + Encoded(Frame(tag, tensor))
      ensures old(wire) <= wire <= old(wire) + Encoded(Frame(tag, tensor))
    {
      var nbytes := |tensor| % U32;
      ok := WriteAll(Word(Unsigned(tag)) + Word(nbytes));
      if ok {
        ok := WriteAll(tensor[..nbytes]);
      }
    }

    /** `send`: header and payload of every tensor in turn.  A socket that fails has taken a beginning of
        that. */
    method SendTensors(tag: int, tensors: seq<seq<Byte>>) returns (ok: bool)
      requires IsTag(tag)
      modifies this
      ensures ok ==> wire == old(wire) + Encode(FramesOf(tag, tensors))
      ensures old(wire) <= wire <= old(wire) + Encode(FramesOf(tag, tensors))
    {
      ghost var fs := FramesOf(tag, tensors);
      assert fs[0..] == fs;
      for i := 0 to |tensors|
        invariant wire + Encode(fs[i..]) == old(wire) + Encode(fs)
        invariant old(wire) <= wire <= old(wire) + Encode(fs)
      {
        ghost var before := wire;
        assert fs[i..][0] == Frame(tag, tensors[i]) && fs[i..][1..] == fs[i + 1..];
        ok := SendTensor(tag, tensors[i]);
        SentOne(old(wire), before, wire, Encode(fs), fs[i..]);
        if !ok { return; }
      }
      assert fs[|tensors|..] == [] && wire + [] == wire;
      ok := true;
    }

    /** One tensor: the tag is checked before the size, and both before any payload is read. */
    method RecvTensor(want: int, size: nat, at: nat) returns (failed: bool, outcome: Outcome, ghost taken: nat)
      modifies this
      ensures !failed ==> Received(outcome, wire) == Receive(old(wire), [size], want, at)
      ensures Dropped(old(wire), wire, taken) && taken <= 8 + size
    {
      failed, outcome := true, Got([]);
      var ok, hdr := ReadAll(8);
      taken := |hdr|;
      if !ok { return; }
      assert old(wire)[..4] == hdr[..4] && old(wire)[4..8] == hdr[4..8] && old(wire)[8..] == wire;
      if !(want < 0 || Signed(Unword(hdr[..4])) == want) {
        return false, TagMismatch(at), 8;
      }
      var nbytes := Unword(hdr[4..8]);
      if nbytes != size {
        return false, SizeMismatch(at), 8;
      }
      ghost var body := wire;
      var ok2, buf := ReadAll(nbytes);
      taken := 8 + |buf|;
      DroppedTwice(old(wire), body, wire, 8, |buf|);
      if !ok2 { return; }
      assert [size][1..] == [] && [buf] + [] == [buf];
      assert body[..nbytes] == buf && body[nbytes..] == wire;
      return false, Got([buf]), taken;
    }

    /** One tensor of several: what the stream amounts to does not change. */
    method RecvNext(want: int, sizes: seq<nat>, i: nat, ghost all: Received, ghost got: seq<seq<Byte>>,
                    ghost start: seq<Byte>)
      returns (failed: bool, outcome: Outcome)
      requires i < |sizes| && all == Extend(got, Receive(wire, sizes[i..], want, i))
      requires DroppedWithin(start, wire, Asked(sizes, i))
      modifies this
      ensures !failed && outcome.Got? ==>
                all == Extend(got + outcome.payloads, Receive(wire, sizes[i + 1..], want, i + 1))
      ensures !failed && !outcome.Got? ==> all == Received(outcome, wire)
      ensures DroppedWithin(start, wire, Asked(sizes, i + 1)) && DroppedWithin(start, wire, Asked(sizes, |sizes|))
    {
      assert sizes[i..][..1] == [sizes[i]] && sizes[i..][1..] == sizes[i + 1..];
      ghost var taken;
      failed, outcome, taken := RecvTensor(want, sizes[i], i);
      DroppedNext(start, old(wire), wire, sizes, i, taken);
      if !failed {
        ReceiveStep(all, got, old(wire), sizes[i..], want, i, Received(outcome, wire));
      }
    }

    /** `recv`: stops at the first tag or size that does not match.  Unless the socket failed, the
        result and what is left on the wire are those of `Receive`; in any case what is gone was at the
        front of the stream. */
    method RecvTensors(want: int, sizes: seq<nat>) returns (failed: bool, outcome: Outcome)
      modifies this
      ensures !failed ==> Received(outcome, wire) == Receive(old(wire), sizes, want, 0)
      ensures DroppedWithin(old(wire), wire, Asked(sizes, |sizes|))
    {
      var got: seq<seq<Byte>> := [];
      ghost var all := Receive(wire, sizes, want, 0);
      assert sizes[0..] == sizes && Dropped(wire, wire, 0);
      for i := 0 to |sizes|
        invariant all == Extend(got, Receive(wire, sizes[i..], want, i))
        invariant DroppedWithin(old(wire), wire, Asked(sizes, i))
      {
        failed, outcome := RecvNext(want, sizes, i, all, got, old(wire));
        if failed || !outcome.Got? { return; }
        got := got + outcome.payloads;
      }
      return false, Got(got);
    }
  }
}
