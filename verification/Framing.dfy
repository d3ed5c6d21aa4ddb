/** Length-prefixed frames over a byte stream that arrives in arbitrary chunks. */
module Framing {
  import opened Base

  type byte = n: int | 0 <= n < 0x100

  type Bytes = seq<byte>

  const TWO_32: nat := 0x1_0000_0000

  // --- four bytes, most significant first ---

  function Be32(n: nat): (s: Bytes)
    requires n < TWO_32
    ensures |s| == 4
  {
    var high, low := n / 0x1_0000, n % 0x1_0000;
    [high / 0x100, high % 0x100, low / 0x100, low % 0x100]
  }

  function FromBe32(s: Bytes): (n: nat)
    requires |s| == 4
    ensures n < TWO_32
  {
    var a: int, b: int, c: int, d: int := s[0], s[1], s[2], s[3];
    (a * 0x100 + b) * 0x1_0000 + (c * 0x100 + d)
  }

  /** The first byte is the most significant one, written and read. */
  lemma Be32Exactly(n: nat, s: Bytes)
    requires n < TWO_32 && |s| == 4
    ensures var a: int, b: int, c: int, d: int := Be32(n)[0], Be32(n)[1], Be32(n)[2], Be32(n)[3];
            16777216 * a + 65536 * b + 256 * c + d == n
    ensures var a: int, b: int, c: int, d: int := s[0], s[1], s[2], s[3];
            FromBe32(s) == 16777216 * a + 65536 * b + 256 * c + d
  {
  }

  lemma Be32RoundTrip(n: nat)
    requires n < TWO_32
    ensures FromBe32(Be32(n)) == n
  {
  }

  // --- frames ---

  /** The header is the length as an unsigned 32-bit number, that is without its higher bits. */
  function Frame(payload: Bytes): (f: Bytes)
    ensures |f| == 4 + |payload|
  {
    Be32(|payload| % TWO_32) + payload
  }

  function Frames(payloads: seq<Bytes>): Bytes {
    if payloads == [] then [] else Frame(payloads[0]) + Frames(payloads[1..])
  }

  ghost predicate Sendable(payloads: seq<Bytes>) {
    forall p | p in payloads :: |p| < TWO_32
  }

  datatype ReadResult = Message(payload: Bytes, rest: Bytes) | End | Broken

  /** One `read_msg` on all bytes still to come: fewer than four of them are the end of the
      stream, a header without its whole body is an error. */
  function ReadFrame(s: Bytes): ReadResult {
    if |s| < 4 then End
    else
      var n := FromBe32(s[..4]);
      if |s| - 4 < n then Broken else Message(s[4..4 + n], s[4 + n..])
  }

  datatype Reading = Reading(messages: seq<Bytes>, broken: bool)

  /** Repeated `read_msg` until it stops. */
  function ReadAll(s: Bytes): Reading
    decreases |s|
  {
    match ReadFrame(s)
    case End => Reading([], false)
    case Broken => Reading([], true)
    case Message(payload, rest) =>
      var later := ReadAll(rest);
      Reading([payload] + later.messages, later.broken)
  }

  /** A frame reads back as its payload exactly when the payload is shorter than 2^32 bytes. */
  lemma FrameReadsExactly(payload: Bytes, rest: Bytes)
    ensures ReadFrame(Frame(payload) + rest) == Message(payload, rest) <==> |payload| < TWO_32
  {
    var s := Frame(payload) + rest;
    var n := |payload| % TWO_32;
    assert s[..4] == Be32(n);
    Be32RoundTrip(n);
    if |payload| < TWO_32 {
      assert n == |payload|;
      assert s[4..4 + n] == payload && s[4 + n..] == rest;
    } else {
      assert n < |payload|;
    }
  }

  lemma {:induction false} ReadAllFirst(payload: Bytes, rest: Bytes)
    requires |payload| < TWO_32
    ensures ReadAll(Frame(payload) + rest) == Reading([payload] + ReadAll(rest).messages, ReadAll(rest).broken)
  {
    FrameReadsExactly(payload, rest);
  }

  lemma {:induction false} FramesReadOn(payloads: seq<Bytes>, rest: Bytes)
    requires Sendable(payloads)
    ensures ReadAll(Frames(payloads) + rest) ==
            Reading(payloads + ReadAll(rest).messages, ReadAll(rest).broken)
  {
    hide ReadAll;
    hide Frame;
    if payloads == [] {
      assert Frames(payloads) + rest == rest && payloads + ReadAll(rest).messages == ReadAll(rest).messages;
    } else {
      var later := Frames(payloads[1..]) + rest;
      FirstThenLater(payloads, rest);
      ReadAllFirst(payloads[0], later);
      FramesReadOn(payloads[1..], rest);
      FirstThenRest(payloads, ReadAll(rest).messages);
    }
  }

  lemma FirstThenLater(payloads: seq<Bytes>, rest: Bytes)
    requires payloads != []
    ensures Frames(payloads) + rest == Frame(payloads[0]) + (Frames(payloads[1..]) + rest)
  {
    hide Frame;
  }

  lemma FirstThenRest(payloads: seq<Bytes>, later: seq<Bytes>)
    requires payloads != []
    ensures [payloads[0]] + (payloads[1..] + later) == payloads + later
  {
  }

  /** The round trip: any list of payloads below 2^32 bytes is read back exactly, then the end. */
  lemma {:induction false} FramesRoundTrip(payloads: seq<Bytes>)
    requires Sendable(payloads)
    ensures ReadAll(Frames(payloads)) == Reading(payloads, false)
  {
    FramesReadOn(payloads, []);
    assert Frames(payloads) + [] == Frames(payloads) && payloads + [] == payloads;
  }

  /** How many whole frames lie within the first `k` bytes. */
  function WholeFrames(payloads: seq<Bytes>, k: nat): (j: nat)
    ensures j <= |payloads|
  {
    if payloads == [] || k < 4 + |payloads[0]| then 0
    else 1 + WholeFrames(payloads[1..], k - 4 - |payloads[0]|)
  }

  /** A stream cut anywhere reads as the frames before the cut, then as the end if the cut leaves
      fewer than four bytes of the next frame, and as an error if it leaves its header. */
  lemma {:induction false} CutStreamReads(payloads: seq<Bytes>, k: nat)
    requires Sendable(payloads) && k <= |Frames(payloads)|
    ensures var j := WholeFrames(payloads, k);
            && |Frames(payloads[..j])| <= k
            && ReadAll(Frames(payloads)[..k]) == Reading(payloads[..j], k - |Frames(payloads[..j])| >= 4)
  {
    hide ReadAll;
    hide Frame;
    if payloads == [] {
      NothingReads();
    } else if k < 4 + |payloads[0]| {
      CutFirstFrame(payloads, k);
    } else {
      CutStreamReads(payloads[1..], k - 4 - |payloads[0]|);
      CutOneMore(payloads, k, WholeFrames(payloads[1..], k - 4 - |payloads[0]|));
    }
  }

  lemma NothingReads()
    ensures ReadAll([]) == Reading([], false)
  {
  }

  lemma {:induction false} CutOneMore(payloads: seq<Bytes>, k: nat, j: nat)
    requires payloads != [] && |payloads[0]| < TWO_32 && j < |payloads|
    requires 4 + |payloads[0]| <= k <= |Frames(payloads)|
    requires var rest, l := payloads[1..], k - 4 - |payloads[0]|;
             && |Frames(rest[..j])| <= l <= |Frames(rest)|
             && ReadAll(Frames(rest)[..l]) == Reading(rest[..j], l - |Frames(rest[..j])| >= 4)
    ensures |Frames(payloads[..j + 1])| <= k
    ensures ReadAll(Frames(payloads)[..k]) == Reading(payloads[..j + 1], k - |Frames(payloads[..j + 1])| >= 4)
  {
    hide ReadAll;
    hide Frame;
    var f, later := Frame(payloads[0]), Frames(payloads[1..])[..k - 4 - |payloads[0]|];
    assert Frames(payloads)[..k] == f + later;
    ReadAllFirst(payloads[0], later);
    FramesOfPrefix(payloads, j);
  }

  lemma FramesOfPrefix(payloads: seq<Bytes>, j: nat)
    requires payloads != [] && j < |payloads|
    ensures payloads[..j + 1] == [payloads[0]] + payloads[1..][..j]
    ensures Frames(payloads[..j + 1]) == Frame(payloads[0]) + Frames(payloads[1..][..j])
  {
    assert payloads[..j + 1][1..] == payloads[1..][..j];
  }

  /** A frame cut short: no header is the end, a header without its body an error. */
  lemma CutFrameReads(p: Bytes, k: nat)
    requires |p| < TWO_32 && k < 4 + |p|
    ensures ReadFrame(Frame(p)[..k]) == if k >= 4 then Broken else End
  {
    hide Be32;
    hide FromBe32;
    if k >= 4 {
      CutHeader(p, k);
      Be32RoundTrip(|p|);
    }
  }

  lemma CutHeader(p: Bytes, k: nat)
    requires |p| < TWO_32 && 4 <= k < 4 + |p|
    ensures Frame(p)[..k][..4] == Be32(|p|)
  {
    hide Be32;
    assert |p| % TWO_32 == |p|;
    assert Frame(p)[..k][..4] == Frame(p)[..4];
  }

  lemma CutFirstFrame(payloads: seq<Bytes>, k: nat)
    requires Sendable(payloads) && payloads != [] && k < 4 + |payloads[0]|
    requires k <= |Frames(payloads)|
    ensures ReadAll(Frames(payloads)[..k]) == Reading([], k >= 4)
  {
    hide ReadFrame;
    hide Frame;
    assert payloads[0] in payloads;
    assert Frames(payloads)[..k] == Frame(payloads[0])[..k];
    CutFrameReads(payloads[0], k);
  }

  /** Losing the first `k` bytes of a framed stream leaves the messages readable as sent exactly
      when nothing was lost. */
  lemma {:induction false} LostBytesBreakFraming(payloads: seq<Bytes>, k: nat)
    requires Sendable(payloads) && k <= |Frames(payloads)|
    ensures ReadAll(Frames(payloads)[k..]).messages == payloads <==> k == 0
  {
    var s := Frames(payloads);
    FramesRoundTrip(payloads);
    assert s[0..] == s;
    ReadAllCovers(s[k..]);
  }

  /** What has been read is the beginning of what was sent. */
  lemma {:induction false} ReadAllCovers(s: Bytes)
    ensures |Frames(ReadAll(s).messages)| <= |s|
    decreases |s|
  {
    var r := ReadFrame(s);
    if r.Message? {
      ReadAllCovers(r.rest);
      var all := ReadAll(s).messages;
      assert all[0] == r.payload && all[1..] == ReadAll(r.rest).messages;
    }
  }

  lemma {:induction false} FramesAppend(payloads: seq<Bytes>, p: Bytes)
    ensures Frames(payloads + [p]) == Frames(payloads) + Frame(p)
  {
    if payloads == [] {
      assert [p][1..] == [];
    } else {
      assert (payloads + [p])[1..] == payloads[1..] + [p];
      FramesAppend(payloads[1..], p);
    }
  }

  lemma {:induction false} ReadAllPrefix(s: Bytes, n: nat)
    requires n <= |ReadAll(s).messages|
    ensures |Frames(ReadAll(s).messages[..n])| <= |s|
    ensures ReadAll(s).messages[n..] == ReadAll(After(s, n)).messages
    ensures ReadAll(s).broken == ReadAll(After(s, n)).broken
    decreases n
  {
    if n > 0 {
      var r := ReadFrame(s);
      var all := ReadAll(s).messages;
      ReadAllPrefix(r.rest, n - 1);
      assert all[1..] == ReadAll(r.rest).messages;
      assert all[n..] == all[1..][n - 1..];
      assert all[..n][0] == r.payload && all[..n][1..] == all[1..][..n - 1];
    }
  }

  /** The stream behind its first `n` messages. */
  function After(s: Bytes, n: nat): Bytes
    decreases n
  {
    if n == 0 then s
    else match ReadFrame(s)
      case Message(_, rest) => After(rest, n - 1)
      case _ => []
  }

  // --- the byte streams ---

  function Concat(chunks: seq<Bytes>): Bytes {
    if chunks == [] then [] else chunks[0] + Concat(chunks[1..])
  }

  lemma TakenFrom(chunks: seq<Bytes>, take: nat)
    requires chunks != [] && take <= |chunks[0]|
    ensures Concat(chunks) == chunks[0][..take] + Concat(Rest(chunks, take))
  {
    assert chunks[0] == chunks[0][..take] + chunks[0][take..];
    if take < |chunks[0]| {
      assert ([chunks[0][take..]] + chunks[1..])[1..] == chunks[1..];
    } else {
      assert [] + chunks[1..] == chunks[1..];
    }
  }

  /** The pieces left when the first `take` bytes of the first one are taken. */
  function Rest(chunks: seq<Bytes>, take: nat): seq<Bytes>
    requires chunks != [] && take <= |chunks[0]|
  {
    (if take < |chunks[0]| then [chunks[0][take..]] else []) + chunks[1..]
  }

  /** One turn of the filling loop: the taken bytes move from the stream to the buffer. */
  lemma TakeOn(buf: Bytes, chunks: seq<Bytes>, take: nat)
    requires chunks != [] && take <= |chunks[0]|
    ensures buf + Concat(chunks) == (buf + chunks[0][..take]) + Concat(Rest(chunks, take))
  {
    hide Concat;
    TakenFrom(chunks, take);
    assert buf + (chunks[0][..take] + Concat(Rest(chunks, take))) ==
           (buf + chunks[0][..take]) + Concat(Rest(chunks, take));
  }

  lemma RestShrinks(chunks: seq<Bytes>, take: nat)
    requires chunks != [] && take <= |chunks[0]|
    ensures |Rest(chunks, take)| == if take < |chunks[0]| then |chunks| else |chunks| - 1
    ensures forall c | c in Rest(chunks, take) :: c in chunks || (c == chunks[0][take..] && take < |chunks[0]|)
  {
  }

  lemma NothingComing()
    ensures Concat([]) == []
  {
  }

  lemma Filled(all: Bytes, buf: Bytes, coming: Bytes)
    requires all == buf + coming
    ensures all[..|buf|] == buf && all[|buf|..] == coming
  {
  }

  /** What one `read_msg` meets: a payload, the end of the stream, or a cut frame. */
  datatype Incoming = Payload(bytes: Bytes) | Closed | Short

  /** The reading half of a connection: the bytes still to come, in the pieces they come in. */
  class ByteSource {
    var chunks: seq<Bytes>

    ghost predicate Valid()
      reads this
    {
      forall c | c in chunks :: c != []
    }

    ghost function Coming(): Bytes
      reads this
    {
      Concat(chunks)
    }

    constructor (chunks: seq<Bytes>)
      requires forall c | c in chunks :: c != []
      ensures Valid() && this.chunks == chunks
    {
      this.chunks := chunks;
    }

    /** `read_exact`: fills the buffer from as many pieces as it takes. At the end of the stream
        it fails, and what it had read is gone. */
    method ReadExact(n: nat) returns (ok: bool, buf: Bytes)
      requires Valid()
      modifies this
      ensures Valid()
      ensures ok <==> n <= |old(Coming())|
      ensures ok ==> buf == old(Coming())[..n] && Coming() == old(Coming())[n..]
      ensures !ok ==> Coming() == []
    {
      hide Concat;
      hide Rest;
      ghost var all := Coming();
      buf := [];
      assert buf + all == all;
      while |buf| < n && chunks != []
        invariant Valid() && |buf| <= n
        invariant buf + Concat(chunks) == all
        decreases |chunks|, n - |buf|
      {
        var take := if |chunks[0]| <= n - |buf| then |chunks[0]| else n - |buf|;
        TakeOn(buf, chunks, take);
        RestShrinks(chunks, take);
        assert chunks[0] in chunks;
        buf, chunks := buf + chunks[0][..take], Rest(chunks, take);
      }
      ok := |buf| == n;
      Filled(all, buf, Concat(chunks));
      if !ok {
        NothingComing();
      }
    }

    /** A read future dropped before it was ready: the bytes it had taken, or all that came, are gone. */
    method Drop(n: nat)
      requires Valid()
      modifies this
      ensures Valid()
      ensures Coming() == if n <= |old(Coming())| then old(Coming())[n..] else []
    {
      var ok, buf := ReadExact(n);
    }

    /** `read_msg` up to the decoding of the payload: whatever the pieces, it reads one frame of
        the concatenated stream. */
    method ReadMsg() returns (r: Incoming)
      requires Valid()
      modifies this
      ensures Valid()
      ensures match ReadFrame(old(Coming()))
              case Message(payload, rest) => r == Payload(payload) && Coming() == rest
              case End => r == Closed && Coming() == []
              case Broken => r == Short && Coming() == []
    {
      ghost var all := Coming();
      var ok, header := ReadExact(4);
      if !ok {
        return Closed;
      }
      var body;
      ok, body := ReadExact(FromBe32(header));
      if !ok {
        return Short;
      }
      assert all[4..][..|body|] == all[4..4 + |body|] && all[4..][|body|..] == all[4 + |body|..];
      return Payload(body);
    }
  }

  /** The bytes of a frame that get out. */
  function GetsOut(payload: Bytes, cut: Option<nat>): Bytes {
    if cut.None? || cut.value >= |Frame(payload)| then Frame(payload) else Frame(payload)[..cut.value]
  }

  /** The writing half. */
  class ByteSink {
    var written: Bytes

    constructor ()
      ensures written == []
    {
      written := [];
    }

    /** `write_msg`; `cut` is after how many bytes the transport fails, if it does. The flush can still
        fail once the whole frame is out. */
    method WriteMsg(payload: Bytes, cut: Option<nat>) returns (ok: bool)
      modifies this
      ensures ok <==> cut.None?
      ensures written == old(written) + GetsOut(payload, cut)
    {
      var frame := Frame(payload);
      if cut.None? || cut.value >= |frame| {
        written := written + frame;
      } else {
        written := written + frame[..cut.value];
      }
      return cut.None?;
    }
  }
}
