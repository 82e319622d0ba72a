/** The AppleTalk Session Protocol over TCP (LibcAT/asp_if.c): requests framed by 16-byte
    headers, and a server that reads them from a byte stream. */
module AspPackets {
  import opened Bytes
  import opened Seqs

  type s32 = x: int | -0x8000_0000 <= x < 0x8000_0000

  const FUNC_COMMAND: byte := 2
  const FUNC_TICKLE: byte := 5
  const FUNC_WRITE: byte := 6
  const MAX_CMD_SIZE := 578
  const HEADER_SIZE := 16

  /** `asp_fspkt_t` */
  datatype Header = Header(flags: byte, command: byte, requestID: u16, errorCode: s32, totalLen: s32, reserved: s32)

  // ---------- headers as bytes ----------

  function Unsigned(x: s32): (r: int)
    ensures 0 <= r < 0x1_0000_0000
  {
    if x < 0 then x + 0x1_0000_0000 else x
  }

  function Join(high: int, low: int): int {
    high * 256 + low
  }

  function EncodeInt(x: s32): (r: seq<byte>)
    ensures |r| == 4
  {
    var u := Unsigned(x);
    [u / 0x100_0000, u / 0x1_0000 % 256, u / 256 % 256, u % 256]
  }

  function DecodeInt(b: seq<byte>): s32
    requires |b| == 4
  {
    var u := Join(Join(Join(b[0], b[1]), b[2]), b[3]);
    if u >= 0x8000_0000 then u - 0x1_0000_0000 else u
  }

  lemma IntRoundTrip(x: s32)
    ensures DecodeInt(EncodeInt(x)) == x
  {
    var u := Unsigned(x);
    assert u / 0x1_0000 == u / 0x100_0000 * 256 + u / 0x1_0000 % 256;
    assert u / 256 == u / 0x1_0000 * 256 + u / 256 % 256;
  }

  lemma JoinSplits(high: int, low: int)
    requires 0 <= low < 256
    ensures Join(high, low) / 256 == high && Join(high, low) % 256 == low
  {
  }

  lemma DivisionSteps(u: int)
    requires 0 <= u
    ensures u / 0x1_0000 == u / 256 / 256 && u / 0x100_0000 == u / 256 / 256 / 256
  {
  }

  lemma BytesRoundTrip(b: seq<byte>)
    requires |b| == 4
    ensures EncodeInt(DecodeInt(b)) == b
  {
    var x := Join(b[0], b[1]);
    var y := Join(x, b[2]);
    var u := Join(y, b[3]);
    assert 0 <= u < 0x1_0000_0000;
    assert Unsigned(DecodeInt(b)) == u;
    JoinSplits(b[0], b[1]);
    JoinSplits(x, b[2]);
    JoinSplits(y, b[3]);
    DivisionSteps(u);
    hide Join;
  }

  function Encode(h: Header): (r: seq<byte>)
    ensures |r| == HEADER_SIZE
  {
    [h.flags, h.command, h.requestID / 256, h.requestID % 256] +
    EncodeInt(h.errorCode) + EncodeInt(h.totalLen) + EncodeInt(h.reserved)
  }

  function Decode(b: seq<byte>): Header
    requires |b| == HEADER_SIZE
  {
    Header(b[0], b[1], Join(b[2], b[3]), DecodeInt(b[4..8]), DecodeInt(b[8..12]), DecodeInt(b[12..16]))
  }

  lemma HeaderRoundTrip(h: Header)
    ensures Decode(Encode(h)) == h
  {
    hide EncodeInt, DecodeInt;
    var e := Encode(h);
    assert e[4..8] == EncodeInt(h.errorCode) && e[8..12] == EncodeInt(h.totalLen) && e[12..16] == EncodeInt(h.reserved);
    IntRoundTrip(h.errorCode);
    IntRoundTrip(h.totalLen);
    IntRoundTrip(h.reserved);
  }

  lemma HeaderBytesRoundTrip(b: seq<byte>)
    requires |b| == HEADER_SIZE
    ensures Encode(Decode(b)) == b
  {
    hide EncodeInt, DecodeInt;
    BytesRoundTrip(b[4..8]);
    BytesRoundTrip(b[8..12]);
    BytesRoundTrip(b[12..16]);
    assert b == b[..4] + b[4..8] + b[8..12] + b[12..16];
  }

  /** The number in bytes i up to j, most significant byte first. */
  function Number(b: seq<byte>, i: nat, j: nat): int
    requires i <= j <= |b|
  {
    if i == j then 0
    else
      var last: int := b[j - 1];
      Number(b, i, j - 1) * 256 + last
  }

  lemma NumberOfFour(b: seq<byte>, i: nat)
    requires i + 4 <= |b|
    ensures Number(b, i, i + 4) == Join(Join(Join(b[i], b[i + 1]), b[i + 2]), b[i + 3])
    ensures Number(b, i, i + 2) == Join(b[i], b[i + 1])
  {
    assert Number(b, i, i + 1) == b[i];
    assert Number(b, i, i + 3) == Number(b, i, i + 2) * 256 + Join(0, b[i + 2]);
  }

  /** Where the fields stand, most significant byte first, negative numbers modulo 2^32. */
  lemma HeaderLayout(h: Header)
    ensures var e := Encode(h);
      && e[0] == h.flags && e[1] == h.command && Number(e, 2, 4) == h.requestID
      && Number(e, 4, 8) == Unsigned(h.errorCode) && Number(e, 8, 12) == Unsigned(h.totalLen)
      && Number(e, 12, 16) == Unsigned(h.reserved)
  {
    var e := Encode(h);
    IntLayout(h.errorCode);
    IntLayout(h.totalLen);
    IntLayout(h.reserved);
    assert Join(h.requestID / 256, h.requestID % 256) == h.requestID;
    NumberOfFour(e, 2);
    NumberOfFour(e, 4);
    NumberOfFour(e, 8);
    NumberOfFour(e, 12);
    hide EncodeInt, Number, Join;
  }

  lemma IntLayout(x: s32)
    ensures var e := EncodeInt(x); Join(Join(Join(e[0], e[1]), e[2]), e[3]) == Unsigned(x)
  {
    var u := Unsigned(x);
    assert u / 0x1_0000 == u / 0x100_0000 * 256 + u / 0x1_0000 % 256;
    assert u / 256 == u / 0x1_0000 * 256 + u / 256 % 256;
  }

  // ---------- messages ----------

  /** What a client puts on the connection: header-only tickles, commands, and writes
      whose data follows the command block. */
  datatype RawMessage =
    | Tickle(header: Header)
    | Command(id: u16, primitive: byte, block: seq<byte>)
    | Write(id: u16, block: seq<byte>, data: seq<byte>)

  predicate Legal(m: RawMessage) {
    match m
    case Tickle(h) => h.command == FUNC_TICKLE
    case Command(_, p, block) => p != FUNC_TICKLE && p != FUNC_WRITE && |block| <= MAX_CMD_SIZE
    case Write(_, block, data) => |block| <= MAX_CMD_SIZE && |block| + |data| < 0x8000_0000
  }

  type Message = m: RawMessage | Legal(m) witness Command(0, FUNC_COMMAND, [])

  function HeaderOf(m: Message): Header {
    match m
    case Tickle(h) => h
    case Command(id, p, block) => Header(0, p, id, 0, |block|, 0)
    case Write(id, block, data) => Header(0, FUNC_WRITE, id, |block|, |block| + |data|, 0)
  }

  function Body(m: Message): seq<byte> {
    match m
    case Tickle(_) => []
    case Command(_, _, block) => block
    case Write(_, block, data) => block + data
  }

  function Wire(m: Message): seq<byte> {
    Encode(HeaderOf(m)) + Body(m)
  }

  lemma {:induction false} SameNumber(a: seq<byte>, b: seq<byte>, i: nat, j: nat)
    requires i <= j <= |a| <= |b| && a == b[..|a|]
    ensures Number(a, i, j) == Number(b, i, j)
  {
    if i < j { SameNumber(a, b, i, j - 1); }
  }

  /** A command as it is sent: its kind and number, no error code, the length of its block, the
      block.  A write announces the length of its block where others have the error code. */
  lemma WireLayout(m: Message)
    requires !m.Tickle?
    ensures var w := Wire(m); var n := |m.block| + if m.Write? then |m.data| else 0;
      && |w| == HEADER_SIZE + n && w[0] == 0 && w[1] == (if m.Write? then 6 else m.primitive)
      && Number(w, 2, 4) == m.id && Number(w, 4, 8) == (if m.Write? then |m.block| else 0)
      && Number(w, 8, 12) == n && Number(w, 12, 16) == 0
      && w[HEADER_SIZE..HEADER_SIZE + |m.block|] == m.block
      && (m.Write? ==> w[HEADER_SIZE + |m.block|..] == m.data)
  {
    var e := Encode(HeaderOf(m));
    HeaderLayout(HeaderOf(m));
    SameNumber(e, Wire(m), 2, 4);
    SameNumber(e, Wire(m), 4, 8);
    SameNumber(e, Wire(m), 8, 12);
    SameNumber(e, Wire(m), 12, 16);
    hide Encode, Number;
  }

  function WireAll(ms: seq<Message>): seq<byte> {
    if ms == [] then [] else Wire(ms[0]) + WireAll(ms[1..])
  }

  /** Where the i-th message starts. */
  function Offset(ms: seq<Message>, i: nat): nat
    requires i <= |ms|
  {
    |WireAll(ms[..i])|
  }

  lemma {:induction false} WireAllConcat(a: seq<Message>, b: seq<Message>)
    ensures WireAll(a + b) == WireAll(a) + WireAll(b)
    decreases |a|
  {
    if a == [] {
      assert a + b == b;
    } else {
      assert (a + b)[0] == a[0] && (a + b)[1..] == a[1..] + b;
      WireAllConcat(a[1..], b);
    }
  }

  lemma Middle(a: seq<byte>, head: seq<byte>, body: seq<byte>, c: seq<byte>)
    ensures var s := a + (head + body) + c; var o := |a| + |head|;
      s[|a|..o] == head && s[o..o + |body|] == body
  {
  }

  /** Message i stands at its offset, and the next one follows it. */
  lemma MessageAt(ms: seq<Message>, i: nat)
    requires i < |ms|
    ensures var o := Offset(ms, i); var s := WireAll(ms);
      && Offset(ms, i + 1) == o + HEADER_SIZE + |Body(ms[i])| <= |s|
      && s[o..o + HEADER_SIZE] == Encode(HeaderOf(ms[i]))
      && s[o + HEADER_SIZE..Offset(ms, i + 1)] == Body(ms[i])
  {
    hide Encode, HeaderOf, Body, WireAll;
    var before, rest := WireAll(ms[..i]), WireAll(ms[i + 1..]);
    WireAllSplits(ms, i);
    Middle(before, Encode(HeaderOf(ms[i])), Body(ms[i]), rest);
  }

  lemma WireAllOne(ms: seq<Message>, m: Message)
    ensures WireAll(ms + [m]) == WireAll(ms) + Wire(m)
  {
    hide Wire;
    WireAllConcat(ms, [m]);
    assert [m][1..] == [];
    assert WireAll([m]) == Wire(m);
  }

  lemma WireAllSplits(ms: seq<Message>, i: nat)
    requires i < |ms|
    ensures WireAll(ms[..i + 1]) == WireAll(ms[..i]) + Wire(ms[i])
    ensures WireAll(ms) == WireAll(ms[..i]) + Wire(ms[i]) + WireAll(ms[i + 1..])
  {
    hide Wire, WireAll, Legal;
    TakeOneMore(ms, i);
    WireAllOne(ms[..i], ms[i]);
    WireAllConcat(ms[..i + 1], ms[i + 1..]);
  }

  lemma OffsetEnds(ms: seq<Message>)
    ensures Offset(ms, 0) == 0 && Offset(ms, |ms|) == |WireAll(ms)|
  {
    assert ms[..0] == [] && ms[..|ms|] == ms;
  }

  // ---------- what the server makes of a message ----------

  /** The part of a message that a request delivers.  An error code of zero is taken to
      mean that the whole message is the request, even in a write. */
  function Requested(m: Message): seq<byte>
    requires !m.Tickle?
  {
    if m.Write? && m.block == [] then m.data else m.block
  }

  /** The part that is left for a write to continue with. */
  function Remainder(m: Message): seq<byte>
    requires !m.Tickle?
  {
    if m.Write? && m.block != [] then m.data else []
  }

  lemma BodySplits(m: Message)
    requires !m.Tickle?
    ensures Body(m) == Requested(m) + Remainder(m)
  {
  }

  /** Where both parts stand in the stream. */
  lemma PartsAt(ms: seq<Message>, i: nat)
    requires i < |ms| && !ms[i].Tickle?
    ensures var o, s := Offset(ms, i) + HEADER_SIZE, WireAll(ms); var c := o + |Requested(ms[i])|;
      && c + |Remainder(ms[i])| == Offset(ms, i + 1) <= |s|
      && s[o..c] == Requested(ms[i]) && s[c..Offset(ms, i + 1)] == Remainder(ms[i])
  {
    hide Encode, HeaderOf, Body, WireAll, Offset, Requested, Remainder;
    MessageAt(ms, i);
    BodySplits(ms[i]);
    var o, s := Offset(ms, i) + HEADER_SIZE, WireAll(ms);
    var b, n := s[o..Offset(ms, i + 1)], |Requested(ms[i])|;
    assert b[..n] == Requested(ms[i]) && b[n..] == Remainder(ms[i]);
    assert b[..n] == s[o..o + n] && b[n..] == s[o + n..Offset(ms, i + 1)];
  }

  /** A write request reaches the server as its command block exactly when the block is
      not empty, or there is no data to mistake for it. */
  lemma WriteArrivesAsSent(m: Message)
    requires m.Write?
    ensures (Requested(m) == m.block && Remainder(m) == m.data) <==> (m.block != [] || m.data == [])
  {
  }
}

/** The client's half. */
module AspClient {
  import opened Bytes
  import opened AspPackets

  datatype Status = NoError | SizeErr

  datatype Call =
    | SendCall(primitive: byte, block: seq<byte>)
    | WriteCall(block: seq<byte>, data: seq<byte>)

  predicate Callable(c: Call) {
    match c
    case SendCall(p, _) => p != FUNC_TICKLE && p != FUNC_WRITE
    case WriteCall(block, data) => |block| + |data| < 0x8000_0000
  }

  /** The messages that a list of calls puts on the connection: blocks that are too long
      send nothing, the others are numbered consecutively, modulo 2^16. */
  function Sent(calls: seq<Call>, id: u16): seq<Message>
    requires forall c :: c in calls ==> Callable(c)
  {
    if calls == [] then []
    else
      var c := calls[0];
      if |c.block| > MAX_CMD_SIZE then Sent(calls[1..], id)
      else
        var m := if c.SendCall? then Command(id, c.primitive, c.block) else RawMessage.Write(id, c.block, c.data);
        assert Callable(c);
        [m] + Sent(calls[1..], (id + 1) % 0x1_0000)
  }

  class Client {
    /** `FSRequestID` */
    var requestID: u16
    /** Everything sent on the connection so far. */
    var wire: seq<byte>

    constructor ()
      ensures requestID == 0 && wire == []
    {
      requestID, wire := 0, [];
    }

    /** The command is sent together with its header when it fits the 256-byte buffer,
        and separately when it does not. */
    method SendCommand(block: seq<byte>, primitive: byte) returns (status: Status)
      requires primitive != FUNC_TICKLE && primitive != FUNC_WRITE
      modifies this
      ensures status == if |block| > MAX_CMD_SIZE then SizeErr else NoError
      ensures status == SizeErr ==> wire == old(wire) && requestID == old(requestID)
      ensures status == NoError ==>
        wire == old(wire) + Wire(Command(old(requestID), primitive, block)) &&
        requestID == (old(requestID) + 1) % 0x1_0000
    {
      if |block| > MAX_CMD_SIZE {
        return SizeErr;
      }
      ghost var m := Command(requestID, primitive, block);
      assert Legal(m);
      var buffer := Encode(Header(0, primitive, requestID, 0, |block|, 0));
      requestID := (requestID + 1) % 0x1_0000;
      var left := |block|;
      if left <= 256 {
        buffer := buffer + block;
        left := 0;
      }
      wire := wire + buffer;
      if left != 0 {
        wire := wire + block;
      }
      assert wire == old(wire) + Wire(m);
      return NoError;
    }

    method Write(block: seq<byte>, data: seq<byte>) returns (status: Status)
      requires |block| + |data| < 0x8000_0000
      modifies this
      ensures status == if |block| > MAX_CMD_SIZE then SizeErr else NoError
      ensures status == SizeErr ==> wire == old(wire) && requestID == old(requestID)
      ensures status == NoError ==>
        wire == old(wire) + Wire(RawMessage.Write(old(requestID), block, data)) &&
        requestID == (old(requestID) + 1) % 0x1_0000
    {
      if |block| > MAX_CMD_SIZE {
        return SizeErr;
      }
      ghost var m := RawMessage.Write(requestID, block, data);
      assert Legal(m);
      var buffer := Encode(Header(0, FUNC_WRITE, requestID, |block|, |block| + |data|, 0)) + block;
      requestID := (requestID + 1) % 0x1_0000;
      wire := wire + buffer;
      if |data| != 0 {
        wire := wire + data;
      }
      assert wire == old(wire) + Wire(m);
      return NoError;
    }

    /** What a whole run of calls puts on the connection is a list of messages that a
        server can take apart again. */
    method SendAll(calls: seq<Call>)
      requires forall c :: c in calls ==> Callable(c)
      modifies this
      ensures wire == old(wire) + WireAll(Sent(calls, old(requestID)))
    {
      hide Wire;
      for n := 0 to |calls|
        invariant wire + WireAll(Sent(calls[n..], requestID)) == old(wire) + WireAll(Sent(calls, old(requestID)))
      {
        var c := calls[n];
        assert c in calls && Callable(c);
        assert calls[n..][0] == c && calls[n..][1..] == calls[n + 1..];
        ghost var rest, before := Sent(calls[n..], requestID), wire;
        var status;
        match c {
          case SendCall(p, block) => status := SendCommand(block, p);
          case WriteCall(block, data) => status := Write(block, data);
        }
        ghost var tail := Sent(calls[n + 1..], requestID);
        if status == NoError {
          assert rest[1..] == tail;
          assert before + (Wire(rest[0]) + WireAll(tail)) == wire + WireAll(tail);
        }
      }
    }
  }
}

/** The server's half. */
module AspServer {
  import opened Bytes
  import opened AspPackets

  type posint = x: int | 1 <= x witness 1

  datatype Request =
    | Delivered(id: u16, kind: byte, body: seq<byte>)
    | BufTooSmall
    | SessClosed
    | CmdReply(ref: int, body: seq<byte>)

  /** Where a server stands in a list of messages: before the header of message i, after
      the header of a request that did not fit, or before the data of a write. */
  datatype Phase = Between(i: nat) | Parked(i: nat) | BeforeData(i: nat)

  /** The next message from i on that is not a tickle. */
  function NextRequest(ms: seq<Message>, i: nat): (k: nat)
    requires i <= |ms|
    ensures i <= k <= |ms|
    ensures forall j :: i <= j < k ==> ms[j].Tickle?
    ensures k < |ms| ==> !ms[k].Tickle?
    decreases |ms| - i
  {
    if i == |ms| || !ms[i].Tickle? then i else NextRequest(ms, i + 1)
  }

  /** At a message boundary stands the header of the next message, or nothing. */
  lemma HeaderNext(ms: seq<Message>, k: nat)
    requires k <= |ms|
    ensures k == |ms| ==> Offset(ms, k) == |WireAll(ms)| && NextRequest(ms, k) == k
    ensures k < |ms| ==> Offset(ms, k) + HEADER_SIZE <= Offset(ms, k + 1) <= |WireAll(ms)|
    ensures k < |ms| ==> Decode(WireAll(ms)[Offset(ms, k)..Offset(ms, k) + HEADER_SIZE]) == HeaderOf(ms[k])
    ensures k < |ms| && HeaderOf(ms[k]).command != FUNC_TICKLE ==> !ms[k].Tickle? && NextRequest(ms, k) == k
    ensures k < |ms| && HeaderOf(ms[k]).command == FUNC_TICKLE ==>
      ms[k].Tickle? && ms[k].header == HeaderOf(ms[k]) && NextRequest(ms, k) == NextRequest(ms, k + 1) &&
      Offset(ms, k + 1) == Offset(ms, k) + HEADER_SIZE
  {
    hide Encode, Decode, WireAll, Offset;
    OffsetEnds(ms);
    if k < |ms| {
      MessageAt(ms, k);
      HeaderRoundTrip(HeaderOf(ms[k]));
    }
  }

  lemma EchoTickle(ms: seq<Message>, k: nat)
    requires k < |ms| && ms[k].Tickle?
    ensures Echoes(ms, k + 1) == Echoes(ms, k) + Encode(ms[k].header)
  {
  }

  /** What has been sent back once the messages before i have been read: the tickles. */
  function Echoes(ms: seq<Message>, i: nat): seq<byte>
    requires i <= |ms|
  {
    if i == 0 then [] else Echoes(ms, i - 1) + if ms[i - 1].Tickle? then Encode(ms[i - 1].header) else []
  }

  /** The header of a request, as the session keeps it. */
  function Kept(m: Message): Header
    requires !m.Tickle?
  {
    var h := HeaderOf(m);
    if m.Write? && h.errorCode == 0 then h.(errorCode := h.totalLen) else h
  }

  function Prefix(s: seq<byte>, n: nat): seq<byte> {
    if |s| <= n then s else s[..n]
  }

  /** One request as the server's client sees it: its identifier, its kind, its block, and
      the data of a write as far as the server asked for it. */
  datatype Delivery = Delivery(id: u16, kind: byte, body: seq<byte>, data: seq<byte>)

  function Deliver(m: Message, dataSize: nat): Delivery
    requires !m.Tickle?
  {
    Delivery(m.id, HeaderOf(m).command, Requested(m), Prefix(Remainder(m), dataSize))
  }

  /** What a server should log that reads the messages from i on with the given buffer
      sizes: each request once it fits. */
  function Expect(ms: seq<Message>, i: nat, script: seq<(nat, nat)>): seq<Delivery>
    requires i <= |ms|
    decreases |script|
  {
    if script == [] then []
    else
      var k := NextRequest(ms, i);
      if k == |ms| then []
      else if |Requested(ms[k])| > script[0].0 then Expect(ms, k, script[1..])
      else [Deliver(ms[k], script[0].1)] + Expect(ms, k + 1, script[1..])
  }

  lemma ExpectStep(ms: seq<Message>, i: nat, script: seq<(nat, nat)>, n: nat)
    requires i <= |ms| && n < |script|
    ensures var k := NextRequest(ms, i);
      Expect(ms, i, script[n..]) ==
        if k == |ms| then []
        else if |Requested(ms[k])| > script[n].0 then Expect(ms, k, script[n + 1..])
        else [Deliver(ms[k], script[n].1)] + Expect(ms, k + 1, script[n + 1..])
  {
    hide NextRequest, Requested, Deliver;
    assert script[n..][1..] == script[n + 1..];
  }

  lemma ExpectNothing(ms: seq<Message>, i: nat)
    requires i <= |ms|
    ensures Expect(ms, i, []) == []
  {
  }

  type RequestMessage = m: Message | !m.Tickle? witness Command(0, FUNC_COMMAND, [])

  /** The messages from i on without the tickles. */
  function Requests(ms: seq<Message>, i: nat): seq<RequestMessage>
    requires i <= |ms|
    decreases |ms| - i
  {
    if i == |ms| then []
    else if ms[i].Tickle? then Requests(ms, i + 1)
    else
      var r: RequestMessage := ms[i];
      [r] + Requests(ms, i + 1)
  }

  lemma {:induction false} RequestsFromNext(ms: seq<Message>, i: nat)
    requires i <= |ms|
    ensures var k := NextRequest(ms, i);
      Requests(ms, i) == if k == |ms| then [] else [ms[k]] + Requests(ms, k + 1)
    decreases |ms| - i
  {
    hide Legal;
    if i < |ms| && ms[i].Tickle? {
      RequestsFromNext(ms, i + 1);
    }
  }

  /** This message was delivered, with as much of its data as some buffer took. */
  ghost predicate DeliveredAs(m: RequestMessage, d: Delivery)
  {
    exists dataSize: nat :: d == Deliver(m, dataSize)
  }

  /** The log lists the requests in order, none twice and none left out, whatever the
      retries. */
  lemma {:induction false} ExpectIsInOrder(ms: seq<Message>, i: nat, script: seq<(nat, nat)>)
    requires i <= |ms|
    ensures var e, rs := Expect(ms, i, script), Requests(ms, i);
      |e| <= |rs| && |e| <= |script| && forall j :: 0 <= j < |e| ==> DeliveredAs(rs[j], e[j])
    decreases |script|
  {
    hide Requests, NextRequest, Requested, Remainder, Prefix, HeaderOf;
    if script != [] {
      var k := NextRequest(ms, i);
      RequestsFromNext(ms, i);
      var e, rs := Expect(ms, i, script), Requests(ms, i);
      if k == |ms| {
      } else if |Requested(ms[k])| > script[0].0 {
        ExpectIsInOrder(ms, k, script[1..]);
        NextStays(ms, i);
        RequestsFromNext(ms, k);
      } else {
        ExpectIsInOrder(ms, k + 1, script[1..]);
        var f := Expect(ms, k + 1, script[1..]);
        assert rs[1..] == Requests(ms, k + 1) && e[1..] == f;
        forall j | 0 <= j < |e|
          ensures DeliveredAs(rs[j], e[j])
        {
          if j == 0 {
            assert e[0] == Deliver(rs[0], script[0].1);
          } else {
            assert rs[j] == rs[1..][j - 1] && e[j] == f[j - 1];
          }
        }
      }
    }
  }

  lemma NextStays(ms: seq<Message>, i: nat)
    requires i <= |ms|
    ensures NextRequest(ms, NextRequest(ms, i)) == NextRequest(ms, i)
  {
  }

  /** Every request fits every buffer. */
  ghost predicate AllFit(rs: seq<RequestMessage>, script: seq<(nat, nat)>)
  {
    forall j, n :: 0 <= j < |rs| && 0 <= n < |script| ==> |Requested(rs[j])| <= script[n].0
  }

  /** With buffers that are large enough nothing has to be retried, and with enough calls
      every request arrives. */
  lemma {:induction false} EverythingArrives(ms: seq<Message>, i: nat, script: seq<(nat, nat)>)
    requires i <= |ms| && AllFit(Requests(ms, i), script)
    ensures var n := |Requests(ms, i)|;
      |Expect(ms, i, script)| == if n <= |script| then n else |script|
    decreases |script|
  {
    hide Requests, NextRequest, Requested, Deliver;
    if script != [] {
      var k := NextRequest(ms, i);
      RequestsFromNext(ms, i);
      if k < |ms| {
        var rs := Requests(ms, i);
        assert rs[0] == ms[k] && rs[1..] == Requests(ms, k + 1);
        forall j, n | 0 <= j < |rs[1..]| && 0 <= n < |script[1..]|
          ensures |Requested(rs[1..][j])| <= script[1..][n].0
        {
          assert rs[1..][j] == rs[j + 1] && script[1..][n] == script[n + 1];
        }
        EverythingArrives(ms, k + 1, script[1..]);
      }
    }
  }

  lemma KindTells(m: Message)
    requires !m.Tickle?
    ensures HeaderOf(m).command == FUNC_WRITE <==> m.Write?
    ensures !m.Write? ==> Prefix(Remainder(m), 0) == [] && forall n: nat :: Prefix(Remainder(m), n) == []
  {
  }

  lemma RequestsAreNotEchoed(ms: seq<Message>, k: nat)
    requires k < |ms| && !ms[k].Tickle?
    ensures Echoes(ms, k + 1) == Echoes(ms, k)
  {
  }

  class Session {
    /** The bytes of the connection, and how many of them one receive at a given position
        can return at most: any fragmentation of the stream. */
    const stream: seq<byte>
    const piece: nat -> posint
    var pos: nat
    var echoed: seq<byte>
    /** `SessFSPkt` and `FSRangeErr` */
    var header: Header
    var rangeErr: bool

    constructor (stream: seq<byte>, piece: nat -> posint)
      ensures this.stream == stream && this.piece == piece
      ensures pos == 0 && echoed == [] && !rangeErr
    {
      this.stream, this.piece := stream, piece;
      pos, echoed, rangeErr := 0, [], false;
      header := Header(0, 0, 0, 0, 0, 0);
    }

    /** `recv`: at most n bytes, none only at the end of the stream. */
    method Recv(n: nat) returns (chunk: seq<byte>)
      requires n > 0 && pos <= |stream|
      modifies `pos
      ensures pos == old(pos) + |chunk| <= |stream|
      ensures chunk == stream[old(pos)..pos]
      ensures |chunk| <= n && (|chunk| == 0 <==> old(pos) == |stream|)
      ensures |chunk| == n <==> n <= piece(old(pos)) && old(pos) + n <= |stream|
    {
      var k := if piece(pos) < n then piece(pos) else n;
      if k > |stream| - pos {
        k := |stream| - pos;
      }
      chunk := stream[pos..pos + k];
      pos := pos + k;
    }

    /** The loop that receives a body piece by piece. */
    method RecvAll(n: nat) returns (body: seq<byte>, left: nat)
      requires pos <= |stream|
      modifies `pos
      ensures pos == old(pos) + |body| <= |stream| && body == stream[old(pos)..pos]
      ensures |body| + left == n
      ensures left == 0 <==> old(pos) + n <= |stream|
    {
      body, left := [], n;
      while left != 0
        invariant pos == old(pos) + |body| <= |stream| && body == stream[old(pos)..pos]
        invariant |body| + left == n
      {
        var chunk := Recv(left);
        if chunk == [] {
          break;
        }
        body := body + chunk;
        left := left - |chunk|;
      }
    }

    /** The session stands at this place of the list of messages. */
    ghost predicate At(ms: seq<Message>, ph: Phase)
      reads this
    {
      && stream == WireAll(ms) && pos <= |stream|
      && match ph
         case Between(i) =>
           i <= |ms| && pos == Offset(ms, i) && !rangeErr && echoed == Echoes(ms, i)
         case Parked(i) =>
           i < |ms| && !ms[i].Tickle? && pos == Offset(ms, i) + HEADER_SIZE &&
           rangeErr && header == Kept(ms[i]) && echoed == Echoes(ms, i)
         case BeforeData(i) =>
           i < |ms| && ms[i].Write? && pos == Offset(ms, i) + HEADER_SIZE + |Requested(ms[i])| &&
           !rangeErr && header == Kept(ms[i]) && echoed == Echoes(ms, i)
    }

    /** The header of message i arrives in one piece. */
    ghost predicate Whole(ms: seq<Message>, i: nat)
      requires i <= |ms|
    {
      piece(Offset(ms, i)) >= HEADER_SIZE
    }

    /** Reads headers, sending tickles back, up to the first that is not a tickle.  A header
        that does not arrive in one piece counts as a closed session. */
    method RecvHeader(ghost ms: seq<Message>, ghost i: nat) returns (ok: bool, ghost k: nat)
      requires At(ms, Between(i))
      modifies this
      ensures pos <= |stream| && !rangeErr
      ensures i <= k <= NextRequest(ms, i)
      ensures ok ==> k == NextRequest(ms, i) < |ms| && header == HeaderOf(ms[k])
      ensures ok ==> pos == Offset(ms, k) + HEADER_SIZE && echoed == Echoes(ms, k)
      ensures !ok ==> (k == |ms| && At(ms, Between(k))) || (k < |ms| && !Whole(ms, k))
      ensures ok ==> forall j :: i <= j <= k ==> Whole(ms, j)
    {
      hide Encode, Decode, HeaderOf, Body, WireAll, Offset, NextRequest, Echoes;
      k := i;
      while true
        invariant i <= k <= NextRequest(ms, i) && At(ms, Between(k))
        invariant NextRequest(ms, k) == NextRequest(ms, i)
        invariant forall j :: i <= j < k ==> Whole(ms, j)
        decreases |ms| - k
      {
        HeaderNext(ms, k);
        var chunk := Recv(HEADER_SIZE);
        if |chunk| != HEADER_SIZE {
          return false, k;
        }
        header := Decode(chunk);
        if header.command != FUNC_TICKLE {
          return true, k;
        }
        EchoTickle(ms, k);
        echoed := echoed + Encode(header);
        k := k + 1;
      }
    }

    /** `SPGetRequest` on a connection.  A request that does not fit leaves its header
        parked, and the next call starts from that header instead of receiving one. */
    method GetRequest(size: nat, ghost ms: seq<Message>, ghost ph: Phase) returns (r: Request, ghost k: nat)
      requires At(ms, ph) && !ph.BeforeData?
      modifies this
      ensures ph.i <= k <= NextRequest(ms, ph.i)
      ensures r.SessClosed? ==> (k == |ms| && At(ms, Between(k))) || (k < |ms| && !Whole(ms, k))
      ensures !r.SessClosed? ==> k == NextRequest(ms, ph.i) < |ms|
      ensures r.BufTooSmall? ==> |Requested(ms[k])| > size && At(ms, Parked(k))
      ensures r.Delivered? ==> |Requested(ms[k])| <= size && r.body == Requested(ms[k])
      ensures r.Delivered? ==> r.id == ms[k].id && r.kind == HeaderOf(ms[k]).command
      ensures r.Delivered? ==> At(ms, if ms[k].Write? then BeforeData(k) else Between(k + 1))
      ensures !r.CmdReply?
    {
      hide Encode, Decode, Body, WireAll, Offset, Echoes, NextRequest;
      NextStays(ms, ph.i);
      k := ph.i;
      if !rangeErr || header.flags % 2 == 1 {
        var ok;
        ok, k := RecvHeader(ms, ph.i);
        if !ok {
          return SessClosed, k;
        }
      }
      r := TakeRequest(size, ms, k);
    }

    /** The part of `SPGetRequest` that follows the header. */
    method TakeRequest(size: nat, ghost ms: seq<Message>, ghost k: nat) returns (r: Request)
      requires stream == WireAll(ms) && k < |ms| && !ms[k].Tickle? && pos == Offset(ms, k) + HEADER_SIZE <= |stream|
      requires (header == HeaderOf(ms[k]) || header == Kept(ms[k])) && echoed == Echoes(ms, k)
      modifies this
      ensures r.BufTooSmall? || r.Delivered?
      ensures r.BufTooSmall? ==> |Requested(ms[k])| > size && At(ms, Parked(k))
      ensures r.Delivered? ==> |Requested(ms[k])| <= size && r.body == Requested(ms[k])
      ensures r.Delivered? ==> r.id == ms[k].id && r.kind == HeaderOf(ms[k]).command
      ensures r.Delivered? ==> At(ms, if ms[k].Write? then BeforeData(k) else Between(k + 1))
    {
      hide Encode, Decode, Body, WireAll, Offset, Echoes, NextRequest;
      PartsAt(ms, k);
      var left: nat;
      if header.command == FUNC_WRITE {
        if header.errorCode == 0 {
          header := header.(errorCode := header.totalLen);
        }
        left := header.errorCode;
      } else {
        left := header.totalLen;
      }
      assert header == Kept(ms[k]) && left == |Requested(ms[k])|;
      rangeErr := false;
      if left > size {
        rangeErr := true;
        return BufTooSmall;
      }
      var body;
      body, left := RecvAll(left);
      RequestsAreNotEchoed(ms, k);
      var ref := header.errorCode % 0x1_0000;
      if header.flags % 2 == 1 {
        return CmdReply(ref, body);
      }
      return Delivered(header.requestID, header.command, body);
    }

    /** `SPWrtContinue` on a connection: the first bytes of the data of the write, as many
        as fit; the rest is received and dropped. */
    method WrtContinue(size: nat, ghost ms: seq<Message>, ghost i: nat) returns (data: seq<byte>, ok: bool)
      requires At(ms, BeforeData(i))
      modifies this
      ensures ok && At(ms, Between(i + 1))
      ensures data == Prefix(Remainder(ms[i]), size)
    {
      hide Encode, Body, WireAll, Offset, Echoes;
      PartsAt(ms, i);
      RequestsAreNotEchoed(ms, i);
      var left: nat := header.totalLen - header.errorCode;
      assert left == |Remainder(ms[i])|;
      assert stream[pos..pos + left] == Remainder(ms[i]);
      var drop := 0;
      if left > size {
        drop := left - size;
        left := size;
      }
      data, left := RecvAll(left);
      if left != 0 {
        return data, false;
      }
      ghost var end := Offset(ms, i + 1);
      if drop != 0 {
        var len := if drop < 1024 then drop else 1024;
        while drop != 0
          invariant pos + drop == end <= |stream|
          invariant drop != 0 ==> 0 < len <= drop
          modifies `pos
        {
          var chunk := Recv(len);
          if chunk == [] {
            break;
          }
          drop := drop - |chunk|;
          len := if drop < 1024 then drop else 1024;
        }
      }
      ok := true;
    }

    /** One round of a server: a request and, if it is a write, its data. */
    method ServeOne(size: nat, dataSize: nat, ghost ms: seq<Message>, ghost ph: Phase)
      returns (got: seq<Delivery>, closed: bool, ghost ph': Phase)
      requires At(ms, ph) && !ph.BeforeData? && ph.i <= |ms|
      requires forall i :: 0 <= i < |ms| ==> Whole(ms, i)
      modifies this
      ensures At(ms, ph') && !ph'.BeforeData? && ph'.i <= |ms|
      ensures var k := NextRequest(ms, ph.i);
        if k == |ms| then closed && got == []
        else if |Requested(ms[k])| > size then !closed && got == [] && ph' == Parked(k)
        else !closed && got == [Deliver(ms[k], dataSize)] && ph' == Between(k + 1)
    {
      hide Requested, Remainder, At, Whole, NextRequest, Offset, WireAll, Echoes, Legal, Prefix, HeaderOf;
      var r;
      ghost var k;
      r, k := GetRequest(size, ms, ph);
      if r.SessClosed? {
        return [], true, Between(|ms|);
      }
      if r.BufTooSmall? {
        return [], false, Parked(k);
      }
      var data := [];
      KindTells(ms[k]);
      if r.kind == FUNC_WRITE {
        var ok;
        data, ok := WrtContinue(dataSize, ms, k);
      }
      return [Delivery(r.id, r.kind, r.body, data)], false, Between(k + 1);
    }

    /** A server that serves the connection, with a buffer size for each request and one
        for each write: it logs what the clients meant to say, and always stands on a
        packet header, or behind one that is parked, afterwards. */
    method Serve(script: seq<(nat, nat)>, ghost ms: seq<Message>) returns (log: seq<Delivery>, ghost ph: Phase)
      requires At(ms, Between(0))
      requires forall i :: 0 <= i < |ms| ==> Whole(ms, i)
      modifies this
      ensures log == Expect(ms, 0, script)
      ensures At(ms, ph) && !ph.BeforeData?
    {
      hide Expect, Requested, Deliver, At, Whole, NextRequest, Offset, WireAll, Echoes, Legal;
      log, ph := [], Between(0);
      var n := 0;
      assert script[0..] == script;
      while n < |script|
        invariant 0 <= n <= |script| && At(ms, ph) && !ph.BeforeData? && ph.i <= |ms|
        invariant log + Expect(ms, ph.i, script[n..]) == Expect(ms, 0, script)
      {
        ExpectStep(ms, ph.i, script, n);
        var got, closed;
        got, closed, ph := ServeOne(script[n].0, script[n].1, ms, ph);
        if closed {
          assert log + [] == log;
          return;
        }
        log := log + got;
        n := n + 1;
      }
      ExpectNothing(ms, ph.i);
      assert script[n..] == [] && log + [] == log;
    }
  }
}

/** Both halves: what a server is told of the calls a client made. */
module AspExchange {
  import opened Bytes
  import opened AspPackets
  import opened AspClient
  import opened AspServer

  /** The calls that were not refused for their length. */
  function Accepted(calls: seq<Call>): seq<Call> {
    if calls == [] then []
    else if |calls[0].block| > MAX_CMD_SIZE then Accepted(calls[1..])
    else [calls[0]] + Accepted(calls[1..])
  }

  /** The message of the call with this number. */
  predicate Carries(m: Message, c: Call, id: int) {
    !m.Tickle? && m.id == id && m.block == c.block
    && if c.SendCall? then m.Command? && m.primitive == c.primitive else m.Write? && m.data == c.data
  }

  /** The server takes a write without a command block for a request that consists of its
      data. */
  predicate Mistaken(c: Call) {
    c.WriteCall? && c.block == [] && c.data != []
  }

  /** The delivery tells the server of the call: its number, its primitive, its block and a
      prefix of its data. */
  predicate Tells(d: Delivery, c: Call, id: int) {
    && d.id == id && d.kind == (if c.SendCall? then c.primitive else FUNC_WRITE)
    && d.body == c.block && d.data <= if c.SendCall? then [] else c.data
  }

  /** Every buffer is large enough for every call. */
  ghost predicate AllTold(cs: seq<Call>, script: seq<(nat, nat)>) {
    forall j, n :: 0 <= j < |cs| && 0 <= n < |script| ==>
      |cs[j].block| <= script[n].0 && (Mistaken(cs[j]) ==> |cs[j].data| <= script[n].0)
  }

  /** Accepted calls are sent in order, numbered from `id` on modulo 2^16. */
  lemma {:induction false} SentInOrder(calls: seq<Call>, id: u16)
    requires forall c :: c in calls ==> Callable(c)
    ensures var ms, cs := Sent(calls, id), Accepted(calls);
      |ms| == |cs| && forall j :: 0 <= j < |ms| ==> Carries(ms[j], cs[j], (id + j) % 0x1_0000)
    decreases |calls|
  {
    if calls != [] {
      assert Callable(calls[0]);
      if |calls[0].block| > MAX_CMD_SIZE {
        SentInOrder(calls[1..], id);
      } else {
        var next := (id + 1) % 0x1_0000;
        SentInOrder(calls[1..], next);
        var ms, cs := Sent(calls, id), Accepted(calls);
        assert ms[1..] == Sent(calls[1..], next) && cs[1..] == Accepted(calls[1..]);
        forall j | 0 <= j < |ms|
          ensures Carries(ms[j], cs[j], (id + j) % 0x1_0000)
        {
          if j > 0 {
            assert ms[j] == ms[1..][j - 1] && cs[j] == cs[1..][j - 1];
            NextNumber(id, j);
          }
        }
      }
    }
  }

  /** A write of one byte without a command block is logged as a request without data. */
  lemma MistakenExample()
    ensures var ms := Sent([WriteCall([], [7])], 0);
      Expect(ms, 0, [(1, 1)]) == [Delivery(0, FUNC_WRITE, [7], [])]
  {
    var calls := [WriteCall([], [7])];
    assert calls[1..] == [] && Callable(calls[0]);
    var m: Message := RawMessage.Write(0, [], [7]);
    assert Sent(calls, 0) == [m];
    assert NextRequest([m], 0) == 0 && Requested(m) == [7] && Remainder(m) == [];
    ExpectStep([m], 0, [(1, 1)], 0);
    assert [(1, 1)][0..] == [(1, 1)] && [(1, 1)][1..] == [];
  }

  lemma NextNumber(id: int, j: nat)
    requires 0 < j
    ensures ((id + 1) % 0x1_0000 + (j - 1)) % 0x1_0000 == (id + j) % 0x1_0000
  {
  }

  /** A client sends no tickles, so every message is a request. */
  lemma {:induction false} AllRequests(ms: seq<Message>, i: nat)
    requires i <= |ms| && forall j :: 0 <= j < |ms| ==> !ms[j].Tickle?
    ensures Requests(ms, i) == ms[i..]
    decreases |ms| - i
  {
    if i < |ms| {
      AllRequests(ms, i + 1);
      assert ms[i..] == [ms[i]] + ms[i + 1..];
    }
  }

  lemma DeliveryTells(m: RequestMessage, d: Delivery, c: Call, id: int)
    requires DeliveredAs(m, d) && Carries(m, c, id)
    ensures if Mistaken(c) then d == Delivery(id, FUNC_WRITE, c.data, []) else Tells(d, c, id)
  {
  }

  /** A client makes a run of calls, and a server serves the stream they produced, cut into
      pieces in any way that keeps the headers whole.  Its log tells of the accepted calls in
      their order, numbered from 0 on, none twice and none left out; with enough buffers that
      are large enough it tells of every one.  Only of a write without a command block it is
      told something else. */
  method Exchange(calls: seq<Call>, piece: nat -> posint, script: seq<(nat, nat)>) returns (log: seq<Delivery>)
    requires forall c :: c in calls ==> Callable(c)
    requires forall i :: 0 <= i < |Sent(calls, 0)| ==> piece(AspPackets.Offset(Sent(calls, 0), i)) >= HEADER_SIZE
    ensures var cs := Accepted(calls);
      && |log| <= |cs|
      && (forall j :: 0 <= j < |log| ==>
            if Mistaken(cs[j]) then log[j] == Delivery(j % 0x1_0000, FUNC_WRITE, cs[j].data, [])
            else Tells(log[j], cs[j], j % 0x1_0000))
      && (AllTold(cs, script) && |cs| <= |script| ==> |log| == |cs|)
  {
    hide Sent, Accepted, Expect, Requests, WireAll, AspPackets.Offset, Carries, Tells, DeliveredAs, AllFit, AllTold;
    var client := new Client();
    client.SendAll(calls);
    ghost var ms, cs := Sent(calls, 0), Accepted(calls);
    var session := new Session(client.wire, piece);
    StartsBetween(session, ms);
    ghost var ph;
    log, ph := session.Serve(script, ms);
    SentInOrder(calls, 0);
    CarriesNoTickle(ms, cs);
    AllRequests(ms, 0);
    ExpectIsInOrder(ms, 0, script);
    forall j | 0 <= j < |log|
      ensures if Mistaken(cs[j]) then log[j] == Delivery(j % 0x1_0000, FUNC_WRITE, cs[j].data, [])
              else Tells(log[j], cs[j], j % 0x1_0000)
    {
      DeliveryTells(Requests(ms, 0)[j], log[j], cs[j], j % 0x1_0000);
    }
    if AllTold(cs, script) {
      ToldFits(Requests(ms, 0), cs, script);
      EverythingArrives(ms, 0, script);
    }
  }

  lemma CarriesNoTickle(ms: seq<Message>, cs: seq<Call>)
    requires |ms| == |cs| && forall j :: 0 <= j < |ms| ==> Carries(ms[j], cs[j], j % 0x1_0000)
    ensures forall j :: 0 <= j < |ms| ==> !ms[j].Tickle?
  {
  }

  lemma ToldFits(rs: seq<RequestMessage>, cs: seq<Call>, script: seq<(nat, nat)>)
    requires |rs| == |cs| && AllTold(cs, script) && forall j :: 0 <= j < |rs| ==> Carries(rs[j], cs[j], j % 0x1_0000)
    ensures AllFit(rs, script)
  {
  }

  lemma StartsBetween(s: Session, ms: seq<Message>)
    requires s.stream == WireAll(ms) && s.pos == 0 && s.echoed == [] && !s.rangeErr
    ensures s.At(ms, Between(0))
  {
  }
}
