/** The status block that an ASP server announces (LibcAT/asp_if.c, `SPNewStatus`): to tell
    clients about its TCP addresses, new parts are put into the block, and the offsets in
    its header are adjusted. */
module AspStatus {
  import opened Bytes

  const QUANTUM_SIZE := 4624
  /** Sizes of `asp_svrinfo_t`, `asp_tcpinfo_t`, `asp_tcpaddr_t` and the signature, and of
      the packet header in front of the stored block. */
  const SVRINFO := 10
  const TCPINFO := 4
  const TCPADDR := 8
  const SIG_LEN := 16
  const PACKET := 16

  type Signature = s: seq<byte> | |s| == 16 witness seq(16, _ => 0)
  /** The addresses as `GetTCPInfo` stores them, eight bytes each. */
  type Address = s: seq<byte> | |s| == 8 witness seq(8, _ => 0)

  // ---------- reading and writing shorts ----------

  function Short(b: seq<byte>, p: nat): (x: u16)
    requires p + 2 <= |b|
  {
    var high: int := b[p];
    high * 256 + b[p + 1]
  }

  function ShortBytes(x: u16): (r: seq<byte>)
    ensures |r| == 2
  {
    [x / 256, x % 256]
  }

  // ---------- the block as it comes ----------

  datatype Info = Info(machineType: u16, versions: u16, uams: u16, icon: u16, flags: u16)

  function InfoOf(block: seq<byte>): Info
    requires |block| >= SVRINFO
  {
    Info(Short(block, 0), Short(block, 2), Short(block, 4), Short(block, 6), Short(block, 8))
  }

  function InfoBytes(i: Info): (r: seq<byte>)
    ensures |r| == SVRINFO
  {
    ShortBytes(i.machineType) + ShortBytes(i.versions) + ShortBytes(i.uams) + ShortBytes(i.icon) + ShortBytes(i.flags)
  }

  /** The header and the server's name. */
  function HeadLen(block: seq<byte>): nat
    requires |block| > SVRINFO
  {
    SVRINFO + 1 + block[SVRINFO]
  }

  /** Where the volume icon starts: at the end of the block if there is none. */
  function IconAt(block: seq<byte>): nat
    requires |block| >= SVRINFO
  {
    if InfoOf(block).icon == 0 then |block| else InfoOf(block).icon
  }

  function Pad(block: seq<byte>): nat
    requires |block| > SVRINFO
  {
    HeadLen(block) % 2
  }

  /** The length of the signature, the count and the addresses. */
  function TcpLen(addresses: seq<Address>): nat {
    SIG_LEN + 1 + TCPADDR * |addresses|
  }

  /** What is inserted in front of the offsets' targets, and in all. */
  function Shift(block: seq<byte>): nat
    requires |block| > SVRINFO
  {
    Pad(block) + TCPINFO
  }

  function Inserted(block: seq<byte>, addresses: seq<Address>): nat
    requires |block| > SVRINFO
  {
    Shift(block) + TcpLen(addresses)
  }

  /** A block whose name and icon lie inside it, and that still fits when it has grown. */
  predicate Sound(block: seq<byte>, addresses: seq<Address>) {
    && |block| > SVRINFO
    && HeadLen(block) <= IconAt(block) <= |block|
    && |block| + Inserted(block, addresses) <= QUANTUM_SIZE
    && |addresses| <= 255
  }

  // ---------- the block that is announced ----------

  function Adjusted(offset: u16, delta: nat): u16 {
    if offset == 0 then 0 else (offset + delta) % 0x1_0000
  }

  /** The flags with the bits 0x10 and 0x20 set. */
  function WithBit(flags: u16, bit: nat): (r: u16)
    requires bit == 0x10 || bit == 0x20
  {
    if flags / bit % 2 == 1 then flags else flags + bit
  }

  function AdjustedInfo(i: Info, shift: nat, tcpLen: nat): Info {
    Info(Adjusted(i.machineType, shift), Adjusted(i.versions, shift), Adjusted(i.uams, shift),
         Adjusted(i.icon, shift + tcpLen), WithBit(WithBit(i.flags, 0x10), 0x20))
  }

  function Flat(addresses: seq<Address>): (r: seq<byte>)
    ensures |r| == TCPADDR * |addresses|
  {
    if addresses == [] then [] else Flat(addresses[..|addresses| - 1]) + addresses[|addresses| - 1]
  }

  /** Where the two new offset fields point. */
  function SigAt(block: seq<byte>): nat
    requires |block| > SVRINFO
  {
    IconAt(block) + Shift(block)
  }

  /** The parts of the grown block, in order.  `gap` is the padding byte, whatever was in
      the buffer before. */
  function Grown(block: seq<byte>, gap: seq<byte>, sig: Signature, addresses: seq<Address>): seq<byte>
    requires Sound(block, addresses) && |gap| == Pad(block)
  {
    var len, icon := HeadLen(block), IconAt(block);
    InfoBytes(AdjustedInfo(InfoOf(block), Shift(block), TcpLen(addresses))) + block[SVRINFO..len]
      + gap + ShortBytes(SigAt(block)) + ShortBytes(SigAt(block) + SIG_LEN)
      + block[len..icon]
      + sig + [|addresses|] + Flat(addresses)
      + block[icon..]
  }

  /** Where an old byte is in the grown block. */
  function Relocated(block: seq<byte>, addresses: seq<Address>, i: nat): nat
    requires |block| > SVRINFO
  {
    if i < HeadLen(block) then i
    else if i < IconAt(block) then i + Shift(block)
    else i + Inserted(block, addresses)
  }

  // ---------- what the grown block is ----------

  lemma GrownLength(block: seq<byte>, gap: seq<byte>, sig: Signature, addresses: seq<Address>)
    requires Sound(block, addresses) && |gap| == Pad(block)
    ensures |Grown(block, gap, sig, addresses)| == |block| + Inserted(block, addresses)
  {
  }

  /** Every old byte behind the header is at its relocated offset. */
  lemma OldBytesMove(block: seq<byte>, gap: seq<byte>, sig: Signature, addresses: seq<Address>, i: nat)
    requires Sound(block, addresses) && |gap| == Pad(block) && SVRINFO <= i < |block|
    ensures var r := Relocated(block, addresses, i);
      r < |Grown(block, gap, sig, addresses)| && Grown(block, gap, sig, addresses)[r] == block[i]
  {
    hide InfoBytes, AdjustedInfo, ShortBytes, Flat;
    FlatLength(addresses);
  }

  lemma FlatLength(addresses: seq<Address>)
    ensures |Flat(addresses)| == TCPADDR * |addresses|
  {
  }

  /** The new fields lead to the signature, and to the count and the addresses. */
  lemma NewPartsAreThere(block: seq<byte>, gap: seq<byte>, sig: Signature, addresses: seq<Address>)
    requires Sound(block, addresses) && |gap| == Pad(block)
    ensures var g := Grown(block, gap, sig, addresses); var t := HeadLen(block) + Pad(block);
      && |g| == |block| + Inserted(block, addresses)
      && var s, a := Short(g, t), Short(g, t + 2);
      && s + SIG_LEN == a && a + 1 + |Flat(addresses)| <= |g|
      && g[s..s + SIG_LEN] == sig
      && g[a] == |addresses| && g[a + 1..a + 1 + |Flat(addresses)|] == Flat(addresses)
  {
    var g, t := Grown(block, gap, sig, addresses), HeadLen(block) + Pad(block);
    assert Short(g, t) == SigAt(block) && Short(g, t + 2) == SigAt(block) + SIG_LEN;
  }

  /** The header of the grown block reads as the adjusted header. */
  lemma GrownHeader(block: seq<byte>, gap: seq<byte>, sig: Signature, addresses: seq<Address>)
    requires Sound(block, addresses) && |gap| == Pad(block)
    ensures |Grown(block, gap, sig, addresses)| >= SVRINFO
    ensures InfoOf(Grown(block, gap, sig, addresses)) ==
      AdjustedInfo(InfoOf(block), Shift(block), TcpLen(addresses))
  {
    hide AdjustedInfo;
    var a := AdjustedInfo(InfoOf(block), Shift(block), TcpLen(addresses));
    var g := Grown(block, gap, sig, addresses);
    assert g[..SVRINFO] == InfoBytes(a);
    assert forall k :: 0 <= k < SVRINFO ==> g[k] == InfoBytes(a)[k];
  }

  /** Where an adjusted offset field leads: exactly to where its target has moved, if the
      field is unused or its target lies between the name and the icon; not otherwise. */
  lemma OffsetsFollow(block: seq<byte>, addresses: seq<Address>, offset: u16)
    requires Sound(block, addresses) && offset < |block|
    ensures offset != 0 ==>
      (Adjusted(offset, Shift(block)) == Relocated(block, addresses, offset) <==>
        HeadLen(block) <= offset < IconAt(block))
    ensures offset == 0 ==> Adjusted(offset, Shift(block)) == 0
  {
  }

  /** An offset of the versions that lies behind the icon: it is moved by 4 where its target
      is moved by 21. */
  lemma OffsetsExample()
    ensures var block := [0, 0, 0, 14, 0, 0, 0, 13, 0, 0, 1, 65, 0, 0, 0, 0];
      Sound(block, []) && InfoOf(block).versions == 14
      && Adjusted(14, Shift(block)) == 18 && Relocated(block, [], 14) == 35
  {
    var block: seq<byte> := [0, 0, 0, 14, 0, 0, 0, 13, 0, 0, 1, 65, 0, 0, 0, 0];
    assert Short(block, 6) == 13 && Short(block, 2) == 14;
    assert HeadLen(block) == 12 && IconAt(block) == 13;
  }

  /** The icon field always does. */
  lemma IconFollows(block: seq<byte>, addresses: seq<Address>)
    requires Sound(block, addresses)
    ensures var icon := InfoOf(block).icon;
      Adjusted(icon, Inserted(block, addresses)) ==
        if icon == 0 then 0 else Relocated(block, addresses, icon)
  {
  }

  lemma BitsOf(a: nat, b: nat, c: nat, d: nat)
    requires b < 2 && c < 2 && d < 0x10
    ensures var x := 0x40 * a + 0x20 * b + 0x10 * c + d;
      x / 0x10 % 2 == c && x / 0x20 % 2 == b && x % 0x10 == d && x / 0x40 == a
  {
    var x := 0x40 * a + 0x20 * b + 0x10 * c + d;
    assert x / 0x10 == 4 * a + 2 * b + c;
    assert x / 0x20 == 2 * a + b;
  }

  /** The fields of the announced block lead to their targets: each of the machine type, the
      versions and the UAMs to the byte it led to before, exactly if that lies between the
      name and the icon, and the icon field to the icon.  A field that is not used stays so. */
  lemma FieldsLead(block: seq<byte>, gap: seq<byte>, sig: Signature, addresses: seq<Address>, p: nat)
    requires Sound(block, addresses) && |gap| == Pad(block) && p in {0, 2, 4}
    ensures var g, f := Grown(block, gap, sig, addresses), Short(block, p);
      && |g| == |block| + Inserted(block, addresses)
      && (f == 0 ==> Short(g, p) == 0)
      && (HeadLen(block) <= f < IconAt(block) ==> Short(g, p) < |g| && g[Short(g, p)] == block[f])
      && (0 < f < |block| ==>
            (Short(g, p) == Relocated(block, addresses, f) <==> HeadLen(block) <= f < IconAt(block)))
    ensures var g, i := Grown(block, gap, sig, addresses), Short(block, 6);
      && (i == 0 ==> Short(g, 6) == 0)
      && (i != 0 ==> Short(g, 6) <= |g| && g[Short(g, 6)..] == block[i..])
  {
    var g, f, i := Grown(block, gap, sig, addresses), Short(block, p), Short(block, 6);
    GrownLength(block, gap, sig, addresses);
    GrownHeader(block, gap, sig, addresses);
    hide Grown, InfoBytes;
    if f < |block| { OffsetsFollow(block, addresses, f); }
    if HeadLen(block) <= f < IconAt(block) { OldBytesMove(block, gap, sig, addresses, f); }
    if i != 0 { IconArrives(block, gap, sig, addresses); }
  }

  lemma IconArrives(block: seq<byte>, gap: seq<byte>, sig: Signature, addresses: seq<Address>)
    requires Sound(block, addresses) && |gap| == Pad(block) && Short(block, 6) != 0
    ensures var g, i := Grown(block, gap, sig, addresses), Short(block, 6);
      Short(g, 6) == i + Inserted(block, addresses) <= |g| && g[Short(g, 6)..] == block[i..]
  {
    hide Grown, InfoBytes;
    var g, i := Grown(block, gap, sig, addresses), Short(block, 6);
    GrownLength(block, gap, sig, addresses);
    GrownHeader(block, gap, sig, addresses);
    forall k | i <= k < |block|
      ensures k + Inserted(block, addresses) < |g| && g[k + Inserted(block, addresses)] == block[k]
    {
      OldBytesMove(block, gap, sig, addresses, k);
    }
    assert g[i + Inserted(block, addresses)..] == block[i..];
  }

  /** Setting the two flags changes no other. */
  lemma FlagsKept(flags: u16)
    ensures var r := WithBit(WithBit(flags, 0x10), 0x20);
      && r / 0x10 % 2 == 1 && r / 0x20 % 2 == 1
      && r % 0x10 == flags % 0x10 && r / 0x40 == flags / 0x40
  {
    var a, d := flags / 0x40, flags % 0x10;
    var high := flags / 0x10;
    var b, c := high / 2 % 2, high % 2;
    assert flags == 0x40 * a + 0x20 * b + 0x10 * c + d;
    BitsOf(a, b, c, d);
    BitsOf(a, b, 1, d);
    BitsOf(a, 1, 1, d);
  }

  /** In the announced block the two flags are set and every other flag is as it was. */
  lemma FlagsAnnounced(block: seq<byte>, gap: seq<byte>, sig: Signature, addresses: seq<Address>)
    requires Sound(block, addresses) && |gap| == Pad(block)
    ensures var g := Grown(block, gap, sig, addresses);
      |g| >= SVRINFO && var now, was := Short(g, 8), Short(block, 8);
      && now / 0x10 % 2 == 1 && now / 0x20 % 2 == 1 && now % 0x10 == was % 0x10 && now / 0x40 == was / 0x40
  {
    GrownHeader(block, gap, sig, addresses);
    FlagsKept(Short(block, 8));
    hide Grown, WithBit;
  }

  // ---------- the code ----------

  datatype Status = NoError | SizeErr | NoSuchEntity | ParamErr

  /** `memcpy` into the buffer. */
  method CopyInto(buf: array<byte>, at: nat, s: seq<byte>)
    requires at + |s| <= buf.Length
    modifies buf
    ensures buf[..] == Overwritten(old(buf[..]), at, s)
  {
    for i := 0 to |s|
      invariant forall k :: 0 <= k < i ==> buf[at + k] == s[k]
      invariant forall k :: 0 <= k < buf.Length && !(at <= k < at + i) ==> buf[k] == old(buf[k])
    {
      buf[at + i] := s[i];
    }
  }

  function Overwritten(b: seq<byte>, at: nat, s: seq<byte>): (r: seq<byte>)
    requires at + |s| <= |b|
    ensures |r| == |b|
  {
    b[..at] + s + b[at + |s|..]
  }

  /** `GetTCPInfo` stores the addresses one after the other and returns how many. */
  method GetTcpInfo(buf: array<byte>, at: nat, addresses: seq<Address>) returns (count: nat)
    requires at + TCPADDR * |addresses| <= buf.Length
    modifies buf
    ensures count == |addresses|
    ensures buf[..] == Overwritten(old(buf[..]), at, Flat(addresses))
  {
    hide Overwritten;
    count := 0;
    NothingOverwritten(buf[..], at);
    while count < |addresses|
      invariant 0 <= count <= |addresses|
      invariant buf[..] == Overwritten(old(buf[..]), at, Flat(addresses[..count]))
    {
      ghost var before := buf[..];
      CopyInto(buf, at + TCPADDR * count, addresses[count]);
      assert addresses[..count + 1][..count] == addresses[..count];
      OverwrittenTwice(old(buf[..]), at, Flat(addresses[..count]), addresses[count]);
      count := count + 1;
    }
    assert addresses[..count] == addresses;
  }

  lemma NothingOverwritten(b: seq<byte>, at: nat)
    requires at <= |b|
    ensures Overwritten(b, at, []) == b
  {
  }

  lemma OverwrittenTwice(b: seq<byte>, at: nat, s: seq<byte>, t: seq<byte>)
    requires at + |s| + |t| <= |b|
    ensures Overwritten(Overwritten(b, at, s), at + |s|, t) == Overwritten(b, at, s + t)
  {
  }

  // ---------- keeping track of what has been written where ----------

  datatype Part = Part(at: nat, bytes: seq<byte>)

  predicate Holds(b: seq<byte>, p: Part) {
    p.at + |p.bytes| <= |b| && b[p.at..p.at + |p.bytes|] == p.bytes
  }

  predicate AllHold(b: seq<byte>, ps: seq<Part>) {
    forall i :: 0 <= i < |ps| ==> Holds(b, ps[i])
  }

  predicate Apart(p: Part, q: Part) {
    p.at + |p.bytes| <= q.at || q.at + |q.bytes| <= p.at
  }

  lemma OneKept(b: seq<byte>, p: Part, new_: Part)
    requires Holds(b, p) && Apart(p, new_) && new_.at + |new_.bytes| <= |b|
    ensures Holds(Overwritten(b, new_.at, new_.bytes), p)
  {
    var c := Overwritten(b, new_.at, new_.bytes);
    forall i | 0 <= i < |p.bytes|
      ensures c[p.at..p.at + |p.bytes|][i] == p.bytes[i]
    {
      assert c[p.at + i] == b[p.at + i] == b[p.at..p.at + |p.bytes|][i];
    }
  }

  /** A copy to a place apart keeps every part, and adds one. */
  lemma CopyKeeps(b: seq<byte>, ps: seq<Part>, new_: Part)
    requires AllHold(b, ps) && new_.at + |new_.bytes| <= |b|
    requires forall i :: 0 <= i < |ps| ==> Apart(ps[i], new_)
    ensures AllHold(Overwritten(b, new_.at, new_.bytes), ps + [new_])
  {
    hide Holds, Overwritten;
    forall i | 0 <= i < |ps|
      ensures Holds(Overwritten(b, new_.at, new_.bytes), ps[i])
    {
      OneKept(b, ps[i], new_);
    }
    WrittenHolds(b, new_.at, new_.bytes);
  }

  method PutShort(buf: array<byte>, p: nat, x: u16)
    requires p + 2 <= buf.Length
    modifies buf
    ensures buf[..] == Overwritten(old(buf[..]), p, ShortBytes(x))
  {
    CopyInto(buf, p, ShortBytes(x));
  }

  /** Adds to one offset field unless it is zero. */
  method AdjustField(buf: array<byte>, p: nat, delta: nat)
    requires p + 2 <= buf.Length
    modifies buf
    ensures buf[..] == Overwritten(old(buf[..]), p, ShortBytes(Adjusted(Short(old(buf[..]), p), delta)))
  {
    var x := Short(buf[..], p);
    if x != 0 {
      PutShort(buf, p, (x + delta) % 0x1_0000);
    } else {
      assert buf[..][p..p + 2] == ShortBytes(x);
      assert buf[..] == Overwritten(buf[..], p, ShortBytes(x));
    }
  }

  /** The first parts written are followed by others without a break. */
  lemma Joined(b: seq<byte>, at: nat, s: seq<byte>, t: seq<byte>)
    requires Holds(b, Part(at, s)) && Holds(b, Part(at + |s|, t))
    ensures Holds(b, Part(at, s + t))
  {
    assert b[at..at + |s + t|] == b[at..at + |s|] + b[at + |s|..at + |s| + |t|];
  }

  /** The four offset fields of a block at p. */
  method AdjustOffsets(buf: array<byte>, p: nat, block: seq<byte>, shift: nat, tcpLen: nat)
    requires |block| >= SVRINFO && p + SVRINFO <= buf.Length
    requires Holds(buf[..], Part(p, block[..SVRINFO]))
    modifies buf
    ensures buf[..] == Overwritten(old(buf[..]), p, OffsetBytes(InfoOf(block), shift, tcpLen))
  {
    hide Holds, Overwritten, ShortBytes, Adjusted, Short;
    ghost var b0 := buf[..];
    ghost var i := InfoOf(block);
    ReadsShort(b0, p, block, 0);
    ReadsShort(b0, p, block, 2);
    ReadsShort(b0, p, block, 4);
    ReadsShort(b0, p, block, 6);
    AdjustField(buf, p, shift);
    ghost var b1 := buf[..];
    ghost var w1 := ShortBytes(Adjusted(i.machineType, shift));
    ShortBehind(b0, p, w1, 2);
    ShortBehind(b0, p, w1, 4);
    ShortBehind(b0, p, w1, 6);
    AdjustField(buf, p + 2, shift);
    ghost var w2 := w1 + ShortBytes(Adjusted(i.versions, shift));
    OverwrittenTwice(b0, p, w1, ShortBytes(Adjusted(i.versions, shift)));
    ShortBehind(b0, p, w2, 4);
    ShortBehind(b0, p, w2, 6);
    AdjustField(buf, p + 4, shift);
    ghost var w3 := w2 + ShortBytes(Adjusted(i.uams, shift));
    OverwrittenTwice(b0, p, w2, ShortBytes(Adjusted(i.uams, shift)));
    ShortBehind(b0, p, w3, 6);
    AdjustField(buf, p + 6, shift + tcpLen);
    OverwrittenTwice(b0, p, w3, ShortBytes(Adjusted(i.icon, shift + tcpLen)));
  }

  function OffsetBytes(i: Info, shift: nat, tcpLen: nat): (r: seq<byte>)
    ensures |r| == 8
  {
    ShortBytes(Adjusted(i.machineType, shift)) + ShortBytes(Adjusted(i.versions, shift))
      + ShortBytes(Adjusted(i.uams, shift)) + ShortBytes(Adjusted(i.icon, shift + tcpLen))
  }

  lemma ReadsShort(b: seq<byte>, p: nat, block: seq<byte>, k: nat)
    requires k + 2 <= SVRINFO <= |block| && Holds(b, Part(p, block[..SVRINFO]))
    ensures Short(b, p + k) == Short(block, k)
  {
    assert b[p..p + SVRINFO][k] == block[k] && b[p..p + SVRINFO][k + 1] == block[k + 1];
  }

  lemma ShortBehind(b: seq<byte>, p: nat, w: seq<byte>, k: nat)
    requires |w| <= k && p + k + 2 <= |b|
    ensures Short(Overwritten(b, p, w), p + k) == Short(b, p + k)
  {
  }

  lemma TakePart(b: seq<byte>, at: nat, s: seq<byte>, n: nat)
    requires n <= |s| && Holds(b, Part(at, s))
    ensures Holds(b, Part(at, s[..n])) && Holds(b, Part(at + n, s[n..]))
  {
    var t := b[at..at + |s|];
    assert t[..n] == b[at..at + n] && t[n..] == b[at + n..at + |s|];
  }

  // the parts of the grown block, by place

  function InfoPart(block: seq<byte>): Part
    requires |block| >= SVRINFO
  {
    Part(PACKET, block[..SVRINFO])
  }

  function NamePart(block: seq<byte>): Part
    requires |block| > SVRINFO && HeadLen(block) <= |block|
  {
    Part(PACKET + SVRINFO, block[SVRINFO..HeadLen(block)])
  }

  function GapPart(block: seq<byte>, gap: seq<byte>): Part
    requires |block| > SVRINFO
  {
    Part(PACKET + HeadLen(block), gap)
  }

  function TcpInfoPart(block: seq<byte>, addresses: seq<Address>): Part
    requires Sound(block, addresses)
  {
    Part(PACKET + HeadLen(block) + Pad(block), ShortBytes(SigAt(block)) + ShortBytes(SigAt(block) + SIG_LEN))
  }

  function MiddlePart(block: seq<byte>, addresses: seq<Address>): Part
    requires Sound(block, addresses)
  {
    Part(PACKET + HeadLen(block) + Shift(block), block[HeadLen(block)..IconAt(block)])
  }

  function SigPart(block: seq<byte>, sig: Signature): Part
    requires |block| > SVRINFO
  {
    Part(PACKET + SigAt(block), sig)
  }

  function AddressPart(block: seq<byte>, addresses: seq<Address>): Part
    requires Sound(block, addresses)
  {
    Part(PACKET + SigAt(block) + SIG_LEN, [|addresses|] + Flat(addresses))
  }

  function IconPart(block: seq<byte>, addresses: seq<Address>): Part
    requires Sound(block, addresses)
  {
    Part(PACKET + IconAt(block) + Inserted(block, addresses), block[IconAt(block)..])
  }

  /** The parts written before the header is adjusted. */
  function Frame(block: seq<byte>, gap: seq<byte>, sig: Signature, addresses: seq<Address>): seq<Part>
    requires Sound(block, addresses)
  {
    [NamePart(block), GapPart(block, gap), TcpInfoPart(block, addresses), SigPart(block, sig),
     AddressPart(block, addresses)]
  }

  /** Copies the header and the name, and inserts the new parts. */
  method InsertTcp(buf: array<byte>, block: seq<byte>, sig: Signature, addresses: seq<Address>, ghost gap: seq<byte>)
    requires buf.Length == PACKET + QUANTUM_SIZE && Sound(block, addresses)
    requires |gap| == Pad(block) && Holds(buf[..], GapPart(block, gap))
    modifies buf
    ensures Holds(buf[..], InfoPart(block)) && AllHold(buf[..], Frame(block, gap, sig, addresses))
  {
    hide Holds, Overwritten, Flat, InfoOf;
    var len, pad := HeadLen(block), Pad(block);
    ghost var b0 := buf[..];
    CopyInto(buf, PACKET, block[..len]);
    OneKept(b0, GapPart(block, gap), Part(PACKET, block[..len]));
    WrittenHolds(b0, PACKET, block[..len]);
    TakePart(buf[..], PACKET, block[..len], SVRINFO);
    assert block[..len][..SVRINFO] == block[..SVRINFO] && block[..len][SVRINFO..] == block[SVRINFO..len];
    ghost var ps := [InfoPart(block), NamePart(block), GapPart(block, gap)];
    assert AllHold(buf[..], ps);
    var t := PACKET + len + pad;
    ghost var b1 := buf[..];
    PutShort(buf, t, SigAt(block));
    PutShort(buf, t + 2, SigAt(block) + SIG_LEN);
    OverwrittenTwice(b1, t, ShortBytes(SigAt(block)), ShortBytes(SigAt(block) + SIG_LEN));
    CopyKeeps(b1, ps, TcpInfoPart(block, addresses));
    ps := ps + [TcpInfoPart(block, addresses)];
    ghost var b2 := buf[..];
    CopyInto(buf, PACKET + SigAt(block), sig);
    CopyKeeps(b2, ps, SigPart(block, sig));
    ps := ps + [SigPart(block, sig)];
    InsertAddresses(buf, block, addresses, ps);
    ghost var all := ps + [AddressPart(block, addresses)];
    assert all[0] == InfoPart(block) && all[1..] == Frame(block, gap, sig, addresses);
    assert forall i :: 0 <= i < |all[1..]| ==> all[1..][i] == all[i + 1];
  }

  /** The addresses, and then their number in front of them. */
  method InsertAddresses(buf: array<byte>, block: seq<byte>, addresses: seq<Address>, ghost ps: seq<Part>)
    requires buf.Length == PACKET + QUANTUM_SIZE && Sound(block, addresses)
    requires AllHold(buf[..], ps) && forall i :: 0 <= i < |ps| ==> Apart(ps[i], AddressPart(block, addresses))
    modifies buf
    ensures AllHold(buf[..], ps + [AddressPart(block, addresses)])
  {
    hide Holds, AllHold, Flat, InfoOf;
    ghost var b := buf[..];
    var a := PACKET + SigAt(block) + SIG_LEN;
    var count := GetTcpInfo(buf, a + 1, addresses);
    CopyInto(buf, a, [count]);
    assert buf[..] == Overwritten(b, a, [count] + Flat(addresses));
    CopyKeeps(b, ps, AddressPart(block, addresses));
  }

  lemma WrittenHolds(b: seq<byte>, at: nat, s: seq<byte>)
    requires at + |s| <= |b|
    ensures Holds(Overwritten(b, at, s), Part(at, s))
  {
  }

  function OffsetsPart(block: seq<byte>, addresses: seq<Address>): Part
    requires Sound(block, addresses)
  {
    Part(PACKET, OffsetBytes(InfoOf(block), Shift(block), TcpLen(addresses)))
  }

  function FlagsPart(flags: u16): Part {
    Part(PACKET + 8, ShortBytes(flags))
  }

  /** Adjusts the header, and copies what follows the name: the icon behind the new parts,
      the rest in front of them. */
  method MoveRest(buf: array<byte>, block: seq<byte>, addresses: seq<Address>, ghost frame: seq<Part>)
    requires buf.Length == PACKET + QUANTUM_SIZE && Sound(block, addresses)
    requires Holds(buf[..], InfoPart(block)) && AllHold(buf[..], frame)
    requires forall i :: 0 <= i < |frame| ==>
      Apart(frame[i], InfoPart(block)) && Apart(frame[i], MiddlePart(block, addresses)) && Apart(frame[i], IconPart(block, addresses))
    modifies buf
    ensures AllHold(buf[..], frame + [OffsetsPart(block, addresses), IconPart(block, addresses),
      FlagsPart(WithBit(WithBit(InfoOf(block).flags, 0x10), 0x20)), MiddlePart(block, addresses)])
  {
    hide Holds, AllHold, Overwritten, OffsetBytes, WithBit;
    var len, icon := HeadLen(block), IconAt(block);
    var shift, tcpLen := Shift(block), TcpLen(addresses);
    ghost var info := InfoOf(block);
    ghost var b0 := buf[..];
    AdjustOffsets(buf, PACKET, block, shift, tcpLen);
    ghost var ps := frame + [OffsetsPart(block, addresses)];
    CopyKeeps(b0, frame, OffsetsPart(block, addresses));
    FlagsStay(b0, block, OffsetsPart(block, addresses).bytes);
    ghost var b1 := buf[..];
    if InfoOf(block).icon != 0 {
      CopyInto(buf, PACKET + icon + shift + tcpLen, block[icon..]);
    } else {
      CopyNothing(b1, IconPart(block, addresses));
    }
    CopyKeeps(b1, ps, IconPart(block, addresses));
    ps := ps + [IconPart(block, addresses)];
    FlagsBefore(b1, IconPart(block, addresses));
    ghost var b2 := buf[..];
    var flags := Short(buf[..], PACKET + 8);
    PutShort(buf, PACKET + 8, WithBit(WithBit(flags, 0x10), 0x20));
    CopyKeeps(b2, ps, FlagsPart(WithBit(WithBit(flags, 0x10), 0x20)));
    ps := ps + [FlagsPart(WithBit(WithBit(flags, 0x10), 0x20))];
    ghost var b3 := buf[..];
    CopyInto(buf, PACKET + len + shift, block[len..icon]);
    CopyKeeps(b3, ps, MiddlePart(block, addresses));
    assert ps + [MiddlePart(block, addresses)] == frame + [OffsetsPart(block, addresses), IconPart(block, addresses),
      FlagsPart(WithBit(WithBit(flags, 0x10), 0x20)), MiddlePart(block, addresses)];
  }

  lemma FlagsStay(b: seq<byte>, block: seq<byte>, w: seq<byte>)
    requires |block| >= SVRINFO && Holds(b, Part(PACKET, block[..SVRINFO])) && |w| == 8
    ensures Short(Overwritten(b, PACKET, w), PACKET + 8) == InfoOf(block).flags
  {
    ReadsShort(b, PACKET, block, 8);
    ShortBehind(b, PACKET, w, 8);
  }

  lemma FlagsBefore(b: seq<byte>, p: Part)
    requires PACKET + SVRINFO <= p.at && p.at + |p.bytes| <= |b|
    ensures Short(Overwritten(b, p.at, p.bytes), PACKET + 8) == Short(b, PACKET + 8)
  {
  }

  lemma CopyNothing(b: seq<byte>, p: Part)
    requires p.bytes == [] && p.at <= |b|
    ensures Overwritten(b, p.at, p.bytes) == b
  {
  }

  /** All parts together are the grown block. */
  lemma Assembled(b: seq<byte>, block: seq<byte>, gap: seq<byte>, sig: Signature, addresses: seq<Address>)
    requires Sound(block, addresses) && |gap| == Pad(block)
    requires AllHold(b, Frame(block, gap, sig, addresses) + [OffsetsPart(block, addresses), IconPart(block, addresses),
      FlagsPart(WithBit(WithBit(InfoOf(block).flags, 0x10), 0x20)), MiddlePart(block, addresses)])
    ensures Holds(b, Part(PACKET, Grown(block, gap, sig, addresses)))
  {
    hide Holds, OffsetBytes, WithBit, Flat, ShortBytes, InfoOf;
    var len, icon := HeadLen(block), IconAt(block);
    var ps := Frame(block, gap, sig, addresses) + [OffsetsPart(block, addresses), IconPart(block, addresses),
      FlagsPart(WithBit(WithBit(InfoOf(block).flags, 0x10), 0x20)), MiddlePart(block, addresses)];
    var w := OffsetsPart(block, addresses).bytes;
    assert Holds(b, ps[5]) && Holds(b, ps[7]) && Holds(b, ps[0]) && Holds(b, ps[1]) && Holds(b, ps[2]);
    assert Holds(b, ps[8]) && Holds(b, ps[3]) && Holds(b, ps[4]) && Holds(b, ps[6]);
    var parts := [ps[7].bytes, ps[0].bytes, ps[1].bytes, ps[2].bytes, ps[8].bytes, ps[3].bytes, ps[4].bytes, ps[6].bytes];
    var w1 := w + parts[0];
    Joined(b, PACKET, w, parts[0]);
    var w2 := w1 + parts[1];
    Joined(b, PACKET, w1, parts[1]);
    var w3 := w2 + parts[2];
    Joined(b, PACKET, w2, parts[2]);
    var w4 := w3 + parts[3];
    Joined(b, PACKET, w3, parts[3]);
    var w5 := w4 + parts[4];
    Joined(b, PACKET, w4, parts[4]);
    var w6 := w5 + parts[5];
    Joined(b, PACKET, w5, parts[5]);
    var w7 := w6 + parts[6];
    Joined(b, PACKET, w6, parts[6]);
    var w8 := w7 + parts[7];
    Joined(b, PACKET, w7, parts[7]);
    GrownIsJoined(block, gap, sig, addresses);
  }

  lemma GrownIsJoined(block: seq<byte>, gap: seq<byte>, sig: Signature, addresses: seq<Address>)
    requires Sound(block, addresses) && |gap| == Pad(block)
    ensures Grown(block, gap, sig, addresses) ==
      OffsetsPart(block, addresses).bytes + ShortBytes(WithBit(WithBit(InfoOf(block).flags, 0x10), 0x20))
        + NamePart(block).bytes + gap + TcpInfoPart(block, addresses).bytes + MiddlePart(block, addresses).bytes
        + sig + AddressPart(block, addresses).bytes + IconPart(block, addresses).bytes
  {
    hide WithBit, Flat, ShortBytes, InfoOf, Adjusted;
  }

  /** `SPNewStatus`.  The block that goes to the device is the one given, unless there is a
      TCP listener: then it is the grown one, which is also kept for `SPGetStatus`. */
  method NewStatus(buf: array<byte>, statusLen: nat, block: seq<byte>, listening: bool, known: bool, tcp: bool,
                   deviceOk: bool, sig: Signature, addresses: seq<Address>)
    returns (status: Status, announced: seq<byte>, statusLen': nat)
    requires buf.Length == PACKET + QUANTUM_SIZE
    requires |block| <= QUANTUM_SIZE && listening && known && tcp ==> Sound(block, addresses)
    modifies buf
    ensures status ==
      if |block| > QUANTUM_SIZE then SizeErr
      else if listening && !known then NoSuchEntity
      else if deviceOk then NoError else ParamErr
    ensures status == SizeErr || status == NoSuchEntity || !listening || !tcp ==>
      buf[..] == old(buf[..]) && statusLen' == statusLen && announced == block
    ensures (status == NoError || status == ParamErr) && listening && tcp ==>
      var t := PACKET + HeadLen(block);
      && announced == Grown(block, old(buf[t..t + Pad(block)]), sig, addresses)
      && statusLen' == |announced| && buf[PACKET..PACKET + statusLen'] == announced
  {
    announced, statusLen' := block, statusLen;
    if |block| > QUANTUM_SIZE {
      return SizeErr, announced, statusLen';
    }
    if listening {
      if !known {
        return NoSuchEntity, announced, statusLen';
      }
      if tcp {
        announced := Grow(buf, block, sig, addresses);
        statusLen' := |announced|;
      }
    }
    status := if deviceOk then NoError else ParamErr;
  }

  method Grow(buf: array<byte>, block: seq<byte>, sig: Signature, addresses: seq<Address>) returns (grown: seq<byte>)
    requires buf.Length == PACKET + QUANTUM_SIZE && Sound(block, addresses)
    modifies buf
    ensures var t := PACKET + HeadLen(block);
      grown == Grown(block, old(buf[t..t + Pad(block)]), sig, addresses)
    ensures PACKET + |grown| <= buf.Length && buf[PACKET..PACKET + |grown|] == grown
  {
    hide AllHold, WithBit, Flat, InfoOf, OffsetBytes, ShortBytes, Grown;
    var t := PACKET + HeadLen(block);
    ghost var gap := buf[t..t + Pad(block)];
    assert buf[..][t..t + Pad(block)] == gap;
    InsertTcp(buf, block, sig, addresses, gap);
    MoveRest(buf, block, addresses, Frame(block, gap, sig, addresses));
    Assembled(buf[..], block, gap, sig, addresses);
    GrownLength(block, gap, sig, addresses);
    var size := |block| + Pad(block) + TCPINFO + TcpLen(addresses);
    grown := buf[PACKET..PACKET + size];
    assert buf[..][PACKET..PACKET + size] == grown;
  }
}
