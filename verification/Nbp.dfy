/** Name Binding Protocol replies (LibcAT/nbp_send.c): how entity names are packed into
    tuples, and how replies are collected without duplicates. */
module NbpCodec {
  import opened Bytes
  import opened Seqs

  const NVE_STR_SIZE := 32

  /** A name field: at most 32 bytes, as the protocol allows. */
  type Name = s: seq<byte> | |s| <= NVE_STR_SIZE witness []

  datatype Entity = Entity(object_: Name, type_: Name, zone: Name)

  datatype Addr = Addr(net0: byte, net1: byte, node: byte, socket: byte)

  datatype Tuple = Tuple(addr: Addr, enumerator: byte, entity: Entity)

  /** Bytes before the names: an internet address and an enumerator. */
  const PREFIX := 5

  function PackName(n: Name): seq<byte> {
    [|n|] + n
  }

  function PackEntity(e: Entity): seq<byte> {
    PackName(e.object_) + PackName(e.type_) + PackName(e.zone)
  }

  /** A tuple as it travels in a packet. */
  function PackTuple(t: Tuple): seq<byte> {
    [t.addr.net0, t.addr.net1, t.addr.node, t.addr.socket, t.enumerator] + PackEntity(t.entity)
  }

  function PackAll(ts: seq<Tuple>): seq<byte> {
    if ts == [] then [] else PackTuple(ts[0]) + PackAll(ts[1..])
  }

  /** The packed tuple of `t` stands at offset p of the packet. */
  ghost predicate TupleAt(buf: seq<byte>, p: nat, t: Tuple) {
    p + |PackTuple(t)| <= |buf| && buf[p..p + |PackTuple(t)|] == PackTuple(t)
  }

  /** Where the parts of a packed tuple are. */
  lemma TupleLayout(buf: seq<byte>, p: nat, t: Tuple)
    requires TupleAt(buf, p, t)
    ensures var o := p + PREFIX; var ty := o + 1 + |t.entity.object_|; var z := ty + 1 + |t.entity.type_|;
      && z + 1 + |t.entity.zone| == p + |PackTuple(t)| <= |buf|
      && buf[p..o] == [t.addr.net0, t.addr.net1, t.addr.node, t.addr.socket, t.enumerator]
      && buf[o] == |t.entity.object_| && buf[o + 1..ty] == t.entity.object_
      && buf[ty] == |t.entity.type_| && buf[ty + 1..z] == t.entity.type_
      && buf[z] == |t.entity.zone| && buf[z + 1..z + 1 + |t.entity.zone|] == t.entity.zone
  {
    hide PackName;
    var w := PackTuple(t);
    var e := t.entity;
    var a, b, c := PackName(e.object_), PackName(e.type_), PackName(e.zone);
    var head := [t.addr.net0, t.addr.net1, t.addr.node, t.addr.socket, t.enumerator];
    assert w == head + a + b + c;
    NameBytes(e.object_);
    NameBytes(e.type_);
    NameBytes(e.zone);
    Slices(buf, p, head, a, b, c);
  }

  lemma NameBytes(n: Name)
    ensures var a := PackName(n); |a| == 1 + |n| && a[0] == |n| && a[1..] == n
  {
  }

  lemma Slices(buf: seq<byte>, p: nat, head: seq<byte>, a: seq<byte>, b: seq<byte>, c: seq<byte>)
    requires var w := head + a + b + c; p + |w| <= |buf| && buf[p..p + |w|] == w
    requires |a| > 0 && |b| > 0 && |c| > 0
    ensures var o := p + |head|; var y := o + |a|; var z := y + |b|;
      && buf[p..o] == head
      && buf[o] == a[0] && buf[o + 1..y] == a[1..]
      && buf[y] == b[0] && buf[y + 1..z] == b[1..]
      && buf[z] == c[0] && buf[z + 1..z + |c|] == c[1..]
  {
    var w := head + a + b + c;
    var o := p + |head|;
    var y, z := o + |a|, o + |a| + |b|;
    Segment(buf, p, w, [], head, a + b + c);
    Segment(buf, p, w, head, a, b + c);
    Segment(buf, p, w, head + a, b, c);
    Segment(buf, p, w, head + a + b, c, []);
    FirstAndRest(buf, o, a);
    FirstAndRest(buf, y, b);
    FirstAndRest(buf, z, c);
  }

  lemma Segment(buf: seq<byte>, p: nat, w: seq<byte>, before: seq<byte>, a: seq<byte>, after: seq<byte>)
    requires p + |w| <= |buf| && buf[p..p + |w|] == w == before + a + after
    ensures var o := p + |before|; buf[o..o + |a|] == a
  {
    var k := |before|;
    forall i | 0 <= i < |a|
      ensures buf[p + k..p + k + |a|][i] == a[i]
    {
      assert a[i] == w[k + i] == buf[p..p + |w|][k + i] == buf[p + (k + i)];
    }
  }

  lemma FirstAndRest(buf: seq<byte>, o: nat, a: seq<byte>)
    requires o + |a| <= |buf| && buf[o..o + |a|] == a && |a| > 0
    ensures buf[o] == a[0] && buf[o + 1..o + |a|] == a[1..]
  {
    assert buf[o..o + |a|][0] == buf[o];
    assert buf[o..o + |a|][1..] == buf[o + 1..o + |a|];
  }

  /** `nbp_len`: the length of the tuple at p, from its three length bytes. */
  method NbpLen(buf: seq<byte>, p: nat, ghost t: Tuple) returns (len: nat)
    requires TupleAt(buf, p, t)
    ensures len == |PackTuple(t)|
  {
    TupleLayout(buf, p, t);
    len := PREFIX;
    var q := p + PREFIX;
    len := len + buf[q] + 1;
    q := q + buf[q] + 1;
    len := len + buf[q] + 1;
    q := q + buf[q] + 1;
    len := len + buf[q] + 1;
  }

  /** `nbp_unpack_tuple`: the names of the tuple at p. */
  method UnpackEntity(buf: seq<byte>, p: nat, ghost t: Tuple) returns (e: Entity)
    requires TupleAt(buf, p, t)
    ensures e == t.entity
  {
    TupleLayout(buf, p, t);
    var q := p + PREFIX;
    var object_ := buf[q + 1..q + 1 + buf[q]];
    q := q + buf[q] + 1;
    var type_ := buf[q + 1..q + 1 + buf[q]];
    q := q + buf[q] + 1;
    var zone := buf[q + 1..q + 1 + buf[q]];
    e := Entity(object_, type_, zone);
  }

  /** Copies a length byte and a name into the buffer. */
  method CopyName(buf: array<byte>, p: nat, n: Name) returns (q: nat)
    requires p + 1 + |n| <= buf.Length
    modifies buf
    ensures q == p + 1 + |n|
    ensures buf[..] == old(buf[..p]) + PackName(n) + old(buf[q..])
  {
    buf[p] := |n|;
    for i := 0 to |n|
      invariant buf[p] == |n|
      invariant forall k :: 0 <= k < i ==> buf[p + 1 + k] == n[k]
      invariant forall k :: 0 <= k < buf.Length && !(p <= k < p + 1 + i) ==> buf[k] == old(buf[k])
    {
      buf[p + 1 + i] := n[i];
    }
    q := p + 1 + |n|;
  }

  /** `nbp_pack_tuple`: writes the names after the address and the enumerator. */
  method PackInto(e: Entity, buf: array<byte>, p: nat)
    requires p + PREFIX + |PackEntity(e)| <= buf.Length
    modifies buf
    ensures buf[..] == old(buf[..p + PREFIX]) + PackEntity(e) + old(buf[p + PREFIX + |PackEntity(e)|..])
  {
    hide PackName;
    ghost var was := buf[..];
    var q := p + PREFIX;
    ghost var o := q;
    NameBytes(e.object_);
    NameBytes(e.type_);
    NameBytes(e.zone);
    ghost var a, b, c := PackName(e.object_), PackName(e.type_), PackName(e.zone);
    q := CopyName(buf, q, e.object_);
    ghost var one := buf[..];
    q := CopyName(buf, q, e.type_);
    ghost var two := buf[..];
    assert two == was[..o] + (a + b) + was[o + |a + b|..] by {
      Written(was, o, a, b);
      assert two == one[..o + |a|] + b + one[o + |a| + |b|..];
    }
    q := CopyName(buf, q, e.zone);
    assert buf[..] == was[..o] + (a + b + c) + was[o + |a + b + c|..] by {
      Written(was, o, a + b, c);
      assert buf[..] == two[..o + |a + b|] + c + two[o + |a + b| + |c|..];
    }
  }

  /** Writing `next` right behind what was written at o. */
  lemma Written(was: seq<byte>, o: nat, done: seq<byte>, next: seq<byte>)
    requires o + |done| + |next| <= |was|
    ensures var now := was[..o] + done + was[o + |done|..]; var q := o + |done|;
      now[..q] + next + now[q + |next|..] == was[..o] + (done + next) + was[o + |done + next|..]
  {
  }

  /** What was packed is what stands there. */
  lemma PackedIsThere(buf: seq<byte>, p: nat, t: Tuple)
    requires p + |PackTuple(t)| <= |buf|
    requires buf[p..p + PREFIX] == [t.addr.net0, t.addr.net1, t.addr.node, t.addr.socket, t.enumerator]
    requires buf[p + PREFIX..p + |PackTuple(t)|] == PackEntity(t.entity)
    ensures TupleAt(buf, p, t)
  {
    assert buf[p..p + |PackTuple(t)|] == buf[p..p + PREFIX] + buf[p + PREFIX..p + |PackTuple(t)|];
  }

  /** Packing a name into any buffer and unpacking it gives the same three names back. */
  method PackUnpack(t: Tuple, buf: array<byte>, p: nat) returns (e: Entity)
    requires p + |PackTuple(t)| <= buf.Length
    requires buf[p..p + PREFIX] == [t.addr.net0, t.addr.net1, t.addr.node, t.addr.socket, t.enumerator]
    modifies buf
    ensures e == t.entity && TupleAt(buf[..], p, t)
  {
    PackInto(t.entity, buf, p);
    assert buf[..][p..p + PREFIX] == old(buf[p..p + PREFIX]);
    PackedIsThere(buf[..], p, t);
    e := UnpackEntity(buf[..], p, t);
  }

  /** The offset of the i-th tuple of a packet. */
  function Offset(ts: seq<Tuple>, i: nat): nat
    requires i <= |ts|
  {
    |PackAll(ts[..i])|
  }

  lemma {:induction false} PackAllConcat(a: seq<Tuple>, b: seq<Tuple>)
    ensures PackAll(a + b) == PackAll(a) + PackAll(b)
    decreases |a|
  {
    if a == [] {
      assert a + b == b;
    } else {
      assert (a + b)[0] == a[0] && (a + b)[1..] == a[1..] + b;
      PackAllConcat(a[1..], b);
    }
  }

  lemma PackAllOne(ts: seq<Tuple>, t: Tuple)
    ensures PackAll(ts + [t]) == PackAll(ts) + PackTuple(t)
  {
    hide PackTuple;
    PackAllConcat(ts, [t]);
    assert [t][1..] == [];
    assert PackAll([t]) == PackTuple(t);
  }

  lemma PackAllSplits(ts: seq<Tuple>, i: nat)
    requires i < |ts|
    ensures PackAll(ts[..i + 1]) == PackAll(ts[..i]) + PackTuple(ts[i])
    ensures PackAll(ts) == PackAll(ts[..i]) + PackTuple(ts[i]) + PackAll(ts[i + 1..])
  {
    hide PackTuple, PackAll;
    TakeOneMore(ts, i);
    PackAllOne(ts[..i], ts[i]);
    PackAllConcat(ts[..i + 1], ts[i + 1..]);
  }

  lemma Middle(a: seq<byte>, w: seq<byte>, b: seq<byte>, c: seq<byte>)
    ensures (a + w + b + c)[|a|..|a| + |w|] == w
  {
  }

  /** Stepping by the length of each tuple visits exactly the tuple boundaries. */
  lemma StepToNext(ts: seq<Tuple>, i: nat, tail: seq<byte>)
    requires i < |ts|
    ensures Offset(ts, i + 1) == Offset(ts, i) + |PackTuple(ts[i])|
    ensures TupleAt(PackAll(ts) + tail, Offset(ts, i), ts[i])
  {
    hide PackTuple, PackAll;
    PackAllSplits(ts, i);
    Middle(PackAll(ts[..i]), PackTuple(ts[i]), PackAll(ts[i + 1..]), tail);
  }

  lemma OffsetStart(ts: seq<Tuple>)
    ensures Offset(ts, 0) == 0
  {
    assert ts[..0] == [];
  }

  /** Walking over a packet recovers every tuple that was packed into it. */
  method UnpackAll(buf: seq<byte>, count: nat, ghost ts: seq<Tuple>, ghost tail: seq<byte>) returns (es: seq<Entity>)
    requires buf == PackAll(ts) + tail && count == |ts|
    ensures |es| == |ts| && forall i :: 0 <= i < |ts| ==> es[i] == ts[i].entity
  {
    es := [];
    var p := 0;
    OffsetStart(ts);
    for i := 0 to count
      invariant p == Offset(ts, i)
      invariant |es| == i && forall k :: 0 <= k < i ==> es[k] == ts[k].entity
    {
      StepToNext(ts, i, tail);
      var e := UnpackEntity(buf, p, ts[i]);
      es := es + [e];
      var len := NbpLen(buf, p, ts[i]);
      p := p + len;
    }
  }
}

/** Collecting replies. */
module NbpReplies {
  import opened Bytes
  import opened NbpCodec

  // ---------- the intended result ----------

  /** What makes two replies the same: enumerator, network, node and socket. */
  predicate SameId(a: Tuple, b: Tuple) {
    a.enumerator == b.enumerator && a.addr == b.addr
  }

  predicate Known(ts: seq<Tuple>, t: Tuple) {
    exists i :: 0 <= i < |ts| && SameId(ts[i], t)
  }

  /** The replies in order of arrival, without duplicates. */
  function Distinct(ts: seq<Tuple>): seq<Tuple> {
    if ts == [] then []
    else
      var d := Distinct(ts[..|ts| - 1]);
      var t := ts[|ts| - 1];
      if Known(d, t) then d else d + [t]
  }

  function Take(s: seq<Tuple>, n: nat): seq<Tuple> {
    if |s| <= n then s else s[..n]
  }

  lemma DistinctStep(ts: seq<Tuple>, t: Tuple)
    ensures Distinct(ts + [t]) == if Known(Distinct(ts), t) then Distinct(ts) else Distinct(ts) + [t]
  {
    assert (ts + [t])[..|ts|] == ts;
  }

  lemma KnownStep(ts: seq<Tuple>, t: Tuple, u: Tuple)
    ensures Known(ts + [t], u) <==> Known(ts, u) || SameId(t, u)
  {
    if Known(ts, u) {
      var i :| 0 <= i < |ts| && SameId(ts[i], u);
      assert (ts + [t])[i] == ts[i];
    }
    if SameId(t, u) {
      assert (ts + [t])[|ts|] == t;
    }
  }

  lemma KnownSame(ts: seq<Tuple>, t: Tuple, u: Tuple)
    requires SameId(t, u)
    ensures Known(ts, t) <==> Known(ts, u)
  {
    if Known(ts, t) {
      var i :| 0 <= i < |ts| && SameId(ts[i], t);
      assert SameId(ts[i], u);
    }
    if Known(ts, u) {
      var i :| 0 <= i < |ts| && SameId(ts[i], u);
      assert SameId(ts[i], t);
    }
  }

  /** Nothing is missing. */
  lemma {:induction false} DistinctKeepsKinds(ts: seq<Tuple>, u: Tuple)
    ensures Known(ts, u) <==> Known(Distinct(ts), u)
    decreases |ts|
  {
    if ts != [] {
      hide Known, SameId;
      var init, t := ts[..|ts| - 1], ts[|ts| - 1];
      assert ts == init + [t];
      DistinctKeepsKinds(init, u);
      DistinctStep(init, t);
      KnownStep(init, t, u);
      KnownStep(Distinct(init), t, u);
      if SameId(t, u) {
        KnownSame(Distinct(init), t, u);
      }
    }
  }

  /** Two replies are duplicates if and only if their enumerators, networks, nodes and sockets
      agree; the names in them play no part. */
  lemma DuplicatesAgree(a: Tuple, b: Tuple)
    ensures SameId(a, b) <==>
      && a.enumerator == b.enumerator && a.addr.net0 == b.addr.net0 && a.addr.net1 == b.addr.net1
      && a.addr.node == b.addr.node && a.addr.socket == b.addr.socket
    ensures forall e: Entity, f: Entity :: SameId(a.(entity := e), b.(entity := f)) == SameId(a, b)
  {
  }

  /** Nothing is listed twice, nothing is missing, and each entry is the first to arrive
      of its kind. */
  lemma {:induction false} DistinctMeans(ts: seq<Tuple>)
    ensures var d := Distinct(ts);
      && (forall i, j :: 0 <= i < j < |d| ==> !SameId(d[i], d[j]))
      && (forall t :: Known(ts, t) <==> Known(d, t))
      && (forall i :: 0 <= i < |d| ==> FirstOfItsKind(ts, d[i]))
    decreases |ts|
  {
    forall u ensures Known(ts, u) <==> Known(Distinct(ts), u) {
      DistinctKeepsKinds(ts, u);
    }
    if ts != [] {
      hide FirstOfItsKind, Distinct;
      var init, t := ts[..|ts| - 1], ts[|ts| - 1];
      assert ts == init + [t];
      DistinctMeans(init);
      DistinctStep(init, t);
      var d, e := Distinct(init), Distinct(ts);
      forall i | 0 <= i < |e|
        ensures FirstOfItsKind(ts, e[i])
      {
        if i < |d| {
          FirstStaysFirst(init, t, d[i]);
        } else {
          LastIsFirst(init, t);
        }
      }
    }
  }

  ghost predicate FirstOfItsKind(ts: seq<Tuple>, t: Tuple) {
    exists i :: 0 <= i < |ts| && ts[i] == t && forall j :: 0 <= j < i ==> !SameId(ts[j], t)
  }

  lemma FirstStaysFirst(ts: seq<Tuple>, u: Tuple, t: Tuple)
    requires FirstOfItsKind(ts, t)
    ensures FirstOfItsKind(ts + [u], t)
  {
    var i :| 0 <= i < |ts| && ts[i] == t && forall j :: 0 <= j < i ==> !SameId(ts[j], t);
    assert (ts + [u])[i] == t;
  }

  lemma LastIsFirst(ts: seq<Tuple>, t: Tuple)
    requires !Known(ts, t)
    ensures FirstOfItsKind(ts + [t], t)
  {
    assert forall j :: 0 <= j < |ts| ==> (ts + [t])[j] == ts[j] && !SameId(ts[j], t);
    assert (ts + [t])[|ts|] == t;
  }

  lemma {:induction false} DistinctGrows(a: seq<Tuple>, b: seq<Tuple>)
    ensures Distinct(a) <= Distinct(a + b)
    decreases |b|
  {
    if b == [] {
      assert a + b == a;
    } else {
      var init := b[..|b| - 1];
      DistinctGrows(a, init);
      assert (a + b)[..|a + b| - 1] == a + init;
    }
  }

  /** The filter applied to one reply, on a buffer that holds the right prefix so far. */
  lemma FilterOne(seen: seq<Tuple>, t: Tuple, max: nat)
    ensures var kept := Take(Distinct(seen), max);
      Take(Distinct(seen + [t]), max) ==
        if Known(kept, t) || |kept| >= max then kept else kept + [t]
  {
    assert (seen + [t])[..|seen|] == seen;
    var d := Distinct(seen);
    var kept := Take(d, max);
    if Known(kept, t) {
      var i :| 0 <= i < |kept| && SameId(kept[i], t);
      assert SameId(d[i], t);
    } else if |kept| < max {
      assert kept == d;
    }
  }

  /** A full buffer stays as it is. */
  lemma FullStays(seen: seq<Tuple>, more: seq<Tuple>, max: nat)
    requires |Take(Distinct(seen), max)| >= max
    ensures Take(Distinct(seen + more), max) == Take(Distinct(seen), max)
  {
    DistinctGrows(seen, more);
  }

  // ---------- the code ----------

  /** The search for an entry with the same enumerator and address. */
  method IsDuplicate(reply: array<Tuple>, next: nat, addr: Addr, enumerator: byte, ghost t: Tuple) returns (duplicate: bool)
    requires next <= reply.Length && addr == t.addr && enumerator == t.enumerator
    ensures duplicate <==> Known(reply[..next], t)
  {
    var k := 0;
    while k < next
      invariant 0 <= k <= next
      invariant forall j :: 0 <= j < k ==> !SameId(reply[j], t)
    {
      if reply[k].enumerator == enumerator && reply[k].addr == addr {
        assert SameId(reply[..next][k], t);
        return true;
      }
      k := k + 1;
    }
    return false;
  }

  /** One tuple of a packet: searched for among the entries in use, stored after them
      if it is new, unless the buffer is full. */
  method FilterTuple(packet: seq<byte>, tupleIn: nat, reply: array<Tuple>, next: nat, stored: nat, max: nat, ghost t: Tuple)
    returns (next': nat, full: bool)
    requires TupleAt(packet, tupleIn, t)
    requires next == stored <= max <= reply.Length
    modifies reply
    ensures full <==> !Known(old(reply[..next]), t) && next >= max
    ensures next <= next' <= max
    ensures reply[..next'] ==
      if Known(old(reply[..next]), t) || next >= max then old(reply[..next]) else old(reply[..next]) + [t]
    ensures forall i :: next' <= i < reply.Length ==> reply[i] == old(reply[i])
  {
    hide PackTuple, TupleAt, Known;
    TupleLayout(packet, tupleIn, t);
    ghost var head := packet[tupleIn..tupleIn + PREFIX];
    assert forall k :: 0 <= k < PREFIX ==> packet[tupleIn + k] == head[k];
    var addr := Addr(packet[tupleIn], packet[tupleIn + 1], packet[tupleIn + 2], packet[tupleIn + 3]);
    var enumerator := packet[tupleIn + 4];
    assert head[0] == packet[tupleIn + 0] && head[1] == packet[tupleIn + 1] && head[2] == packet[tupleIn + 2]
      && head[3] == packet[tupleIn + 3] && head[4] == packet[tupleIn + 4];
    next', full := next, false;
    var duplicate := IsDuplicate(reply, next, addr, enumerator, t);
    if !duplicate {
      if stored >= max {
        full := true;
      } else {
        var e := UnpackEntity(packet, tupleIn, t);
        reply[next] := Tuple(addr, enumerator, e);
        next' := next + 1;
        assert reply[..next'] == old(reply[..next]) + [t];
      }
    }
  }

  /** `doNbpReply`: filters the tuples of one packet into the reply buffer, whose first
      `next` entries are in use.  Returns how many were added. */
  method DoNbpReply(packet: seq<byte>, count: nat, reply: array<Tuple>, next: nat, got: nat, max: nat,
                    ghost ts: seq<Tuple>, ghost tail: seq<byte>, ghost seen: seq<Tuple>)
    returns (wegot: nat, next': nat)
    requires packet == PackAll(ts) + tail && count == |ts|
    requires max <= reply.Length && next == got <= max
    requires reply[..next] == Take(Distinct(seen), max)
    modifies reply
    ensures next' == next + wegot <= max
    ensures reply[..next'] == Take(Distinct(seen + ts), max)
    ensures forall i :: next' <= i < reply.Length ==> reply[i] == old(reply[i])
  {
    hide PackTuple, PackAll, TupleAt, Offset, Known, Distinct, Take;
    wegot, next' := 0, next;
    var tupleIn := 0;
    OffsetStart(ts);
    assert seen + ts[..0] == seen;
    var i := 0;
    while i < count
      invariant 0 <= i <= count && tupleIn == Offset(ts, i)
      invariant next' == next + wegot <= max
      invariant reply[..next'] == Take(Distinct(seen + ts[..i]), max)
      invariant forall k :: next' <= k < reply.Length ==> reply[k] == old(reply[k])
    {
      StepToNext(ts, i, tail);
      ghost var before := seen + ts[..i];
      assert before + [ts[i]] == seen + ts[..i + 1];
      FilterOne(before, ts[i], max);
      var full;
      next', full := FilterTuple(packet, tupleIn, reply, next', got + wegot, max, ts[i]);
      if full {
        FullStays(before, ts[i..], max);
        assert before + ts[i..] == seen + ts;
        return;
      }
      wegot := next' - next;
      var len := NbpLen(packet, tupleIn, ts[i]);
      tupleIn := tupleIn + len;
      i := i + 1;
    }
    assert ts[..count] == ts;
  }

  /** What the receive loop can meet: a datagram carrying some tuples and perhaps
      trailing bytes, or a timeout of the poll. */
  datatype Event =
    | Datagram(id: byte, control: int, tuples: seq<Tuple>, tail: seq<byte>)
    | Timeout

  predicate Answers(e: Event, id: byte, expected: int) {
    e.Datagram? && e.id == id && e.control == expected
  }

  /** The tuples of the datagrams that answer this request, in order of arrival. */
  function Arrivals(es: seq<Event>, id: byte, expected: int): seq<Tuple> {
    if es == [] then []
    else
      var e := es[|es| - 1];
      Arrivals(es[..|es| - 1], id, expected) + if Answers(e, id, expected) then e.tuples else []
  }

  lemma ArrivalsStep(es: seq<Event>, k: nat, id: byte, expected: int)
    requires k < |es|
    ensures Arrivals(es[..k + 1], id, expected) ==
      Arrivals(es[..k], id, expected) + if Answers(es[k], id, expected) then es[k].tuples else []
  {
    assert es[..k + 1][..k] == es[..k];
  }

  function Timeouts(es: seq<Event>): nat {
    if es == [] then 0 else Timeouts(es[..|es| - 1]) + if es[|es| - 1].Timeout? then 1 else 0
  }

  lemma TimeoutsStep(es: seq<Event>, k: nat)
    requires k < |es|
    ensures Timeouts(es[..k + 1]) == Timeouts(es[..k]) + if es[k].Timeout? then 1 else 0
  {
    assert es[..k + 1][..k] == es[..k];
  }

  /** A datagram counts exactly if it carries the identifier of the request and the control
      value of a reply; its tuples come behind those of the events before it. */
  lemma {:induction false} ArrivalsJoin(es: seq<Event>, fs: seq<Event>, id: byte, expected: int)
    ensures Arrivals(es + fs, id, expected) == Arrivals(es, id, expected) + Arrivals(fs, id, expected)
    decreases |fs|
  {
    if fs == [] {
      assert es + fs == es;
    } else {
      var init := fs[..|fs| - 1];
      assert (es + fs)[..|es + fs| - 1] == es + init;
      ArrivalsJoin(es, init, id, expected);
    }
  }

  lemma OneArrives(i: byte, control: int, ts: seq<Tuple>, tail: seq<byte>, id: byte, expected: int)
    ensures Arrivals([Datagram(i, control, ts, tail)], id, expected) == if i == id && control == expected then ts else []
    ensures Arrivals([Timeout], id, expected) == []
  {
    var e := Datagram(i, control, ts, tail);
    assert [e][..0] == [] && [Timeout][..0] == [];
  }

  /** The receive part of a lookup: polls until the buffer is full, the retries are used
      up, or nothing more happens. */
  method Receive(events: seq<Event>, id: byte, expected: int, reply: array<Tuple>, max: nat, retries: nat)
    returns (got: nat, handled: nat)
    requires 0 < max <= reply.Length
    modifies reply
    ensures got <= max && handled <= |events|
    ensures reply[..got] == Take(Distinct(Arrivals(events[..handled], id, expected)), max)
    ensures Timeouts(events[..handled]) <= retries + 1
    ensures handled == |events| || got == max || Timeouts(events[..handled]) == retries + 1
  {
    hide Distinct, Take, Arrivals;
    got, handled := 0, 0;
    var next := 0;
    var left := retries;
    NothingArrived(events, id, expected, max);
    while got < max && handled < |events|
      invariant 0 <= handled <= |events| && next == got <= max
      invariant Timeouts(events[..handled]) + left == retries
      invariant reply[..next] == Take(Distinct(Arrivals(events[..handled], id, expected)), max)
    {
      TimeoutsStep(events, handled);
      var e := events[handled];
      ghost var seen := Arrivals(events[..handled], id, expected);
      ArrivalsStep(events, handled, id, expected);
      handled := handled + 1;
      if e.Datagram? {
        if e.id == id && e.control == expected {
          var n;
          n, next := DoNbpReply(PackAll(e.tuples) + e.tail, |e.tuples|, reply, next, got, max, e.tuples, e.tail, seen);
          got := got + n;
        } else {
          assert seen + [] == seen;
        }
      } else {
        assert seen + [] == seen;
        if left == 0 {
          return;
        }
        left := left - 1;
      }
    }
  }

  lemma NothingArrived(events: seq<Event>, id: byte, expected: int, max: nat)
    ensures Take(Distinct(Arrivals(events[..0], id, expected)), max) == []
  {
    assert events[..0] == [];
  }
}
