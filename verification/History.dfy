/** The history list (Libedit/history.c): what its operations mean, on values. */
module Histories {
  import opened Options

  /** `HistEvent` */
  datatype Event = Event(num: int, str: string)

  /** A history: its events, newest first; the cursor, which is 0 at the list header and i
      at the i-th event; the size limit; and the number of the last event entered. */
  datatype Hist = Hist(events: seq<Event>, pos: nat, max: nat, eventno: nat)

  /** The cursor is in the list, and the numbers run down from the last one given. */
  ghost predicate Sane(h: Hist) {
    && h.pos <= |h.events| <= h.eventno
    && forall i :: 0 <= i < |h.events| ==> h.events[i].num == h.eventno - i
  }

  function Shown(h: Hist): Option<Event>
    requires h.pos <= |h.events|
  {
    if h.pos == 0 then None else Some(h.events[h.pos - 1])
  }

  function First(h: Hist): Hist {
    h.(pos := if h.events == [] then 0 else 1)
  }

  function Last(h: Hist): Hist {
    h.(pos := |h.events|)
  }

  /** Towards older events; from the oldest to the header, where it stays. */
  function Next(h: Hist): Hist {
    h.(pos := if h.pos == 0 || h.pos >= |h.events| then 0 else h.pos + 1)
  }

  function Prev(h: Hist): Hist {
    h.(pos := if h.pos == 0 then 0 else h.pos - 1)
  }

  function Limited(s: seq<Event>, n: nat): seq<Event> {
    if |s| <= n then s else s[..n]
  }

  function Enter(h: Hist, str: string): Hist {
    Hist(Limited([Event(h.eventno + 1, str)] + h.events, h.max + 1), 1, h.max, h.eventno + 1)
  }

  function Add(h: Hist, str: string): Hist
    requires h.pos <= |h.events|
  {
    if h.pos == 0 then Enter(h, str)
    else
      var e := h.events[h.pos - 1];
      h.(events := h.events[h.pos - 1 := e.(str := e.str + str)])
  }

  /** Only later entries make the list shorter. */
  function SetNum(h: Hist, num: int): Hist {
    if num < 0 then h else h.(max := num)
  }

  datatype Op = DoFirst | DoLast | DoNext | DoPrev | DoEnter(str: string) | DoAdd(str: string) | DoSetNum(num: int)

  function Step(h: Hist, op: Op): Hist
    requires h.pos <= |h.events|
  {
    match op
    case DoFirst => First(h)
    case DoLast => Last(h)
    case DoNext => Next(h)
    case DoPrev => Prev(h)
    case DoEnter(s) => Enter(h, s)
    case DoAdd(s) => Add(h, s)
    case DoSetNum(n) => SetNum(h, n)
  }

  // ---------- what every run keeps ----------

  lemma StepKeepsSane(h: Hist, op: Op)
    requires Sane(h)
    ensures Sane(Step(h, op))
  {
  }

  /** Entering leaves one event more, or as many as the limit allows, but always one. */
  lemma EnterLength(h: Hist, str: string)
    ensures |Enter(h, str).events| == if |h.events| < h.max then |h.events| + 1 else h.max + 1
    ensures Enter(h, str).events[0] == Event(h.eventno + 1, str)
    ensures forall i :: 1 <= i < |Enter(h, str).events| ==> Enter(h, str).events[i] == h.events[i - 1]
  {
  }

  /** Adding appends to the event under the cursor: its old text comes first, its number, the
      other events and the cursor stay.  At the header it enters a new event. */
  lemma AddAppends(h: Hist, str: string)
    requires Sane(h)
    ensures h.pos == 0 ==> Add(h, str) == Enter(h, str)
    ensures h.pos > 0 ==> var r, i := Add(h, str), h.pos - 1;
      && r == h.(events := r.events) && |r.events| == |h.events|
      && (forall j :: 0 <= j < |h.events| && j != i ==> r.events[j] == h.events[j])
      && r.events[i].num == h.events[i].num
      && |r.events[i].str| == |h.events[i].str| + |str|
      && h.events[i].str <= r.events[i].str && r.events[i].str[|h.events[i].str|..] == str
  {
  }

  /** A new limit takes effect at the next entry only, which then keeps as many old events as
      the limit says, and the new one. */
  lemma LimitWaits(h: Hist, num: int, str: string)
    requires Sane(h)
    ensures num < 0 ==> SetNum(h, num) == h
    ensures num >= 0 ==>
      && SetNum(h, num) == h.(max := num)
      && |Enter(SetNum(h, num), str).events| == 1 + if |h.events| < num then |h.events| else num
  {
  }

  function Run(h: Hist, ops: seq<Op>): Hist
    requires Sane(h)
    decreases |ops|
  {
    if ops == [] then h
    else
      StepKeepsSane(h, ops[0]);
      Run(Step(h, ops[0]), ops[1..])
  }

  lemma {:induction false} RunKeepsSane(h: Hist, ops: seq<Op>)
    requires Sane(h)
    ensures Sane(Run(h, ops))
    decreases |ops|
  {
    if ops != [] {
      StepKeepsSane(h, ops[0]);
      RunKeepsSane(Step(h, ops[0]), ops[1..]);
    }
  }

  /** Once there is an event there always is one. */
  lemma {:induction false} NeverEmptyAgain(h: Hist, ops: seq<Op>)
    requires Sane(h) && h.events != []
    ensures Run(h, ops).events != []
    decreases |ops|
  {
    if ops != [] {
      StepKeepsSane(h, ops[0]);
      NeverEmptyAgain(Step(h, ops[0]), ops[1..]);
    }
  }

  function Nexts(h: Hist, k: nat): Hist {
    if k == 0 then h else Next(Nexts(h, k - 1))
  }

  function Prevs(h: Hist, k: nat): Hist {
    if k == 0 then h else Prev(Prevs(h, k - 1))
  }

  /** FIRST and k times NEXT give the k-th older event, or none. */
  lemma {:induction false} FirstThenNexts(h: Hist, k: nat)
    ensures var r := Nexts(First(h), k);
      && r == h.(pos := if k < |h.events| then k + 1 else 0)
      && Shown(r) == if k < |h.events| then Some(h.events[k]) else None
  {
    if k > 0 {
      FirstThenNexts(h, k - 1);
    }
  }

  /** LAST and k times PREV count from the oldest event. */
  lemma {:induction false} LastThenPrevs(h: Hist, k: nat)
    ensures var n := |h.events|; var r := Prevs(Last(h), k);
      && r == h.(pos := if k < n then n - k else 0)
      && Shown(r) == if k < n then Some(h.events[n - 1 - k]) else None
  {
    if k > 0 {
      LastThenPrevs(h, k - 1);
    }
  }

  /** A step back undoes a step, unless the list's end was passed. */
  lemma PrevUndoesNext(h: Hist)
    requires h.pos <= |h.events|
    ensures Prev(Next(h)) == h <==> h.pos == 0 || h.pos < |h.events|
    ensures Next(Prev(h)) == h <==> h.pos != 1
  {
  }

  function EnterAll(h: Hist, strs: seq<string>): Hist {
    if strs == [] then h else Enter(EnterAll(h, strs[..|strs| - 1]), strs[|strs| - 1])
  }

  /** The history remembers the latest entries, one more than its limit. */
  lemma {:induction false} RemembersLatest(h: Hist, strs: seq<string>)
    requires strs != []
    ensures var r, n := EnterAll(h, strs), |strs|;
      && r.max == h.max && r.eventno == h.eventno + n && r.pos == 1
      && |r.events| == (if |h.events| + n <= h.max + 1 then |h.events| + n else h.max + 1)
      && (forall i :: 0 <= i < n && i < |r.events| ==> r.events[i] == Event(h.eventno + n - i, strs[n - 1 - i]))
      && (forall i :: n <= i < |r.events| ==> r.events[i] == h.events[i - n])
    decreases |strs|
  {
    var init := strs[..|strs| - 1];
    if init != [] {
      RemembersLatest(h, init);
    }
  }

  /** An event with a given number is where the number says. */
  lemma NumberTellsPlace(h: Hist, i: nat, num: int)
    requires Sane(h) && i < |h.events|
    ensures h.events[i].num == num <==> i == h.eventno - num
  {
  }
}

/** The history list as the code keeps it: a ring of entries through a list header. */
module HistoryRing {
  import opened Options
  import opened Histories

  class Entry {
    var num: int
    var str: string
    var next: Entry
    var prev: Entry

    constructor (num: int, str: string)
      ensures this.num == num && this.str == str && next == this && prev == this
    {
      this.num, this.str := num, str;
      next, prev := this, this;
    }
  }

  /** The index behind i in a ring of n. */
  function Behind(i: nat, n: nat): nat {
    if i + 1 < n then i + 1 else 0
  }

  function Before(i: nat, n: nat): nat
    requires n > 0
  {
    if i > 0 then i - 1 else n - 1
  }

  /** The entries are distinct and form a ring in both directions. */
  ghost predicate IsRing(r: seq<Entry>)
    reads r`next, r`prev
  {
    && (forall i, j :: 0 <= i < j < |r| ==> r[i] != r[j])
    && (forall i :: 0 <= i < |r| ==> r[i].next == r[Behind(i, |r|)] && r[i].prev == r[Before(i, |r|)])
  }

  /** A ring whose i-th entry has been cut out: the links around it skip it. */
  ghost predicate SkipsOne(r: seq<Entry>, i: nat)
    requires i < |r|
    reads r
  {
    var n := |r|;
    && (forall j, k :: 0 <= j < k < n ==> r[j] != r[k])
    && (forall k: nat :: k < n && k != i ==>
          r[k].next == r[if k == Before(i, n) then Behind(i, n) else Behind(k, n)] &&
          r[k].prev == r[if k == Behind(i, n) then Before(i, n) else Before(k, n)])
  }

  lemma SkippedIsRing(r: seq<Entry>, i: nat)
    requires 0 < i < |r| && SkipsOne(r, i)
    ensures IsRing(r[..i] + r[i + 1..])
  {
    var s, n := r[..i] + r[i + 1..], |r|;
    forall k | 0 <= k < n - 1
      ensures s[k].next == s[Behind(k, n - 1)] && s[k].prev == s[Before(k, n - 1)]
    {
      var o := if k < i then k else k + 1;
      assert s[k] == r[o];
    }
  }

  /** A new entry e has been put between the header and what followed it. */
  lemma InsertedIsRing(list: Entry, e: Entry, rest: seq<Entry>)
    requires e != list && list !in rest && e !in rest
    requires forall i, j :: 0 <= i < j < |rest| ==> rest[i] != rest[j]
    requires list.next == e && e.prev == list
    requires rest == [] ==> e.next == list && list.prev == e
    requires rest != [] ==> e.next == rest[0] && rest[0].prev == e
    requires rest != [] ==> list.prev == rest[|rest| - 1] && rest[|rest| - 1].next == list
    requires forall i :: 0 <= i < |rest| - 1 ==> rest[i].next == rest[i + 1]
    requires forall i :: 1 <= i < |rest| ==> rest[i].prev == rest[i - 1]
    ensures IsRing([list, e] + rest)
  {
    var s := [list, e] + rest;
    var n := |s|;
    assert forall i :: 2 <= i < n ==> s[i] == rest[i - 2];
    forall k | 0 <= k < n
      ensures s[k].next == s[Behind(k, n)] && s[k].prev == s[Before(k, n)]
    {
      if k >= 2 {
        var o := k - 2;
        assert s[k] == rest[o];
      }
    }
  }

  lemma LastBeforeHeader(r: seq<Entry>)
    requires r != [] && IsRing(r)
    ensures r[0].prev == r[|r| - 1] && (|r| > 1 ==> r[|r| - 1] != r[0])
  {
  }

  lemma Distinct(r: seq<Entry>)
    requires IsRing(r)
    ensures forall i, j :: 0 <= i < j < |r| ==> r[i] != r[j]
  {
  }

  /** Puts e behind the header. */
  method LinkFirst(list: Entry, e: Entry, ghost r: seq<Entry>)
    requires r != [] && r[0] == list && IsRing(r) && e !in r
    modifies e`next, e`prev, r`next, r`prev
    ensures IsRing([list, e] + r[1..])
  {
    ghost var rest := r[1..];
    assert forall i :: 0 <= i < |rest| ==> rest[i] == r[i + 1];
    assert list.next == r[Behind(0, |r|)] && list.prev == r[Before(0, |r|)];
    e.next := list.next;
    e.prev := list;
    list.next.prev := e;
    list.next := e;
    InsertedIsRing(list, e, rest);
  }

  /** Takes hp out of its ring. */
  method Unlink(hp: Entry, ghost r: seq<Entry>, ghost i: nat)
    requires 0 < i < |r| && IsRing(r) && hp == r[i]
    modifies r`next, r`prev
    ensures IsRing(r[..i] + r[i + 1..])
  {
    assert hp.prev == r[Before(i, |r|)] && hp.next == r[Behind(i, |r|)];
    hp.prev.next := hp.next;
    hp.next.prev := hp.prev;
    SkippedIsRing(r, i);
  }

  class History {
    /** The header, which is no event. */
    const list: Entry
    var cursor: Entry
    var max: int
    var cur: int
    var eventno: int

    /** The entries from the header on along `next`, their events, and the place of the
        cursor. */
    ghost var ring: seq<Entry>
    ghost var events: seq<Event>
    ghost var pos: nat

    ghost predicate Linked()
      reads this, ring
    {
      && |ring| > 0 && ring[0] == list && IsRing(ring)
      && |events| == |ring| - 1
      && (forall i :: 0 <= i < |events| ==> events[i] == Event(ring[i + 1].num, ring[i + 1].str))
      && cur == |events|
    }

    ghost predicate Valid()
      reads this, ring
    {
      && Linked()
      && pos < |ring| && cursor == ring[pos]
      && max >= 0 && eventno >= 0
      && Sane(Abs())
    }

    ghost function Abs(): Hist
      reads this
    {
      Hist(events, pos, if max < 0 then 0 else max, if eventno < 0 then 0 else eventno)
    }

    /** `history_def_init` */
    constructor (n: int)
      ensures Valid() && fresh(ring)
      ensures Abs() == Hist([], 0, if n <= 0 then 0 else n, 0)
    {
      var header := new Entry(0, "");
      list, cursor := header, header;
      eventno, cur, max := 0, 0, if n <= 0 then 0 else n;
      ring, events, pos := [header], [], 0;
    }

    /** What `&h->cursor->ev` points to, unless the cursor is at the header. */
    method DefCurr() returns (ev: Option<Event>)
      requires Valid()
      ensures ev == Shown(Abs())
    {
      if cursor != list {
        return Some(Event(cursor.num, cursor.str));
      }
      return None;
    }

    method DefFirst() returns (ev: Option<Event>)
      requires Valid()
      modifies `cursor, `pos
      ensures Valid() && Abs() == First(old(Abs())) && ev == Shown(Abs())
    {
      cursor := list.next;
      assert list.next == ring[Behind(0, |ring|)];
      pos := Behind(0, |ring|);
      ev := DefCurr();
    }

    method DefLast() returns (ev: Option<Event>)
      requires Valid()
      modifies `cursor, `pos
      ensures Valid() && Abs() == Last(old(Abs())) && ev == Shown(Abs())
    {
      cursor := list.prev;
      assert list.prev == ring[Before(0, |ring|)];
      pos := |ring| - 1;
      ev := DefCurr();
    }

    method DefNext() returns (ev: Option<Event>)
      requires Valid()
      modifies `cursor, `pos
      ensures Valid() && Abs() == Next(old(Abs())) && ev == Shown(Abs())
    {
      if cursor != list {
        assert ring[pos].next == ring[Behind(pos, |ring|)];
        cursor := cursor.next;
        pos := Behind(pos, |ring|);
      } else {
        return None;
      }
      ev := DefCurr();
    }

    method DefPrev() returns (ev: Option<Event>)
      requires Valid()
      modifies `cursor, `pos
      ensures Valid() && Abs() == Prev(old(Abs())) && ev == Shown(Abs())
    {
      if cursor != list {
        assert ring[pos].prev == ring[Before(pos, |ring|)];
        cursor := cursor.prev;
        pos := pos - 1;
      } else {
        return None;
      }
      ev := DefCurr();
    }

    /** `history_set_num` */
    method SetMax(num: int) returns (ok: bool)
      requires Valid()
      modifies `max
      ensures Valid() && Abs() == SetNum(old(Abs()), num) && (ok <==> num >= 0)
    {
      if num < 0 {
        return false;
      }
      max := num;
      return true;
    }

    /** `history_def_insert`: a new entry right behind the header, under the cursor. */
    method DefInsert(str: string)
      requires Linked()
      modifies this, ring
      ensures Linked() && fresh(cursor) && ring == [list, cursor] + old(ring[1..])
      ensures events == [Event(cursor.num, str)] + old(events)
      ensures pos == 1 && max == old(max) && eventno == old(eventno)
    {
      hide IsRing;
      var e := new Entry(0, str);
      ghost var rest := ring[1..];
      cursor := e;
      LinkFirst(list, e, ring);
      cur := cur + 1;
      ring := [list, e] + rest;
      events := [Event(e.num, str)] + events;
      pos := 1;
    }

    /** `history_def_delete`, which aborts when it is given the header. */
    method DefDelete(hp: Entry, ghost i: nat)
      requires Linked() && hp != list && 0 < i < |ring| && hp == ring[i]
      modifies this`cur, this`ring, this`events, ring
      ensures Linked() && ring == old(ring[..i] + ring[i + 1..])
      ensures events == old(events[..i - 1] + events[i..])
    {
      hide IsRing;
      ghost var was := ring;
      Unlink(hp, ring, i);
      ring := ring[..i] + ring[i + 1..];
      cur := cur - 1;
      events := events[..i - 1] + events[i..];
      assert forall k :: 0 <= k < |ring| ==> ring[k] == was[if k < i then k else k + 1];
    }

    /** The number of the event just inserted. */
    method NumberFirst()
      requires Linked() && |ring| > 1 && cursor == ring[1]
      modifies `eventno, `events, cursor`num
      ensures Linked() && eventno == old(eventno) + 1
      ensures events == old(events)[0 := Event(eventno, old(events[0].str))]
    {
      Distinct(ring);
      hide IsRing;
      eventno := eventno + 1;
      cursor.num := eventno;
      events := events[0 := Event(eventno, cursor.str)];
      forall i | 0 <= i < |events|
        ensures events[i] == Event(ring[i + 1].num, ring[i + 1].str)
      {
        assert i > 0 ==> ring[i + 1] != ring[1] && events[i] == old(events[i]);
      }
    }

    /** Deletes the oldest events while there are too many; one is always kept. */
    method Trim()
      requires Linked() && max >= 0 && |ring| > 1 && cursor == ring[1] && pos == 1
      modifies this`cur, this`ring, this`events, ring
      ensures Linked() && |ring| > 1 && cursor == ring[1]
      ensures |ring| <= old(|ring|) && ring == old(ring)[..|ring|] && events == Limited(old(events), max + 1)
    {
      hide IsRing;
      ghost var all := events;
      ghost var entries := ring;
      while cur > max + 1
        invariant Linked() && 2 <= |ring| <= |entries| && ring == entries[..|ring|]
        invariant max + 1 <= |events| || events == all
        invariant |events| <= |all| && events == all[..|events|]
        decreases cur
      {
        ghost var n := |ring|;
        LastBeforeHeader(ring);
        assert ring[0].prev == ring[n - 1];
        DefDelete(list.prev, n - 1);
      }
    }

    /** `history_def_enter` */
    method DefEnter(str: string) returns (ev: Option<Event>)
      requires Valid()
      modifies this, ring
      ensures Valid() && fresh(set e | e in ring && e !in old(ring))
      ensures Abs() == Enter(old(Abs()), str) && ev == Shown(Abs())
    {
      hide IsRing, Sane, Limited;
      EnterFirst(str);
      ghost var h := old(Abs());
      Trim();
      StepKeepsSane(h, DoEnter(str));
      ev := DefCurr();
    }

    /** The new event, numbered, in front of the others. */
    method EnterFirst(str: string)
      requires Valid()
      modifies this, ring
      ensures Linked() && |ring| > 1 && cursor == ring[1] && pos == 1 && fresh(cursor) && ring[2..] == old(ring[1..])
      ensures max == old(max) && eventno == old(eventno) + 1
      ensures events == [Event(eventno, str)] + old(events)
    {
      hide IsRing, Sane;
      DefInsert(str);
      NumberFirst();
    }

    /** `history_def_add`: appends to the event under the cursor, or enters a new one. */
    method DefAdd(str: string) returns (ev: Option<Event>)
      requires Valid()
      modifies this, ring
      ensures Valid() && fresh(set e | e in ring && e !in old(ring))
      ensures Abs() == Add(old(Abs()), str) && ev == Shown(Abs())
    {
      hide IsRing;
      Distinct(ring);
      if cursor == list {
        ev := DefEnter(str);
        return;
      }
      var s := cursor.str + str;
      cursor.str := s;
      events := events[pos - 1 := events[pos - 1].(str := s)];
      assert Linked();
      ev := DefCurr();
    }

    /** `history_next_event`: from the cursor on towards older events.  The event is found
        exactly when it is there, and the number tells the place. */
    method NextEvent(num: int) returns (ev: Option<Event>)
      requires Valid()
      modifies `cursor, `pos
      ensures Valid() && events == old(events) && ev == Shown(Abs())
      ensures var p := eventno - num + 1;
        pos == if 0 < old(pos) <= p <= |events| then p else 0
      ensures ev.Some? ==> ev.value.num == num
    {
      ev := DefCurr();
      while ev.Some?
        invariant Valid() && ev == Shown(Abs())
        invariant pos == 0 || 0 < old(pos) <= pos
        invariant var p := eventno - num + 1;
          if pos == 0 then !(0 < old(pos) <= p <= |events|) else p < old(pos) || pos <= p
        decreases if pos == 0 then 0 else |events| + 1 - pos
      {
        if ev.value.num == num {
          return;
        }
        ev := DefNext();
      }
    }

    /** `history_prev_event`: the same towards newer events. */
    method PrevEvent(num: int) returns (ev: Option<Event>)
      requires Valid()
      modifies `cursor, `pos
      ensures Valid() && events == old(events) && ev == Shown(Abs())
      ensures var p := eventno - num + 1;
        pos == if 0 < p <= old(pos) then p else 0
      ensures ev.Some? ==> ev.value.num == num
    {
      ev := DefCurr();
      while ev.Some?
        invariant Valid() && ev == Shown(Abs()) && pos <= old(pos)
        invariant var p := eventno - num + 1;
          if pos == 0 then !(0 < p <= old(pos)) else p <= pos || old(pos) < p
        decreases pos
      {
        if ev.value.num == num {
          return;
        }
        ev := DefPrev();
      }
    }

    /** Any run of calls does to the ring what the operations do to its value. */
    method RunAll(ops: seq<Op>)
      requires Valid()
      modifies this, ring
      ensures Valid() && fresh(set e | e in ring && e !in old(ring))
      ensures Abs() == Run(old(Abs()), ops)
    {
      for n := 0 to |ops|
        invariant Valid() && fresh(set e | e in ring && e !in old(ring))
        invariant Run(Abs(), ops[n..]) == Run(old(Abs()), ops)
      {
        assert ops[n..][0] == ops[n] && ops[n..][1..] == ops[n + 1..];
        StepKeepsSane(Abs(), ops[n]);
        Perform(ops[n]);
      }
    }

    method Perform(op: Op)
      requires Valid()
      modifies this, ring
      ensures Valid() && fresh(set e | e in ring && e !in old(ring))
      ensures Abs() == Step(old(Abs()), op)
    {
      match op {
        case DoFirst => var _ := DefFirst();
        case DoLast => var _ := DefLast();
        case DoNext => var _ := DefNext();
        case DoPrev => var _ := DefPrev();
        case DoEnter(s) => var _ := DefEnter(s);
        case DoAdd(s) => var _ := DefAdd(s);
        case DoSetNum(n) => var _ := SetMax(n);
      }
    }
  }
}
