/** Walking through the history with the previous-line and next-line keys of the editor
    (Libedit/hist.c, Libedit/common.c). */
module HistoryWalk {
  import opened Histories

  /** What the keys work on: how far back the line shown is, the line, and the unfinished
      line that was put aside. */
  datatype Nav = Nav(eventno: nat, line: string, saved: string)

  /** A history event as it is shown: without the newline and a blank before it. */
  function Trimmed(s: string): string {
    var t := if s != "" && s[|s| - 1] == '\n' then s[..|s| - 1] else s;
    if t != "" && t[|t| - 1] == ' ' then t[..|t| - 1] else t
  }

  /** The unfinished line: the one being edited, or the one put aside. */
  function Draft(n: Nav): string {
    if n.eventno == 0 then n.line else n.saved
  }

  /** The line that belongs to place k. */
  function LineAt(es: seq<Event>, draft: string, k: nat): string
    requires k <= |es|
  {
    if k == 0 then draft else Trimmed(es[k - 1].str)
  }

  /** The line shown is the one that belongs to the place. */
  ghost predicate Showing(n: Nav, es: seq<Event>) {
    n.eventno <= |es| && n.line == LineAt(es, Draft(n), n.eventno)
  }

  // ---------- `hist_get` ----------

  datatype Got = Got(nav: Nav, ok: bool)

  function Get(n: Nav, es: seq<Event>, attached: bool): Got {
    if n.eventno == 0 then Got(n.(line := n.saved), true)
    else if !attached || es == [] then Got(n, false)
    else if n.eventno > |es| then Got(n.(eventno := |es|), false)
    else Got(n.(line := Trimmed(es[n.eventno - 1].str)), true)
  }

  // ---------- the keys ----------

  function Back(n: Nav, es: seq<Event>, attached: bool, k: nat): Got {
    var put := if n.eventno == 0 then n.(saved := n.line) else n;
    var first := Get(put.(eventno := put.eventno + k), es, attached);
    if first.ok then first else Got(Get(first.nav, es, attached).nav, false)
  }

  function Forth(n: Nav, es: seq<Event>, attached: bool, k: nat): Got {
    if k > n.eventno then Got(n.(eventno := 0), false)
    else Get(n.(eventno := n.eventno - k), es, attached)
  }

  /** Going back stops at the oldest event, shows its line even then, and keeps the
      unfinished line. */
  lemma BackShows(n: Nav, es: seq<Event>, k: nat)
    requires n.eventno <= |es| && es != []
    ensures var r := Back(n, es, true, k);
      && r.nav.eventno == (if n.eventno + k <= |es| then n.eventno + k else |es|)
      && (r.ok <==> n.eventno + k <= |es|)
      && Showing(r.nav, es) && Draft(r.nav) == Draft(n)
  {
  }

  /** With no history the place runs away from it and the line stays: the only way to lose
      the bound on the place. */
  lemma BackStaysInRange(n: Nav, es: seq<Event>, attached: bool, k: nat)
    requires n.eventno <= |es|
    ensures Back(n, es, attached, k).nav.eventno <= |es| <==>
      (attached && es != []) || n.eventno + k <= |es|
    ensures !attached || es == [] ==> Back(n, es, attached, k).nav.line == n.line
  {
  }

  /** Going forth a number of places that there are. */
  lemma ForthShows(n: Nav, es: seq<Event>, k: nat)
    requires k <= n.eventno <= |es| && es != []
    ensures var r := Forth(n, es, true, k);
      && r.ok && r.nav.eventno == n.eventno - k && r.nav.saved == n.saved
      && (n.eventno > 0 ==> Showing(r.nav, es) && Draft(r.nav) == Draft(n))
  {
  }

  /** Going forth too far fails and sets the place to the unfinished line, but does not
      show it; and going forth by nothing from there brings back what was put aside last.
      The unfinished line is kept exactly in the other cases, or when the line shown and
      the one put aside happen to be the same. */
  lemma ForthKeepsDraft(n: Nav, es: seq<Event>, k: nat)
    requires n.eventno <= |es| && es != []
    ensures Draft(Forth(n, es, true, k).nav) == Draft(n) <==>
      (if n.eventno == 0 then k > 0 else k <= n.eventno) || n.line == n.saved
  {
  }

  /** The step that loses it: two places forth from the latest event. */
  lemma ForthTooFar()
    ensures var es := [Event(1, "ls\n")];
      && Back(Nav(0, "unfinished", ""), es, true, 1).nav == Nav(1, "ls", "unfinished")
      && Forth(Nav(1, "ls", "unfinished"), es, true, 2) == Got(Nav(0, "ls", "unfinished"), false)
  {
    assert "ls\n"[..2] == "ls";
  }

  // ---------- runs ----------

  datatype Key = Up | Down

  function Press(n: Nav, es: seq<Event>, key: Key): Nav {
    if key.Up? then Back(n, es, true, 1).nav else Forth(n, es, true, 1).nav
  }

  function PressAll(n: Nav, es: seq<Event>, keys: seq<Key>): Nav {
    if keys == [] then n else Press(PressAll(n, es, keys[..|keys| - 1]), es, keys[|keys| - 1])
  }

  /** The place after a key: one up or down, within the history. */
  function Place(p: nat, n: nat, key: Key): nat {
    if key.Up? then (if p < n then p + 1 else n) else if p > 0 then p - 1 else 0
  }

  function PlaceAfter(p: nat, n: nat, keys: seq<Key>): nat {
    if keys == [] then p else Place(PlaceAfter(p, n, keys[..|keys| - 1]), n, keys[|keys| - 1])
  }

  /** Over any run of both keys the place stays in the history, the line shown belongs to
      it, and the unfinished line is never lost. */
  lemma {:induction false} WalkShows(n: Nav, es: seq<Event>, keys: seq<Key>)
    requires Showing(n, es) && es != []
    ensures var r := PressAll(n, es, keys);
      && r.eventno == PlaceAfter(n.eventno, |es|, keys) <= |es|
      && Showing(r, es) && Draft(r) == Draft(n)
      && (r.eventno == 0 ==> r.line == Draft(n))
    decreases |keys|
  {
    if keys != [] {
      var init, last := keys[..|keys| - 1], keys[|keys| - 1];
      WalkShows(n, es, init);
      var r := PressAll(n, es, init);
      if last.Up? {
        BackShows(r, es, 1);
      } else if r.eventno > 0 {
        ForthShows(r, es, 1);
      }
    }
  }

  lemma {:induction false} Ups(p: nat, n: nat, k: nat)
    requires p <= n
    ensures PlaceAfter(p, n, seq(k, _ => Up)) == if p + k <= n then p + k else n
  {
    if k > 0 {
      assert seq(k, _ => Up)[..k - 1] == seq(k - 1, _ => Up);
      Ups(p, n, k - 1);
    }
  }
}

/** The code of both commands. */
module HistoryKeys {
  import opened Options
  import opened Histories
  import opened HistoryWalk
  import opened HistoryRing

  const EL_BUFSIZ := 1024

  /** A string that fits the line buffer. */
  predicate Fits(s: string) {
    |s| < EL_BUFSIZ && '\0' !in s
  }

  class EditLine {
    const hist: History
    /** Whether a history has been set at all. */
    const attached: bool
    const vi: bool
    var eventno: int
    /** The buffer up to `lastchar`, and the place of the cursor in it. */
    var line: string
    var cursor: nat
    /** `el_history.buf` up to `el_history.last`. */
    var saved: string

    constructor (hist: History, attached: bool, vi: bool)
      requires hist.Valid() && forall e :: e in hist.events ==> Fits(e.str)
      ensures this.hist == hist && this.attached == attached && this.vi == vi
      ensures Valid() && State() == Nav(0, "", "")
    {
      this.hist, this.attached, this.vi := hist, attached, vi;
      eventno, line, cursor, saved := 0, "", 0, "";
    }

    ghost predicate Valid()
      reads this, hist, hist.ring
    {
      && hist.Valid() && eventno >= 0
      && Fits(line) && Fits(saved)
      && forall e :: e in hist.events ==> Fits(e.str)
    }

    ghost function State(): Nav
      reads this
    {
      Nav(if eventno < 0 then 0 else eventno, line, saved)
    }

    /** Moves to the end of the line, or to its start for vi. */
    method PlaceCursor()
      modifies `cursor
      ensures cursor == if vi then 0 else |line|
    {
      cursor := if vi then 0 else |line|;
    }

    /** Copies an event into the line and drops a newline and a blank at its end.  For an
        event that is a newline alone the code looks at the byte before the buffer, but
        the line is empty whatever it finds there. */
    method ShowEvent(str: string)
      requires Fits(str)
      modifies `line, `cursor
      ensures line == Trimmed(str) && Fits(line) && cursor == if vi then 0 else |line|
    {
      line := str;
      var lastchar := |str|;
      if lastchar > 0 {
        if line[lastchar - 1] == '\n' {
          lastchar := lastchar - 1;
        }
        if lastchar > 0 && line[lastchar - 1] == ' ' {
          lastchar := lastchar - 1;
        }
      }
      line := line[..lastchar];
      PlaceCursor();
    }

    method HistGet() returns (ok: bool)
      requires Valid()
      modifies `eventno, `line, `cursor, hist`cursor, hist`pos
      ensures Valid() && hist.events == old(hist.events)
      ensures Got(State(), ok) == Get(old(State()), hist.events, attached)
      ensures cursor == if ok then (if vi then 0 else |line|) else old(cursor)
    {
      hide IsRing, Trimmed, Sane, Fits;
      if eventno == 0 {
        line := saved;
        PlaceCursor();
        return true;
      }
      if !attached {
        return false;
      }
      var hp := hist.DefFirst();
      if hp.None? {
        return false;
      }
      var h := 1;
      while h < eventno
        invariant 1 <= h <= eventno == old(eventno) && Valid() && hist.events == old(hist.events)
        invariant State() == old(State()) && cursor == old(cursor)
        invariant hist.pos == h <= |hist.events| && hp == Some(hist.events[h - 1])
      {
        hp := hist.DefNext();
        if hp.None? {
          eventno := h;
          return false;
        }
        h := h + 1;
      }
      assert hist.events[h - 1] in hist.events;
      ShowEvent(hp.value.str);
      return true;
    }

    /** `ed_prev_history` */
    method PrevHistory(argument: nat) returns (ok: bool)
      requires Valid()
      modifies this, hist`cursor, hist`pos
      ensures Valid() && hist.events == old(hist.events)
      ensures Got(State(), ok) == Back(old(State()), hist.events, attached, argument)
    {
      if eventno == 0 {
        saved := line;
      }
      eventno := eventno + argument;
      ok := HistGet();
      if !ok {
        var _ := HistGet();
      }
    }

    /** `ed_next_history` */
    method NextHistory(argument: nat) returns (ok: bool)
      requires Valid()
      modifies this, hist`cursor, hist`pos
      ensures Valid() && hist.events == old(hist.events)
      ensures Got(State(), ok) == Forth(old(State()), hist.events, attached, argument)
    {
      eventno := eventno - argument;
      if eventno < 0 {
        eventno := 0;
        return false;
      }
      ok := HistGet();
    }

    /** Any run of both keys on a history with events: the line shown belongs to its place,
        and back at the start it is the unfinished line again. */
    method Walk(keys: seq<Key>)
      requires Valid() && attached && hist.events != [] && Showing(State(), hist.events)
      modifies this, hist`cursor, hist`pos
      ensures Valid() && hist.events == old(hist.events)
      ensures eventno == PlaceAfter(old(eventno), |hist.events|, keys)
      ensures 0 <= eventno <= |hist.events|
      ensures line == LineAt(hist.events, old(Draft(State())), eventno)
    {
      for i := 0 to |keys|
        invariant Valid() && hist.events == old(hist.events)
        invariant State() == PressAll(old(State()), hist.events, keys[..i])
      {
        assert keys[..i + 1][..i] == keys[..i];
        if keys[i] == Up {
          var _ := PrevHistory(1);
        } else {
          var _ := NextHistory(1);
        }
      }
      assert keys[..|keys|] == keys;
      WalkShows(old(State()), hist.events, keys);
    }
  }
}
