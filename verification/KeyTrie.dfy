/** The extended-key map of the line editor (Libedit/key.c).

    `KeyTree` has the tree operations on tree values and what they mean: the tree stands
    for a finite map from keys to bindings in which no key is a prefix of another.
    `KeyMap` has the code, on linked nodes. */
module KeyTree {
  import opened Options

  /** Node types.  `NOD` marks a node that is not bound. */
  datatype Kind = CMD | STR | EXE | NOD

  /** What a key is bound to: a command code or a string. */
  datatype Value = Null | Command(code: int) | Text(str: seq<char>)

  datatype Binding = Binding(kind: Kind, val: Value)

  type Key = seq<char>

  /** A node together with its children (`next`) and its later siblings. */
  datatype Tree =
    | Nil
    | Node(ch: char, bind: Binding, next: Tree, sibling: Tree)

  const UNBOUND := Binding(NOD, Null)

  /** `node__get`: a fresh node. */
  function NewNode(ch: char): Tree {
    Node(ch, UNBOUND, Nil, Nil)
  }

  // ---------- what a tree means ----------

  /** The binding of a key.  Only childless nodes bind; what an interior node holds is a
      leftover from the time it was childless. */
  function Lookup(t: Tree, k: Key): Option<Binding>
    decreases t
  {
    if t.Nil? || k == [] then None
    else if t.ch != k[0] then Lookup(t.sibling, k)
    else if t.next.Nil? then (if |k| == 1 && !t.bind.kind.NOD? then Some(t.bind) else None)
    else Lookup(t.next, k[1..])
  }

  function Chars(t: Tree): set<char> {
    if t.Nil? then {} else {t.ch} + Chars(t.sibling)
  }

  /** Siblings are distinct and childless nodes are bound. */
  ghost predicate Wf(t: Tree) {
    t.Node? ==>
      && t.ch !in Chars(t.sibling)
      && (t.next.Nil? ==> !t.bind.kind.NOD?)
      && Wf(t.next) && Wf(t.sibling)
  }

  /** p leads to a node of the tree. */
  predicate Path(t: Tree, p: Key)
    decreases t
  {
    if t.Nil? || p == [] then false
    else if t.ch != p[0] then Path(t.sibling, p)
    else |p| == 1 || Path(t.next, p[1..])
  }

  // ---------- adding ----------

  /** How many siblings are passed over before the one for c. */
  function Skipped(t: Tree, c: char): nat {
    if t.Nil? || t.ch == c then 0 else 1 + Skipped(t.sibling, c)
  }

  /** `node__try`: finds or makes the nodes for the key and binds the last one, dropping
      whatever was below it. */
  function Try(t: Tree, k: Key, b: Binding): Tree
    requires t.Node? && k != []
    decreases |k|, Skipped(t, k[0])
  {
    if t.ch != k[0] then
      t.(sibling := Try(if t.sibling.Nil? then NewNode(k[0]) else t.sibling, k, b))
    else if |k| == 1 then t.(bind := b, next := Nil)
    else t.(next := Try(if t.next.Nil? then NewNode(k[1]) else t.next, k[1..], b))
  }

  predicate PrefixRelated(a: Key, b: Key) {
    a <= b || b <= a
  }

  lemma {:induction false} TryWf(t: Tree, k: Key, b: Binding)
    requires t.Node? && k != [] && !b.kind.NOD? && (Wf(t) || t == NewNode(k[0]))
    ensures Wf(Try(t, k, b)) && Chars(Try(t, k, b)) == Chars(t) + {k[0]}
    decreases |k|, Skipped(t, k[0])
  {
    if t.ch != k[0] {
      TryWf(if t.sibling.Nil? then NewNode(k[0]) else t.sibling, k, b);
    } else if |k| > 1 {
      TryWf(if t.next.Nil? then NewNode(k[1]) else t.next, k[1..], b);
    }
  }

  /** No key is bound at a character that no sibling has. */
  lemma {:induction false} AbsentChar(t: Tree, k: Key)
    requires k != [] && k[0] !in Chars(t)
    ensures Lookup(t, k) == None && !Path(t, k)
  {
    if t.Node? { AbsentChar(t.sibling, k); }
  }

  lemma PrefixTail(a: Key, b: Key)
    requires a != [] && b != [] && a[0] == b[0]
    ensures a <= b <==> a[1..] <= b[1..]
    ensures a == b <==> a[1..] == b[1..]
  {
    assert a == [a[0]] + a[1..] && b == [b[0]] + b[1..];
  }

  /** Adding binds the key and loses exactly the keys that are a prefix or an extension
      of it. */
  lemma {:induction false} TryLookup(t: Tree, k: Key, b: Binding, q: Key)
    requires t.Node? && k != [] && q != [] && !b.kind.NOD? && (Wf(t) || t == NewNode(k[0]))
    ensures Lookup(Try(t, k, b), q) ==
      if q == k then Some(b) else if PrefixRelated(q, k) then None else Lookup(t, q)
    decreases |k|, Skipped(t, k[0])
  {
    if t.ch != k[0] {
      var s := if t.sibling.Nil? then NewNode(k[0]) else t.sibling;
      TryLookup(s, k, b, q);
    } else if q[0] != t.ch {
    } else if |k| == 1 {
    } else {
      var n := if t.next.Nil? then NewNode(k[1]) else t.next;
      PrefixTail(q, k);
      PrefixTail(k, q);
      if |q| > 1 { TryLookup(n, k[1..], b, q[1..]); }
    }
  }

  // ---------- deleting ----------

  /** `node__delete`: the tree left over, and whether this list lost a node. */
  function Delete(t: Tree, k: Key): (Tree, bool)
    requires t.Node? && k != []
    decreases t
  {
    if t.ch != k[0] then
      if t.sibling.Nil? then (t, false)
      else var (s, gone) := Delete(t.sibling, k); (t.(sibling := s), gone)
    else if |k| == 1 then (t.sibling, true)
    else if t.next.Nil? then (t, false)
    else
      var (n, gone) := Delete(t.next, k[1..]);
      if gone && n.Nil? then (t.sibling, true) else (t.(next := n), false)
  }

  lemma {:induction false} DeleteWf(t: Tree, k: Key)
    requires t.Node? && k != [] && Wf(t)
    ensures var r := Delete(t, k);
      && Wf(r.0) && Chars(r.0) <= Chars(t) && (r.0.Nil? ==> r.1)
    decreases t
  {
    if t.ch != k[0] {
      if t.sibling.Node? { DeleteWf(t.sibling, k); }
    } else if |k| > 1 && t.next.Node? {
      DeleteWf(t.next, k[1..]);
    }
  }

  /** Deleting unbinds exactly the keys that start with the given one. */
  lemma {:induction false} DeleteLookup(t: Tree, k: Key, q: Key)
    requires t.Node? && k != [] && q != [] && Wf(t)
    ensures Lookup(Delete(t, k).0, q) == if k <= q then None else Lookup(t, q)
    decreases t
  {
    if t.ch != k[0] {
      if t.sibling.Node? {
        DeleteLookup(t.sibling, k, q);
      } else if k <= q {
        assert q[0] == k[0];
      }
    } else if |k| == 1 {
      if q[0] == k[0] { AbsentChar(t.sibling, q); assert k <= q; }
    } else if t.next.Node? {
      DeleteWf(t.next, k[1..]);
      if q[0] == k[0] {
        PrefixTail(k, q);
        AbsentChar(t.sibling, q);
        if |q| > 1 { DeleteLookup(t.next, k[1..], q[1..]); }
      }
    } else if k <= q {
      assert q[0] == k[0] && |q| > 1;
    }
  }

  // ---------- a tree is a prefix-free map ----------

  lemma {:induction false} PrefixFree(t: Tree, a: Key, b: Key)
    requires Lookup(t, a).Some? && Lookup(t, b).Some? && a <= b
    ensures a == b
    decreases t
  {
    PrefixTail(a, b);
    if t.ch != a[0] {
      PrefixFree(t.sibling, a, b);
    } else if t.next.Node? {
      PrefixFree(t.next, a[1..], b[1..]);
    }
  }

  /** Every node of a well-formed tree leads to a bound key. */
  lemma {:induction false} SomeKeyBelow(t: Tree) returns (k: Key)
    requires t.Node? && Wf(t)
    ensures k != [] && k[0] == t.ch && Lookup(t, k).Some?
    decreases t
  {
    if t.next.Nil? {
      k := [t.ch];
    } else {
      var rest := SomeKeyBelow(t.next);
      k := [t.ch] + rest;
      assert k[1..] == rest;
    }
  }

  lemma {:induction false} KeyThroughPath(t: Tree, p: Key) returns (k: Key)
    requires Wf(t) && Path(t, p)
    ensures p <= k && Lookup(t, k).Some?
    decreases t
  {
    if t.ch != p[0] {
      k := KeyThroughPath(t.sibling, p);
    } else if |p| == 1 {
      k := SomeKeyBelow(t);
    } else {
      var rest := KeyThroughPath(t.next, p[1..]);
      k := [t.ch] + rest;
      assert k[1..] == rest;
      PrefixTail(p, k);
    }
  }

  // ---------- reading a key ----------

  /** The result of reading: a binding, no match, or the end of the input. */
  datatype Found = Hit(bind: Binding) | Miss | EndOfFile

  /** What `node_trav` returns, the character it leaves in *ch, and the unread input. */
  datatype Read = Read(found: Found, ch: char, rest: seq<char>)

  function Trav(t: Tree, ch: char, input: seq<char>): Read
    requires t.Node?
    decreases t
  {
    if t.ch == ch then
      if t.next.Node? then
        if input == [] then Read(EndOfFile, ch, [])
        else Trav(t.next, input[0], input[1..])
      else Read(Hit(t.bind), if t.bind.kind.CMD? then ch else '\0', input)
    else if t.sibling.Node? then Trav(t.sibling, ch, input)
    else Read(Miss, ch, input)
  }

  /** The characters read: `ch` and what was taken from the input. */
  function Consumed(ch: char, input: seq<char>, r: Read): seq<char>
    requires |r.rest| <= |input|
  {
    [ch] + input[..|input| - |r.rest|]
  }

  /** Reading consumes exactly a bound key; or stops at the first character that leaves
      the tree; or runs out of input inside the tree. */
  lemma {:induction false} TravReads(t: Tree, ch: char, input: seq<char>)
    requires t.Node? && Wf(t)
    ensures var r := Trav(t, ch, input);
      && |r.rest| <= |input| && r.rest == input[|input| - |r.rest|..]
      && var p := Consumed(ch, input, r);
      && (r.found.Hit? ==> Lookup(t, p) == Some(r.found.bind))
      && (r.found.Miss? ==> !Path(t, p) && (|p| > 1 ==> Path(t, p[..|p| - 1])))
      && (r.found.EndOfFile? ==> r.rest == [] && Path(t, p) && Lookup(t, p).None?)
    decreases t
  {
    hide Chars, Consumed;
    var r := Trav(t, ch, input);
    if t.ch == ch && t.next.Node? && input != [] {
      TravReads(t.next, input[0], input[1..]);
      ConsumedStep(ch, input, r);
      var p, p' := Consumed(ch, input, r), Consumed(input[0], input[1..], r);
      assert Lookup(t, p) == Lookup(t.next, p');
      assert Path(t, p) == Path(t.next, p');
      if |p'| > 1 {
        assert Path(t, p[..|p| - 1]) == Path(t.next, p'[..|p'| - 1]);
      }
    } else if t.ch != ch && t.sibling.Node? {
      TravReads(t.sibling, ch, input);
      ConsumedFirst(ch, input, r);
    } else {
      ConsumedFirst(ch, input, r);
    }
  }

  lemma ConsumedFirst(ch: char, input: seq<char>, r: Read)
    requires |r.rest| <= |input|
    ensures var p := Consumed(ch, input, r); p != [] && p[0] == ch && (r.rest == input ==> p == [ch])
  {
  }

  lemma ConsumedStep(ch: char, input: seq<char>, r: Read)
    requires input != [] && |r.rest| < |input|
    ensures var p, p' := Consumed(ch, input, r), Consumed(input[0], input[1..], r);
      && p[0] == ch && p[1..] == p' && |p| == |p'| + 1 >= 2
      && p[..|p| - 1][0] == ch && p[..|p| - 1][1..] == p'[..|p'| - 1]
  {
    var p, p' := Consumed(ch, input, r), Consumed(input[0], input[1..], r);
    assert p == [ch] + p';
  }

  /** The reader stops as soon as a bound key is complete. */
  lemma {:induction false} HitsBoundPrefix(t: Tree, ch: char, input: seq<char>, k: Key)
    requires t.Node? && Wf(t) && Lookup(t, k).Some? && k <= [ch] + input
    ensures var r := Trav(t, ch, input);
      r.found == Hit(Lookup(t, k).value) && |r.rest| == |input| + 1 - |k|
    decreases t
  {
    assert k[0] == ch;
    if t.ch != ch {
      HitsBoundPrefix(t.sibling, ch, input, k);
    } else if t.next.Node? {
      assert input[0] == k[1] && [input[0]] + input[1..] == input;
      PrefixTail(k, [ch] + input);
      assert ([ch] + input)[1..] == input;
      HitsBoundPrefix(t.next, input[0], input[1..], k[1..]);
    }
  }

  /** Some bound key starts the text. */
  ghost predicate StartsBound(t: Tree, text: seq<char>) {
    exists k :: k <= text && Lookup(t, k).Some?
  }

  /** Some bound key continues p, or is p. */
  ghost predicate Continued(t: Tree, p: Key) {
    exists k :: p <= k && Lookup(t, k).Some?
  }

  lemma ContinuedIffPath(t: Tree, p: Key)
    requires Wf(t) && p != []
    ensures Continued(t, p) <==> Path(t, p)
  {
    if Path(t, p) {
      var k := KeyThroughPath(t, p);
    }
    if k :| p <= k && Lookup(t, k).Some? {
      BoundIsPath(t, k, p);
    }
  }

  lemma ConsumedStarts(ch: char, input: seq<char>, r: Read)
    requires |r.rest| <= |input|
    ensures Consumed(ch, input, r) <= [ch] + input && Consumed(ch, input, r) != []
    ensures r.rest == [] ==> Consumed(ch, input, r) == [ch] + input
    ensures forall k :: k <= [ch] + input && |r.rest| == |input| + 1 - |k| ==> k == Consumed(ch, input, r)
  {
  }

  /** A reading that hits, hits the only bound key that starts the text, and whenever there
      is one it is hit. */
  lemma KeyGetHits(t: Tree, ch: char, input: seq<char>, k: Key)
    requires t.Node? && Wf(t) && k <= [ch] + input && Lookup(t, k).Some?
    ensures var r := Trav(t, ch, input);
      |r.rest| <= |input| && k == Consumed(ch, input, r) && r.found == Hit(Lookup(t, k).value)
  {
    hide Trav, Lookup, Wf, Consumed;
    HitsBoundPrefix(t, ch, input, k);
    TravReads(t, ch, input);
    ConsumedStarts(ch, input, Trav(t, ch, input));
  }

  /** `key_get` on a nonempty map.  It reports a binding exactly when the input starts with
      a bound key; it has then read that key and nothing more, and the key is the only one
      the input starts with.  It reports a mismatch having read up to the first character
      with which no bound key continues, and the end of the input when all of it starts
      some longer bound key. */
  lemma KeyGet(t: Tree, ch: char, input: seq<char>)
    requires t.Node? && Wf(t)
    ensures var r := Trav(t, ch, input);
      && |r.rest| <= |input|
      && var p := Consumed(ch, input, r);
      && (r.found.Hit? <==> StartsBound(t, [ch] + input))
      && (forall k :: k <= [ch] + input && Lookup(t, k).Some? ==> k == p && r.found == Hit(Lookup(t, k).value))
      && (r.found.Miss? ==> !Continued(t, p) && (|p| > 1 ==> Continued(t, p[..|p| - 1])))
      && (r.found.EndOfFile? ==> p == [ch] + input && Continued(t, p) && Lookup(t, p).None?)
  {
    hide Trav, Lookup, Wf, Path, Consumed, Continued;
    TravReads(t, ch, input);
    var r := Trav(t, ch, input);
    var p := Consumed(ch, input, r);
    ConsumedStarts(ch, input, r);
    ContinuedIffPath(t, p);
    if |p| > 1 { ContinuedIffPath(t, p[..|p| - 1]); }
    forall k | k <= [ch] + input && Lookup(t, k).Some?
      ensures k == p && r.found == Hit(Lookup(t, k).value)
    {
      KeyGetHits(t, ch, input, k);
    }
  }

  /** Short of the end of the input, the character left in *ch is the last one read, except
      after a hit on a binding that is not a command: there it is zero. */
  lemma {:induction false} LeavesLastRead(t: Tree, ch: char, input: seq<char>)
    requires t.Node? && Wf(t)
    ensures var r := Trav(t, ch, input);
      && |r.rest| <= |input|
      && var p := Consumed(ch, input, r);
         !r.found.EndOfFile? ==> r.ch == if r.found.Hit? && !r.found.bind.kind.CMD? then '\0' else p[|p| - 1]
    decreases t
  {
    hide Chars, Consumed, Lookup, Path;
    TravReads(t, ch, input);
    var r := Trav(t, ch, input);
    if t.ch == ch && t.next.Node? && input != [] {
      LeavesLastRead(t.next, input[0], input[1..]);
      ConsumedStep(ch, input, r);
    } else if t.ch != ch && t.sibling.Node? {
      LeavesLastRead(t.sibling, ch, input);
    } else {
      ConsumedFirst(ch, input, r);
    }
  }

  /** A bound key is a path, and so is each of its prefixes. */
  lemma {:induction false} BoundIsPath(t: Tree, k: Key, p: Key)
    requires Lookup(t, k).Some? && p != [] && p <= k
    ensures Path(t, p)
    decreases t
  {
    PrefixTail(p, k);
    if t.ch != p[0] {
      BoundIsPath(t.sibling, k, p);
    } else if |p| > 1 {
      BoundIsPath(t.next, k[1..], p[1..]);
    }
  }
}

/** The code of key.c, on linked nodes. */
module KeyMap {
  import opened Options
  import opened KeyTree

  const ED_SEQUENCE_LEAD_IN := 24

  class KeyNode {
    var ch: char
    var bind: Binding
    var next: KeyNode?
    var sibling: KeyNode?
    ghost var repr: set<KeyNode>

    ghost predicate Valid()
      reads this, repr
      decreases repr
    {
      && this in repr
      && (next != null ==> next in repr && next.repr <= repr && this !in next.repr && next.Valid())
      && (sibling != null ==> sibling in repr && sibling.repr <= repr && this !in sibling.repr && sibling.Valid())
      && (next != null && sibling != null ==> next.repr !! sibling.repr)
    }

    ghost function ToTree(): Tree
      requires Valid()
      reads repr
      decreases repr
    {
      Node(ch, bind,
           if next == null then Nil else next.ToTree(),
           if sibling == null then Nil else sibling.ToTree())
    }

    /** `node__get`. */
    constructor (ch: char)
      ensures Valid() && fresh(repr) && ToTree() == NewNode(ch)
    {
      this.ch, bind, next, sibling := ch, UNBOUND, null, null;
      repr := {this};
    }
  }

  ghost function TreeOf(n: KeyNode?): Tree
    requires n != null ==> n.Valid()
    reads n, if n == null then {} else n.repr
  {
    if n == null then Nil else n.ToTree()
  }

  /** `node__try`.  The walk along the siblings is a call on the next one. */
  method NodeTry(ptr: KeyNode, str: Key, b: Binding)
    requires ptr.Valid() && str != []
    modifies ptr.repr
    ensures ptr.Valid() && fresh(ptr.repr - old(ptr.repr))
    ensures ptr.ToTree() == Try(old(ptr.ToTree()), str, b)
    decreases |str|, Skipped(ptr.ToTree(), str[0]), 1
  {
    if ptr.ch != str[0] {
      if ptr.sibling == null {
        ptr.sibling := new KeyNode(str[0]);
      }
      NodeTry(ptr.sibling, str, b);
      ptr.repr := {ptr} + (if ptr.next == null then {} else ptr.next.repr) + ptr.sibling.repr;
    } else {
      BindOrDescend(ptr, str, b);
    }
  }

  /** The rest of `node__try`, at the node for the first character. */
  method BindOrDescend(ptr: KeyNode, str: Key, b: Binding)
    requires ptr.Valid() && str != [] && ptr.ch == str[0]
    modifies ptr.repr
    ensures ptr.Valid() && fresh(ptr.repr - old(ptr.repr))
    ensures ptr.ToTree() == Try(old(ptr.ToTree()), str, b)
    decreases |str|, 0, 0
  {
    if |str| == 1 {
      // The longer keys with this prefix are lost.
      ptr.next := null;
      ptr.bind := b;
      ptr.repr := {ptr} + (if ptr.sibling == null then {} else ptr.sibling.repr);
    } else {
      if ptr.next == null {
        ptr.next := new KeyNode(str[1]);
      }
      NodeTry(ptr.next, str[1..], b);
      ptr.repr := {ptr} + ptr.next.repr + (if ptr.sibling == null then {} else ptr.sibling.repr);
    }
  }

  /** `node__delete`.  The list it is given by reference comes back as a result. */
  method NodeDelete(ptr: KeyNode, str: Key) returns (left: KeyNode?, gone: bool)
    requires ptr.Valid() && str != []
    modifies ptr.repr
    ensures left != null ==> left.Valid() && left.repr <= old(ptr.repr)
    ensures (TreeOf(left), gone) == Delete(old(ptr.ToTree()), str)
    decreases ptr.repr, 1
  {
    if ptr.ch != str[0] {
      if ptr.sibling == null {
        return ptr, false;
      }
      left, gone := DeleteAlong(ptr, str);
    } else if |str| == 1 {
      left, gone := ptr.sibling, true;
    } else if ptr.next == null {
      return ptr, false;
    } else {
      left, gone := DeleteBelow(ptr, str);
    }
  }

  /** The walk along the siblings. */
  method DeleteAlong(ptr: KeyNode, str: Key) returns (left: KeyNode?, gone: bool)
    requires ptr.Valid() && str != [] && ptr.ch != str[0] && ptr.sibling != null
    modifies ptr.repr
    ensures left != null && left.Valid() && left.repr <= old(ptr.repr)
    ensures (TreeOf(left), gone) == Delete(old(ptr.ToTree()), str)
    decreases ptr.repr, 0
  {
    left, gone := NodeDelete(ptr.sibling, str);
    ptr.sibling := left;
    ptr.repr := {ptr} + (if ptr.next == null then {} else ptr.next.repr) + (if left == null then {} else left.repr);
    left := ptr;
  }

  /** The deletion among the children, which may leave the node without any. */
  method DeleteBelow(ptr: KeyNode, str: Key) returns (left: KeyNode?, gone: bool)
    requires ptr.Valid() && |str| > 1 && ptr.ch == str[0] && ptr.next != null
    modifies ptr.repr
    ensures left != null ==> left.Valid() && left.repr <= old(ptr.repr)
    ensures (TreeOf(left), gone) == Delete(old(ptr.ToTree()), str)
    decreases ptr.repr, 0
  {
    var n, g := NodeDelete(ptr.next, str[1..]);
    ptr.next := n;
    if g && n == null {
      return ptr.sibling, true;
    }
    ptr.repr := {ptr} + (if n == null then {} else n.repr) + (if ptr.sibling == null then {} else ptr.sibling.repr);
    return ptr, false;
  }

  /** The editor's extended-key map, with the characters waiting to be read. */
  class ExtendedKeys {
    var map_: KeyNode?
    var input: seq<char>

    ghost predicate Valid()
      reads this, map_, if map_ == null then {} else map_.repr
    {
      (map_ != null ==> map_.Valid()) && Wf(TreeOf(map_))
    }

    ghost function Keys(): Tree
      requires Valid()
      reads this, map_, if map_ == null then {} else map_.repr
    {
      TreeOf(map_)
    }

    constructor ()
      ensures Valid() && Keys() == Nil && input == []
    {
      map_ := null;
      input := [];
    }

    /** Binds a key.  Every key that is a prefix of it or that it is a prefix of is lost;
        every other key keeps its binding. */
    method KeyAdd(key: Key, b: Binding)
      requires Valid() && !b.kind.NOD?
      modifies this`map_, if map_ == null then {} else map_.repr
      ensures Valid()
      ensures key == [] || (b.kind.CMD? && b.val == Command(ED_SEQUENCE_LEAD_IN)) ==> Keys() == old(Keys())
      ensures key != [] && !(b.kind.CMD? && b.val == Command(ED_SEQUENCE_LEAD_IN)) ==>
        forall q: Key | q != [] :: Lookup(Keys(), q) ==
          if q == key then Some(b) else if PrefixRelated(q, key) then None else old(Lookup(Keys(), q))
    {
      if key == [] {
        return;
      }
      if b.kind.CMD? && b.val == Command(ED_SEQUENCE_LEAD_IN) {
        return;
      }
      ghost var t := Keys();
      if map_ == null {
        map_ := new KeyNode(key[0]);
      }
      ghost var seed := map_.ToTree();
      NodeTry(map_, key, b);
      TryWf(seed, key, b);
      forall q: Key | q != []
        ensures Lookup(Keys(), q) ==
          if q == key then Some(b) else if PrefixRelated(q, key) then None else Lookup(t, q)
      {
        TryLookup(seed, key, b, q);
      }
    }

    /** Unbinds exactly the keys that start with the given one. */
    method KeyDelete(key: Key) returns (status: int)
      requires Valid()
      modifies this`map_, if map_ == null then {} else map_.repr
      ensures Valid() && status == if key == [] then -1 else 0
      ensures key == [] ==> Keys() == old(Keys())
      ensures key != [] ==>
        forall q: Key | q != [] :: Lookup(Keys(), q) == if key <= q then None else old(Lookup(Keys(), q))
    {
      if key == [] {
        return -1;
      }
      if map_ == null {
        return 0;
      }
      ghost var t := Keys();
      var left, _ := NodeDelete(map_, key);
      map_ := left;
      DeleteWf(t, key);
      forall q: Key | q != []
        ensures Lookup(Keys(), q) == if key <= q then None else Lookup(t, q)
      {
        DeleteLookup(t, key, q);
      }
      return 0;
    }

    method KeyReset()
      requires Valid()
      modifies this`map_
      ensures Valid() && Keys() == Nil
    {
      map_ := null;
    }

    /** `node_trav`. */
    method NodeTrav(ptr: KeyNode, ch: char) returns (found: Found, ch': char)
      requires ptr.Valid()
      modifies this`input
      ensures Read(found, ch', input) == Trav(ptr.ToTree(), ch, old(input))
      decreases ptr.repr
    {
      if ptr.ch == ch {
        if ptr.next != null {
          if input == [] {
            return EndOfFile, ch;
          }
          var c := input[0];
          input := input[1..];
          found, ch' := NodeTrav(ptr.next, c);
        } else {
          found, ch' := Hit(ptr.bind), if ptr.bind.kind.CMD? then ch else '\0';
        }
      } else if ptr.sibling != null {
        found, ch' := NodeTrav(ptr.sibling, ch);
      } else {
        found, ch' := Miss, ch;
      }
    }

    /** Reads a key that starts with `ch`.  What it reports is what `KeyGet` says of `Trav`. */
    method KeyGet(ch: char) returns (found: Found, ch': char)
      requires Valid() && map_ != null
      modifies this`input
      ensures Valid() && Keys() == old(Keys())
      ensures Read(found, ch', input) == Trav(Keys(), ch, old(input))
    {
      found, ch' := NodeTrav(map_, ch);
    }
  }
}
