/** The breakpoints of the debugger: a circular doubly-linked list on the heap, entered at `first`
    (libpcsxcore/debug.c:251-309), and the commands that change and read it (debug.c:341, 907-1030,
    1076-1089).
  */
module Breakpoints {
  datatype Kind = E | R1 | R2 | R4 | W1 | W2 | W4

  /** What a breakpoint says, without its place on the heap. */
  datatype Entry = Entry(number: int, kind: Kind, address: nat)

  // ----- the list as a sequence -----

  function NextNumber(s: seq<Entry>): int { if s == [] then 1 else s[|s| - 1].number + 1 }

  function Added(s: seq<Entry>, kind: Kind, address: nat): seq<Entry>
  {
    s + [Entry(NextNumber(s), kind, address)]
  }

  function Removed(s: seq<Entry>, k: nat): (r: seq<Entry>)
    requires k < |s|
    ensures |r| == |s| - 1
  {
    s[..k] + s[k + 1..]
  }

  /** Numbers start at 1 or above and grow along the list. */
  predicate Numbered(s: seq<Entry>)
  {
    (forall i :: 0 <= i < |s| ==> s[i].number >= 1) &&
    (forall i, j :: 0 <= i < j < |s| ==> s[i].number < s[j].number)
  }

  predicate Holds(s: seq<Entry>, number: int) { exists i :: 0 <= i < |s| && s[i].number == number }

  /** The first place where the number occurs; the length of the list if it does not. */
  function Find(s: seq<Entry>, number: int): (k: nat)
    ensures k <= |s|
    ensures k < |s| ==> s[k].number == number
    ensures forall i :: 0 <= i < k ==> s[i].number != number
  {
    if s == [] || s[0].number == number then 0 else 1 + Find(s[1..], number)
  }

  /** The commands that change the list: 310 and its siblings, 301 with and without a number. */
  datatype Command = Add(kind: Kind, address: nat) | Delete(number: int) | DeleteAll

  function Step(s: seq<Entry>, c: Command): seq<Entry>
  {
    match c
    case Add(kind, address) => Added(s, kind, address)
    case Delete(number) =>
      var k := Find(s, number);
      if k < |s| then Removed(s, k) else s
    case DeleteAll => []
  }

  function Run(s: seq<Entry>, cs: seq<Command>): seq<Entry>
    decreases |cs|
  {
    if cs == [] then s else Run(Step(s, cs[0]), cs[1..])
  }

  lemma RemovedAt(s: seq<Entry>, k: nat, i: nat)
    requires k < |s| && i < |s| - 1
    ensures Removed(s, k)[i] == s[if i < k then i else i + 1]
  {
  }

  lemma StepKeepsNumbered(s: seq<Entry>, c: Command)
    requires Numbered(s)
    ensures Numbered(Step(s, c))
  {
    if c.Delete? && Find(s, c.number) < |s| {
      hide Removed;
      forall i | 0 <= i < |s| - 1 { RemovedAt(s, Find(s, c.number), i); }
    }
  }

  /** Along every run the numbers increase, so a number names at most one breakpoint. */
  lemma {:induction false} RunKeepsNumbered(s: seq<Entry>, cs: seq<Command>)
    requires Numbered(s)
    ensures Numbered(Run(s, cs))
    ensures forall i, j :: 0 <= i < j < |Run(s, cs)| ==> Run(s, cs)[i].number != Run(s, cs)[j].number
    decreases |cs|
  {
    if cs != [] {
      StepKeepsNumbered(s, cs[0]);
      RunKeepsNumbered(Step(s, cs[0]), cs[1..]);
    }
  }

  lemma DeleteKeepsOthers(s: seq<Entry>, number: int, e: Entry)
    requires Numbered(s)
    ensures e in Step(s, Delete(number)) <==> e in s && e.number != number
  {
    hide Removed;
    var k := Find(s, number);
    if k < |s| {
      forall i | 0 <= i < |s| - 1 { RemovedAt(s, k, i); }
      if e in s && e.number != number {
        var j :| 0 <= j < |s| && s[j] == e;
        assert Removed(s, k)[if j < k then j else j - 1] == e;
      }
    }
  }

  /** A command changes nothing about the breakpoints it does not name: the others keep number, kind
      and address, and after a delete exactly the named one is gone. */
  lemma OthersAreKept(s: seq<Entry>, c: Command, e: Entry)
    requires Numbered(s)
    ensures e in Step(s, c) <==>
      match c
      case Add(kind, address) => e in s || e == Entry(NextNumber(s), kind, address)
      case Delete(number) => e in s && e.number != number
      case DeleteAll => false
  {
    if c.Delete? {
      DeleteKeepsOthers(s, c.number, e);
    }
  }

  /** The number given to a new breakpoint names it and no other. */
  lemma AddedIsFound(s: seq<Entry>, kind: Kind, address: nat)
    requires Numbered(s)
    ensures !Holds(s, NextNumber(s))
    ensures Find(Added(s, kind, address), NextNumber(s)) == |s|
  {
    assert Added(s, kind, address)[|s|].number == NextNumber(s);
  }

  /** Numbers are given out anew: a number that was deleted comes back with the next breakpoint if and
      only if it was the largest, and the one before it (or 0, if none is left) is one less. */
  lemma NumberComesBackExactly(s: seq<Entry>, number: int)
    requires Numbered(s) && Holds(s, number)
    ensures NextNumber(Step(s, Delete(number))) == number <==>
      s[|s| - 1].number == number && number == (if |s| == 1 then 1 else s[|s| - 2].number + 1)
  {
    var k := Find(s, number);
    var t := Removed(s, k);
    if k < |s| - 1 {
      assert t[|t| - 1] == s[|s| - 1];
    } else if |s| > 1 {
      assert t[|t| - 1] == s[|s| - 2];
    }
  }

  // ----- the list on the heap -----

  class Breakpoint {
    var next: Breakpoint?
    var prev: Breakpoint?
    var number: int
    var kind: Kind
    var address: nat

    constructor (kind: Kind, address: nat)
      ensures this.kind == kind && this.address == address
    {
      next, prev, number := null, null, 0;
      this.kind, this.address := kind, address;
    }

    ghost function ToEntry(): Entry
      reads `number, `kind, `address
    {
      Entry(number, kind, address)
    }
  }

  /** Place `i` of a circle of `n` places, one step on and one step back. */
  function After(i: nat, n: nat): nat
    requires i < n
  {
    if i + 1 < n then i + 1 else 0
  }

  function Before(i: nat, n: nat): nat
    requires i < n
  {
    if i > 0 then i - 1 else n - 1
  }

  ghost predicate Distinct(nodes: seq<Breakpoint>)
  {
    forall i, j :: 0 <= i < j < |nodes| ==> nodes[i] != nodes[j]
  }

  ghost predicate Forward(nodes: seq<Breakpoint>)
    reads nodes`next
  {
    forall i {:trigger nodes[i].next} :: 0 <= i < |nodes| ==> nodes[i].next == nodes[After(i, |nodes|)]
  }

  ghost predicate Backward(nodes: seq<Breakpoint>)
    reads nodes`prev
  {
    forall i {:trigger nodes[i].prev} :: 0 <= i < |nodes| ==> nodes[i].prev == nodes[Before(i, |nodes|)]
  }

  /** The nodes are distinct and form a circle in both directions. */
  ghost predicate Circle(nodes: seq<Breakpoint>)
    reads nodes
  {
    Distinct(nodes) && Forward(nodes) && Backward(nodes)
  }

  /** The nodes hold the entries, one each. */
  ghost predicate Hold(nodes: seq<Breakpoint>, entries: seq<Entry>)
    reads nodes`number, nodes`kind, nodes`address
  {
    |nodes| == |entries| &&
    forall i {:trigger nodes[i]} {:trigger entries[i]} :: 0 <= i < |nodes| ==> nodes[i].ToEntry() == entries[i]
  }

  lemma HoldRemoved(nodes: seq<Breakpoint>, entries: seq<Entry>, k: nat)
    requires Hold(nodes, entries) && k < |nodes|
    ensures |entries| == |nodes| && Hold(nodes[..k] + nodes[k + 1..], Removed(entries, k))
  {
  }

  lemma AfterIn(nodes: seq<Breakpoint>, k: nat)
    requires Forward(nodes) && k < |nodes|
    ensures nodes[k].next == nodes[After(k, |nodes|)]
  {
  }

  lemma BeforeIn(nodes: seq<Breakpoint>, k: nat)
    requires Backward(nodes) && k < |nodes|
    ensures nodes[k].prev == nodes[Before(k, |nodes|)]
  {
  }

  class BreakpointList {
    var first: Breakpoint?
    ghost var nodes: seq<Breakpoint>
    ghost var entries: seq<Entry>

    ghost predicate Valid()
      reads this, nodes
    {
      (first == if nodes == [] then null else nodes[0]) && Circle(nodes) && Hold(nodes, entries)
    }

    constructor ()
      ensures Valid() && nodes == [] && entries == []
    {
      first := null;
      nodes, entries := [], [];
    }

    /** add_breakpoint. */
    method Add(kind: Kind, address: nat) returns (number: int)
      requires Valid()
      modifies this, nodes
      ensures Valid() && |nodes| == |old(nodes)| + 1 && nodes[..|old(nodes)|] == old(nodes) &&
        fresh(nodes[|old(nodes)|])
      ensures entries == Added(old(entries), kind, address)
      ensures number == NextNumber(old(entries))
    {
      hide Circle;
      var bp := new Breakpoint(kind, address);
      if first != null {
        Insert(bp);
      } else {
        first := bp;
        Enclose(bp);
        assert nodes + [bp] == [bp];
      }
      nodes, entries := nodes + [bp], entries + [bp.ToEntry()];
      number := bp.number;
    }

    /** The first node of a list is a circle by itself. */
    method Enclose(bp: Breakpoint)
      modifies bp`number, bp`next, bp`prev
      ensures Circle([bp]) && bp.number == 1
    {
      bp.number := 1;
      bp.next := bp;
      bp.prev := bp;
    }

    /** A further node gets the next number and is linked in before `first`, that is, at the end. */
    method Insert(bp: Breakpoint)
      requires Circle(nodes) && nodes != [] && first == nodes[0] && bp !in nodes
      modifies nodes`next, nodes`prev, bp`number, bp`next, bp`prev
      ensures Circle(nodes + [bp])
      ensures bp.number == nodes[|nodes| - 1].number + 1
    {
      hide Backward;
      BeforeIn(nodes, 0);
      bp.number := first.prev.number + 1;
      bp.next := first;
      bp.prev := first.prev;
      InsertBackward(bp);
      bp.prev.next := bp;
      ghost var n, m := |nodes|, nodes + [bp];
      forall i {:trigger m[i].next} | 0 <= i <= n
        ensures m[i].next == m[After(i, n + 1)]
      {
        assert i < n ==> m[i] == nodes[i] && old(nodes[i].next) == nodes[After(i, n)];
      }
    }

    /** The half of the insertion that changes `prev`. */
    method InsertBackward(bp: Breakpoint)
      requires Distinct(nodes) && Backward(nodes) && nodes != [] && first == nodes[0] && bp !in nodes
      requires bp.prev == nodes[|nodes| - 1]
      modifies nodes`prev, bp`prev
      ensures Backward(nodes + [bp]) && bp.prev == old(bp.prev)
    {
      first.prev := bp;
      ghost var n, m := |nodes|, nodes + [bp];
      forall i {:trigger m[i].prev} | 0 <= i <= n
        ensures m[i].prev == m[Before(i, n + 1)]
      {
        assert i < n ==> m[i] == nodes[i] && old(nodes[i].prev) == nodes[Before(i, n)];
      }
    }

    /** The node at place `k` is passed over backwards. */
    method UnlinkBackward(bp: Breakpoint, ghost k: nat)
      requires Distinct(nodes) && Forward(nodes) && Backward(nodes) && k < |nodes| && nodes[k] == bp
      modifies nodes`prev
      ensures Backward(nodes[..k] + nodes[k + 1..])
      ensures bp.prev == old(bp.prev)
    {
      assert bp.next == nodes[After(k, |nodes|)];
      bp.next.prev := bp.prev;
      ghost var n, m := |nodes| - 1, nodes[..k] + nodes[k + 1..];
      forall i {:trigger m[i].prev} | 0 <= i < n
        ensures m[i].prev == m[Before(i, n)]
      {
        var j := if i < k then i else i + 1;
        assert m[i] == nodes[j] && old(nodes[j].prev) == nodes[Before(j, n + 1)];
      }
    }

    /** The node at place `k` is passed over forwards. */
    method UnlinkForward(bp: Breakpoint, ghost k: nat)
      requires Distinct(nodes) && Forward(nodes) && k < |nodes| && nodes[k] == bp
      requires bp.prev == nodes[Before(k, |nodes|)]
      modifies nodes`next
      ensures Forward(nodes[..k] + nodes[k + 1..])
    {
      bp.prev.next := bp.next;
      ghost var n, m := |nodes| - 1, nodes[..k] + nodes[k + 1..];
      forall i {:trigger m[i].next} | 0 <= i < n
        ensures m[i].next == m[After(i, n)]
      {
        var j := if i < k then i else i + 1;
        assert m[i] == nodes[j] && old(nodes[j].next) == nodes[After(j, n + 1)];
      }
    }

    /** The node at place `k` is passed over in both directions. */
    method Unlink(bp: Breakpoint, ghost k: nat)
      requires Circle(nodes) && k < |nodes| && nodes[k] == bp
      modifies nodes`next, nodes`prev
      ensures Circle(nodes[..k] + nodes[k + 1..])
    {
      hide Forward, Backward;
      BeforeIn(nodes, k);
      UnlinkBackward(bp, k);
      UnlinkForward(bp, k);
    }

    /** delete_breakpoint: the node at place `k` is unlinked. */
    method Delete(bp: Breakpoint, ghost k: nat)
      requires Valid() && k < |nodes| && nodes[k] == bp
      modifies this, nodes
      ensures Valid() && nodes == old(nodes[..k] + nodes[k + 1..])
      ensures entries == Removed(old(entries), k)
    {
      hide Forward, Backward, Hold, Removed;
      AfterIn(nodes, k);
      HoldRemoved(nodes, entries, k);
      if bp == first {
        if bp.next == bp {
          first := null;
        } else {
          first := bp.next;
        }
      }
      Unlink(bp, k);
      nodes, entries := nodes[..k] + nodes[k + 1..], Removed(entries, k);
    }

    /** next_breakpoint: the node after the one at place `k`, or null at the end of the list. */
    method Next(bp: Breakpoint, ghost k: nat) returns (p: Breakpoint?)
      requires Valid() && k < |nodes| && nodes[k] == bp
      ensures p == if k + 1 < |nodes| then nodes[k + 1] else null
    {
      p := if bp.next != first then bp.next else null;
    }

    /** find_breakpoint: the node, and where it is. */
    method FindNumber(number: int) returns (p: Breakpoint?, ghost k: nat)
      requires Valid()
      ensures p == null <==> !Holds(entries, number)
      ensures p != null ==> p in nodes && p.number == number
      ensures k == Find(entries, number)
      ensures p == if k < |nodes| then nodes[k] else null
    {
      p, k := first, 0;
      while p != null
        invariant k <= |nodes| && p == if k < |nodes| then nodes[k] else null
        invariant Find(entries, number) == k + Find(entries[k..], number)
        decreases |nodes| - k
      {
        assert entries[k..][0] == nodes[k].ToEntry();
        assert entries[k..][1..] == entries[k + 1..];
        if p.number == number { return; }
        p := Next(p, k);
        k := k + 1;
      }
    }

    /** The loop of command 300: every breakpoint is listed once, in order. */
    method List() returns (out: seq<Entry>)
      requires Valid()
      ensures out == entries
    {
      var p := first;
      ghost var k := 0;
      out := [];
      while p != null
        invariant k <= |nodes| && p == if k < |nodes| then nodes[k] else null
        invariant out == entries[..k]
        decreases |nodes| - k
      {
        out := out + [Entry(p.number, p.kind, p.address)];
        p := Next(p, k);
        k := k + 1;
      }
    }

    /** The loop of DebugCheckBP: the number of the first breakpoint that is hit, if any. */
    method Check(address: nat, kind: Kind) returns (hit: bool, number: int)
      requires Valid()
      ensures hit <==> exists e :: e in entries && e.kind == kind && e.address == address
      ensures hit ==> Entry(number, kind, address) in entries
      ensures hit ==> forall i :: 0 <= i < Find(entries, number) ==>
        entries[i].kind != kind || entries[i].address != address
    {
      var p := first;
      ghost var k := 0;
      while p != null
        invariant k <= |nodes| && p == if k < |nodes| then nodes[k] else null
        invariant forall i :: 0 <= i < k ==> entries[i].kind != kind || entries[i].address != address
        decreases |nodes| - k
      {
        if p.kind == kind && p.address == address {
          assert entries[k] == Entry(p.number, kind, address);
          return true, p.number;
        }
        p := Next(p, k);
        k := k + 1;
      }
      return false, 0;
    }

    /** while (first != NULL) delete_breakpoint(first): it ends, and the list is empty. */
    method DeleteEvery()
      requires Valid()
      modifies this, nodes
      ensures Valid() && first == null && entries == []
    {
      while first != null
        invariant Valid() && |nodes| <= |old(nodes)| && nodes == old(nodes)[|old(nodes)| - |nodes|..]
        decreases |nodes|
      {
        hide Circle, Hold, Removed;
        Delete(first, 0);
      }
    }

    /** One command of the debugger. */
    method Perform(c: Command)
      requires Valid()
      modifies this, nodes
      ensures Valid() && entries == Step(old(entries), c)
      ensures forall k :: 0 <= k < |nodes| ==> nodes[k] in old(nodes) || fresh(nodes[k])
    {
      match c
      case Add(kind, address) =>
        var _ := Add(kind, address);
      case Delete(number) =>
        var p, k := FindNumber(number);
        if p != null { Delete(p, k); }
      case DeleteAll => DeleteEvery();
    }
  }

  /** Any run of commands on an empty list: what the list on the heap holds is what the commands say,
      and every number in it is unambiguous. */
  method Serve(cs: seq<Command>) returns (list: BreakpointList)
    ensures list.Valid() && list.entries == Run([], cs)
    ensures Numbered(list.entries)
  {
    list := new BreakpointList();
    var i := 0;
    while i < |cs|
      invariant 0 <= i <= |cs| && list.Valid() && fresh(list) && forall k :: 0 <= k < |list.nodes| ==>
        fresh(list.nodes[k])
      invariant Run(list.entries, cs[i..]) == Run([], cs)
    {
      assert cs[i..][0] == cs[i] && cs[i..][1..] == cs[i + 1..];
      list.Perform(cs[i]);
      i := i + 1;
    }
    RunKeepsNumbered([], cs);
  }
}
