/** What switching a cheat on and off again leaves (libpcsxcore/cheat.c:184-324): which bytes its codes
    can reach at all, and exactly when a byte is put back.
  */
module CheatUndo {
  import opened Common
  import opened CheatText
  import opened CheatStore
  import opened CheatEngine

  // ----- which bytes a code can change -----

  /** The bytes that a code which writes once can change. */
  predicate Covers(kind: Byte, p: nat, a: nat)
  {
    if kind == CONST8 || kind == INC8 || kind == DEC8 then a == p
    else if kind == CONST16 || kind == INC16 || kind == DEC16 then a == p || a == p + 1
    else false
  }

  predicate SlideCovers(kind: Byte, n: nat, p: U32, da: int, a: nat)
    decreases n
  {
    n > 0 && IsConst(kind) && (Covers(kind, p % RAM, a) || SlideCovers(kind, n - 1, (p + da) % 0x1_0000_0000, da, a))
  }

  predicate CopyCovers(to: nat, k: nat, n: nat, a: nat)
    decreases n - k
  {
    k < n && ((to + k) % RAM == a || CopyCovers(to, k + 1, n, a))
  }

  /** The bytes that a code and its successor can change, whatever is in memory.  Being skipped into, a
      code may also run by itself, so each code is looked at on its own. */
  predicate Touches(c: Pair, d: Pair, a: nat)
  {
    if Kind(c.addr) == SLIDE then
      SlideCovers(Kind(d.addr), Place(c.addr) / 0x100 % 0x100, Place(d.addr), Signed(Place(c.addr)), a)
    else if Kind(c.addr) == MEMCPY then CopyCovers(Place(d.addr), 0, c.val, a)
    else Covers(Kind(c.addr), Place(c.addr), a)
  }

  function Text(c: Code): Pair { Pair(c.addr, c.val) }

  predicate CodeCovers(c: Code, a: nat) { Covers(Kind(c.addr), Place(c.addr), a) }

  /** A constant write to byte `a`. */
  predicate ConstCovers(c: Code, a: nat) { IsConst(Kind(c.addr)) && CodeCovers(c, a) }

  /** No code from `j` to `end` can change byte `a`. */
  predicate Avoids(codes: seq<Code>, j: nat, end: nat, a: nat)
    requires end <= |codes|
  {
    forall k :: j <= k < end ==> !Touches(Text(codes[k]), Text(codes[if k + 1 < end then k + 1 else k]), a)
  }

  lemma PutChangesCovered(m: Memory, kind: Byte, p: nat, v: U16, a: nat)
    requires a <= RAM && !Covers(kind, p % RAM, a)
    ensures Put(m, kind, p, v)[a] == m[a]
  {
  }

  lemma {:induction false} SlideChangesCovered(m: Memory, kind: Byte, n: nat, p: U32, v: U16, da: int, dv: int, a: nat)
    requires a <= RAM && !SlideCovers(kind, n, p, da, a)
    ensures Slide(m, kind, n, p, v, da, dv)[a] == m[a]
    decreases n
  {
    hide Put, Covers;
    if n > 0 && IsConst(kind) {
      PutChangesCovered(m, kind, p, v, a);
      SlideChangesCovered(Put(m, kind, p, v), kind, n - 1, (p + da) % 0x1_0000_0000, (v + dv) % 0x1_0000, da, dv, a);
    }
  }

  lemma {:induction false} CopyChangesCovered(m: Memory, to: nat, from: nat, k: nat, n: nat, a: nat)
    requires a <= RAM && !CopyCovers(to, k, n, a)
    ensures Copy(m, to, from, k, n)[a] == m[a]
    decreases n - k
  {
    if k < n {
      CopyChangesCovered(Write8(m, to + k, Read8(m, from + k)), to, from, k + 1, n, a);
    }
  }

  lemma DoneChangesTouched(m: Memory, codes: seq<Code>, j: nat, end: nat, a: nat)
    requires j < end <= |codes| && a <= RAM && Avoids(codes, j, end, a)
    ensures Done(m, codes, j, end)[a] == m[a]
  {
    hide Put, Covers, Slide, SlideCovers, Copy, CopyCovers;
    var c := codes[j];
    assert !Touches(Text(c), Text(codes[if j + 1 < end then j + 1 else j]), a);
    if !IsPair(Kind(c.addr)) {
      PutChangesCovered(m, Kind(c.addr), Place(c.addr), c.val, a);
    } else if j + 1 < end {
      var d := codes[j + 1];
      if Kind(c.addr) == SLIDE {
        SlideChangesCovered(m, Kind(d.addr), Place(c.addr) / 0x100 % 0x100, Place(d.addr), d.val,
          Signed(Place(c.addr)), Signed(c.val), a);
      } else {
        CopyChangesCovered(m, Place(d.addr), Place(c.addr), 0, c.val, a);
      }
    }
  }

  /** The codes differ at most in their old values, and there only from `j` to `end`. */
  predicate SameText(codes: seq<Code>, more: seq<Code>, j: nat, end: nat)
  {
    |codes| == |more| &&
    forall k :: 0 <= k < |codes| ==> if j <= k < end then Text(more[k]) == Text(codes[k]) else more[k] == codes[k]
  }

  lemma SameTextAvoids(codes: seq<Code>, more: seq<Code>, j: nat, end: nat, first: nat, last: nat, a: nat)
    requires SameText(codes, more, j, end) && last <= |codes|
    ensures Avoids(codes, first, last, a) <==> Avoids(more, first, last, a)
  {
    hide Touches;
    forall k | first <= k < last
      ensures Text(more[k]) == Text(codes[k])
    {
    }
  }

  lemma {:induction false} PlayKeepsText(m: Machine, j: nat, end: nat, first: bool)
    requires end <= |m.codes|
    ensures SameText(m.codes, Play(m, j, end, first).codes, j, end)
    ensures !first ==> Play(m, j, end, first).codes == m.codes
    decreases end - j
  {
    hide Done, Length, Latched;
    if j < end {
      PlayKeepsText(OneCode(m, j, end, first), j + Length(m.mem, m.codes[j]), end, first);
    }
  }

  lemma {:induction false} PlayChangesTouched(m: Machine, j: nat, end: nat, first: bool, a: nat)
    requires end <= |m.codes| && a <= RAM && Avoids(m.codes, j, end, a)
    ensures Play(m, j, end, first).mem[a] == m.mem[a]
    decreases end - j
  {
    hide Done, Length, Latched, Avoids;
    if j < end {
      var n := OneCode(m, j, end, first);
      SameTextAvoids(m.codes, n.codes, j, end, j, end, a);
      DoneChangesTouched(m.mem, n.codes, j, end, a);
      var next := j + Length(m.mem, m.codes[j]);
      AvoidsFurther(n.codes, j, next, end, a);
      PlayChangesTouched(n, next, end, first, a);
    }
  }

  lemma AvoidsFurther(codes: seq<Code>, j: nat, next: nat, end: nat, a: nat)
    requires end <= |codes| && j <= next && Avoids(codes, j, end, a)
    ensures Avoids(codes, next, end, a)
  {
  }

  /** Undoing writes only where constant writes do. */
  lemma {:induction false} UndoChangesConstants(m: Machine, j: nat, end: nat, a: nat)
    requires end <= |m.codes| && a <= RAM && forall k :: j <= k < end ==> !ConstCovers(m.codes[k], a)
    ensures Undo(m, j, end).mem[a] == m.mem[a]
    decreases end - j
  {
    hide Put, Covers;
    if j < end {
      var c := m.codes[j];
      if IsConst(Kind(c.addr)) {
        PutChangesCovered(m.mem, Kind(c.addr), Place(c.addr), c.oldVal, a);
        UndoChangesConstants(m.(mem := Put(m.mem, Kind(c.addr), Place(c.addr), c.oldVal)), j + 1, end, a);
      } else {
        UndoChangesConstants(m, j + 1, end, a);
      }
    }
  }

  lemma AvoidsConstants(codes: seq<Code>, j: nat, end: nat, a: nat)
    requires end <= |codes| && Avoids(codes, j, end, a)
    ensures forall k :: j <= k < end ==> !ConstCovers(codes[k], a)
  {
    hide Covers;
    forall k | j <= k < end
      ensures !ConstCovers(codes[k], a)
    {
      assert !Touches(Text(codes[k]), Text(codes[if k + 1 < end then k + 1 else k]), a);
    }
  }

  lemma WrapsBack(x: U16, v: U16)
    ensures ((x + v) % 0x1_0000 - v) % 0x1_0000 == x && ((x - v) % 0x1_0000 + v) % 0x1_0000 == x
  {
  }

  lemma BytePeriod(x: int, r: Byte, k: int)
    requires x == r + 0x100 * k
    ensures x % 0x100 == r
  {
  }

  lemma ByteWrapsBack(x: Byte, v: U16)
    ensures ((x + v) % 0x100 - v) % 0x100 == x && ((x - v) % 0x100 + v) % 0x100 == x
  {
    BytePeriod((x + v) % 0x100 - v, x, -((x + v) / 0x100));
    BytePeriod((x - v) % 0x100 + v, x, -((x - v) / 0x100));
  }

  /** An increment and the decrement of the same value undo each other, wrap-around included. */
  lemma DecrementUndoesIncrement(m: Memory, p: nat, v: U16)
    ensures Put(Put(m, INC16, p, v), DEC16, p, v) == m && Put(Put(m, DEC16, p, v), INC16, p, v) == m
  {
    var x := Read16(m, p);
    WrapsBack(x, v);
    Write16Twice(m, p, (x + v) % 0x1_0000);
    Write16Twice(m, p, (x - v) % 0x1_0000);
    hide Read16, Write16;
  }

  lemma ByteDecrementUndoesIncrement(m: Memory, p: nat, v: U16)
    ensures Put(Put(m, INC8, p, v), DEC8, p, v) == m && Put(Put(m, DEC8, p, v), INC8, p, v) == m
  {
    ByteWrapsBack(m[p % RAM], v);
    assert forall x: Byte :: Read8(Write8(m, p, x), p) == x && Write8(Write8(m, p, x), p, m[p % RAM]) == m;
    assert Read8(m, p) == m[p % RAM];
    hide Read8, Write8;
  }

  lemma Write16Twice(m: Memory, p: nat, w: U16)
    ensures Read16(Write16(m, p, w), p) == w && Write16(Write16(m, p, w), p, Read16(m, p)) == m
  {
    var lo: nat, hi: nat := m[p % RAM], m[p % RAM + 1];
    assert (lo + 0x100 * hi) % 0x100 == lo && (lo + 0x100 * hi) / 0x100 % 0x100 == hi;
    assert w == w % 0x100 + 0x100 * (w / 0x100 % 0x100);
  }

  // ----- what is left after switching on and off, for any cheat -----

  /** The last constant write to byte `a`. */
  predicate LastCover(codes: seq<Code>, j: nat, end: nat, k: nat, a: nat)
    requires end <= |codes|
  {
    j <= k < end && ConstCovers(codes[k], a) && forall l :: k < l < end ==> !ConstCovers(codes[l], a)
  }

  /** What a constant write of `v` leaves at a byte it covers. */
  function ByteOf(c: Code, v: U16, a: nat): Byte { if a == Place(c.addr) then v % 0x100 else v / 0x100 }

  lemma PutByte(m: Memory, c: Code, v: U16, a: nat)
    requires ConstCovers(c, a)
    ensures a <= RAM && Put(m, Kind(c.addr), Place(c.addr), v)[a] == ByteOf(c, v, a)
  {
    assert Place(c.addr) % RAM == Place(c.addr);
  }

  lemma LatchedByte(m: Memory, c: Code, a: nat)
    requires ConstCovers(c, a)
    ensures a <= RAM && ByteOf(c, Latched(m, c).oldVal, a) == m[a]
  {
    var p := Place(c.addr);
    assert p % RAM == p;
    if Kind(c.addr) == CONST16 {
      var lo: nat, hi: nat := m[p], m[p + 1];
      assert (lo + 0x100 * hi) % 0x100 == lo && (lo + 0x100 * hi) / 0x100 == hi;
    }
  }

  /** The first pass runs code `k` itself: no slide, copy or failed comparison passes over it. */
  predicate Runs(m: Machine, j: nat, end: nat, k: nat)
    requires end <= |m.codes|
    decreases end - j
  {
    j <= k < end && (j == k || Runs(OneCode(m, j, end, true), j + Length(m.mem, m.codes[j]), end, k))
  }

  /** Memory as the first pass comes to code `k`. */
  function At(m: Machine, j: nat, end: nat, k: nat): Memory
    requires end <= |m.codes| && Runs(m, j, end, k)
    decreases end - j
  {
    if j == k then m.mem else At(OneCode(m, j, end, true), j + Length(m.mem, m.codes[j]), end, k)
  }

  /** After the first pass a code that was run remembers the memory it found; one that was passed over
      remembers nothing new. */
  lemma {:induction false} FirstPassRemembers(m: Machine, j: nat, end: nat, k: nat)
    requires j <= k < end <= |m.codes|
    ensures Play(m, j, end, true).codes[k] == if Runs(m, j, end, k) then Latched(At(m, j, end, k), m.codes[k])
      else m.codes[k]
    decreases end - j
  {
    hide Done, Latched, Length;
    var n, next := OneCode(m, j, end, true), j + Length(m.mem, m.codes[j]);
    PlayKeepsText(n, next, end, true);
    if next <= k && j < k {
      FirstPassRemembers(n, next, end, k);
    }
  }

  /** The pass after switching off leaves, in every byte that constant writes cover, what the last of
      them remembers. */
  lemma {:induction false} LastPassRestores(m: Machine, j: nat, end: nat, k: nat, a: nat)
    requires end <= |m.codes| && LastCover(m.codes, j, end, k, a)
    ensures a <= RAM && Undo(m, j, end).mem[a] == ByteOf(m.codes[k], m.codes[k].oldVal, a)
    decreases end - j
  {
    hide Put, Covers, ByteOf;
    var c := m.codes[j];
    var next := if IsConst(Kind(c.addr)) then m.(mem := Put(m.mem, Kind(c.addr), Place(c.addr), c.oldVal)) else m;
    if j == k {
      PutByte(m.mem, c, c.oldVal, a);
      UndoChangesConstants(next, j + 1, end, a);
    } else {
      LastPassRestores(next, j + 1, end, k, a);
    }
  }

  /** Switched on for a pass and off again, any cheat leaves in a byte that constant writes cover what the
      last of them found there, if it was run, and otherwise whatever its old value happened to be. */
  lemma UndoneByte(m: Machine, j: nat, end: nat, k: nat, a: nat)
    requires end <= |m.codes| && LastCover(m.codes, j, end, k, a)
    ensures a <= RAM && Undo(Play(m, j, end, true), j, end).mem[a] ==
      if Runs(m, j, end, k) then At(m, j, end, k)[a] else ByteOf(m.codes[k], m.codes[k].oldVal, a)
  {
    hide Covers, Play, Undo, ByteOf, Latched, Runs, At;
    var p := Play(m, j, end, true);
    PlayKeepsText(m, j, end, true);
    FirstPassRemembers(m, j, end, k);
    assert forall l :: j <= l < end ==> ConstCovers(p.codes[l], a) == ConstCovers(m.codes[l], a) by {
      assert forall l :: j <= l < end ==> Text(p.codes[l]) == Text(m.codes[l]);
    }
    LastPassRestores(p, j, end, k, a);
    if Runs(m, j, end, k) {
      LatchedByte(At(m, j, end, k), m.codes[k], a);
    }
    SameByteOf(p.codes[k], m.codes[k], p.codes[k].oldVal, a);
  }

  lemma SameByteOf(c: Code, d: Code, v: U16, a: nat)
    requires Text(c) == Text(d)
    ensures ByteOf(c, v, a) == ByteOf(d, v, a)
  {
  }

  /** A constant write behind a slide, a copy or a comparison that fails is not undone: its old value is
      written, whatever that is. */
  lemma FollowerIsNotUndone(m: Machine, j: nat, end: nat, i: nat, a: nat)
    requires end <= |m.codes| && LastCover(m.codes, j, end, i + 1, a)
    requires Runs(m, j, end, i) && Length(At(m, j, end, i), m.codes[i]) == 2
    ensures a <= RAM && Undo(Play(m, j, end, true), j, end).mem[a] == ByteOf(m.codes[i + 1], m.codes[i + 1].oldVal, a)
  {
    hide LastCover, Covers, ByteOf, Length;
    UndoneByte(m, j, end, i + 1, a);
    FollowerIsPassedOver(m, j, end, i);
  }

  lemma {:induction false} FollowerIsPassedOver(m: Machine, j: nat, end: nat, i: nat)
    requires end <= |m.codes| && Runs(m, j, end, i) && Length(At(m, j, end, i), m.codes[i]) == 2
    ensures !Runs(m, j, end, i + 1)
    decreases end - j
  {
    hide Done, Latched;
    if j < i {
      FollowerIsPassedOver(OneCode(m, j, end, true), j + Length(m.mem, m.codes[j]), end, i);
    }
  }

  /** What is run, and what it finds, does not depend on old values. */
  lemma {:induction false} OldValuesDoNotMatter(m: Machine, codes: seq<Code>, j: nat, end: nat, k: nat)
    requires end <= |m.codes| && SameText(m.codes, codes, 0, |m.codes|)
    ensures var n := Machine(m.mem, codes);
      Runs(n, j, end, k) == Runs(m, j, end, k) && (Runs(m, j, end, k) ==> At(n, j, end, k) == At(m, j, end, k))
    decreases end - j
  {
    hide Put, PairDone, Skips, Covers;
    if j < k < end {
      assert Text(codes[j]) == Text(m.codes[j]);
      assert j + 1 < end ==> Text(codes[j + 1]) == Text(m.codes[j + 1]);
      var p, q := OneCode(m, j, end, true), OneCode(Machine(m.mem, codes), j, end, true);
      SameDone(m.mem, p.codes, q.codes, j, end);
      OldValuesDoNotMatter(p, q.codes, j + Length(m.mem, m.codes[j]), end, k);
    }
  }

  lemma SameDone(m: Memory, codes: seq<Code>, more: seq<Code>, j: nat, end: nat)
    requires j < end <= |codes| && SameText(codes, more, 0, |codes|)
    ensures Done(m, codes, j, end) == Done(m, more, j, end) && Length(m, codes[j]) == Length(m, more[j])
  {
    hide Put, Slide, Copy, Skips;
    assert Text(codes[j]) == Text(more[j]);
    assert j + 1 < end ==> Text(codes[j + 1]) == Text(more[j + 1]);
  }

  /** A byte that constant writes cover is put back, whatever the old values were, exactly if the last of
      those codes is run and finds there what was there at the start. */
  lemma ByteIsUndoneExactly(m: Machine, j: nat, end: nat, k: nat, a: nat)
    requires end <= |m.codes| && LastCover(m.codes, j, end, k, a) && a <= RAM
    ensures (forall codes: seq<Code> :: SameText(m.codes, codes, 0, |m.codes|) ==>
      Undo(Play(Machine(m.mem, codes), j, end, true), j, end).mem[a] == m.mem[a])
      <==> (Runs(m, j, end, k) && At(m, j, end, k)[a] == m.mem[a])
  {
    hide Covers, Play, Undo, Runs, At;
    forall codes: seq<Code> | SameText(m.codes, codes, 0, |m.codes|)
      ensures LastCover(codes, j, end, k, a)
      ensures Undo(Play(Machine(m.mem, codes), j, end, true), j, end).mem[a] ==
        if Runs(m, j, end, k) then At(m, j, end, k)[a] else ByteOf(codes[k], codes[k].oldVal, a)
    {
      assert forall l :: j <= l < end ==> Text(codes[l]) == Text(m.codes[l]);
      UndoneByte(Machine(m.mem, codes), j, end, k, a);
      OldValuesDoNotMatter(m, codes, j, end, k);
    }
    var c := m.codes[k].(oldVal := if m.mem[a] == 0 then 0xFFFF else 0);
    assert ByteOf(c, c.oldVal, a) != m.mem[a];
    assert SameText(m.codes, m.codes, 0, |m.codes|) && SameText(m.codes, m.codes[k := c], 0, |m.codes|);
  }

  /** Nothing else is put back: increments, slides and copies leave what they wrote.
      A byte that no constant write covers is restored exactly if the first pass leaves it alone. */
  lemma ElsewhereIsUndoneExactly(m: Machine, j: nat, end: nat, a: nat)
    requires end <= |m.codes| && a <= RAM && forall k :: j <= k < end ==> !ConstCovers(m.codes[k], a)
    ensures var p := Play(m, j, end, true);
      Undo(p, j, end).mem[a] == p.mem[a] && (Undo(p, j, end).mem[a] == m.mem[a] <==> p.mem[a] == m.mem[a])
  {
    hide Covers, Play, Undo;
    var p := Play(m, j, end, true);
    PlayKeepsText(m, j, end, true);
    forall k | j <= k < end
      ensures !ConstCovers(p.codes[k], a)
    {
      assert Text(p.codes[k]) == Text(m.codes[k]);
    }
    UndoChangesConstants(p, j, end, a);
  }

  // ----- a cheat of constant writes -----

  predicate ConstOnly(codes: seq<Code>, j: nat, end: nat)
    requires end <= |codes|
  {
    forall k :: j <= k < end ==> IsConst(Kind(codes[k].addr))
  }

  /** Constant writes only, no two of them to the same byte. */
  ghost predicate Plain(codes: seq<Code>, j: nat, end: nat)
    requires end <= |codes|
  {
    ConstOnly(codes, j, end) &&
    (forall k, l, a: nat :: j <= k < l < end && CodeCovers(codes[k], a) ==> !CodeCovers(codes[l], a))
  }

  /** The bytes the cheat writes to. */
  predicate Footprint(codes: seq<Code>, j: nat, end: nat, a: nat)
    requires end <= |codes|
  {
    exists k :: j <= k < end && CodeCovers(codes[k], a)
  }

  lemma ConstAvoids(codes: seq<Code>, j: nat, end: nat, a: nat)
    requires end <= |codes| && ConstOnly(codes, j, end) && !Footprint(codes, j, end, a)
    ensures Avoids(codes, j, end, a)
  {
    forall k | j <= k < end
      ensures !Touches(Text(codes[k]), Text(codes[if k + 1 < end then k + 1 else k]), a)
    {
      assert !CodeCovers(codes[k], a);
    }
  }

  lemma ConstFootprint(codes: seq<Code>, j: nat, end: nat, a: nat)
    requires end <= |codes| && ConstOnly(codes, j, end) && Footprint(codes, j, end, a)
    ensures exists l :: j <= l < end && ConstCovers(codes[l], a)
  {
    hide Covers;
    var l :| j <= l < end && CodeCovers(codes[l], a);
    assert ConstCovers(codes[l], a);
  }

  lemma {:induction false} LastCoverOf(codes: seq<Code>, j: nat, end: nat, a: nat) returns (k: nat)
    requires end <= |codes| && exists l :: j <= l < end && ConstCovers(codes[l], a)
    ensures LastCover(codes, j, end, k, a)
    decreases end - j
  {
    hide Covers;
    if ConstCovers(codes[end - 1], a) {
      k := end - 1;
    } else {
      k := LastCoverOf(codes, j, end - 1, a);
    }
  }

  /** What the codes from `j` to `k` make of a byte. */
  function Over(codes: seq<Code>, j: nat, k: nat, a: nat, b: Byte): Byte
    requires k <= |codes|
    decreases k - j
  {
    if j >= k then b
    else Over(codes, j + 1, k, a, if CodeCovers(codes[j], a) then ByteOf(codes[j], codes[j].val, a) else b)
  }

  /** A code of constant writes is always run, and finds what those before it made of the byte. */
  lemma {:induction false} ConstantsRun(m: Machine, j: nat, end: nat, k: nat, a: nat)
    requires j <= k < end <= |m.codes| && ConstOnly(m.codes, j, end) && a <= RAM
    ensures Runs(m, j, end, k) && At(m, j, end, k)[a] == Over(m.codes, j, k, a, m.mem[a])
    decreases end - j
  {
    hide Put, Covers, ByteOf;
    if j < k {
      var c := m.codes[j];
      var n := OneCode(m, j, end, true);
      assert Length(m.mem, c) == 1 && n.mem == Put(m.mem, Kind(c.addr), Place(c.addr), c.val);
      ConstantsRun(n, j + 1, end, k, a);
      OverSame(m.codes, n.codes, j + 1, k, a, n.mem[a]);
      if CodeCovers(c, a) {
        PutByte(m.mem, c, c.val, a);
      } else {
        assert Place(c.addr) % RAM == Place(c.addr);
        PutChangesCovered(m.mem, Kind(c.addr), Place(c.addr), c.val, a);
      }
    }
  }

  lemma {:induction false} OverSame(codes: seq<Code>, more: seq<Code>, j: nat, k: nat, a: nat, b: Byte)
    requires k <= |codes| == |more| && forall l :: j <= l < k ==> Text(codes[l]) == Text(more[l])
    ensures Over(codes, j, k, a, b) == Over(more, j, k, a, b)
    decreases k - j
  {
    hide Covers;
    if j < k {
      assert Text(codes[j]) == Text(more[j]);
      SameByteOf(codes[j], more[j], codes[j].val, a);
      OverSame(codes, more, j + 1, k, a, if CodeCovers(codes[j], a) then ByteOf(codes[j], codes[j].val, a) else b);
    }
  }

  /** Once some code covers the byte, what was there before does not matter; if none does, it stays. */
  lemma {:induction false} OverForgets(codes: seq<Code>, j: nat, k: nat, a: nat, b: Byte, b': Byte)
    requires k <= |codes|
    ensures (exists l :: j <= l < k && CodeCovers(codes[l], a)) ==> Over(codes, j, k, a, b) == Over(codes, j, k, a, b')
    ensures (forall l :: j <= l < k ==> !CodeCovers(codes[l], a)) ==> Over(codes, j, k, a, b) == b
    decreases k - j
  {
    hide Covers, ByteOf;
    if j < k && !CodeCovers(codes[j], a) {
      OverForgets(codes, j + 1, k, a, b, b');
    } else if j < k {
      OverForgets(codes, j + 1, k, a, ByteOf(codes[j], codes[j].val, a), b');
    }
  }

  lemma OverTwice(codes: seq<Code>, j: nat, k: nat, a: nat, b: Byte)
    requires k <= |codes|
    ensures Over(codes, j, k, a, Over(codes, j, k, a, b)) == Over(codes, j, k, a, b)
  {
    OverForgets(codes, j, k, a, b, Over(codes, j, k, a, b));
    OverForgets(codes, j, k, a, Over(codes, j, k, a, b), b);
  }

  lemma PlainLeaves(codes: seq<Code>, j: nat, end: nat, k: nat, a: nat, b: Byte)
    requires end <= |codes| && Plain(codes, j, end) && j <= k < end && CodeCovers(codes[k], a)
    ensures Over(codes, j, k, a, b) == b
  {
    hide Covers;
    OverForgets(codes, j, k, a, b, b);
  }

  /** Two codes over one byte, and a value for it that is then not put back. */
  lemma OverlapLosesAByte(codes: seq<Code>, j: nat, end: nat) returns (a: nat, k: nat, b: Byte)
    requires end <= |codes| && ConstOnly(codes, j, end) && !Plain(codes, j, end)
    ensures a <= RAM && LastCover(codes, j, end, k, a) && Over(codes, j, k, a, b) != b
  {
    hide Covers, Over, ByteOf;
    var p, q, x: nat :| j <= p < q < end && CodeCovers(codes[p], x) && CodeCovers(codes[q], x);
    a := x;
    assert ConstCovers(codes[q], a);
    k := LastCoverOf(codes, j, end, a);
    assert q <= k;
    b := if Over(codes, j, k, a, 0) == 0 then 1 else 0;
    OverForgets(codes, j, k, a, 0, b);
    CoveredIsInRam(codes[k], a);
  }

  lemma CoveredIsInRam(c: Code, a: nat)
    requires CodeCovers(c, a)
    ensures a <= RAM
  {
  }

  /** Switched on for a pass and off again, a cheat of constant writes puts every memory back exactly if no
      two of its codes write to the same byte. */
  lemma ConstantsAreUndoneExactly(codes: seq<Code>, j: nat, end: nat)
    requires end <= |codes| && ConstOnly(codes, j, end)
    ensures (forall mem: Memory :: Undo(Play(Machine(mem, codes), j, end, true), j, end).mem == mem) <==>
      Plain(codes, j, end)
  {
    hide Covers, Play, Undo, Plain, Over, Runs, At;
    if Plain(codes, j, end) {
      forall mem: Memory
        ensures Undo(Play(Machine(mem, codes), j, end, true), j, end).mem == mem
      {
        forall a: nat | a <= RAM
          ensures Undo(Play(Machine(mem, codes), j, end, true), j, end).mem[a] == mem[a]
        {
          PlainByteIsUndone(Machine(mem, codes), j, end, a);
        }
      }
    } else {
      var a, k, b := OverlapLosesAByte(codes, j, end);
      var mem: Memory := seq(RAM + 1, _ => b);
      UndoneByte(Machine(mem, codes), j, end, k, a);
      ConstantsRun(Machine(mem, codes), j, end, k, a);
      assert Undo(Play(Machine(mem, codes), j, end, true), j, end).mem[a] != mem[a];
    }
  }

  lemma PlainByteIsUndone(m: Machine, j: nat, end: nat, a: nat)
    requires end <= |m.codes| && Plain(m.codes, j, end) && a <= RAM
    ensures Undo(Play(m, j, end, true), j, end).mem[a] == m.mem[a]
  {
    hide Covers, Play, Undo, Over, Runs, At;
    if Footprint(m.codes, j, end, a) {
      ConstFootprint(m.codes, j, end, a);
      var k := LastCoverOf(m.codes, j, end, a);
      UndoneByte(m, j, end, k, a);
      ConstantsRun(m, j, end, k, a);
      PlainLeaves(m.codes, j, end, k, a, m.mem[a]);
    } else {
      ConstAvoids(m.codes, j, end, a);
      PlayChangesTouched(m, j, end, true, a);
      PlayKeepsText(m, j, end, true);
      var p := Play(m, j, end, true);
      SameTextAvoids(m.codes, p.codes, j, end, j, end, a);
      AvoidsConstants(p.codes, j, end, a);
      UndoChangesConstants(p, j, end, a);
    }
  }
}
