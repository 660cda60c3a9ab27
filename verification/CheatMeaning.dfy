/** What the codes of a cheat do to the bytes of memory (libpcsxcore/cheat.c:184-324,
    libpcsxcore/cheat.h:94-112), kind by kind: constant writes, increments, slides, copies, and the eight
    comparisons that decide about the code behind them.
  */
module CheatMeaning {
  import opened Common
  import opened CheatText
  import opened CheatStore
  import opened CheatEngine
  import opened CheatUndo

  /** The code has kind `kind` in its top byte, place `a` in its low 21 bits and value `v`. */
  predicate IsCode(c: Code, kind: Byte, a: nat, v: U16)
  {
    c.addr / 0x100_0000 == kind && c.addr % 0x20_0000 == a && c.val == v
  }

  /** Cheat `i` is on and has `n` codes. */
  predicate IsOn(w: World, i: nat, n: nat) { Sound(w) && i < |w.cheats| && w.cheats[i].enabled && w.cheats[i].n == n }

  function CodeOf(w: World, i: nat, k: nat): Code
    requires Sound(w) && i < |w.cheats| && k < w.cheats[i].n
  {
    w.m.codes[w.cheats[i].first + k]
  }

  /** RAM after the turn of cheat `i`. */
  function Ram(w: World, i: nat): Memory
    requires Sound(w) && i < |w.cheats|
  {
    Applied(w, i).m.mem
  }

  /** With one cheat a pass is its turn. */
  lemma OneCheatPass(w: World)
    requires Sound(w) && |w.cheats| == 1
    ensures PassFrom(w, 0) == Applied(w, 0)
  {
    AppliedIsSound(w, 0);
    hide Applied;
    assert PassFrom(Applied(w, 0), 1) == Applied(w, 0);
  }

  // ----- writes -----

  function Halfword(m: Memory, p: nat): nat
    requires p < RAM
  {
    var lo: nat, hi: nat := m[p], m[p + 1];
    lo + 0x100 * hi
  }

  /** Byte `p` holds x modulo 256, or the halfword at `p` x modulo 65536; the other bytes are as they were. */
  ghost predicate Takes(m: Memory, r: Memory, wide: bool, p: nat, x: int)
    requires p < RAM
  {
    (if wide then Halfword(r, p) == x % 0x1_0000 else r[p] == x % 0x100) &&
    forall a :: 0 <= a <= RAM && a != p && !(wide && a == p + 1) ==> r[a] == m[a]
  }

  /** A single code: a constant write, an increment or a decrement; any other kind leaves memory alone. */
  lemma SingleCode(w: World, i: nat, kind: Byte, p: nat, u: U16)
    requires IsOn(w, i, 1) && IsCode(CodeOf(w, i, 0), kind, p, u)
    ensures var m, r := w.m.mem, Ram(w, i);
      (kind == 0x30 ==> Takes(m, r, false, p, u)) && (kind == 0x80 ==> Takes(m, r, true, p, u)) &&
      (kind == 0x10 ==> Takes(m, r, true, p, Halfword(m, p) + u)) &&
      (kind == 0x11 ==> Takes(m, r, true, p, Halfword(m, p) - u)) &&
      (kind == 0x20 ==> Takes(m, r, false, p, m[p] + u)) && (kind == 0x21 ==> Takes(m, r, false, p, m[p] - u)) &&
      (kind !in {0x30, 0x80, 0x10, 0x11, 0x20, 0x21} ==> r == m)
  {
    PutTakes(w.m.mem, kind, p, u);
    TurnOfOne(w, i);
    hide Put, Applied, Takes, Sound;
  }

  lemma TurnOfOne(w: World, i: nat)
    requires IsOn(w, i, 1)
    ensures var c := CodeOf(w, i, 0);
      Ram(w, i) == if IsPair(Kind(c.addr)) then w.m.mem else Put(w.m.mem, Kind(c.addr), Place(c.addr), c.val)
  {
    hide Put, Skips, Latched;
    var j, first := w.cheats[i].first, !w.cheats[i].wasEnabled;
    assert Play(w.m, j, j + 1, first) == OneCode(w.m, j, j + 1, first);
    LatchedIsText(w.m, j, first);
  }

  /** Latching the old value changes neither kind, place nor value. */
  lemma LatchedIsText(m: Machine, j: nat, first: bool)
    requires j < |m.codes|
    ensures var c := if first then Latched(m.mem, m.codes[j]) else m.codes[j];
      c.addr == m.codes[j].addr && c.val == m.codes[j].val
  {
  }

  lemma PutTakes(m: Memory, kind: Byte, p: nat, u: U16)
    requires p < RAM
    ensures var r := Put(m, kind, p, u);
      (kind == 0x30 ==> Takes(m, r, false, p, u)) && (kind == 0x80 ==> Takes(m, r, true, p, u)) &&
      (kind == 0x10 ==> Takes(m, r, true, p, Halfword(m, p) + u)) &&
      (kind == 0x11 ==> Takes(m, r, true, p, Halfword(m, p) - u)) &&
      (kind == 0x20 ==> Takes(m, r, false, p, m[p] + u)) && (kind == 0x21 ==> Takes(m, r, false, p, m[p] - u)) &&
      (kind !in {0x30, 0x80, 0x10, 0x11, 0x20, 0x21} ==> r == m)
  {
    hide Takes, Write8, Write16, Halfword, Read8, Read16;
    PutTakesWord(m, kind, p, u);
    PutTakesByte(m, kind, p, u);
  }

  lemma PutTakesWord(m: Memory, kind: Byte, p: nat, u: U16)
    requires p < RAM
    ensures var r := Put(m, kind, p, u);
      (kind == 0x80 ==> Takes(m, r, true, p, u)) &&
      (kind == 0x10 ==> Takes(m, r, true, p, Halfword(m, p) + u)) &&
      (kind == 0x11 ==> Takes(m, r, true, p, Halfword(m, p) - u))
  {
    var h := Halfword(m, p);
    PutWord(m, kind, p, u);
    hide *;
    if kind == 0x80 {
      WordTakes(m, p, u);
    } else if kind == 0x10 {
      WordTakes(m, p, h + u);
    } else if kind == 0x11 {
      WordTakes(m, p, h - u);
    }
  }

  lemma PutWord(m: Memory, kind: Byte, p: nat, u: U16)
    requires p < RAM
    ensures var r, h := Put(m, kind, p, u), Halfword(m, p);
      (kind == 0x80 ==> r == Write16(m, p, u % 0x1_0000)) &&
      (kind == 0x10 ==> r == Write16(m, p, (h + u) % 0x1_0000)) &&
      (kind == 0x11 ==> r == Write16(m, p, (h - u) % 0x1_0000))
  {
    hide Write8, Read8, Write16, Halfword, Read16;
    ReadWord(m, p);
  }

  lemma ReadWord(m: Memory, p: nat)
    requires p < RAM
    ensures Read16(m, p) == Halfword(m, p)
  {
  }

  lemma PutTakesByte(m: Memory, kind: Byte, p: nat, u: U16)
    requires p < RAM
    ensures var r := Put(m, kind, p, u);
      (kind == 0x30 ==> Takes(m, r, false, p, u)) &&
      (kind == 0x20 ==> Takes(m, r, false, p, m[p] + u)) && (kind == 0x21 ==> Takes(m, r, false, p, m[p] - u))
  {
    assert Read8(m, p) == m[p];
    assert Write8(m, p, u) == Write8(m, p, u % 0x100);
    hide Takes, Write8, Write16, Read8, Read16;
    ByteTakes(m, p, u);
    ByteTakes(m, p, m[p] + u);
    ByteTakes(m, p, m[p] - u);
  }

  lemma WordTakes(m: Memory, p: nat, x: int)
    requires p < RAM
    ensures Takes(m, Write16(m, p, x % 0x1_0000), true, p, x)
  {
    var y := x % 0x1_0000;
    assert y % 0x100 + 0x100 * (y / 0x100) == y && y / 0x100 % 0x100 == y / 0x100;
  }

  lemma ByteTakes(m: Memory, p: nat, x: int)
    requires p < RAM
    ensures Takes(m, Write8(m, p, x % 0x100), false, p, x)
  {
  }

  // ----- comparisons -----

  /** The comparison of kind `kind` holds of the byte or halfword with the given bytes. */
  predicate Holds(kind: Byte, lo: Byte, hi: Byte, v: U16)
  {
    match kind
    case 0xD0 => lo + 0x100 * hi == v
    case 0xD1 => lo + 0x100 * hi != v
    case 0xD2 => lo + 0x100 * hi < v
    case 0xD3 => lo + 0x100 * hi > v
    case 0xE0 => lo == v % 0x100
    case 0xE1 => lo != v % 0x100
    case 0xE2 => lo < v % 0x100
    case _ => lo > v % 0x100
  }

  /** A comparison and a constant write behind it: the write is made if and only if the comparison holds of
      the memory found, and otherwise nothing changes. */
  lemma ComparisonDecides(w: World, i: nat, kind: Byte, a: nat, v: U16, wide: bool, p: nat, u: U16)
    requires IsOn(w, i, 2) && kind in {0xD0, 0xD1, 0xD2, 0xD3, 0xE0, 0xE1, 0xE2, 0xE3}
    requires IsCode(CodeOf(w, i, 0), kind, a, v) && IsCode(CodeOf(w, i, 1), if wide then 0x80 else 0x30, p, u)
    ensures var m, r := w.m.mem, Ram(w, i);
      if Holds(kind, m[a], m[a + 1], v) then Takes(m, r, wide, p, u) else r == m
  {
    PutTakes(w.m.mem, if wide then 0x80 else 0x30, p, u);
    SkipsUnless(w.m.mem, kind, a, v);
    TurnOfTwo(w, i);
    hide Put, Applied, Takes, Sound, Skips, Holds;
  }

  lemma SkipsUnless(m: Memory, kind: Byte, a: nat, v: U16)
    requires a < RAM && kind in {0xD0, 0xD1, 0xD2, 0xD3, 0xE0, 0xE1, 0xE2, 0xE3}
    ensures Skips(m, kind, a, v) <==> !Holds(kind, m[a], m[a + 1], v)
  {
  }

  /** Two codes, the first of which writes nothing and is no pair. */
  lemma TurnOfTwo(w: World, i: nat)
    requires IsOn(w, i, 2)
    requires var k := Kind(CodeOf(w, i, 0).addr); !IsPair(k) && forall m, a, v :: Put(m, k, a, v) == m
    requires !IsPair(Kind(CodeOf(w, i, 1).addr))
    ensures var c, d, m := CodeOf(w, i, 0), CodeOf(w, i, 1), w.m.mem;
      Ram(w, i) ==
      if Skips(m, Kind(c.addr), Place(c.addr), c.val) then m else Put(m, Kind(d.addr), Place(d.addr), d.val)
  {
    hide Put, Skips, Latched;
    var j, first := w.cheats[i].first, !w.cheats[i].wasEnabled;
    var n := OneCode(w.m, j, j + 2, first);
    LatchedIsText(w.m, j, first);
    assert n.mem == w.m.mem && Play(n, j + 2, j + 2, first) == n;
    assert n.codes[j + 1] == w.m.codes[j + 1];
    if !Skips(w.m.mem, Kind(w.m.codes[j].addr), Place(w.m.codes[j].addr), w.m.codes[j].val) {
      LatchedIsText(n, j + 1, first);
      assert Play(n, j + 1, j + 2, first) == OneCode(n, j + 1, j + 2, first);
    }
  }

  // ----- slides and copies -----

  /** `s` is the byte `b` taken as signed. */
  predicate IsSigned(b: nat, s: int) { -128 <= s < 128 && s % 0x100 == b % 0x100 }

  lemma TurnOfPair(w: World, i: nat)
    requires IsOn(w, i, 2) && IsPair(Kind(CodeOf(w, i, 0).addr))
    ensures Ram(w, i) == PairDone(w.m.mem, CodeOf(w, i, 0), CodeOf(w, i, 1))
  {
    hide PairDone, Skips;
    var j, first := w.cheats[i].first, !w.cheats[i].wasEnabled;
    var n := OneCode(w.m, j, j + 2, first);
    assert Latched(w.m.mem, w.m.codes[j]) == w.m.codes[j];
    assert Play(n, j + 2, j + 2, first) == n;
  }

  /** Byte or halfword `p` holds x, to its width. */
  predicate HoldsAt(r: Memory, wide: bool, p: nat, x: int)
    requires p < RAM
  {
    if wide then Halfword(r, p) == x % 0x1_0000 else r[p] == x % 0x100
  }

  /** A slide of `n` writes, `s` apart, whose values are `dv` apart: each place holds its value in the end, as
      long as the places stay in memory and do not overlap. */
  lemma SlideWritesTheSeries(w: World, i: nat, a: nat, v: U16, wide: bool, p: nat, u: U16, s: int, dv: int, k: nat)
    requires IsOn(w, i, 2) && IsCode(CodeOf(w, i, 0), 0x50, a, v)
    requires IsCode(CodeOf(w, i, 1), if wide then 0x80 else 0x30, p, u)
    requires IsSigned(a, s) && IsSigned(v, dv) && k < a / 0x100 % 0x100
    requires (if wide then 2 else 1) <= s || s <= -(if wide then 2 else 1)
    requires Reaches(p, s, a / 0x100 % 0x100 - 1)
    ensures Reaches(p, s, k) && HoldsAt(Ram(w, i), wide, p + s * k, u + dv * k)
  {
    SlideIsRun(w, i, a, v, if wide then 0x80 else 0x30, p, u, s, dv);
    var n := a / 0x100 % 0x100;
    hide *;
    Between(p, s, k, n - 1);
    SlideAt(w.m.mem, wide, n, p, u, s, dv, k);
  }

  lemma SlideIsRun(w: World, i: nat, a: nat, v: U16, kind: Byte, p: nat, u: U16, s: int, dv: int)
    requires IsOn(w, i, 2) && IsCode(CodeOf(w, i, 0), 0x50, a, v) && IsCode(CodeOf(w, i, 1), kind, p, u)
    requires IsSigned(a, s) && IsSigned(v, dv)
    ensures Ram(w, i) == Slide(w.m.mem, kind, a / 0x100 % 0x100, p, u, s, dv)
  {
    TurnOfPair(w, i);
    SignedIs(a, s);
    SignedIs(v, dv);
    hide Slide, Applied, Sound, Signed, IsSigned, Copy;
  }

  lemma SignedIs(b: nat, s: int)
    requires IsSigned(b, s)
    ensures Signed(b) == s
  {
  }

  /** Place `k` of a slide is in memory. */
  predicate Reaches(p: nat, s: int, k: int) { 0 <= p + s * k < RAM }

  /** What lies between two places in memory lies in memory. */
  lemma Between(p: nat, s: int, k: nat, n: nat)
    requires p < RAM && Reaches(p, s, n) && k <= n
    ensures Reaches(p, s, k)
  {
    if s >= 0 {
      assert 0 <= s * k <= s * n;
    } else {
      assert s * n <= s * k <= 0;
    }
  }

  lemma {:induction false} SlideAt(m: Memory, wide: bool, n: nat, p: nat, u: U16, s: int, dv: int, k: nat)
    requires k < n && p < RAM && Reaches(p, s, n - 1) && Reaches(p, s, k)
    requires (if wide then 2 else 1) <= s || s <= -(if wide then 2 else 1)
    ensures HoldsAt(Slide(m, if wide then 0x80 else 0x30, n, p, u, s, dv), wide, p + s * k, u + dv * k)
    decreases n
  {
    hide Put, Takes, Halfword, Slide, HoldsAt, Reaches;
    var kind: Byte := if wide then 0x80 else 0x30;
    var r, u' := Put(m, kind, p, u), (u + dv) % 0x1_0000;
    PutTakes(m, kind, p, u);
    SlideGoesOn(m, kind, n, p, u, s, dv);
    if n > 1 {
      var f := Slide(r, kind, n - 1, p + s, u', s, dv);
      if k > 0 {
        OneOff(s, k);
        NextReaches(p, s, k - 1);
        SlideAt(r, wide, n - 1, p + s, u', s, dv, k - 1);
        InMemory(p, s, k);
        SameValue(f, wide, p + s * k, u, dv, k);
      } else {
        SlideMisses(r, wide, n - 1, p + s, u', s, dv, p);
        if wide { SlideMisses(r, wide, n - 1, p + s, u', s, dv, p + 1); }
        StaysTaken(m, r, f, wide, p, u);
      }
    } else {
      StaysTaken(m, r, r, wide, p, u);
    }
  }

  lemma InMemory(p: nat, s: int, k: int)
    requires Reaches(p, s, k)
    ensures 0 <= p + s * k < RAM
  {
  }

  lemma NextReaches(p: nat, s: int, k: int)
    requires 0 <= p + s
    ensures Reaches(p + s, s, k) <==> Reaches(p, s, k + 1)
  {
    OneOff(s, k + 1);
  }

  /** The first write of a slide, and the rest of it. */
  lemma SlideGoesOn(m: Memory, kind: Byte, n: nat, p: nat, u: U16, s: int, dv: int)
    requires n > 0 && p < RAM && Reaches(p, s, n - 1) && IsConst(kind)
    ensures n == 1 ==> Slide(m, kind, n, p, u, s, dv) == Put(m, kind, p, u)
    ensures n > 1 ==> 0 <= p + s < RAM && Reaches(p + s, s, n - 2)
    ensures n > 1 ==>
      Slide(m, kind, n, p, u, s, dv) == Slide(Put(m, kind, p, u), kind, n - 1, p + s, (u + dv) % 0x1_0000, s, dv)
  {
    hide Put, Reaches;
    if n > 1 {
      Between(p, s, 1, n - 1);
      InMemory(p, s, 1);
      NextReaches(p, s, n - 2);
    }
  }

  lemma OneOff(s: int, k: int)
    ensures s * k == s + s * (k - 1)
  {
  }

  lemma StaysTaken(m: Memory, r: Memory, f: Memory, wide: bool, p: nat, x: int)
    requires p < RAM && Takes(m, r, wide, p, x) && f[p] == r[p] && (wide ==> f[p + 1] == r[p + 1])
    ensures HoldsAt(f, wide, p, x)
  {
  }

  lemma SameValue(r: Memory, wide: bool, a: nat, u: U16, dv: int, k: nat)
    requires a < RAM && k > 0 && HoldsAt(r, wide, a, (u + dv) % 0x1_0000 + dv * (k - 1))
    ensures HoldsAt(r, wide, a, u + dv * k)
  {
    var h := (u + dv) / 0x1_0000;
    assert u + dv * k == (u + dv) % 0x1_0000 + dv * (k - 1) + h * 0x1_0000 by {
      assert dv * k == dv + dv * (k - 1);
    }
    ModularSum((u + dv) % 0x1_0000 + dv * (k - 1), h);
  }

  lemma ModularSum(x: int, h: int)
    ensures (x + h * 0x1_0000) % 0x1_0000 == x % 0x1_0000 && (x + h * 0x1_0000) % 0x100 == x % 0x100
  {
    HalfwordPeriod(x, h);
    BytePeriod(x + h * 0x1_0000, x % 0x100, x / 0x100 + 0x100 * h);
  }

  lemma HalfwordPeriod(x: int, h: int)
    ensures (x + h * 0x1_0000) % 0x1_0000 == x % 0x1_0000
  {
    assert (x + h * 0x1_0000) / 0x1_0000 == x / 0x1_0000 + h;
  }

  /** Later writes of a slide do not come back to byte `b`, which lies behind them. */
  lemma {:induction false} SlideMisses(m: Memory, wide: bool, n: nat, p: nat, u: U16, s: int, dv: int, b: nat)
    requires n > 0 && p < RAM && Reaches(p, s, n - 1) && b <= RAM
    requires (if wide then 2 else 1) <= s || s <= -(if wide then 2 else 1)
    requires if s > 0 then b < p else b > p + (if wide then 1 else 0)
    ensures Slide(m, if wide then 0x80 else 0x30, n, p, u, s, dv)[b] == m[b]
    decreases n
  {
    hide Put, Halfword, Slide, Reaches;
    var kind: Byte := if wide then 0x80 else 0x30;
    PutTakes(m, kind, p, u);
    SlideGoesOn(m, kind, n, p, u, s, dv);
    if n > 1 { SlideMisses(Put(m, kind, p, u), wide, n - 1, p + s, (u + dv) % 0x1_0000, s, dv, b); }
  }

  /** A copy of `n` bytes: they arrive, unless the target begins inside the source. */
  lemma CopyArrives(w: World, i: nat, from: nat, n: U16, d: Code, to: nat, k: nat)
    requires IsOn(w, i, 2) && IsCode(CodeOf(w, i, 0), 0xC2, from, n) && CodeOf(w, i, 1) == d && d.addr % 0x20_0000 == to
    requires from + n <= RAM && to + n <= RAM && (to <= from || from + n <= to) && k < n
    ensures Ram(w, i)[to + k] == w.m.mem[from + k]
  {
    TurnOfPair(w, i);
    CopyAt(w.m.mem, to, from, 0, n, k);
    hide Copy, Applied, Sound;
  }

  lemma {:induction false} CopyAt(m: Memory, to: nat, from: nat, j: nat, n: nat, k: nat)
    requires from + n <= RAM && to + n <= RAM && (to <= from || from + n <= to) && j <= k < n
    ensures Copy(m, to, from, j, n)[to + k] == m[from + k]
    decreases n - j
  {
    var r := Write8(m, to + j, Read8(m, from + j));
    CopiedByte(m, to + j, from + j);
    hide Write8, Read8;
    if j < k {
      CopyAt(r, to, from, j + 1, n, k);
    } else {
      CopyLeaves(r, to, from, j + 1, n, to + k);
    }
  }

  lemma CopiedByte(m: Memory, to: nat, from: nat)
    requires to < RAM && from < RAM
    ensures Write8(m, to, Read8(m, from)) == m[to := m[from]]
  {
  }

  lemma {:induction false} CopyLeaves(m: Memory, to: nat, from: nat, j: nat, n: nat, a: nat)
    requires from + n <= RAM && to + n <= RAM && a < to + j && a <= RAM
    ensures Copy(m, to, from, j, n)[a] == m[a]
    decreases n - j
  {
    if j < n {
      CopiedByte(m, to + j, from + j);
      CopyLeaves(Write8(m, to + j, Read8(m, from + j)), to, from, j + 1, n, a);
    }
  }
}
