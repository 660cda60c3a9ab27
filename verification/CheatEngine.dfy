/** What ApplyCheats does to the machine: the codes of every cheat that is on, or that was on at the pass
    before, are run against RAM (libpcsxcore/cheat.c:184-324, libpcsxcore/cheat.h:94-112,
    libpcsxcore/psxmem.h:54-64, 115-120).
  */
module CheatEngine {
  import opened Common
  import opened CheatText
  import opened CheatStore

  /** Two megabytes, and the byte after them, which a 16-bit access at the very end reaches. */
  const RAM := 0x20_0000

  type Memory = m: seq<Byte> | |m| == RAM + 1 witness seq(RAM + 1, _ => 0)

  function Read8(m: Memory, a: nat): Byte { m[a % RAM] }

  function Read16(m: Memory, a: nat): U16
  {
    var lo: nat, hi: nat := m[a % RAM], m[a % RAM + 1];
    lo + 0x100 * hi
  }

  function Write8(m: Memory, a: nat, v: nat): Memory { m[a % RAM := v % 0x100] }

  function Write16(m: Memory, a: nat, v: nat): Memory { m[a % RAM := v % 0x100][a % RAM + 1 := v / 0x100 % 0x100] }

  // ----- the codes -----

  const CONST8 := 0x30
  const CONST16 := 0x80
  const INC16 := 0x10
  const DEC16 := 0x11
  const INC8 := 0x20
  const DEC8 := 0x21
  const SLIDE := 0x50
  const MEMCPY := 0xC2
  const EQU8 := 0xE0
  const NOTEQU8 := 0xE1
  const LESSTHAN8 := 0xE2
  const GREATERTHAN8 := 0xE3
  const EQU16 := 0xD0
  const NOTEQU16 := 0xD1
  const LESSTHAN16 := 0xD2
  const GREATERTHAN16 := 0xD3

  function Kind(addr: U32): Byte { addr / 0x100_0000 }

  function Place(addr: U32): nat { addr % RAM }

  predicate IsConst(kind: Byte) { kind == CONST8 || kind == CONST16 }

  /** A byte taken as signed. */
  function Signed(b: nat): int { if b % 0x100 >= 0x80 then b % 0x100 - 0x100 else b % 0x100 }

  /** The codes that write once, with `v` for their value. */
  function Put(m: Memory, kind: Byte, a: nat, v: U16): Memory
  {
    if kind == CONST8 then Write8(m, a, v)
    else if kind == CONST16 then Write16(m, a, v)
    else if kind == INC16 then Write16(m, a, (Read16(m, a) + v) % 0x1_0000)
    else if kind == DEC16 then Write16(m, a, (Read16(m, a) - v) % 0x1_0000)
    else if kind == INC8 then Write8(m, a, (Read8(m, a) + v) % 0x100)
    else if kind == DEC8 then Write8(m, a, (Read8(m, a) - v) % 0x100)
    else m
  }

  /** A slide: `n` constant writes, with place and value moving on. */
  function Slide(m: Memory, kind: Byte, n: nat, a: U32, v: U16, da: int, dv: int): Memory
    decreases n
  {
    if n == 0 || !IsConst(kind) then m
    else Slide(Put(m, kind, a, v), kind, n - 1, (a + da) % 0x1_0000_0000, (v + dv) % 0x1_0000, da, dv)
  }

  /** A copy, byte by byte upwards. */
  function Copy(m: Memory, to: nat, from: nat, k: nat, n: nat): Memory
    decreases n - k
  {
    if k >= n then m else Copy(Write8(m, to + k, Read8(m, from + k)), to, from, k + 1, n)
  }

  /** A condition that fails skips the next code. */
  predicate Skips(m: Memory, kind: Byte, a: nat, v: U16)
  {
    if kind == EQU8 then Read8(m, a) != v % 0x100
    else if kind == NOTEQU8 then Read8(m, a) == v % 0x100
    else if kind == LESSTHAN8 then Read8(m, a) >= v % 0x100
    else if kind == GREATERTHAN8 then Read8(m, a) <= v % 0x100
    else if kind == EQU16 then Read16(m, a) != v
    else if kind == NOTEQU16 then Read16(m, a) == v
    else if kind == LESSTHAN16 then Read16(m, a) >= v
    else if kind == GREATERTHAN16 then Read16(m, a) <= v
    else false
  }

  /** Slides and copies take a second code. */
  predicate IsPair(kind: Byte) { kind == SLIDE || kind == MEMCPY }

  /** What code `c`, followed by `d`, does to RAM. */
  function PairDone(m: Memory, c: Code, d: Code): Memory
  {
    var a := Place(c.addr);
    if Kind(c.addr) == SLIDE then
      Slide(m, Kind(d.addr), a / 0x100 % 0x100, Place(d.addr), d.val, Signed(a), Signed(c.val))
    else Copy(m, Place(d.addr), a, 0, c.val)
  }

  function Done(m: Memory, codes: seq<Code>, j: nat, end: nat): Memory
    requires j < end <= |codes|
  {
    var c := codes[j];
    if !IsPair(Kind(c.addr)) then Put(m, Kind(c.addr), Place(c.addr), c.val)
    else if j + 1 < end then PairDone(m, c, codes[j + 1])
    else m
  }

  function Length(m: Memory, c: Code): (n: nat)
    ensures 1 <= n <= 2
  {
    if IsPair(Kind(c.addr)) || Skips(m, Kind(c.addr), Place(c.addr), c.val) then 2 else 1
  }

  /** The constant write remembers what it is about to replace. */
  function Latched(m: Memory, c: Code): (r: Code)
    ensures r.addr == c.addr && r.val == c.val
  {
    if Kind(c.addr) == CONST16 then c.(oldVal := Read16(m, Place(c.addr)))
    else if Kind(c.addr) == CONST8 then c.(oldVal := Read8(m, Place(c.addr)))
    else c
  }

  datatype Machine = Machine(mem: Memory, codes: seq<Code>)

  /** Code `j` of a cheat that is on; `first` at the first pass since it was switched on. */
  function OneCode(m: Machine, j: nat, end: nat, first: bool): (r: Machine)
    requires j < end <= |m.codes|
    ensures |r.codes| == |m.codes|
  {
    var codes := if first then m.codes[j := Latched(m.mem, m.codes[j])] else m.codes;
    Machine(Done(m.mem, codes, j, end), codes)
  }

  /** The codes from `j` to `end` of a cheat that is on. */
  function Play(m: Machine, j: nat, end: nat, first: bool): (r: Machine)
    requires end <= |m.codes|
    ensures |r.codes| == |m.codes|
    decreases end - j
  {
    if j >= end then m else Play(OneCode(m, j, end, first), j + Length(m.mem, m.codes[j]), end, first)
  }

  /** The codes of a cheat that has been switched off: constant writes put the old values back. */
  function Undo(m: Machine, j: nat, end: nat): (r: Machine)
    requires end <= |m.codes|
    ensures r.codes == m.codes
    decreases end - j
  {
    if j >= end then m
    else
      var c := m.codes[j];
      var n := if IsConst(Kind(c.addr)) then m.(mem := Put(m.mem, Kind(c.addr), Place(c.addr), c.oldVal)) else m;
      Undo(n, j + 1, end)
  }

  // ----- a pass -----

  /** The whole: the cheats, their codes, and RAM. */
  datatype World = World(cheats: seq<Cheat>, m: Machine)

  predicate Sound(w: World) { WellFormed(Store(w.cheats, w.m.codes)) }

  /** One cheat in a pass. */
  function Applied(w: World, i: nat): (r: World)
    requires Sound(w) && i < |w.cheats|
    ensures |r.cheats| == |w.cheats| && |r.m.codes| == |w.m.codes|
  {
    var c := w.cheats[i];
    if !c.enabled && !c.wasEnabled then w
    else
      World(w.cheats[i := c.(wasEnabled := c.enabled)],
        if c.enabled then Play(w.m, c.first, c.first + c.n, !c.wasEnabled) else Undo(w.m, c.first, c.first + c.n))
  }

  lemma AppliedIsSound(w: World, i: nat)
    requires Sound(w) && i < |w.cheats|
    ensures Sound(Applied(w, i))
  {
    hide Play, Undo;
  }

  /** ApplyCheats. */
  function PassFrom(w: World, i: nat): (r: World)
    requires Sound(w)
    ensures |r.cheats| == |w.cheats| && |r.m.codes| == |w.m.codes| && Sound(r)
    decreases |w.cheats| - i
  {
    if i >= |w.cheats| then w
    else
      AppliedIsSound(w, i);
      PassFrom(Applied(w, i), i + 1)
  }
}
