/** Switching a cheat off undoes it, over whole runs (libpcsxcore/cheat.c:184-228): passes over all cheats,
    cheats switched on and off, the game writing to memory in between, and edits.
  */
module CheatRuns {
  import opened Common
  import opened CheatText
  import opened CheatStore
  import opened CheatEngine
  import opened CheatUndo

  /** What can happen: a pass over all cheats, a cheat switched on or off, a byte changed by the game. */
  datatype Act = Pass | Toggle(k: nat, on: bool) | Poke(at: nat, v: Byte)

  function Step(w: World, act: Act): (r: World)
    requires Sound(w)
    ensures Sound(r)
  {
    match act
    case Pass => PassFrom(w, 0)
    case Toggle(k, on) => if k < |w.cheats| then w.(cheats := w.cheats[k := w.cheats[k].(enabled := on)]) else w
    case Poke(at, v) => if at <= RAM then w.(m := w.m.(mem := w.m.mem[at := v])) else w
  }

  function Run(w: World, acts: seq<Act>): (r: World)
    requires Sound(w)
    ensures Sound(r)
    decreases |acts|
  {
    if acts == [] then w else Run(Step(w, acts[0]), acts[1..])
  }

  function End(c: Cheat): nat { c.first + c.n }

  /** The game leaves byte `a` alone. */
  predicate Spares(acts: seq<Act>, a: nat) { forall act :: act in acts && act.Poke? ==> act.at != a }

  // ----- what no run changes -----

  /** The same cheats over the same codes, old values and switches aside. */
  predicate SameCheats(w: World, v: World)
  {
    |v.cheats| == |w.cheats| && |v.m.codes| == |w.m.codes| &&
    (forall k :: 0 <= k < |w.cheats| ==> v.cheats[k].first == w.cheats[k].first && v.cheats[k].n == w.cheats[k].n) &&
    (forall k :: 0 <= k < |w.m.codes| ==> Text(v.m.codes[k]) == Text(w.m.codes[k]))
  }

  lemma AppliedKeepsText(w: World, k: nat)
    requires Sound(w) && k < |w.cheats|
    ensures SameCheats(w, Applied(w, k))
    ensures SameText(w.m.codes, Applied(w, k).m.codes, w.cheats[k].first, End(w.cheats[k]))
  {
    hide Play, Undo;
    var c := w.cheats[k];
    PlayKeepsText(w.m, c.first, End(c), !c.wasEnabled);
  }

  lemma {:induction false} PassKeepsText(w: World, from: nat)
    requires Sound(w)
    ensures SameCheats(w, PassFrom(w, from))
    decreases |w.cheats| - from
  {
    hide Applied, Sound;
    if from < |w.cheats| {
      AppliedIsSound(w, from);
      AppliedKeepsText(w, from);
      PassKeepsText(Applied(w, from), from + 1);
    }
  }

  lemma StepKeepsText(w: World, act: Act)
    requires Sound(w)
    ensures SameCheats(w, Step(w, act))
  {
    hide PassFrom;
    PassKeepsText(w, 0);
  }

  lemma AppliedChangesTouched(w: World, k: nat, a: nat)
    requires Sound(w) && k < |w.cheats| && a <= RAM && Avoids(w.m.codes, w.cheats[k].first, End(w.cheats[k]), a)
    ensures Applied(w, k).m.mem[a] == w.m.mem[a]
  {
    hide Play, Undo, Avoids;
    var c := w.cheats[k];
    if c.enabled {
      PlayChangesTouched(w.m, c.first, End(c), !c.wasEnabled, a);
    } else if c.wasEnabled {
      AvoidsConstants(w.m.codes, c.first, End(c), a);
      UndoChangesConstants(w.m, c.first, End(c), a);
    }
  }

  /** No cheat can change byte `a`. */
  predicate Unreached(w: World, a: nat)
    requires Sound(w)
  {
    forall k :: 0 <= k < |w.cheats| ==> Avoids(w.m.codes, w.cheats[k].first, End(w.cheats[k]), a)
  }

  lemma SameCheatsUnreached(w: World, v: World, a: nat)
    requires Sound(w) && Sound(v) && SameCheats(w, v) && Unreached(w, a)
    ensures Unreached(v, a)
  {
    hide Touches;
    assert SameText(w.m.codes, v.m.codes, 0, |w.m.codes|);
    forall k | 0 <= k < |w.cheats|
      ensures Avoids(v.m.codes, v.cheats[k].first, End(v.cheats[k]), a)
    {
      RangeIn(Store(w.cheats, w.m.codes), k);
      SameTextAvoids(w.m.codes, v.m.codes, 0, |w.m.codes|, w.cheats[k].first, End(w.cheats[k]), a);
    }
  }

  lemma {:induction false} PassLeavesUnreached(w: World, from: nat, a: nat)
    requires Sound(w) && a <= RAM && Unreached(w, a)
    ensures PassFrom(w, from).m.mem[a] == w.m.mem[a]
    decreases |w.cheats| - from
  {
    hide Applied, Sound;
    if from < |w.cheats| {
      AppliedIsSound(w, from);
      AppliedKeepsText(w, from);
      AppliedChangesTouched(w, from, a);
      SameCheatsUnreached(w, Applied(w, from), a);
      PassLeavesUnreached(Applied(w, from), from + 1, a);
    }
  }

  /** A byte that no cheat can reach changes only by the game's hand. */
  lemma {:induction false} UnreachedStays(w: World, acts: seq<Act>, a: nat)
    requires Sound(w) && a <= RAM && Unreached(w, a) && Spares(acts, a)
    ensures Run(w, acts).m.mem[a] == w.m.mem[a]
    decreases |acts|
  {
    hide PassFrom, Unreached, Sound;
    if acts != [] {
      var v := Step(w, acts[0]);
      StepKeepsText(w, acts[0]);
      SameCheatsUnreached(w, v, a);
      PassLeavesUnreached(w, 0, a);
      UnreachedStays(v, acts[1..], a);
    }
  }

  // ----- one byte of one cheat -----

  /** Cheat `i` is made of constant writes, code `k` is its last to byte `a`, and no other cheat can change
      that byte. */
  predicate Alone(w: World, i: nat, k: nat, a: nat)
    requires Sound(w) && i < |w.cheats|
  {
    ConstOnly(w.m.codes, w.cheats[i].first, End(w.cheats[i])) && a <= RAM &&
    LastCover(w.m.codes, w.cheats[i].first, End(w.cheats[i]), k, a) &&
    forall c :: 0 <= c < |w.cheats| && c != i ==> Avoids(w.m.codes, w.cheats[c].first, End(w.cheats[c]), a)
  }

  /** What switching cheat `i` off would leave in byte `a`: what code `k` remembers if the cheat was on at
      the last pass, and otherwise what is there. */
  function Value(w: World, i: nat, k: nat, a: nat): Byte
    requires i < |w.cheats| && k < |w.m.codes| && a <= RAM
  {
    if w.cheats[i].wasEnabled then ByteOf(w.m.codes[k], w.m.codes[k].oldVal, a) else w.m.mem[a]
  }

  /** What the codes before `k` make of a byte. */
  function Covered(w: World, i: nat, k: nat, a: nat, b: Byte): Byte
    requires i < |w.cheats| && k < |w.m.codes|
  {
    Over(w.m.codes, w.cheats[i].first, k, a, b)
  }

  predicate TurnsOn(w: World, i: nat)
    requires i < |w.cheats|
  {
    w.cheats[i].enabled && !w.cheats[i].wasEnabled
  }

  lemma SameCheatsAlone(w: World, v: World, i: nat, k: nat, a: nat, b: Byte)
    requires Sound(w) && Sound(v) && SameCheats(w, v) && i < |w.cheats| && Alone(w, i, k, a)
    ensures Alone(v, i, k, a) && k < |w.m.codes| && Covered(v, i, k, a, b) == Covered(w, i, k, a, b)
  {
    hide Covers, Touches, Over;
    var c := w.cheats[i];
    RangeIn(Store(w.cheats, w.m.codes), i);
    assert forall l :: c.first <= l < End(c) ==> Text(v.m.codes[l]) == Text(w.m.codes[l]);
    OverSame(w.m.codes, v.m.codes, c.first, k, a, b);
    assert SameText(w.m.codes, v.m.codes, 0, |w.m.codes|);
    forall d | 0 <= d < |w.cheats| && d != i
      ensures Avoids(v.m.codes, v.cheats[d].first, End(v.cheats[d]), a)
    {
      SameTextAvoids(w.m.codes, v.m.codes, 0, |w.m.codes|, w.cheats[d].first, End(w.cheats[d]), a);
    }
  }

  /** Another cheat in a pass changes nothing about the byte. */
  lemma OthersKeepValue(w: World, d: nat, i: nat, k: nat, a: nat)
    requires Sound(w) && d < |w.cheats| && i < |w.cheats| && d != i && Alone(w, i, k, a)
    ensures k < |w.m.codes| && Value(Applied(w, d), i, k, a) == Value(w, i, k, a) &&
      Applied(w, d).cheats[i] == w.cheats[i]
  {
    hide Play, Undo, Touches, Covers, ByteOf;
    AppliedKeepsText(w, d);
    AppliedChangesTouched(w, d, a);
    assert Apart(w.cheats[d], w.cheats[i]) || Apart(w.cheats[i], w.cheats[d]);
    assert Applied(w, d).m.codes[k] == w.m.codes[k];
  }

  /** Cheat `i` in a pass: turned on, its codes run over one another; after that the byte is remembered, and
      put back when it is turned off. */
  lemma OwnPassValue(w: World, i: nat, k: nat, a: nat)
    requires Sound(w) && i < |w.cheats| && Alone(w, i, k, a)
    ensures k < |w.m.codes| && Value(Applied(w, i), i, k, a) ==
      if TurnsOn(w, i) then Covered(w, i, k, a, Value(w, i, k, a)) else Value(w, i, k, a)
  {
    hide Play, Undo, Runs, At, Covers, Touches, Over, ByteOf, Latched;
    var c := w.cheats[i];
    if c.enabled {
      PlayKeepsText(w.m, c.first, End(c), !c.wasEnabled);
      if !c.wasEnabled {
        FirstPassRemembers(w.m, c.first, End(c), k);
        ConstantsRun(w.m, c.first, End(c), k, a);
        var p := Play(w.m, c.first, End(c), true);
        LatchedByte(At(w.m, c.first, End(c), k), w.m.codes[k], a);
        SameByteOf(p.codes[k], w.m.codes[k], p.codes[k].oldVal, a);
      }
    } else if c.wasEnabled {
      LastPassRestores(w.m, c.first, End(c), k, a);
    }
  }

  /** A whole pass, or the rest of one. */
  lemma {:induction false} PassValue(w: World, from: nat, i: nat, k: nat, a: nat)
    requires Sound(w) && i < |w.cheats| && Alone(w, i, k, a)
    ensures k < |w.m.codes| && Value(PassFrom(w, from), i, k, a) ==
      if from <= i && TurnsOn(w, i) then Covered(w, i, k, a, Value(w, i, k, a)) else Value(w, i, k, a)
    ensures from <= i ==> PassFrom(w, from).cheats[i].wasEnabled == w.cheats[i].enabled
    ensures from > i ==> PassFrom(w, from).cheats[i] == w.cheats[i]
    decreases |w.cheats| - from
  {
    RangeIn(Store(w.cheats, w.m.codes), i);
    hide Sound, Alone, Value, Covered;
    assert k < |w.m.codes| by { AloneIsInArena(w, i, k, a); }
    if from < |w.cheats| {
      var v := Applied(w, from);
      AppliedIsSound(w, from);
      AppliedKeepsText(w, from);
      SameCheatsAlone(w, v, i, k, a, Value(w, i, k, a));
      if from == i { OwnPassValue(w, i, k, a); } else { OthersKeepValue(w, from, i, k, a); }
      hide Applied;
      PassValue(v, from + 1, i, k, a);
    }
  }

  lemma AloneIsInArena(w: World, i: nat, k: nat, a: nat)
    requires Sound(w) && i < |w.cheats| && Alone(w, i, k, a)
    ensures k < |w.m.codes| && a <= RAM
  {
  }

  lemma StepValue(w: World, act: Act, i: nat, k: nat, a: nat)
    requires Sound(w) && i < |w.cheats| && Alone(w, i, k, a) && (act.Poke? ==> act.at != a)
    ensures k < |w.m.codes| && Value(Step(w, act), i, k, a) ==
      if act.Pass? && TurnsOn(w, i) then Covered(w, i, k, a, Value(w, i, k, a)) else Value(w, i, k, a)
  {
    AloneIsInArena(w, i, k, a);
    hide Covered, ByteOf, Alone;
    match act
    case Pass => PassValue(w, 0, i, k, a);
    case Toggle(_, _) =>
    case Poke(_, _) =>
  }

  /** Some pass of the run finds cheat `i` newly switched on. */
  predicate Turned(w: World, i: nat, acts: seq<Act>)
    requires Sound(w) && i < |w.cheats|
    decreases |acts|
  {
    acts != [] && ((acts[0].Pass? && TurnsOn(w, i)) || TurnedLater(w, i, acts))
  }

  predicate TurnedLater(w: World, i: nat, acts: seq<Act>)
    requires Sound(w) && i < |w.cheats| && acts != []
    decreases |acts|, 0
  {
    StepKeepsText(w, acts[0]);
    Turned(Step(w, acts[0]), i, acts[1..])
  }

  /** Over every run of passes, switches of any cheat and writes by the game elsewhere, the byte is as it was
      or remembered, or what the cheat's own earlier codes made of it. */
  lemma {:induction false} RunKeepsTrack(w: World, i: nat, k: nat, a: nat, acts: seq<Act>)
    requires Sound(w) && i < |w.cheats| && Alone(w, i, k, a) && Spares(acts, a)
    ensures SameCheats(w, Run(w, acts)) && k < |w.m.codes| && a <= RAM
    ensures Value(Run(w, acts), i, k, a) ==
      if Turned(w, i, acts) then Covered(w, i, k, a, Value(w, i, k, a)) else Value(w, i, k, a)
    decreases |acts|
  {
    AloneIsInArena(w, i, k, a);
    hide Step, Alone, Sound, TurnsOn, Value, Over;
    if acts != [] {
      var v := Step(w, acts[0]);
      var b := Value(w, i, k, a);
      StepKeepsText(w, acts[0]);
      SameCheatsAlone(w, v, i, k, a, b);
      SameCheatsAlone(w, v, i, k, a, Covered(w, i, k, a, b));
      StepValue(w, acts[0], i, k, a);
      RunKeepsTrack(v, i, k, a, acts[1..]);
      OverTwice(w.m.codes, w.cheats[i].first, k, a, b);
    }
  }

  lemma {:induction false} RunAppends(w: World, acts: seq<Act>, more: seq<Act>)
    requires Sound(w)
    ensures Run(w, acts + more) == Run(Run(w, acts), more)
    decreases |acts|
  {
    hide Step, Sound;
    if acts == [] {
      assert acts + more == more;
    } else {
      assert (acts + more)[0] == acts[0] && (acts + more)[1..] == acts[1..] + more;
      RunAppends(Step(w, acts[0]), acts[1..], more);
    }
  }

  /** Switched off, and one more pass. */
  function Off(i: nat): seq<Act> { [Toggle(i, false), Pass] }

  lemma OffPutsBack(w: World, i: nat, k: nat, a: nat)
    requires Sound(w) && i < |w.cheats| && Alone(w, i, k, a)
    ensures k < |w.m.codes| && a <= RAM && Run(w, Off(i)).m.mem[a] == Value(w, i, k, a)
  {
    AloneIsInArena(w, i, k, a);
    hide Alone, PassFrom;
    var v := Step(w, Toggle(i, false));
    SameCheatsAlone(w, v, i, k, a, 0);
    PassValue(v, 0, i, k, a);
    assert Off(i)[1..] == [Pass] && [Pass][1..] == [];
    assert Run(v, [Pass]) == PassFrom(v, 0);
  }

  /** What is left of a byte at the end: start with the cheat off, let anything happen that spares the byte,
      switch the cheat off and make one pass. */
  lemma SwitchedOffByte(w: World, i: nat, k: nat, acts: seq<Act>, a: nat)
    requires Sound(w) && i < |w.cheats| && Alone(w, i, k, a) && !w.cheats[i].wasEnabled && Spares(acts, a)
    ensures k < |w.m.codes| && a <= RAM && Run(w, acts + Off(i)).m.mem[a] ==
      if Turned(w, i, acts) then Covered(w, i, k, a, w.m.mem[a]) else w.m.mem[a]
  {
    RunKeepsTrack(w, i, k, a, acts);
    RunAppends(w, acts, Off(i));
    hide Alone, Run, Turned, Over;
    SameCheatsAlone(w, Run(w, acts), i, k, a, w.m.mem[a]);
    OffPutsBack(Run(w, acts), i, k, a);
  }

  // ----- the cheat as a whole -----

  predicate Owns(w: World, i: nat, a: nat)
    requires Sound(w) && i < |w.cheats|
  {
    Footprint(w.m.codes, w.cheats[i].first, End(w.cheats[i]), a)
  }

  /** Cheat `i` is made of constant writes, to bytes that no other cheat can change. */
  ghost predicate Undisturbed(w: World, i: nat)
    requires Sound(w) && i < |w.cheats|
  {
    ConstOnly(w.m.codes, w.cheats[i].first, End(w.cheats[i])) &&
    forall c, a: nat :: 0 <= c < |w.cheats| && c != i && Owns(w, i, a) ==>
      Avoids(w.m.codes, w.cheats[c].first, End(w.cheats[c]), a)
  }

  /** No two of its codes write to the same byte. */
  ghost predicate NoOverlap(w: World, i: nat)
    requires Sound(w) && i < |w.cheats|
  {
    Plain(w.m.codes, w.cheats[i].first, End(w.cheats[i]))
  }

  /** Its last code to a byte. */
  lemma OwnedIsAlone(w: World, i: nat, a: nat) returns (k: nat)
    requires Sound(w) && i < |w.cheats| && Undisturbed(w, i) && Owns(w, i, a)
    ensures Alone(w, i, k, a)
  {
    hide Covers, Touches;
    var c := w.cheats[i];
    ConstFootprint(w.m.codes, c.first, End(c), a);
    k := LastCoverOf(w.m.codes, c.first, End(c), a);
    CoveredIsInRam(w.m.codes[k], a);
  }

  /** Switching off undoes: start with such a cheat off, none of whose codes overlap; let anything happen that
      spares its bytes (passes, any cheat switched on or off at any time), switch it off and make one pass.
      Every byte the cheat writes to is as it was at the start. */
  lemma SwitchingOffUndoes(w: World, i: nat, acts: seq<Act>, a: nat)
    requires Sound(w) && i < |w.cheats| && Undisturbed(w, i) && NoOverlap(w, i) && !w.cheats[i].wasEnabled
    requires Owns(w, i, a) && Spares(acts, a)
    ensures a <= RAM && Run(w, acts + Off(i)).m.mem[a] == w.m.mem[a]
  {
    var k := OwnedIsAlone(w, i, a);
    hide Undisturbed, Owns, Run, Turned, Plain, Over;
    SwitchedOffByte(w, i, k, acts, a);
    PlainLeaves(w.m.codes, w.cheats[i].first, End(w.cheats[i]), k, a, w.m.mem[a]);
  }

  /** Whatever memory holds at the start and whatever happens, every byte of the cheat is put back. */
  ghost predicate AlwaysUndone(w: World, i: nat)
    requires Sound(w) && i < |w.cheats|
  {
    forall mem: Memory, acts: seq<Act>, a: nat :: Spares(acts, a) && a <= RAM && Owns(w, i, a) ==>
      Run(w.(m := w.m.(mem := mem)), acts + Off(i)).m.mem[a] == mem[a]
  }

  lemma SameCodesUndisturbed(w: World, mem: Memory, i: nat)
    requires Sound(w) && i < |w.cheats| && Undisturbed(w, i)
    ensures var v := w.(m := w.m.(mem := mem)); Sound(v) && Undisturbed(v, i)
  {
    hide Avoids, Footprint;
    var v := w.(m := w.m.(mem := mem));
    assert forall a: nat :: Owns(v, i, a) == Owns(w, i, a);
  }

  /** A cheat of constant writes to bytes that no other cheat can change is always undone, exactly if no two
      of its codes write to the same byte. */
  lemma UndoneExactly(w: World, i: nat)
    requires Sound(w) && i < |w.cheats| && Undisturbed(w, i) && !w.cheats[i].wasEnabled
    ensures AlwaysUndone(w, i) <==> NoOverlap(w, i)
  {
    hide Run, Covers, Touches, Plain, Over;
    var c := w.cheats[i];
    if NoOverlap(w, i) {
      forall mem: Memory, acts: seq<Act>, a: nat | Spares(acts, a) && a <= RAM && Owns(w, i, a)
        ensures Run(w.(m := w.m.(mem := mem)), acts + Off(i)).m.mem[a] == mem[a]
      {
        SameCodesUndisturbed(w, mem, i);
        SwitchingOffUndoes(w.(m := w.m.(mem := mem)), i, acts, a);
      }
    } else {
      var a, k, b := OverlapLosesAByte(w.m.codes, c.first, End(c));
      assert Owns(w, i, a) by { assert CodeCovers(w.m.codes[k], a); }
      var mem: Memory := seq(RAM + 1, _ => b);
      var v := w.(m := w.m.(mem := mem));
      var on := [Toggle(i, true), Pass];
      assert Alone(v, i, k, a);
      assert Turned(v, i, on) by {
        assert on[1..] == [Pass];
        assert TurnsOn(Step(v, on[0]), i);
        assert Turned(Step(v, on[0]), i, on[1..]);
      }
      SwitchedOffByte(v, i, k, on, a);
      assert Run(v, on + Off(i)).m.mem[a] != mem[a];
    }
  }

  /** In its own turn of a pass a cheat of constant writes changes no byte but those it writes to. */
  lemma ChangesNothingElse(w: World, i: nat, a: nat)
    requires Sound(w) && i < |w.cheats| && a <= RAM && !Owns(w, i, a)
    requires ConstOnly(w.m.codes, w.cheats[i].first, End(w.cheats[i]))
    ensures Applied(w, i).m.mem[a] == w.m.mem[a]
  {
    hide Applied, Footprint, ConstOnly;
    ConstAvoids(w.m.codes, w.cheats[i].first, End(w.cheats[i]), a);
    AppliedChangesTouched(w, i, a);
  }

  // ----- edits -----

  /** The world after cheat `i` was edited and switched off. */
  function OffAfterEdit(s: Store, i: nat, descr: string, text: string, junk: nat -> U16, mem: Memory): (w: World)
    requires WellFormed(s) && i < |s.cheats|
    ensures |w.cheats| == |s.cheats| && Sound(w)
  {
    EditIsSeen(s, i, descr, text, junk);
    SwitchIsSound(Edited(s, i, descr, text, junk), i, mem);
    SwitchedOff(Edited(s, i, descr, text, junk), i, mem)
  }

  function SwitchedOff(s: Store, i: nat, mem: Memory): World
    requires i < |s.cheats|
  {
    World(s.cheats[i := s.cheats[i].(enabled := false)], Machine(mem, s.codes))
  }

  lemma SwitchIsSound(s: Store, i: nat, mem: Memory)
    requires WellFormed(s) && i < |s.cheats|
    ensures Sound(SwitchedOff(s, i, mem))
  {
  }

  lemma {:induction false} AppendedText(codes: seq<Code>, ps: seq<Pair>, junk: nat -> U16)
    ensures forall q :: 0 <= q < |ps| ==> Text(Appended(codes, ps, junk)[|codes| + q]) == ps[q]
    decreases |ps|
  {
    if ps != [] { AppendedText(codes, ps[..|ps| - 1], junk); }
  }

  /** What undoing the new codes of an edit does to memory. */
  function NewCodesUndone(codes: seq<Code>, ps: seq<Pair>, junk: nat -> U16, mem: Memory): Memory
  {
    Undo(Machine(mem, Appended(codes, ps, junk)), |codes|, |codes| + |ps|).mem
  }

  lemma TurnAfterEdit(s: Store, i: nat, descr: string, text: string, junk: nat -> U16, mem: Memory)
    requires WellFormed(s) && i < |s.cheats| && CodesIn(text) != []
    ensures Applied(OffAfterEdit(s, i, descr, text, junk, mem), i).m.mem ==
      if s.cheats[i].wasEnabled then NewCodesUndone(s.codes, CodesIn(text), junk, mem) else mem
  {
    hide Undo, Play, CodesIn, Appended, WellFormed;
  }

  lemma NoConstantsNoHarm(codes: seq<Code>, ps: seq<Pair>, junk: nat -> U16, mem: Memory)
    requires forall p :: p in ps ==> !IsConst(Kind(p.addr))
    ensures NewCodesUndone(codes, ps, junk, mem) == mem
  {
    hide Undo, Appended, Covers;
    AppendedText(codes, ps, junk);
    var m := Machine(mem, Appended(codes, ps, junk));
    forall k | |codes| <= k < |codes| + |ps|
      ensures !IsConst(Kind(m.codes[k].addr))
    {
      assert Text(m.codes[|codes| + (k - |codes|)]) == ps[k - |codes|];
    }
    forall a: nat | a <= RAM
      ensures NewCodesUndone(codes, ps, junk, mem)[a] == mem[a]
    {
      UndoChangesConstants(m, |codes|, |codes| + |ps|, a);
    }
  }

  lemma ConstantsDoHarm(codes: seq<Code>, ps: seq<Pair>, mem: Memory, q: nat) returns (junk: nat -> U16)
    requires q < |ps| && IsConst(Kind(ps[q].addr))
    ensures NewCodesUndone(codes, ps, junk, mem) != mem
  {
    hide Undo, Appended, Covers;
    var a, j, end := Place(ps[q].addr), |codes|, |codes| + |ps|;
    var v: U16 := if mem[a] == 0 then 0xFFFF else 0;
    junk := _ => v;
    var m := Machine(mem, Appended(codes, ps, junk));
    AppendedText(codes, ps, junk);
    AppendedIsJunk(codes, ps, junk);
    assert Text(m.codes[j + q]) == ps[q];
    ConstCoversItsPlace(m.codes[j + q]);
    var k := LastCoverOf(m.codes, j, end, a);
    LastPassRestores(m, j, end, k, a);
    assert m.codes[k].oldVal == v && ByteOf(m.codes[k], v, a) != mem[a];
  }

  lemma ConstCoversItsPlace(c: Code)
    requires IsConst(Kind(c.addr))
    ensures ConstCovers(c, Place(c.addr))
  {
  }

  /** The first pass after an edit, with the cheat switched off, leaves memory alone whatever the old values
      happen to be, exactly if the cheat was not on at the last pass, or the new codes hold no constant write. */
  lemma EditIsSafeExactly(s: Store, i: nat, descr: string, text: string, mem: Memory)
    requires WellFormed(s) && i < |s.cheats| && CodesIn(text) != []
    ensures (forall junk: nat -> U16 :: Applied(OffAfterEdit(s, i, descr, text, junk, mem), i).m.mem == mem) <==>
      (!s.cheats[i].wasEnabled || forall p :: p in CodesIn(text) ==> !IsConst(Kind(p.addr)))
  {
    hide CodesIn, NewCodesUndone, Applied, OffAfterEdit;
    var ps := CodesIn(text);
    if s.cheats[i].wasEnabled && exists p :: p in ps && IsConst(Kind(p.addr)) {
      var p :| p in ps && IsConst(Kind(p.addr));
      var q :| 0 <= q < |ps| && ps[q] == p;
      var junk := ConstantsDoHarm(s.codes, ps, mem, q);
      TurnAfterEdit(s, i, descr, text, junk, mem);
      assert Applied(OffAfterEdit(s, i, descr, text, junk, mem), i).m.mem != mem;
    } else {
      forall junk: nat -> U16
        ensures Applied(OffAfterEdit(s, i, descr, text, junk, mem), i).m.mem == mem
      {
        TurnAfterEdit(s, i, descr, text, junk, mem);
        if s.cheats[i].wasEnabled { NoConstantsNoHarm(s.codes, ps, junk, mem); }
      }
    }
  }

  /** And the bytes that only the old codes wrote to are never put back: they keep what is there, through
      every run, however the cheat is switched. */
  lemma OldBytesAreLeft(s: Store, i: nat, descr: string, text: string, junk: nat -> U16, mem: Memory, acts: seq<Act>,
      a: nat)
    requires WellFormed(s) && i < |s.cheats| && a <= RAM && Spares(acts, a)
    requires Unreached(OffAfterEdit(s, i, descr, text, junk, mem), a)
    ensures Run(OffAfterEdit(s, i, descr, text, junk, mem), acts).m.mem[a] == mem[a]
  {
    hide OffAfterEdit, Unreached;
    assert OffAfterEdit(s, i, descr, text, junk, mem).m.mem == mem by { EditKeepsMemory(s, i, descr, text, junk, mem); }
    UnreachedStays(OffAfterEdit(s, i, descr, text, junk, mem), acts, a);
  }

  lemma EditKeepsMemory(s: Store, i: nat, descr: string, text: string, junk: nat -> U16, mem: Memory)
    requires WellFormed(s) && i < |s.cheats|
    ensures OffAfterEdit(s, i, descr, text, junk, mem).m.mem == mem
  {
  }
}
