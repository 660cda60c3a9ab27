/** The cheats in memory: a table of cheats, each owning a range of one arena of codes that only grows
    (libpcsxcore/cheat.c:24-57, 326-470, libpcsxcore/cheat.h:27-39).
  */
module CheatStore {
  import opened CheatText

  /** A code; `oldVal` is what an 8- or 16-bit constant write replaced. */
  datatype Code = Code(addr: U32, val: U16, oldVal: U16)

  datatype Cheat = Cheat(descr: string, first: nat, n: nat, enabled: bool, wasEnabled: bool)

  datatype Store = Store(cheats: seq<Cheat>, codes: seq<Code>)

  // ----- the ranges -----

  predicate Apart(a: Cheat, b: Cheat) { a.first + a.n <= b.first || b.first + b.n <= a.first }

  /** Every range lies in the arena, and no two overlap. */
  predicate WellFormed(s: Store)
  {
    (forall i :: 0 <= i < |s.cheats| ==> s.cheats[i].first + s.cheats[i].n <= |s.codes|) &&
    (forall i, j :: 0 <= i < j < |s.cheats| ==> Apart(s.cheats[i], s.cheats[j]))
  }

  // ----- what the store says -----

  function Written(codes: seq<Code>): (r: seq<Pair>)
    ensures |r| == |codes| && forall k :: 0 <= k < |r| ==> r[k] == Pair(codes[k].addr, codes[k].val)
  {
    seq(|codes|, k requires 0 <= k < |codes| => Pair(codes[k].addr, codes[k].val))
  }

  function ItemOf(codes: seq<Code>, c: Cheat): Item
    requires c.first + c.n <= |codes|
  {
    Item(c.descr, c.enabled, Written(codes[c.first..c.first + c.n]))
  }

  /** The cheats with their descriptions, enabled bits and codes, without the arena. */
  function View(s: Store): (r: seq<Item>)
    requires WellFormed(s)
    ensures |r| == |s.cheats| && forall i :: 0 <= i < |r| ==> r[i] == ItemOf(s.codes, s.cheats[i])
  {
    seq(|s.cheats|, i requires 0 <= i < |s.cheats| => ItemOf(s.codes, s.cheats[i]))
  }

  // ----- the operations -----

  function LineEnd(text: string): (k: nat)
    ensures k <= |text| && (k < |text| ==> text[k] == '\n')
    ensures '\n' !in text[..k]
  {
    if text == "" || text[0] == '\n' then 0 else 1 + LineEnd(text[1..])
  }

  /** A line counts as a code when its first number is large enough. */
  function CodeIn(line: string): seq<Pair>
  {
    var (t1, t2) := ScanPair(line, 0, 0);
    if t1 > 0x1000_0000 then [Pair(t1, t2 % 0x1_0000)] else []
  }

  /** The codes of the text given to AddCheat and EditCheat. */
  function CodesIn(text: string): seq<Pair>
    decreases |text|
  {
    var k := LineEnd(text);
    CodeIn(text[..k]) + if k < |text| then CodesIn(text[k + 1..]) else []
  }

  /** New codes at the end of the arena; `junk` is what the old values happen to be there. */
  function Appended(codes: seq<Code>, ps: seq<Pair>, junk: nat -> U16): (r: seq<Code>)
    ensures |r| == |codes| + |ps| && r[..|codes|] == codes && Written(r[|codes|..]) == ps
  {
    if ps == [] then codes
    else
      var front := Appended(codes, ps[..|ps| - 1], junk);
      var r := front + [Code(ps[|ps| - 1].addr, ps[|ps| - 1].val, junk(|front|))];
      assert r[|codes|..] == front[|codes|..] + [r[|front|]];
      r
  }

  function Named(descr: string): string { if descr == "" then "(Untitled)" else descr }

  /** AddCheat; without a code it does nothing. */
  function Added(s: Store, descr: string, text: string, junk: nat -> U16): Store
  {
    var ps := CodesIn(text);
    if ps == [] then s
    else Store(s.cheats + [Cheat(Named(descr), |s.codes|, |ps|, false, false)], Appended(s.codes, ps, junk))
  }

  /** EditCheat: the new codes go to the end of the arena, the old range is given up. */
  function Edited(s: Store, i: nat, descr: string, text: string, junk: nat -> U16): Store
    requires i < |s.cheats|
  {
    var ps := CodesIn(text);
    if ps == [] then s
    else Store(s.cheats[i := s.cheats[i].(descr := Named(descr), first := |s.codes|, n := |ps|)],
      Appended(s.codes, ps, junk))
  }

  /** RemoveCheat: the arena stays. */
  function Removed(s: Store, i: nat): Store
    requires i < |s.cheats|
  {
    s.(cheats := s.cheats[..i] + s.cheats[i + 1..])
  }

  /** The arena that LoadCheats lays out: the ranges follow each other. */
  function Laid(items: seq<Item>, junk: nat -> U16): (s: Store)
    ensures |s.cheats| == |items|
  {
    if items == [] then Store([], [])
    else
      var s := Laid(items[..|items| - 1], junk);
      var it := items[|items| - 1];
      Store(s.cheats + [Cheat(it.descr, |s.codes|, |it.codes|, it.enabled, false)], Appended(s.codes, it.codes, junk))
  }

  // ----- what they keep -----

  /** Ranges in the old part of the arena read the same in the longer one. */
  lemma OldRangesKept(codes: seq<Code>, more: seq<Code>, c: Cheat)
    requires |codes| <= |more| && more[..|codes|] == codes && c.first + c.n <= |codes|
    ensures ItemOf(more, c) == ItemOf(codes, c)
  {
    hide Written;
    assert forall k :: 0 <= k < |codes| ==> more[k] == more[..|codes|][k];
    assert more[c.first..c.first + c.n] == codes[c.first..c.first + c.n];
  }

  lemma NewRange(codes: seq<Code>, ps: seq<Pair>, junk: nat -> U16, c: Cheat)
    requires c.first == |codes| && c.n == |ps|
    ensures ItemOf(Appended(codes, ps, junk), c) == Item(c.descr, c.enabled, ps)
  {
    var r := Appended(codes, ps, junk);
    assert r[c.first..c.first + c.n] == r[|codes|..];
  }

  /** A cheat put at the end of a table, or in place of one, over the end of the arena. */
  lemma AppendKeeps(s: Store, c: Cheat, ps: seq<Pair>, junk: nat -> U16)
    requires WellFormed(s) && c.first == |s.codes| && c.n == |ps|
    ensures var t := Store(s.cheats + [c], Appended(s.codes, ps, junk));
      WellFormed(t) && View(t) == View(s) + [Item(c.descr, c.enabled, ps)]
  {
    hide Appended, Written, ItemOf;
    var t := Store(s.cheats + [c], Appended(s.codes, ps, junk));
    assert WellFormed(t);
    hide WellFormed;
    forall i | 0 <= i < |s.cheats|
      ensures View(t)[i] == View(s)[i]
    {
      RangeIn(s, i);
      OldRangesKept(s.codes, t.codes, s.cheats[i]);
    }
    NewRange(s.codes, ps, junk, c);
  }

  lemma RangeIn(s: Store, i: nat)
    requires WellFormed(s) && i < |s.cheats|
    ensures s.cheats[i].first + s.cheats[i].n <= |s.codes|
  {
  }

  lemma ReplaceKeeps(s: Store, i: nat, c: Cheat, ps: seq<Pair>, junk: nat -> U16)
    requires WellFormed(s) && i < |s.cheats| && c.first == |s.codes| && c.n == |ps|
    ensures var t := Store(s.cheats[i := c], Appended(s.codes, ps, junk));
      WellFormed(t) && View(t) == View(s)[i := Item(c.descr, c.enabled, ps)]
  {
    hide Appended, Written, ItemOf;
    var t := Store(s.cheats[i := c], Appended(s.codes, ps, junk));
    forall k | 0 <= k < |s.cheats| { OldRangesKept(s.codes, t.codes, s.cheats[k]); }
    NewRange(s.codes, ps, junk, c);
  }

  /** A cheat added is at the end with just the codes of its text; the others are as before. */
  lemma AddIsSeen(s: Store, descr: string, text: string, junk: nat -> U16)
    requires WellFormed(s)
    ensures var t := Added(s, descr, text, junk);
      WellFormed(t) && View(t) == View(s) + if CodesIn(text) == [] then []
        else [Item(Named(descr), false, CodesIn(text))]
  {
    hide CodesIn, Appended;
    var ps := CodesIn(text);
    if ps != [] {
      AppendKeeps(s, Cheat(Named(descr), |s.codes|, |ps|, false, false), ps, junk);
    }
  }

  /** An edited cheat keeps its place and its enabled bit; the others are as before. */
  lemma EditIsSeen(s: Store, i: nat, descr: string, text: string, junk: nat -> U16)
    requires WellFormed(s) && i < |s.cheats|
    ensures var t := Edited(s, i, descr, text, junk);
      WellFormed(t) && View(t) == if CodesIn(text) == [] then View(s)
        else View(s)[i := Item(Named(descr), s.cheats[i].enabled, CodesIn(text))]
  {
    hide CodesIn, Appended;
    var ps := CodesIn(text);
    if ps != [] {
      ReplaceKeeps(s, i, s.cheats[i].(descr := Named(descr), first := |s.codes|, n := |ps|), ps, junk);
    }
  }

  /** New codes remember nothing: their old values are what the memory happened to hold. */
  lemma {:induction false} AppendedIsJunk(codes: seq<Code>, ps: seq<Pair>, junk: nat -> U16)
    ensures forall k :: |codes| <= k < |codes| + |ps| ==> Appended(codes, ps, junk)[k].oldVal == junk(k)
    decreases |ps|
  {
    if ps != [] { AppendedIsJunk(codes, ps[..|ps| - 1], junk); }
  }

  lemma RemoveIsSeen(s: Store, i: nat)
    requires WellFormed(s) && i < |s.cheats|
    ensures WellFormed(Removed(s, i)) && View(Removed(s, i)) == View(s)[..i] + View(s)[i + 1..]
  {
  }

  /** What LoadCheats lays out is what it read. */
  lemma {:induction false} LaidIsSeen(items: seq<Item>, junk: nat -> U16)
    ensures WellFormed(Laid(items, junk)) && View(Laid(items, junk)) == items
  {
    if items != [] {
      var front, it := items[..|items| - 1], items[|items| - 1];
      LaidIsSeen(front, junk);
      var s := Laid(front, junk);
      AppendKeeps(s, Cheat(it.descr, |s.codes|, |it.codes|, it.enabled, false), it.codes, junk);
    }
  }

  // ----- runs -----

  datatype Change =
    | Add(descr: string, text: string) | Edit(index: nat, newDescr: string, newText: string)
    | Remove(at: nat) | Load(text2: string, t1: U32, t2: U32)

  /** EditCheat and RemoveCheat assert that their index is in the table. */
  function Step(s: Store, c: Change, junk: nat -> U16): Store
  {
    match c
    case Add(descr, text) => Added(s, descr, text, junk)
    case Edit(i, descr, text) => if i < |s.cheats| then Edited(s, i, descr, text, junk) else s
    case Remove(i) => if i < |s.cheats| then Removed(s, i) else s
    case Load(text, t1, t2) => Laid(LoadText(Loading([], t1, t2), text).items, junk)
  }

  function Run(s: Store, cs: seq<Change>, junk: nat -> U16): Store
    decreases |cs|
  {
    if cs == [] then s else Run(Step(s, cs[0], junk), cs[1..], junk)
  }

  /** Along every run the ranges stay inside the arena and apart. */
  lemma {:induction false} RunKeepsRanges(s: Store, cs: seq<Change>, junk: nat -> U16)
    requires WellFormed(s)
    ensures WellFormed(Run(s, cs, junk))
    decreases |cs|
  {
    hide WellFormed, Added, Edited, Removed, Laid;
    if cs != [] {
      match cs[0] {
        case Add(descr, text) => AddIsSeen(s, descr, text, junk);
        case Edit(i, descr, text) => if i < |s.cheats| { EditIsSeen(s, i, descr, text, junk); }
        case Remove(i) => if i < |s.cheats| { RemoveIsSeen(s, i); }
        case Load(text, t1, t2) => LaidIsSeen(LoadText(Loading([], t1, t2), text).items, junk);
      }
      RunKeepsRanges(Step(s, cs[0], junk), cs[1..], junk);
    }
  }

  /** Saving a store and loading the file gives a store that says the same, if and only if every cheat
      survives the file. */
  lemma SaveLoadExactly(s: Store, t1: U32, t2: U32, junk: nat -> U16)
    requires WellFormed(s) && forall it :: it in View(s) ==> Printable(it)
    ensures
      var t := Laid(LoadText(Loading([], t1, t2), SaveText(View(s))).items, junk);
      WellFormed(t) && (View(t) == View(s) <==> forall it :: it in View(s) ==> Storable(it))
  {
    LaidIsSeen(LoadText(Loading([], t1, t2), SaveText(View(s))).items, junk);
    RoundTripExactly(View(s), t1, t2);
  }
}
