/** The ring of save states kept in memory: every two seconds the machine is copied into the next of
    six slots, and the oldest copy kept is the one written to disk (libpcsxcore/misc.c:88-136,
    1101-1145, 1208-1236, 1305-1316, 1519-1533, 1611-1616).
  */
module AutosaveRing {
  /** AUTO_SAVE_TO_FILE_COUNT: ten seconds at two seconds each, and one. */
  const COUNT := 6

  function Min(a: nat, b: nat): nat { if a < b then a else b }

  // ----- the ring as a history -----

  /** The number of the oldest of `n` snapshots that is still kept. */
  function Oldest(n: nat): (k: nat)
    ensures n > 0 ==> k < n
  {
    n - Min(n, COUNT)
  }

  /** The slot SaveStateWork picks after `n` snapshots. */
  function PickedAfter(n: nat): nat { if n < COUNT then 0 else n % COUNT }

  /** The newest of the first `n` snapshots that went into slot `j`. */
  function Newest(n: nat, j: nat): (k: nat)
    requires j < COUNT && j < n
    ensures k < n && k % COUNT == j
    ensures n <= k + COUNT
  {
    if (n - 1) % COUNT == j then n - 1 else Newest(n - 1, j)
  }

  lemma NewestIsNewest(n: nat, j: nat, k: nat)
    requires j < COUNT && k < n && k % COUNT == j
    ensures j < n && k <= Newest(n, j)
  {
    assert j <= k;
    assert Newest(n, j) % COUNT == k % COUNT;
  }

  /** The slot of the oldest snapshot kept, as the counters give it, still holds that snapshot; no slot
      holds an older one. */
  lemma OldestIsKept(n: nat)
    requires n > 0
    ensures 0 <= PickedAfter(n) < n && Newest(n, PickedAfter(n)) == Oldest(n)
    ensures forall j :: 0 <= j < COUNT && j < n ==> Oldest(n) <= Newest(n, j)
  {
    hide Newest;
    assert Oldest(n) % COUNT == PickedAfter(n) <= Oldest(n);
    NewestIsNewest(n, PickedAfter(n), Oldest(n));
    assert Newest(n, PickedAfter(n)) % COUNT == Oldest(n) % COUNT;
  }

  /** The counters after one more snapshot, and the slot to be picked then, from the counters before. */
  lemma CountersMoveOn(n: nat)
    ensures (if n % COUNT + 1 >= COUNT then 0 else n % COUNT + 1) == (n + 1) % COUNT
    ensures (if Min(n, COUNT) < COUNT then Min(n, COUNT) + 1 else Min(n, COUNT)) == Min(n + 1, COUNT)
    ensures PickedAfter(n + 1) == if Min(n, COUNT) < COUNT - 1 then 0
      else if n % COUNT + 1 < COUNT then n % COUNT + 1 else 0
    ensures PickedAfter(n + 1) == if Min(n + 1, COUNT) < COUNT then 0 else (n + 1) % COUNT
    ensures 0 <= PickedAfter(n + 1) < Min(n + 1, COUNT) && Min(n, COUNT) <= COUNT
  {
  }

  /** One more snapshot goes into the next slot round the ring, and the other slots keep theirs. */
  lemma NewestAfter(n: nat, j: nat)
    requires j < COUNT && j < n + 1
    ensures j == n % COUNT ==> Newest(n + 1, j) == n
    ensures j != n % COUNT ==> j < n && Newest(n + 1, j) == Newest(n, j)
  {
  }

  // ----- the name of the file -----

  /** The id under which the ring files its snapshots, after saves made with discs `ids` in the drive
      (CdromId_old, which was `start` at the reset). */
  function Label(start: string, ids: seq<string>): string
    decreases |ids|, 1
  {
    if ids == [] then start
    else
      var n := |ids|;
      if Stored(start, ids, Oldest(n)) == ids[n - 1] then ids[n - 1] else Label(start, ids[..n - 1])
  }

  /** The id stored with snapshot `k`: with no disc known, the label at the time. */
  function Stored(start: string, ids: seq<string>, k: nat): string
    requires k < |ids|
    decreases |ids|, 0
  {
    if ids[k] != "" then ids[k] else Label(start, ids[..k])
  }

  /** A label that is known at the reset stays known, although saves are made while no disc is. */
  lemma {:induction false} LabelStaysKnown(start: string, ids: seq<string>)
    requires start != ""
    ensures Label(start, ids) != "" && forall k :: 0 <= k < |ids| ==> Stored(start, ids, k) != ""
    decreases |ids|
  {
    forall n | 0 <= n < |ids| ensures Label(start, ids[..n]) != "" { LabelStaysKnown(start, ids[..n]); }
  }

  /** What one more save does to the label; the ids stored before stay. */
  lemma LabelAfter(start: string, ids: seq<string>, id: string)
    ensures var n, all := |ids|, ids + [id];
      (forall k :: 0 <= k < n ==> Stored(start, all, k) == Stored(start, ids, k)) &&
      Stored(start, all, n) == (if id != "" then id else Label(start, ids)) &&
      Label(start, all) == (if Stored(start, all, Oldest(n + 1)) == id then id else Label(start, ids))
  {
    var n, all := |ids|, ids + [id];
    assert all[..n] == ids;
    assert forall k :: 0 <= k < n ==> all[..k] == ids[..k];
  }

  /** The label is the id stored with the oldest snapshot kept, the one a file is written from. */
  predicate LabelIsRight(start: string, ids: seq<string>)
    requires ids != []
  {
    Label(start, ids) == Stored(start, ids, Oldest(|ids|))
  }

  /** Snapshot `o` was saved with the id of the one before it, or with that of the disc in the drive five
      saves later, when it becomes the oldest. */
  predicate StaysAt(start: string, ids: seq<string>, o: nat)
    requires 1 <= o && o + 5 < |ids|
  {
    Stored(start, ids, o) == Stored(start, ids, o - 1) || Stored(start, ids, o) == ids[o + 5]
  }

  predicate DiscsStay(start: string, ids: seq<string>)
  {
    forall o :: 1 <= o && o + 5 < |ids| ==> StaysAt(start, ids, o)
  }

  lemma StoredInPrefix(start: string, ids: seq<string>, n: nat, k: nat)
    requires k < n <= |ids|
    ensures Stored(start, ids[..n], k) == Stored(start, ids, k)
  {
    assert ids[..n][..k] == ids[..k];
  }

  /** One more save keeps the label right exactly when the snapshot that becomes the oldest has the id of
      the one before it, or that of the disc now in the drive. */
  lemma OneMoreSave(start: string, ids: seq<string>)
    requires |ids| > 1 && LabelIsRight(start, ids[..|ids| - 1])
    ensures LabelIsRight(start, ids) <==> (|ids| <= COUNT || StaysAt(start, ids, |ids| - 6))
  {
    hide Stored;
    var n := |ids|;
    StoredInPrefix(start, ids, n - 1, Oldest(n - 1));
  }

  lemma FirstSave(start: string, ids: seq<string>)
    requires |ids| == 1
    ensures LabelIsRight(start, ids)
  {
    assert ids[..0] == [];
  }

  lemma StaysAtInPrefix(start: string, ids: seq<string>, n: nat, o: nat)
    requires 1 <= o && o + 5 < n <= |ids|
    ensures StaysAt(start, ids[..n], o) <==> StaysAt(start, ids, o)
  {
    StoredInPrefix(start, ids, n, o);
    StoredInPrefix(start, ids, n, o - 1);
  }

  lemma DiscsStayInPrefix(start: string, ids: seq<string>)
    requires ids != []
    ensures DiscsStay(start, ids) <==>
      (DiscsStay(start, ids[..|ids| - 1]) && (|ids| <= COUNT || StaysAt(start, ids, |ids| - 6)))
  {
    hide StaysAt;
    var n, front := |ids|, ids[..|ids| - 1];
    if DiscsStay(start, ids) {
      forall o | 1 <= o && o + 5 < n - 1
        ensures StaysAt(start, front, o)
      {
        StaysAtInPrefix(start, ids, n - 1, o);
      }
    }
    if DiscsStay(start, front) && (n <= COUNT || StaysAt(start, ids, n - 6)) {
      forall o | 1 <= o && o + 5 < n
        ensures StaysAt(start, ids, o)
      {
        if o + 5 < n - 1 { StaysAtInPrefix(start, ids, n - 1, o); }
      }
    }
  }

  /** After every save the label is the stored id of the oldest snapshot kept, if and only if the discs
      stay; saves made while no disc is known are included. */
  lemma {:induction false} LabelIsRightExactly(start: string, ids: seq<string>)
    ensures (forall n :: 1 <= n <= |ids| ==> LabelIsRight(start, ids[..n])) <==> DiscsStay(start, ids)
    decreases |ids|
  {
    hide LabelIsRight, Stored, DiscsStay;
    if |ids| == 0 {
      NoDiscs(start, ids);
    } else {
      var m := |ids| - 1;
      var front := ids[..m];
      LabelIsRightExactly(start, front);
      DiscsStayInPrefix(start, ids);
      assert forall n :: 1 <= n <= m ==> front[..n] == ids[..n];
      assert ids[..|ids|] == ids;
      if m == 0 {
        FirstSave(start, ids);
      } else if DiscsStay(start, front) {
        assert LabelIsRight(start, ids[..m]);
        OneMoreSave(start, ids);
      }
    }
  }

  lemma NoDiscs(start: string, ids: seq<string>)
    requires ids == []
    ensures DiscsStay(start, ids)
  {
  }

  /** For as long as no slot is written twice, the label stays the id of the first snapshot. */
  lemma {:induction false} FirstRoundKeepsTheLabel(start: string, ids: seq<string>)
    requires 1 <= |ids| <= COUNT && ids[0] == start
    ensures Label(start, ids) == start
    decreases |ids|
  {
    assert Oldest(|ids|) == 0 && Stored(start, ids, 0) == start;
    if |ids| > 1 { FirstRoundKeepsTheLabel(start, ids[..|ids| - 1]); }
  }

  /** Three discs within seven saves: the snapshot written is of the second, and filed under the first. */
  lemma LabelCanBeWrong()
    ensures Label("A", ["A", "B", "B", "B", "B", "B", "C"]) == "A"
    ensures Oldest(7) == 1 && Stored("A", ["A", "B", "B", "B", "B", "B", "C"], 1) == "B"
    ensures !LabelIsRight("A", ["A", "B", "B", "B", "B", "B", "C"])
  {
    var ids := ["A", "B", "B", "B", "B", "B", "C"];
    assert ids[1] == "B" && ids[6] == "C" && ids[..6][0] == "A";
    FirstRoundKeepsTheLabel("A", ids[..6]);
  }

  // ----- the ring in memory -----

  /** A slot: the copy of the machine, and the id of the disc. */
  datatype Slot<T> = Slot(state: T, id: string)

  /** Every slot used so far holds the newest of the snapshots that went into it. */
  predicate Filled<T(==)>(slots: seq<Slot<T>>, history: seq<T>, start: string, ids: seq<string>): (r: bool)
    ensures r ==> |slots| == COUNT && |history| == |ids|
  {
    |slots| == COUNT && |history| == |ids| &&
    forall j {:trigger slots[j]} :: 0 <= j < COUNT && j < |history| ==>
      slots[j] == Slot(history[Newest(|history|, j)], Stored(start, ids, Newest(|history|, j)))
  }

  lemma FilledAt<T>(slots: seq<Slot<T>>, history: seq<T>, start: string, ids: seq<string>, j: nat)
    requires Filled(slots, history, start, ids) && j < COUNT && j < |history|
    ensures slots[j] == Slot(history[Newest(|history|, j)], Stored(start, ids, Newest(|history|, j)))
  {
  }

  lemma FilledAfter<T>(slots: seq<Slot<T>>, history: seq<T>, start: string, ids: seq<string>, state: T, id: string)
    requires Filled(slots, history, start, ids)
    ensures Filled(slots[|history| % COUNT := Slot(state, if id != "" then id else Label(start, ids))],
              history + [state], start, ids + [id])
  {
    hide Label, Stored, Newest;
    var n := |history|;
    LabelAfter(start, ids, id);
    forall j | 0 <= j < COUNT && j < n + 1 { NewestAfter(n, j); }
  }

  /** What one save does to the slots and to the label. */
  lemma SaveIsKept<T>(slots: seq<Slot<T>>, history: seq<T>, start: string, ids: seq<string>, state: T, id: string)
    requires Filled(slots, history, start, ids) && |ids| == |history|
    ensures
      var n := |history|;
      var after := slots[n % COUNT := Slot(state, if id != "" then id else Label(start, ids))];
      var i := PickedAfter(n + 1);
      Filled(after, history + [state], start, ids + [id]) &&
      after[i] == Slot((history + [state])[Oldest(n + 1)], Stored(start, ids + [id], Oldest(n + 1))) &&
      Label(start, ids + [id]) == if after[i].id == id then id else Label(start, ids)
  {
    hide Label, Stored, Newest, Filled, PickedAfter;
    var n := |history|;
    var after := slots[n % COUNT := Slot(state, if id != "" then id else Label(start, ids))];
    FilledAfter(slots, history, start, ids, state, id);
    LabelAfter(start, ids, id);
    OldestIsKept(n + 1);
    FilledAt(after, history + [state], start, ids + [id], PickedAfter(n + 1));
  }

  datatype Outcome<T> = Refused | Failed | Live | Written(state: T)

  class Ring<T> {
    const slots: array<Slot<T>>
    var lastCount: int
    var filledNum: int
    var resumePlay: bool
    var cdromIdOld: string

    /** What was saved since the last reset, the discs it was saved from, and the label at the reset. */
    ghost var history: seq<T>
    ghost var ids: seq<string>
    ghost var firstLabel: string

    ghost predicate Valid()
      reads this, slots
    {
      var n := |history|;
      slots.Length == COUNT && |ids| == n && Filled(slots[..], history, firstLabel, ids) &&
      lastCount == n % COUNT && filledNum == Min(n, COUNT) &&
      cdromIdOld == Label(firstLabel, ids)
    }

    constructor (start: string, blank: T)
      ensures Valid() && history == [] && !resumePlay && fresh(slots)
    {
      slots := new Slot<T>[COUNT](_ => Slot(blank, ""));
      lastCount, filledNum, resumePlay := 0, 0, false;
      cdromIdOld, firstLabel := start, start;
      history, ids := [], [];
    }

    /** The slot that SaveStateWork would pick. */
    function Picked(): int
      reads this
    {
      if filledNum < COUNT then 0 else if lastCount < COUNT then lastCount else 0
    }

    /** SetCdromId, in the middle of a save: the counters are still those from before it. */
    method SetCdromId(cdromId: string) returns (oldest: int)
      requires slots.Length == COUNT && 0 <= lastCount < COUNT && 0 <= filledNum <= COUNT
      modifies `cdromIdOld
      ensures oldest == if filledNum < COUNT - 1 then 0 else if lastCount + 1 < COUNT then lastCount + 1 else 0
      ensures cdromIdOld == if slots[oldest].id == cdromId then cdromId else old(cdromIdOld)
    {
      if filledNum < COUNT - 1 {
        oldest := 0;
      } else {
        oldest := lastCount + 1;
        if oldest >= COUNT {
          oldest := 0;
        }
      }
      if slots[oldest].id == cdromId {
        if cdromIdOld != cdromId {
          cdromIdOld := cdromId;
        }
      }
    }

    /** The end of CheckCdrom, when a disc is looked at: the ring takes its id if autosave is off or anything
        about the disc before is not known.  With autosave on and a label known at the reset it never does
        (LabelStaysKnown), and before the first save it may. */
    method CheckCdrom(cdromId: string, pathKnown: bool, autosave: bool)
      requires Valid()
      modifies `cdromIdOld, `firstLabel
      ensures cdromIdOld == if pathKnown && old(cdromIdOld) != "" && autosave then old(cdromIdOld) else cdromId
      ensures firstLabel == if history == [] then cdromIdOld else old(firstLabel)
      ensures history == [] || (pathKnown && firstLabel != "" && autosave) ==> Valid()
    {
      hide Stored;
      if firstLabel != "" { LabelStaysKnown(firstLabel, ids); }
      if !pathKnown || cdromIdOld == "" || !autosave {
        cdromIdOld := cdromId;
      }
      if history == [] { firstLabel := cdromIdOld; }
    }

    /** emu_sync_state2: AutoSaveState into the slot at lastCount, then the counters move on.  The slot
        that SetCdromId looks at holds the snapshot SaveStateWork would write now. */
    method Sync(state: T, cdromId: string) returns (inspected: int)
      requires Valid()
      modifies `lastCount, `filledNum, `cdromIdOld, `history, `ids, slots
      ensures Valid() && history == old(history) + [state] && ids == old(ids) + [cdromId]
      ensures inspected == Picked() && 0 <= inspected < filledNum
      ensures slots[inspected] == Slot(history[Oldest(|history|)], Stored(firstLabel, ids, Oldest(|history|)))
    {
      hide Label, Stored, Newest, Oldest, Filled, PickedAfter, Min;
      ghost var n := |history|;
      SaveIsKept(slots[..], history, firstLabel, ids, state, cdromId);
      CountersMoveOn(n);
      history, ids := history + [state], ids + [cdromId];
      var count := lastCount;
      slots[count] := Slot(state, if cdromId != "" then cdromId else cdromIdOld);
      assert slots[..] == old(slots[..])[count := slots[count]];
      inspected := SetCdromId(cdromId);
      if filledNum < COUNT {
        filledNum := filledNum + 1;
      }
      count := count + 1;
      if count >= COUNT {
        count := 0;
      }
      lastCount := count;
    }

    /** SaveStateWork: the oldest snapshot kept is written; with none, or with too few in a resumed
        game, it refuses. */
    method SaveStateWork(autosave: bool, canOpen: bool) returns (r: Outcome<T>)
      requires Valid()
      ensures r == Live <==> !autosave
      ensures r == Refused <==> autosave && (history == [] || (|history| < COUNT && resumePlay))
      ensures r == Failed <==> autosave && !canOpen && history != [] && (|history| >= COUNT || !resumePlay)
      ensures r.Written? ==> history != [] && r.state == history[|history| - Min(|history|, COUNT)]
      ensures r.Written? && DiscsStay(firstLabel, ids) ==> cdromIdOld == Stored(firstLabel, ids, Oldest(|history|))
    {
      hide Label, Stored, Newest;
      if !autosave { return Live; }
      var oldIndex;
      if filledNum <= 0 {
        return Refused;
      } else if filledNum < COUNT {
        if resumePlay { return Refused; }
        oldIndex := 0;
      } else if lastCount < COUNT {
        oldIndex := lastCount;
      } else {
        oldIndex := 0;
      }
      if !canOpen { return Failed; }
      OldestIsKept(|history|);
      FilledAt(slots[..], history, firstLabel, ids, oldIndex);
      if DiscsStay(firstLabel, ids) {
        LabelIsRightExactly(firstLabel, ids);
        assert LabelIsRight(firstLabel, ids[..|ids|]) && ids[..|ids|] == ids;
      }
      r := Written(slots[oldIndex].state);
    }

    /** LoadState: the snapshots are forgotten if autosave is on, and the game counts as resumed. */
    method LoadState(autosave: bool)
      requires Valid()
      modifies `lastCount, `filledNum, `resumePlay, `history, `ids, `firstLabel
      ensures Valid() && resumePlay
      ensures if autosave then history == [] else history == old(history)
    {
      if autosave {
        lastCount, filledNum := 0, 0;
        history, ids, firstLabel := [], [], cdromIdOld;
      }
      resumePlay := true;
    }
  }
}
