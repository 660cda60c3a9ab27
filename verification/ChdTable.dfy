/** The track table of a CHD image and the sector arithmetic around it (libpcsxcore/cdriso.c:156-169,
    1104-1151, 1337-1364).

    A pregap is either among a track's stored frames or virtual: sectors without frames.  The table
    says for each track where its stored frames lie among the sectors of the disc (`lba`) and among
    the frames of the image (`chdFrame`).  Sector and frame counts are unbounded here.
  */
module ChdTable {
  const MAXTRACKS := 100
  const LEADIN := 150              // two seconds

  // ----- minutes, seconds and frames -----

  /** Three C chars, which hold -128..127. */
  datatype Msf = Msf(m: int, s: int, f: int)

  function ToChar(x: int): (c: int)
    ensures -128 <= c < 128 && (-128 <= x < 128 ==> c == x)
  {
    (x + 128) % 256 - 128
  }

  function Msf2Sec(t: Msf): int { (t.m * 60 + t.s) * 75 + t.f }

  function Sec2Msf(s: nat): (t: Msf)
  {
    var m := ToChar(s / 75 / 60);
    var s1 := s - m * 75 * 60;
    var sec := ToChar(s1 / 75);
    Msf(m, sec, ToChar(s1 - sec * 75))
  }

  lemma CharIsPeriodic(x: int, k: int)
    requires 0 <= x < 128
    ensures ToChar(x + 256 * k) == x
  {
  }

  lemma DivideBy75(r: nat, k: nat)
    ensures (r + 75 * k) / 75 == r / 75 + k
  {
  }

  /** sec2msf wraps its minutes only, by multiples of 256. */
  lemma Sec2MsfFields(s: nat)
    ensures var k := (s / 4500 + 128) / 256;
      Sec2Msf(s) == Msf(s / 4500 - 256 * k, s % 4500 / 75, s % 75)
  {
    var q, r := s / 4500, s % 4500;
    var k := (q + 128) / 256;
    assert s / 75 / 60 == q && r % 75 == s % 75;
    assert ToChar(q) == q - 256 * k;
    hide ToChar;
    assert s - ToChar(q) * 75 * 60 == r + 75 * (15360 * k);
    DivideBy75(r, 15360 * k);
    CharIsPeriodic(r / 75, 60 * k);
    CharIsPeriodic(r % 75, 4500 * k);
  }

  /** The conversion can be undone exactly below 128 minutes; there the fields are in range. */
  lemma MsfRoundTrip(s: nat)
    ensures Msf2Sec(Sec2Msf(s)) == s <==> s < 128 * 60 * 75
    ensures s < 128 * 60 * 75 ==> var t := Sec2Msf(s); 0 <= t.m && 0 <= t.s < 60 && 0 <= t.f < 75
  {
    hide Sec2Msf;
    Sec2MsfFields(s);
    assert s == 4500 * (s / 4500) + s % 4500 && s % 4500 == 75 * (s % 4500 / 75) + s % 4500 % 75;
    assert s % 4500 % 75 == s % 75;
  }

  // ----- the table -----

  /** One entry of the metadata, parsed; entries that lack the gap fields have them zero. */
  datatype Meta = Meta(track: nat, audio: bool, frames: nat, pregap: nat, pregapStored: bool, postgap: nat)

  /** One row of the table: the stored frames, how many of them are pregap, and the absolute time
      at which the pregap ends. */
  datatype Track = Track(lba: nat, frames: nat, chdFrame: nat, stored: nat, audio: bool, start: Msf) {
    function End(): nat { lba + frames }

    /** The sector of INDEX 01, where the pregap ends, counted from the start of the disc's data. */
    function Index01(): nat { lba + stored }
  }

  /** The table so far, and the next free sector and frame. */
  datatype Table = Table(tracks: seq<Track>, lba: nat, phys: nat)

  function StoredPregap(m: Meta): (s: nat)
    ensures s <= m.frames && s <= m.pregap
  {
    if !m.pregapStored then 0 else if m.pregap > m.frames then m.frames else m.pregap
  }

  /** Rounds up to a multiple of four frames. */
  function Padded(frames: nat): (p: nat)
    ensures p % 4 == 0 && frames <= p < frames + 4
  {
    (frames + 3) / 4 * 4
  }

  /** Whether the loop goes on with entry `i`; anything else ends the list. */
  predicate Accepted(m: Meta, i: nat)
  {
    m.track == i + 1 && m.frames != 0
  }

  function Extend(t: Table, m: Meta): Table
  {
    var lba := t.lba + (m.pregap - StoredPregap(m));
    var start := Sec2Msf(lba + StoredPregap(m) + LEADIN);
    Table(t.tracks + [Track(lba, m.frames, t.phys, StoredPregap(m), m.audio, start)],
      lba + m.frames + m.postgap, t.phys + Padded(m.frames))
  }

  /** The table after `n` accepted entries. */
  function TableOf(metas: seq<Meta>, n: nat): (t: Table)
    requires n <= |metas|
    ensures |t.tracks| == n
  {
    if n == 0 then Table([], 0, 0) else Extend(TableOf(metas, n - 1), metas[n - 1])
  }

  /** How many entries are accepted: the longest good prefix, at most MAXTRACKS - 1. */
  function AcceptedCount(metas: seq<Meta>, i: nat): (n: nat)
    requires i <= |metas| && i <= MAXTRACKS - 1
    ensures i <= n <= |metas| && n <= MAXTRACKS - 1
    ensures forall k :: i <= k < n ==> Accepted(metas[k], k)
    ensures n < |metas| && n < MAXTRACKS - 1 ==> !Accepted(metas[n], n)
    decreases |metas| - i
  {
    if i == |metas| || i == MAXTRACKS - 1 || !Accepted(metas[i], i) then i else AcceptedCount(metas, i + 1)
  }

  /** The loop of handlechd. */
  method BuildTable(metas: seq<Meta>) returns (tracks: seq<Track>)
    ensures tracks == TableOf(metas, AcceptedCount(metas, 0)).tracks
  {
    tracks := [];
    var lba: nat, phys: nat, i: nat := 0, 0, 0;
    while i < MAXTRACKS - 1 && i < |metas|
      invariant i <= |metas| && i <= MAXTRACKS - 1
      invariant Table(tracks, lba, phys) == TableOf(metas, i)
      invariant AcceptedCount(metas, i) == AcceptedCount(metas, 0)
    {
      var m := metas[i];
      if m.track != i + 1 || m.frames == 0 { break; }
      hide AcceptedCount, TableOf, StoredPregap, Padded, Sec2Msf;
      tracks, lba, phys := AddTrack(tracks, lba, phys, m);
      TableGrows(metas, i);
      i := i + 1;
    }
  }

  lemma TableGrows(metas: seq<Meta>, i: nat)
    requires i < |metas| && i < MAXTRACKS - 1 && Accepted(metas[i], i)
    ensures TableOf(metas, i + 1) == Extend(TableOf(metas, i), metas[i])
    ensures AcceptedCount(metas, i) == AcceptedCount(metas, i + 1)
  {
    hide Extend;
  }

  /** The body of the loop (cdriso.c:1124-1150). */
  method AddTrack(before: seq<Track>, lba0: nat, phys0: nat, m: Meta) returns (tracks: seq<Track>, lba: nat, phys: nat)
    ensures Table(tracks, lba, phys) == Extend(Table(before, lba0, phys0), m)
  {
    hide Sec2Msf;
    var stored := if m.pregapStored then m.pregap else 0;
    if stored > m.frames { stored := m.frames; }
    lba := lba0 + m.pregap - stored;
    tracks := before + [Track(lba, m.frames, phys0, stored, m.audio, Sec2Msf(lba + stored + LEADIN))];
    lba := lba + m.frames + m.postgap;
    phys := phys0 + (m.frames + 3) / 4 * 4;
  }

  // ----- the geometry -----

  /** Disjoint, increasing ranges of sectors and of frames; frames start on multiples of four. */
  ghost predicate WellFormed(tracks: seq<Track>)
  {
    (forall i :: 0 <= i < |tracks| ==>
      tracks[i].frames > 0 && tracks[i].chdFrame % 4 == 0 && tracks[i].stored <= tracks[i].frames) &&
    (forall i, j :: 0 <= i < j < |tracks| ==>
      tracks[i].End() <= tracks[j].lba && tracks[i].chdFrame + tracks[i].frames <= tracks[j].chdFrame)
  }

  /** Every track's start is the time of its INDEX 01. */
  ghost predicate StartsAtIndex01(tracks: seq<Track>)
  {
    forall i :: 0 <= i < |tracks| ==> tracks[i].start == Sec2Msf(tracks[i].Index01() + LEADIN)
  }

  /** The table is well formed and ends at the next free sector and frame. */
  ghost predicate GoodTable(t: Table)
  {
    WellFormed(t.tracks) && StartsAtIndex01(t.tracks) && t.phys % 4 == 0 &&
    forall i :: 0 <= i < |t.tracks| ==>
      t.tracks[i].End() <= t.lba && t.tracks[i].chdFrame + t.tracks[i].frames <= t.phys
  }

  lemma ExtendKeepsForm(t: Table, m: Meta)
    requires GoodTable(t) && m.frames != 0
    ensures GoodTable(Extend(t, m))
  {
    hide Padded, StoredPregap, Sec2Msf;
    var e := Extend(t, m);
    forall i | 0 <= i < |e.tracks|
      ensures e.tracks[i].End() <= e.lba && e.tracks[i].chdFrame + e.tracks[i].frames <= e.phys
    {
      assert i < |t.tracks| ==> e.tracks[i] == t.tracks[i];
    }
  }

  lemma {:induction false} TableIsWellFormed(metas: seq<Meta>, n: nat)
    requires n <= |metas| && forall k :: 0 <= k < n ==> Accepted(metas[k], k)
    ensures GoodTable(TableOf(metas, n))
  {
    hide Extend;
    if n > 0 {
      TableIsWellFormed(metas, n - 1);
      ExtendKeepsForm(TableOf(metas, n - 1), metas[n - 1]);
    }
  }

  /** Track `k` of the table against its metadata and the track before it: INDEX 01 comes a pregap after the
      end of the track and postgap before, whether the pregap is stored or not; a stored pregap counts to the
      track, as far as it has frames; and its frames begin at the next multiple of four. */
  predicate FollowsOn(tracks: seq<Track>, metas: seq<Meta>, k: nat)
    requires k < |tracks| && k < |metas|
  {
    var t, m := tracks[k], metas[k];
    t.frames == m.frames && t.audio == m.audio &&
    (!m.pregapStored ==> t.stored == 0) && (m.pregapStored && m.pregap <= m.frames ==> t.stored == m.pregap) &&
    (m.pregapStored && m.pregap > m.frames ==> t.stored == m.frames) &&
    t.lba + t.stored ==
      m.pregap + (if k == 0 then 0 else tracks[k - 1].lba + tracks[k - 1].frames + metas[k - 1].postgap) &&
    if k == 0 then t.chdFrame == 0
    else
      t.chdFrame % 4 == 0 &&
      0 <= t.chdFrame - (tracks[k - 1].chdFrame + tracks[k - 1].frames) < 4
  }

  /** Where the next track would begin. */
  predicate EndsAt(t: Table, metas: seq<Meta>, n: nat)
    requires n == |t.tracks| <= |metas|
  {
    if n == 0 then t.lba == t.phys == 0
    else
      var last := t.tracks[n - 1];
      t.lba == last.lba + last.frames + metas[n - 1].postgap && t.phys % 4 == 0 &&
      0 <= t.phys - (last.chdFrame + last.frames) < 4
  }

  lemma {:induction false} TracksFollowOn(metas: seq<Meta>, n: nat)
    requires n <= |metas| && forall k :: 0 <= k < n ==> Accepted(metas[k], k)
    ensures EndsAt(TableOf(metas, n), metas, n)
    ensures forall k :: 0 <= k < n ==> FollowsOn(TableOf(metas, n).tracks, metas, k)
  {
    hide FollowsOn, EndsAt, Extend, Accepted;
    if n == 0 {
      NothingEnds(metas);
    } else {
      TracksFollowOn(metas, n - 1);
      var t := TableOf(metas, n - 1);
      var e := Extend(t, metas[n - 1]);
      ExtendAdds(t, metas[n - 1]);
      PaddedMeets(t, metas, n - 1);
      LastFollowsOn(t, metas, n - 1);
      forall k | 0 <= k < n
        ensures FollowsOn(e.tracks, metas, k)
      {
        if k < n - 1 { FollowsOnKept(t.tracks, e.tracks, metas, k); }
      }
    }
  }

  lemma NothingEnds(metas: seq<Meta>)
    ensures EndsAt(TableOf(metas, 0), metas, 0)
  {
  }

  lemma ExtendAdds(t: Table, m: Meta)
    ensures |Extend(t, m).tracks| == |t.tracks| + 1 && Extend(t, m).tracks[..|t.tracks|] == t.tracks
  {
  }

  lemma FollowsOnKept(a: seq<Track>, b: seq<Track>, metas: seq<Meta>, k: nat)
    requires k < |a| <= |b| && k < |metas| && b[..|a|] == a && FollowsOn(a, metas, k)
    ensures FollowsOn(b, metas, k)
  {
    assert a[k] == b[k] && (k > 0 ==> a[k - 1] == b[k - 1]);
  }

  lemma PaddedMeets(t: Table, metas: seq<Meta>, n: nat)
    requires n == |t.tracks| < |metas| && EndsAt(t, metas, n)
    ensures EndsAt(Extend(t, metas[n]), metas, n + 1)
  {
    hide Sec2Msf, StoredPregap;
  }

  lemma LastFollowsOn(t: Table, metas: seq<Meta>, n: nat)
    requires n == |t.tracks| < |metas| && EndsAt(t, metas, n)
    ensures FollowsOn(Extend(t, metas[n]).tracks, metas, n)
  {
    hide Sec2Msf, Padded;
  }

  // ----- from sectors to frames -----

  /** What a sector of the disc is: a frame of the image, silence in a gap, or nothing. */
  datatype Place = Frame(n: nat) | Silence | Nowhere

  function Contains(t: Track, sector: int): bool { t.lba <= sector < t.End() }

  /** The search of cdread_chd, from track `i` on. */
  function Locate(tracks: seq<Track>, i: nat, sector: nat): Place
    requires i <= |tracks|
    decreases |tracks| - i
  {
    if i == |tracks| then Nowhere
    else if sector < tracks[i].lba then Silence
    else if sector < tracks[i].End() then Frame(tracks[i].chdFrame + (sector - tracks[i].lba))
    else Locate(tracks, i + 1, sector)
  }

  /** The map in full: a sector inside a track is its frame, one in a gap before a later track is
      silent, one past the last track is nowhere. */
  lemma {:induction false} LocateIsTheMap(tracks: seq<Track>, i: nat, sector: nat)
    requires WellFormed(tracks) && i <= |tracks|
    requires forall j :: 0 <= j < i ==> tracks[j].End() <= sector
    ensures forall j :: 0 <= j < |tracks| && Contains(tracks[j], sector) ==>
      Locate(tracks, i, sector) == Frame(tracks[j].chdFrame + (sector - tracks[j].lba))
    ensures (forall j :: 0 <= j < |tracks| ==> !Contains(tracks[j], sector)) ==>
      Locate(tracks, i, sector) == if exists j :: 0 <= j < |tracks| && sector < tracks[j].lba then Silence else Nowhere
    decreases |tracks| - i
  {
    if i < |tracks| && sector >= tracks[i].End() {
      LocateIsTheMap(tracks, i + 1, sector);
    }
  }

  /** A frame is stored when it lies in the range of some track. */
  ghost predicate StoredFrame(tracks: seq<Track>, f: nat)
  {
    exists j :: 0 <= j < |tracks| && tracks[j].chdFrame <= f < tracks[j].chdFrame + tracks[j].frames
  }

  /** A located frame belongs to the track that contains the sector. */
  lemma FrameHasTrack(tracks: seq<Track>, sector: nat) returns (j: nat)
    requires WellFormed(tracks) && Locate(tracks, 0, sector).Frame?
    ensures j < |tracks| && Contains(tracks[j], sector)
    ensures Locate(tracks, 0, sector).n == tracks[j].chdFrame + (sector - tracks[j].lba)
  {
    LocateIsTheMap(tracks, 0, sector);
    j :| 0 <= j < |tracks| && Contains(tracks[j], sector);
  }

  /** The map is strictly increasing, hence one-to-one. */
  lemma MapIsIncreasing(tracks: seq<Track>, s: nat, t: nat)
    requires WellFormed(tracks) && s < t
    requires Locate(tracks, 0, s).Frame? && Locate(tracks, 0, t).Frame?
    ensures Locate(tracks, 0, s).n < Locate(tracks, 0, t).n
  {
    var i := FrameHasTrack(tracks, s);
    var j := FrameHasTrack(tracks, t);
    assert i <= j;
  }

  /** The map reaches exactly the stored frames. */
  lemma MapIsOntoStoredFrames(tracks: seq<Track>, f: nat)
    requires WellFormed(tracks)
    ensures StoredFrame(tracks, f) <==> exists s: nat :: Locate(tracks, 0, s) == Frame(f)
  {
    if StoredFrame(tracks, f) {
      var j :| 0 <= j < |tracks| && tracks[j].chdFrame <= f < tracks[j].chdFrame + tracks[j].frames;
      var s := tracks[j].lba + (f - tracks[j].chdFrame);
      LocateIsTheMap(tracks, 0, s);
      assert Contains(tracks[j], s) && Locate(tracks, 0, s) == Frame(f);
    }
    if s: nat :| Locate(tracks, 0, s) == Frame(f) {
      var j := FrameHasTrack(tracks, s);
    }
  }
}
