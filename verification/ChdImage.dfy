/** Reading a CHD image (libpcsxcore/cdriso.c:1337-1379, 1671-1688, 1775-1821): the one-hunk cache in
    front of the image, and the data and audio paths through it.
  */
module ChdImage {
  import opened ChdTable
  import opened Common

  const FRAMESIZE := 2352          // a raw sector
  const UNITBYTES := 2448          // with its subcode

  /** The image: the bytes of each hunk, which holds a whole number of units. */
  datatype Image = Image(hunks: nat -> seq<Byte>, perHunk: nat, totalHunks: nat) {
    ghost predicate Valid()
    {
      perHunk > 0 && forall h :: 0 <= h < totalHunks ==> |hunks(h)| == perHunk * UNITBYTES
    }

    /** Frame `f` of the image; the image must have its hunk. */
    ghost function FrameAt(f: nat): (b: seq<Byte>)
      requires Valid() && f / perHunk < totalHunks
      ensures |b| == FRAMESIZE
    {
      UnitFits(f % perHunk, perHunk);
      hunks(f / perHunk)[f % perHunk * UNITBYTES..f % perHunk * UNITBYTES + FRAMESIZE]
    }
  }

  lemma UnitFits(k: nat, perHunk: nat)
    requires k < perHunk
    ensures k * UNITBYTES + UNITBYTES <= perHunk * UNITBYTES
  {
    assert perHunk * UNITBYTES - k * UNITBYTES == (perHunk - k) * UNITBYTES;
  }

  datatype Outcome = Failed | Bytes(b: seq<Byte>)

  /** What sector `sector` of the disc holds, whatever has been read before. */
  ghost function Content(img: Image, tracks: seq<Track>, sector: int): Outcome
    requires img.Valid()
  {
    if sector < 0 then Failed
    else
      match Locate(tracks, 0, sector)
      case Nowhere => Failed
      case Silence => Bytes(seq(FRAMESIZE, _ => 0))
      case Frame(f) => if f / img.perHunk < img.totalHunks then Bytes(img.FrameAt(f)) else Failed
  }

  /** Byte `j` of the image, hunk after hunk. */
  ghost function ByteAt(img: Image, j: nat): Byte
    requires img.Valid() && j / (img.perHunk * UNITBYTES) < img.totalHunks
  {
    img.hunks(j / (img.perHunk * UNITBYTES))[j % (img.perHunk * UNITBYTES)]
  }

  /** Frames are every 2448 bytes of the image, and are the first 2352 of those. */
  lemma FrameIsInTheImage(img: Image, f: nat, k: nat)
    requires img.Valid() && f / img.perHunk < img.totalHunks && k < FRAMESIZE
    ensures (f * UNITBYTES + k) / (img.perHunk * UNITBYTES) < img.totalHunks
    ensures img.FrameAt(f)[k] == ByteAt(img, f * UNITBYTES + k)
  {
    var h, u := f / img.perHunk, f % img.perHunk;
    UnitFits(u, img.perHunk);
    assert f * UNITBYTES + k == img.perHunk * UNITBYTES * h + (u * UNITBYTES + k) by {
      assert f == img.perHunk * h + u;
      assert (img.perHunk * h + u) * UNITBYTES == img.perHunk * h * UNITBYTES + u * UNITBYTES;
      assert img.perHunk * h * UNITBYTES == img.perHunk * UNITBYTES * h;
    }
    Quotient(f * UNITBYTES + k, img.perHunk * UNITBYTES, h, u * UNITBYTES + k);
  }

  /** Sector `offset` of track `t` holds frame `offset` of those stored for the track, byte by byte. */
  lemma TrackHoldsItsFrames(img: Image, tracks: seq<Track>, t: nat, offset: nat, k: nat)
    requires img.Valid() && WellFormed(tracks) && t < |tracks| && offset < tracks[t].frames && k < FRAMESIZE
    requires (tracks[t].chdFrame + offset) / img.perHunk < img.totalHunks
    ensures var j, what := (tracks[t].chdFrame + offset) * UNITBYTES + k, Content(img, tracks, tracks[t].lba + offset);
      j / (img.perHunk * UNITBYTES) < img.totalHunks && what.Bytes? && |what.b| == FRAMESIZE &&
      what.b[k] == ByteAt(img, j)
  {
    LocateIsTheMap(tracks, 0, tracks[t].lba + offset);
    assert Contains(tracks[t], tracks[t].lba + offset);
    FrameIsInTheImage(img, tracks[t].chdFrame + offset, k);
    hide Locate, WellFormed, ByteAt, Image.FrameAt;
  }

  /** A sector between two tracks is silent, one behind the last and one before the disc cannot be read. */
  lemma GapsAreSilent(img: Image, tracks: seq<Track>, sector: int)
    requires img.Valid() && WellFormed(tracks)
    requires forall t :: 0 <= t < |tracks| ==> !(tracks[t].lba <= sector < tracks[t].End())
    ensures Content(img, tracks, sector) ==
      if 0 <= sector && exists t :: 0 <= t < |tracks| && sector < tracks[t].lba then Bytes(seq(FRAMESIZE, _ => 0))
      else Failed
  {
    if sector >= 0 {
      LocateIsTheMap(tracks, 0, sector);
      hide Locate;
    }
  }

  /** The exchange takes the two bytes of every sample for each other. */
  lemma SamplesAreExchanged(b: seq<Byte>, i: nat)
    requires |b| % 2 == 0 && 2 * i < |b|
    ensures Swapped(b)[2 * i] == b[2 * i + 1] && Swapped(b)[2 * i + 1] == b[2 * i]
  {
  }

  /** The bytes of each 16-bit sample exchanged. */
  function Swapped(b: seq<Byte>): (w: seq<Byte>)
    requires |b| % 2 == 0
    ensures |w| == |b|
  {
    seq(|b|, i requires 0 <= i < |b| => if i % 2 == 0 then b[i + 1] else b[i - 1])
  }

  // ----- addressing -----

  /** ti[].start: the absolute time of INDEX 01 (two seconds of lead-in before the data). */
  function StartOf(t: Track): int { Msf2Sec(t.start) }

  /** ti[].start_offset in sectors. */
  function OffsetOf(t: Track): nat { t.Index01() }

  /** The track ISOreadCDDA takes for an absolute position: the last that starts at or before it, or the first. */
  function SelectTrack(tracks: seq<Track>, pos: int, i: nat): (t: nat)
    requires i < |tracks|
    ensures t <= i && (t == 0 || StartOf(tracks[t]) <= pos)
    ensures forall k :: t < k <= i ==> StartOf(tracks[k]) > pos
  {
    if i == 0 || StartOf(tracks[i]) <= pos then i else SelectTrack(tracks, pos, i - 1)
  }

  /** MSF2SECT: the sector of an absolute time. */
  function Msf2Sect(m: int, s: int, f: int): int { (m * 60 + s - 2) * 75 + f }

  /** A position of a disc under 100 minutes. */
  predicate Position(m: int, s: int, f: int) { 0 <= m < 100 && 0 <= s < 60 && 0 <= f < 75 }

  /** Every track of the disc starts before minute 100. */
  predicate ShortDisc(tracks: seq<Track>)
  {
    forall i :: 0 <= i < |tracks| ==> tracks[i].Index01() + LEADIN < 100 * 60 * 75
  }

  /** The sector of an absolute time, counted from the start of the disc's data. */
  function SectorOf(m: int, s: int, f: int): int { Msf2Sec(Msf(m, s, f)) - LEADIN }

  /** The sector ISOreadTrack asks for, given the same time in BCD. */
  function BcdSector(m: int, s: int, f: int): int
    requires Position(m, s, f)
  {
    Msf2Sect(Btoi(Itob(m)), Btoi(Itob(s)), Btoi(Itob(f)))
  }

  /** It is the same sector. */
  lemma DataPathAddressesTheSector(m: int, s: int, f: int)
    requires Position(m, s, f)
    ensures BcdSector(m, s, f) == SectorOf(m, s, f)
  {
    hide Btoi, Itob;
    BcdRoundTrip(m);
    BcdRoundTrip(s);
    BcdRoundTrip(f);
  }

  /** ISOreadCDDA asks for the same one, whichever track it selects and wherever its pregap is. */
  lemma AudioPathAddressesTheSector(tracks: seq<Track>, t: nat, m: int, s: int, f: int)
    requires t < |tracks| && StartsAtIndex01(tracks) && ShortDisc(tracks) && Position(m, s, f)
    ensures Msf2Sec(Msf(m, s, f)) - StartOf(tracks[t]) + OffsetOf(tracks[t]) == SectorOf(m, s, f)
  {
    hide Sec2Msf;
    MsfRoundTrip(tracks[t].Index01() + LEADIN);
  }

  /** What an audio read at an absolute position comes to, with `b` in the buffer. */
  ghost predicate Plays(img: Image, tracks: seq<Track>, pos: int, ok: bool, b: seq<Byte>, works: bool)
    requires img.Valid() && |tracks| > 0
  {
    var what := Content(img, tracks, pos - LEADIN);
    if !tracks[SelectTrack(tracks, pos, |tracks| - 1)].audio then ok && b == seq(FRAMESIZE, _ => 0)
    else
      (ok ==> what.Bytes? && |what.b| == FRAMESIZE && b == Swapped(what.b)) &&
      (!ok ==> b == seq(FRAMESIZE, _ => 0)) && (what.Failed? ==> !ok) && (works ==> (ok <==> what.Bytes?))
  }

  // ----- the reader -----

  class Reader {
    const img: Image
    const tracks: seq<Track>
    var hunk: array<Byte>
    var currentHunk: int            // -1 when the buffer holds nothing of use

    /** The buffer holds the hunk it is said to hold. */
    ghost predicate Valid()
      reads this, hunk
    {
      img.Valid() && StartsAtIndex01(tracks) && hunk.Length == img.perHunk * UNITBYTES &&
      -1 <= currentHunk < img.totalHunks &&
      (currentHunk >= 0 ==> hunk[..] == img.hunks(currentHunk))
    }

    /** handlechd, once the header and the metadata are read. */
    constructor (img: Image, metas: seq<Meta>)
      requires img.Valid()
      ensures Valid() && fresh(hunk) && this.img == img
      ensures tracks == TableOf(metas, AcceptedCount(metas, 0)).tracks && WellFormed(tracks)
    {
      this.img := img;
      hunk := new Byte[img.perHunk * UNITBYTES];
      currentHunk := -1;
      var table := BuildTable(metas);
      tracks := table;
      TableIsWellFormed(metas, AcceptedCount(metas, 0));
    }

    /** chd_read into the buffer.  It may fail, and then leaves anything there (`junk`). */
    method ChdRead(h: nat, works: bool, junk: seq<Byte>) returns (ok: bool)
      requires img.Valid() && hunk.Length == img.perHunk * UNITBYTES && h < img.totalHunks
      modifies hunk
      ensures ok == works && (ok ==> hunk[..] == img.hunks(h))
    {
      ok := works;
      if works {
        var from := img.hunks(h);
        forall i | 0 <= i < hunk.Length { hunk[i] := from[i]; }
      } else {
        forall i | 0 <= i < hunk.Length && i < |junk| { hunk[i] := junk[i]; }
      }
    }

    /** The hunk of `frame` brought into the buffer, unless it is there (cdriso.c:1367-1373). */
    method Fetch(h: nat, works: bool, junk: seq<Byte>) returns (ok: bool)
      requires Valid() && h < img.totalHunks
      modifies `currentHunk, hunk
      ensures Valid() && ok == (works || h == old(currentHunk)) && (ok ==> currentHunk == h)
    {
      ok := true;
      if h != currentHunk {
        ok := ChdRead(h, works, junk);
        currentHunk := if ok then h else -1;
      }
    }

    /** cdread_chd: `base` is a byte offset.  If it succeeds it has read what the disc holds there;
        it can fail where the disc holds something only when the hunk had to be loaded and was not. */
    method CdreadChd(base: nat, dest: array<Byte>, sector0: int, works: bool, junk: seq<Byte>) returns (ok: bool)
      requires Valid() && dest.Length == FRAMESIZE && dest != hunk
      modifies `currentHunk, hunk, dest
      ensures Valid() && hunk == old(hunk)
      ensures var what := Content(img, tracks, sector0 + base / FRAMESIZE);
        (ok ==> what == Bytes(dest[..])) && (!ok ==> dest[..] == old(dest[..])) &&
        (what.Failed? ==> !ok) && (works ==> (ok <==> what.Bytes?))
    {
      hide Locate, Image.FrameAt;
      var sector := sector0;
      if base != 0 { sector := sector + base / FRAMESIZE; }
      if sector < 0 { return false; }
      var place := FindPlace(sector);
      match place
      case Nowhere => return false;
      case Silence =>
        Zero(dest);
        return true;
      case Frame(frame) =>
        var h := frame / img.perHunk;
        if h >= img.totalHunks { return false; }
        ok := Fetch(h, works, junk);
        if ok {
          CopyFrame(dest, frame);
        }
    }

    /** The search through the table (cdriso.c:1347-1361). */
    method FindPlace(sector: nat) returns (p: Place)
      ensures p == Locate(tracks, 0, sector)
    {
      var i := 0;
      while i < |tracks|
        invariant i <= |tracks| && Locate(tracks, i, sector) == Locate(tracks, 0, sector)
      {
        if sector < tracks[i].lba { return Place.Silence; }
        if sector < tracks[i].lba + tracks[i].frames {
          return Frame(tracks[i].chdFrame + (sector - tracks[i].lba));
        }
        i := i + 1;
      }
      return Nowhere;
    }

    /** The copy out of the buffer (cdriso.c:1374-1375). */
    method CopyFrame(dest: array<Byte>, frame: nat)
      requires Valid() && dest.Length == FRAMESIZE && dest != hunk
      requires currentHunk == frame / img.perHunk
      modifies dest
      ensures Valid() && dest[..] == img.FrameAt(frame)
    {
      UnitFits(frame % img.perHunk, img.perHunk);
      var unit := frame % img.perHunk * UNITBYTES;
      forall k | 0 <= k < FRAMESIZE { dest[k] := hunk[unit + k]; }
      assert dest[..] == hunk[..][unit..unit + FRAMESIZE];
    }

    /** ISOreadTrack, for a disc without an external pregap offset; the time is BCD. */
    method IsoReadTrack(m: Byte, s: Byte, f: Byte, cdbuffer: array<Byte>, works: bool, junk: seq<Byte>)
        returns (ok: bool)
      requires Valid() && cdbuffer.Length == FRAMESIZE && cdbuffer != hunk
      modifies `currentHunk, hunk, cdbuffer
      ensures Valid() && hunk == old(hunk)
      ensures var what := Content(img, tracks, Msf2Sect(Btoi(m), Btoi(s), Btoi(f)));
        (ok ==> what == Bytes(cdbuffer[..])) && (what.Failed? ==> !ok) && (works ==> (ok <==> what.Bytes?))
    {
      ok := CdreadChd(0, cdbuffer, Msf2Sect(Btoi(m), Btoi(s), Btoi(f)), works, junk);
    }

    /** The byte exchange in place (cdriso.c:1810-1818). */
    method SwapBytes(buffer: array<Byte>)
      requires buffer.Length == FRAMESIZE
      modifies buffer
      ensures buffer[..] == Swapped(old(buffer[..]))
    {
      for i := 0 to FRAMESIZE / 2
        invariant forall k :: 0 <= k < FRAMESIZE ==>
          buffer[k] == if k < 2 * i then Swapped(old(buffer[..]))[k] else old(buffer[k])
      {
        var tmp := buffer[i * 2];
        buffer[i * 2] := buffer[i * 2 + 1];
        buffer[i * 2 + 1] := tmp;
      }
    }

    /** The search of ISOreadCDDA for the track (cdriso.c:1782-1789). */
    method FindTrack(pos: int) returns (t: nat)
      requires |tracks| > 0
      ensures t < |tracks| && t == SelectTrack(tracks, pos, |tracks| - 1)
    {
      hide Sec2Msf;
      t := |tracks| - 1;
      while t > 0 && StartOf(tracks[t]) > pos
        invariant t < |tracks|
        invariant SelectTrack(tracks, pos, t) == SelectTrack(tracks, pos, |tracks| - 1)
      {
        t := t - 1;
      }
    }

    /** ISOreadCDDA on a CHD image; the time is binary.  Data tracks play silent; in an audio track
        the result is the byte-exchanged content of the very sector that ISOreadTrack reads at the
        same time, given in BCD. */
    method IsoReadCdda(m: int, s: int, f: int, buffer: array<Byte>, works: bool, junk: seq<Byte>) returns (ok: bool)
      requires Valid() && buffer.Length == FRAMESIZE && buffer != hunk
      requires |tracks| > 0 && ShortDisc(tracks) && Position(m, s, f)
      modifies `currentHunk, hunk, buffer
      ensures Valid() && hunk == old(hunk)
      ensures Plays(img, tracks, Msf2Sec(Msf(m, s, f)), ok, buffer[..], works)
      ensures SectorOf(m, s, f) == BcdSector(m, s, f)
    {
      hide Content, Locate, Swapped, Sec2Msf, BcdSector;
      DataPathAddressesTheSector(m, s, f);
      var pos := Msf2Sec(Msf(m, s, f));
      var t := FindTrack(pos);
      if !tracks[t].audio {
        Zero(buffer);
        return true;
      }
      AudioPathAddressesTheSector(tracks, t, m, s, f);
      ok := CdreadChd(OffsetOf(tracks[t]) * FRAMESIZE, buffer, pos - StartOf(tracks[t]), works, junk);
      if ok {
        SwapBytes(buffer);
      } else {
        Zero(buffer);
      }
    }

    method Zero(buffer: array<Byte>)
      requires buffer.Length == FRAMESIZE
      modifies buffer
      ensures buffer[..] == seq(FRAMESIZE, _ => 0)
    {
      forall k | 0 <= k < FRAMESIZE { buffer[k] := 0; }
      assert buffer[..] == seq(FRAMESIZE, _ => 0);
    }
  }
}
