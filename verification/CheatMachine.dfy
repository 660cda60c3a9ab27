/** The cheats as the source keeps and runs them: buffers, the growing tables and RAM changed in place
    (libpcsxcore/cheat.c, libpcsxcore/misc.c:1694-1713).
  */
module CheatMachine {
  import opened Common
  import opened CheatText
  import opened CheatStore
  import opened CheatEngine

  // ----- buffers -----

  lemma NulEnds(s: string, k: nat)
    requires k < |s| && '\0' !in s[..k] && s[k] == '\0'
    ensures UpToNul(s) == s[..k]
  {
  }

  /** fgets: the next chunk of the file, and a terminator. */
  method Fgets(text: string, pos: nat, buf: array<char>) returns (next: nat)
    requires pos < |text| && buf.Length == 256
    modifies buf
    ensures pos < next <= |text| && next == pos + ChunkLength(text[pos..], CHUNK)
    ensures UpToNul(buf[..]) == UpToNul(text[pos..next])
    ensures '\0' in buf[..]
  {
    next := pos;
    var k := 0;
    var done := false;
    while !done && k < CHUNK && next < |text|
      invariant k <= CHUNK && pos <= next == pos + k <= |text|
      invariant buf[..k] == text[pos..next]
      invariant ChunkLength(text[pos..], CHUNK) == k + if done then 0 else ChunkLength(text[next..], CHUNK - k)
      decreases !done, CHUNK - k
    {
      assert text[next..][0] == text[next] && text[next..][1..] == text[next + 1..];
      buf[k] := text[next];
      done := text[next] == '\n';
      k, next := k + 1, next + 1;
    }
    buf[k] := '\0';
    assert buf[..][k] == '\0' && buf[..][..k] == text[pos..next];
    SameUpToNul(buf[..], text[pos..next]);
  }

  /** A string in a larger buffer, followed by a terminator. */
  lemma SameUpToNul(s: string, t: string)
    requires |t| < |s| && s[..|t|] == t && s[|t|] == '\0'
    ensures UpToNul(s) == UpToNul(t)
  {
    var r := UpToNul(t);
    if |r| == |t| {
      NulEnds(s, |t|);
    } else {
      assert s[..|r|] == r && s[|r|] == t[|r|];
      NulEnds(s, |r|);
    }
  }

  /** trim: the blanks at both ends of a C string are removed, within its buffer. */
  method TrimInPlace(str: array<char>)
    requires '\0' in str[..]
    modifies str
    ensures UpToNul(str[..]) == Trim(old(UpToNul(str[..])))
    ensures '\0' in str[..]
  {
    hide TrimLeft, TrimRight, UpToNul;
    ghost var s := UpToNul(str[..]);
    NulComesLast(str[..]);
    var pos := SkipBlanks(str, s);
    var length := ShiftDown(str, pos, s);
    TrimTail(str, length, s[pos..]);
  }

  /** The loop over the leading blanks. */
  method SkipBlanks(str: array<char>, ghost s: string) returns (pos: nat)
    requires |s| < str.Length && str[..|s|] == s && str[|s|] == '\0' && '\0' !in s
    ensures pos <= |s| && s[pos..] == TrimLeft(s)
  {
    pos := 0;
    while Blank(str[pos])
      invariant pos <= |s| && TrimLeft(s[pos..]) == TrimLeft(s)
      decreases |s| - pos
    {
      assert str[..|s|][pos] == s[pos] && s[pos..][1..] == s[pos + 1..];
      pos := pos + 1;
    }
    assert pos < |s| ==> str[..|s|][pos] == s[pos];
  }

  /** The loop that moves the rest to the front, and the terminator after it. */
  method ShiftDown(str: array<char>, from: nat, ghost s: string) returns (dest: nat)
    requires from <= |s| < str.Length && str[..|s|] == s && str[|s|] == '\0' && '\0' !in s
    modifies str
    ensures dest == |s| - from && str[..dest] == s[from..] && str[dest] == '\0'
  {
    var pos := from;
    dest := 0;
    assert forall k :: 0 <= k < |s| ==> str[..|s|][k] == str[k];
    while str[pos] != '\0'
      invariant dest <= pos <= |s| && pos == from + dest
      invariant forall k :: 0 <= k < dest ==> str[k] == s[from + k]
      invariant forall k :: pos <= k < |s| ==> str[k] == s[k]
      invariant str[|s|] == '\0'
      decreases |s| - pos
    {
      str[dest] := str[pos];
      dest, pos := dest + 1, pos + 1;
    }
    str[dest] := '\0';
  }

  lemma NulComesLast(s: string)
    requires '\0' in s
    ensures |UpToNul(s)| < |s| && s[..|UpToNul(s)|] == UpToNul(s) && s[|UpToNul(s)|] == '\0'
  {
  }

  /** The second half of trim: from the end back, blanks become terminators. */
  method TrimTail(str: array<char>, length: nat, ghost l: string)
    requires length == |l| < str.Length && str[..|l|] == l && str[|l|] == '\0' && '\0' !in l
    modifies str
    ensures UpToNul(str[..]) == TrimRight(l) && '\0' in str[..]
  {
    hide UpToNul;
    var dest: int := length - 1;
    while dest >= 0 && Blank(str[dest])
      invariant -1 <= dest < length
      invariant str[..dest + 1] == l[..dest + 1] && str[dest + 1] == '\0'
      invariant TrimRight(l[..dest + 1]) == TrimRight(l)
    {
      assert l[..dest + 1][..dest] == l[..dest] && str[dest] == l[dest];
      str[dest] := '\0';
      dest := dest - 1;
    }
    assert str[..][..dest + 1] == l[..dest + 1] && str[..][dest + 1] == '\0';
    NulEnds(str[..], dest + 1);
  }

  // ----- the tables -----

  /** The store while a file is read: the last cheat gets its length only when the next one starts. */
  function Closed(cheats: seq<Cheat>, codes: seq<Code>, count: nat): Store
  {
    if cheats == [] then Store(cheats, codes)
    else Store(cheats[..|cheats| - 1] + [cheats[|cheats| - 1].(n := count)], codes)
  }

  /** One more cheat, without codes as yet. */
  lemma {:induction false} HeadIsLaid(cheats: seq<Cheat>, codes: seq<Code>, count: nat, items: seq<Item>,
      buf: string, junk: nat -> U16)
    requires IsHead(buf) && Closed(cheats, codes, count) == Laid(items, junk)
    ensures
      var it := Headed(buf);
      var closed := Closed(cheats, codes, count).cheats + [Cheat(it.descr, |codes|, 0, it.enabled, false)];
      Closed(closed, codes, 0) == Laid(items + [it], junk)
  {
    hide Appended;
    var longer := items + [Headed(buf)];
    assert longer[..|longer| - 1] == items;
    NothingAppended(codes, junk);
    var closed := Closed(cheats, codes, count).cheats +
      [Cheat(Headed(buf).descr, |codes|, 0, Headed(buf).enabled, false)];
    assert closed[..|closed| - 1] == Closed(cheats, codes, count).cheats;
  }

  /** One more code for the last cheat. */
  lemma {:induction false} CodeIsLaid(cheats: seq<Cheat>, codes: seq<Code>, count: nat, items: seq<Item>, p: Pair,
      junk: nat -> U16)
    requires items != [] && Closed(cheats, codes, count) == Laid(items, junk)
    ensures
      var last := items[|items| - 1];
      Closed(cheats, Appended(codes, [p], junk), count + 1) ==
        Laid(items[..|items| - 1] + [last.(codes := last.codes + [p])], junk)
  {
    hide Appended;
    var front, last, k := items[..|items| - 1], items[|items| - 1], |cheats| - 1;
    var longer := front + [last.(codes := last.codes + [p])];
    var s := Laid(front, junk);
    assert longer[..|longer| - 1] == front;
    AppendsJoin(s.codes, last.codes, [p], junk);
    var closed := Closed(cheats, codes, count).cheats;
    assert closed[..k] == cheats[..k] && closed[..k] == s.cheats && closed[k] == cheats[k].(n := count);
    assert closed[k] == Cheat(last.descr, |s.codes|, |last.codes|, last.enabled, false);
  }

  class CheatTable {
    var cheats: seq<Cheat>
    var codes: seq<Code>
    const ram: array<Byte>

    ghost function Stored(): Store
      reads this
    {
      Store(cheats, codes)
    }

    ghost predicate Valid()
      reads this
    {
      ram.Length == RAM + 1 && WellFormed(Stored())
    }

    constructor (ram: array<Byte>)
      requires ram.Length == RAM + 1
      ensures Valid() && this.ram == ram && Stored() == Store([], [])
    {
      cheats, codes, this.ram := [], [], ram;
    }

    method ClearAllCheats()
      modifies `cheats, `codes
      ensures Stored() == Store([], [])
    {
      cheats := [];
      codes := [];
    }

    /** The store at the end of the arena; `junk` is what the fresh memory holds. */
    method AppendCode(t1: U32, t2: U32, junk: nat -> U16)
      modifies `codes
      ensures codes == Appended(old(codes), [Pair(t1, t2 % 0x1_0000)], junk)
    {
      codes := codes + [Code(t1, t2 % 0x1_0000, junk(|codes|))];
      assert [Pair(t1, t2 % 0x1_0000)][..0] == [];
    }

    /** One line of the text: a code if its first number is large enough. */
    method AppendLine(line: string, junk: nat -> U16) returns (count: nat)
      modifies `codes
      ensures count == |CodeIn(line)| && codes == Appended(old(codes), CodeIn(line), junk)
    {
      hide ScanPair;
      var (t1, t2) := ScanPair(line, 0, 0);
      count := 0;
      if t1 > 0x1000_0000 {
        AppendCode(t1, t2, junk);
        count := 1;
      }
    }

    /** The loop of AddCheat and EditCheat over the lines of a text. */
    method AppendCodes(text: string, junk: nat -> U16) returns (count: nat)
      modifies `codes
      ensures count == |CodesIn(text)| && codes == Appended(old(codes), CodesIn(text), junk)
    {
      hide Appended, CodesIn, CodeIn, LineEnd;
      var rest, c := text, true;
      count := 0;
      while c
        invariant Appended(old(codes), CodesIn(text), junk) == if c then Appended(codes, CodesIn(rest), junk) else codes
        invariant |CodesIn(text)| == count + if c then |CodesIn(rest)| else 0
        decreases c, |rest|
      {
        var k := LineEnd(rest);
        FirstLine(rest);
        if k < |rest| { AppendsJoin(codes, CodeIn(rest[..k]), CodesIn(rest[k + 1..]), junk); }
        var n := AppendLine(rest[..k], junk);
        count := count + n;
        if k == |rest| {
          c := false;
        } else {
          rest := rest[k + 1..];
        }
      }
    }

    /** AddCheat. */
    method AddCheat(descr: string, text: string, junk: nat -> U16) returns (r: int)
      requires Valid()
      modifies `cheats, `codes
      ensures Valid() && Stored() == Added(old(Stored()), descr, text, junk)
      ensures r == if CodesIn(text) == [] then -1 else 0
    {
      hide CodesIn, Appended, WellFormed;
      AddIsSeen(Stored(), descr, text, junk);
      var first := |codes|;
      var n := AppendCodes(text, junk);
      if n == 0 {
        NothingAppended(old(codes), junk);
        return -1;
      }
      cheats := cheats + [Cheat(if descr != "" then descr else "(Untitled)", first, n, false, false)];
      r := 0;
    }

    /** EditCheat. */
    method EditCheat(index: nat, descr: string, text: string, junk: nat -> U16) returns (r: int)
      requires Valid() && index < |cheats|
      modifies `cheats, `codes
      ensures Valid() && Stored() == Edited(old(Stored()), index, descr, text, junk)
      ensures r == if CodesIn(text) == [] then -1 else 0
    {
      hide CodesIn, Appended, WellFormed;
      EditIsSeen(Stored(), index, descr, text, junk);
      var prev := |codes|;
      var n := AppendCodes(text, junk);
      if n == 0 {
        NothingAppended(old(codes), junk);
        return -1;
      }
      var name := if descr != "" then descr else "(Untitled)";
      cheats := cheats[index := cheats[index].(descr := name, first := prev, n := |codes| - prev)];
      r := 0;
    }

    /** RemoveCheat. */
    method RemoveCheat(index: nat)
      requires Valid() && index < |cheats|
      modifies `cheats
      ensures Valid() && Stored() == Removed(old(Stored()), index)
    {
      hide WellFormed;
      RemoveIsSeen(Stored(), index);
      MoveDown(index);
      cheats := cheats[..|cheats| - 1];
    }

    /** The loop of RemoveCheat: the later cheats move down by one. */
    method MoveDown(index: nat)
      requires index < |cheats|
      modifies `cheats
      ensures |cheats| == |old(cheats)| && cheats[..|cheats| - 1] == old(cheats)[..index] + old(cheats)[index + 1..]
    {
      var i := index;
      while i < |cheats| - 1
        invariant index <= i < |cheats| == |old(cheats)|
        invariant forall k :: 0 <= k < |cheats| ==> cheats[k] == old(cheats)[if index <= k < i then k + 1 else k]
      {
        cheats := cheats[i := cheats[i + 1]];
        i := i + 1;
      }
    }

    // ----- the file -----

    ghost function Finished(count: nat): Store
      reads this
    {
      Closed(cheats, codes, count)
    }

    method FinishCheat(count: nat)
      modifies `cheats
      ensures Stored() == old(Finished(count)) && Finished(count) == Stored()
    {
      if |cheats| > 0 {
        cheats := cheats[|cheats| - 1 := cheats[|cheats| - 1].(n := count)];
      }
    }

    method StartCheat(buf: string, count: nat, ghost items: seq<Item>, junk: nat -> U16)
      requires IsHead(buf) && Finished(count) == Laid(items, junk)
      modifies `cheats
      ensures Finished(0) == Laid(items + [Headed(buf)], junk)
    {
      hide Laid;
      HeadIsLaid(cheats, codes, count, items, buf, junk);
      FinishCheat(count);
      var body := buf[1..|buf| - 1];
      var starred := body != "" && body[0] == '*';
      var descr := if starred then body[1..] else body;
      cheats := cheats + [Cheat(descr, |codes|, 0, starred, false)];
    }

    method StoreCode(t1: U32, t2: U32, count: nat, ghost items: seq<Item>, junk: nat -> U16)
      requires items != [] && Finished(count) == Laid(items, junk)
      modifies `codes
      ensures
        var last := items[|items| - 1];
        Finished(count + 1) ==
          Laid(items[..|items| - 1] + [last.(codes := last.codes + [Pair(t1, t2 % 0x1_0000)])], junk)
    {
      CodeIsLaid(cheats, codes, count, items, Pair(t1, t2 % 0x1_0000), junk);
      AppendCode(t1, t2, junk);
    }

    /** The body of the loop of LoadCheats, on a trimmed line. */
    method ReadLine(buf: string, count: nat, t1: U32, t2: U32, ghost items: seq<Item>, junk: nat -> U16)
      returns (count': nat, t1': U32, t2': U32)
      requires Finished(count) == Laid(items, junk)
      modifies `cheats, `codes
      ensures var st := LoadLine(Loading(items, t1, t2), buf);
        Finished(count') == Laid(st.items, junk) && t1' == st.t1 && t2' == st.t2
    {
      hide Laid, ScanPair, Headed;
      count', t1', t2' := count, t1, t2;
      if IsComment(buf) { return; }
      if IsHead(buf) {
        StartCheat(buf, count, items, junk);
        count' := 0;
        return;
      }
      assert |Finished(count).cheats| == |cheats| == |items|;
      if |cheats| <= 0 { return; }
      var p := ScanPair(buf, t1, t2);
      t1', t2' := p.0, p.1;
      StoreCode(t1', t2', count, items, junk);
      count' := count + 1;
    }

    /** LoadCheats; `u1` and `u2` are what the variables of sscanf happen to hold at first. */
    method LoadCheats(text: string, u1: U32, u2: U32, junk: nat -> U16)
      requires Valid()
      modifies `cheats, `codes
      ensures Valid() && Stored() == Laid(LoadText(Loading([], u1, u2), text).items, junk)
    {
      hide Laid, LoadLine, WellFormed, Trim, UpToNul;
      ClearAllCheats();
      var buf := new char[256];
      var pos, count, t1, t2 := 0, 0, u1, u2;
      ghost var st := Loading([], u1, u2);
      NothingLaid(junk);
      assert text[0..] == text;
      while pos < |text|
        invariant 0 <= pos <= |text| && st.t1 == t1 && st.t2 == t2
        invariant LoadText(st, text[pos..]) == LoadText(Loading([], u1, u2), text)
        invariant Finished(count) == Laid(st.items, junk)
      {
        var next := Fgets(text, pos, buf);
        TrimInPlace(buf);
        ChunkIsTaken(st, text, pos, next);
        ghost var was := st;
        st := LoadLine(st, UpToNul(buf[..]));
        count, t1, t2 := ReadLine(UpToNul(buf[..]), count, t1, t2, was.items, junk);
        pos := next;
      }
      FinishCheat(count);
      LaidIsSeen(st.items, junk);
    }

    /** The part of SaveCheats for one cheat. */
    method SaveCheat(c: Cheat) returns (text: string)
      requires c.first + c.n <= |codes|
      ensures text == SaveItem(ItemOf(codes, c))
    {
      hide CodeLine, Written;
      text := (if c.enabled then "[*" else "[") + c.descr + "]\n";
      ghost var head := text;
      ghost var ps := ItemOf(codes, c).codes;
      var j := 0;
      while j < c.n
        invariant 0 <= j <= c.n == |ps|
        invariant text + CodeLines(ps[j..]) == head + CodeLines(ps)
      {
        assert ps[j..][0] == ps[j] && ps[j..][1..] == ps[j + 1..];
        ghost var before := text;
        text := text + CodeLine(Pair(codes[c.first + j].addr, codes[c.first + j].val)) + "\n";
        assert before + CodeLines(ps[j..]) == text + CodeLines(ps[j + 1..]);
        j := j + 1;
      }
      assert text == head + CodeLines(ps);
      assert head == HeadLine(ItemOf(codes, c)) + "\n";
      text := text + "\n";
    }

    /** SaveCheats. */
    method SaveCheats() returns (text: string)
      requires Valid()
      ensures text == SaveText(View(Stored()))
    {
      hide ItemOf, SaveItem;
      ghost var items := View(Stored());
      text := "";
      var i := 0;
      while i < |cheats|
        invariant 0 <= i <= |cheats| == |items|
        invariant text + SaveText(items[i..]) == SaveText(items)
      {
        assert items[i..][0] == items[i] && items[i..][1..] == items[i + 1..];
        ghost var before := text;
        var t := SaveCheat(cheats[i]);
        text := text + t;
        assert before + SaveText(items[i..]) == text + SaveText(items[i + 1..]);
        i := i + 1;
      }
    }

    // ----- the engine -----

    ghost function ToMachine(): Machine
      requires ram.Length == RAM + 1
      reads this, ram
    {
      Machine(ram[..], codes)
    }

    /** psxMu8ref(a) = v */
    method Poke8(a: nat, v: nat)
      requires ram.Length == RAM + 1
      modifies ram
      ensures ram[..] == Write8(old(ram[..]), a, v)
    {
      ram[a % RAM] := v % 0x100;
    }

    method Poke16(a: nat, v: nat)
      requires ram.Length == RAM + 1
      modifies ram
      ensures ram[..] == Write16(old(ram[..]), a, v)
    {
      ram[a % RAM] := v % 0x100;
      ram[a % RAM + 1] := v / 0x100 % 0x100;
    }

    /** The codes that write once. */
    method PutCode(kind: Byte, a: nat, v: U16)
      requires ram.Length == RAM + 1
      modifies ram
      ensures ram[..] == Put(old(ram[..]), kind, a, v)
    {
      hide Write8, Write16, Read8, Read16;
      match kind
      case 0x30 => Poke8(a, v);
      case 0x80 => Poke16(a, v);
      case 0x10 => Poke16(a, (Read16(ram[..], a) + v) % 0x1_0000);
      case 0x11 => Poke16(a, (Read16(ram[..], a) - v) % 0x1_0000);
      case 0x20 => Poke8(a, (Read8(ram[..], a) + v) % 0x100);
      case 0x21 => Poke8(a, (Read8(ram[..], a) - v) % 0x100);
      case _ =>
    }

    method SlideCodes(kind: Byte, n: nat, a: U32, v: U16, da: int, dv: int)
      requires ram.Length == RAM + 1
      modifies ram
      ensures ram[..] == Slide(old(ram[..]), kind, n, a, v, da, dv)
    {
      hide Put;
      if kind != CONST8 && kind != CONST16 { return; }
      var k, taddr: U32, val: U16 := 0, a, v;
      while k < n
        invariant 0 <= k <= n
        invariant Slide(ram[..], kind, n - k, taddr, val, da, dv) == Slide(old(ram[..]), kind, n, a, v, da, dv)
      {
        PutCode(kind, taddr, val);
        taddr := (taddr + da) % 0x1_0000_0000;
        val := (val + dv) % 0x1_0000;
        k := k + 1;
      }
    }

    method CopyBytes(to: nat, from: nat, n: nat)
      requires ram.Length == RAM + 1
      modifies ram
      ensures ram[..] == Copy(old(ram[..]), to, from, 0, n)
    {
      hide Write8, Read8;
      var k := 0;
      while k < n
        invariant 0 <= k <= n
        invariant Copy(ram[..], to, from, k, n) == Copy(old(ram[..]), to, from, 0, n)
      {
        Poke8(to + k, Read8(ram[..], from + k));
        k := k + 1;
      }
    }

    /** The switch of ApplyCheats for the codes of a cheat that is on; `j` has moved past what was used up. */
    method DoCode(j: nat, end: nat) returns (next: nat)
      requires ram.Length == RAM + 1 && j < end <= |codes|
      modifies ram
      ensures ram[..] == Done(old(ram[..]), codes, j, end)
      ensures next == j + Length(old(ram[..]), codes[j])
    {
      hide Put, Slide, Copy, Skips, Signed;
      var c := codes[j];
      var kind, a, val := Kind(c.addr), Place(c.addr), c.val;
      next := j + 1;
      if kind == SLIDE {
        next := j + 2;
        if j + 1 >= end { return; }
        var d := codes[j + 1];
        SlideCodes(Kind(d.addr), a / 0x100 % 0x100, Place(d.addr), d.val, Signed(a), Signed(val));
      } else if kind == MEMCPY {
        next := j + 2;
        if j + 1 >= end { return; }
        CopyBytes(Place(codes[j + 1].addr), a, val);
      } else {
        if Skips(ram[..], kind, a, val) {
          next := j + 2;
        }
        PutCode(kind, a, val);
      }
    }

    /** The loop over the codes of a cheat (cheat.c:198-321). */
    method RunCodes(first: nat, end: nat, enabled: bool, wasEnabled: bool)
      requires ram.Length == RAM + 1 && end <= |codes|
      modifies `codes, ram
      ensures |codes| == |old(codes)|
      ensures ToMachine() == if enabled then Play(old(ToMachine()), first, end, !wasEnabled)
        else Undo(old(ToMachine()), first, end)
    {
      hide Done, Length, Latched, Put;
      var j := first;
      while j < end
        invariant |codes| == |old(codes)|
        invariant enabled ==> Play(ToMachine(), j, end, !wasEnabled) == Play(old(ToMachine()), first, end, !wasEnabled)
        invariant !enabled ==> Undo(ToMachine(), j, end) == Undo(old(ToMachine()), first, end)
        decreases end - j
      {
        if enabled {
          if !wasEnabled {
            LatchedLength(ram[..], codes[j]);
            codes := codes[j := Latched(ram[..], codes[j])];
          }
          j := DoCode(j, end);
        } else {
          var c := codes[j];
          if IsConst(Kind(c.addr)) {
            PutCode(Kind(c.addr), Place(c.addr), c.oldVal);
          }
          j := j + 1;
        }
      }
    }

    /** One cheat in a pass (cheat.c:189-196). */
    method ApplyCheat(i: nat)
      requires Valid() && i < |cheats|
      modifies `cheats, `codes, ram
      ensures Valid() && World(cheats, ToMachine()) == Applied(old(World(cheats, ToMachine())), i)
    {
      hide WellFormed, Play, Undo;
      RangeIn(Stored(), i);
      AppliedIsSound(World(cheats, ToMachine()), i);
      var wasEnabled := cheats[i].wasEnabled;
      if !cheats[i].enabled && !wasEnabled { return; }
      var enabled := cheats[i].enabled;
      cheats := cheats[i := cheats[i].(wasEnabled := enabled)];
      RunCodes(cheats[i].first, cheats[i].first + cheats[i].n, enabled, wasEnabled);
    }

    /** ApplyCheats. */
    method ApplyCheats()
      requires Valid()
      modifies `cheats, `codes, ram
      ensures Valid() && World(cheats, ToMachine()) == PassFrom(old(World(cheats, ToMachine())), 0)
    {
      hide WellFormed, Applied;
      var i := 0;
      while i < |cheats|
        invariant 0 <= i <= |cheats| && Valid()
        invariant PassFrom(World(cheats, ToMachine()), i) == PassFrom(old(World(cheats, ToMachine())), 0)
      {
        ApplyCheat(i);
        i := i + 1;
      }
    }
  }

  lemma LatchedLength(m: Memory, c: Code)
    ensures Length(m, Latched(m, c)) == Length(m, c)
  {
  }

  lemma NothingLaid(junk: nat -> U16)
    ensures Laid([], junk) == Store([], [])
  {
  }

  /** One chunk of the file is one step of the reading. */
  lemma ChunkIsTaken(st: Loading, text: string, pos: nat, next: nat)
    requires pos < |text| && next == pos + ChunkLength(text[pos..], CHUNK) <= |text|
    ensures LoadText(st, text[pos..]) == LoadText(LoadLine(st, Trim(UpToNul(text[pos..next]))), text[next..])
  {
    hide LoadLine, Trim, UpToNul, ChunkLength;
    var k := next - pos;
    assert text[pos..][..k] == text[pos..next] && text[pos..][k..] == text[next..];
  }

  lemma FirstLine(text: string)
    ensures var k := LineEnd(text);
      CodesIn(text) == if k < |text| then CodeIn(text[..k]) + CodesIn(text[k + 1..]) else CodeIn(text[..k])
  {
    hide CodeIn, ScanPair;
  }

  lemma {:induction false} AppendsJoin(codes: seq<Code>, ps: seq<Pair>, qs: seq<Pair>, junk: nat -> U16)
    ensures Appended(codes, ps + qs, junk) == Appended(Appended(codes, ps, junk), qs, junk)
    decreases |qs|
  {
    if qs == [] {
      assert ps + qs == ps;
    } else {
      assert (ps + qs)[..|ps + qs| - 1] == ps + qs[..|qs| - 1];
      AppendsJoin(codes, ps, qs[..|qs| - 1], junk);
    }
  }

  lemma NothingAppended(codes: seq<Code>, junk: nat -> U16)
    ensures Appended(codes, [], junk) == codes
  {
  }
}
