/** The text of a cheat file: what SaveCheats prints and what LoadCheats reads, down to the buffer of
    fgets, trim and the conversions of printf and scanf (libpcsxcore/cheat.c:64-181,
    libpcsxcore/misc.c:1694-1713).
  */
module CheatText {
  type U32 = x: nat | x < 0x1_0000_0000
  type U16 = x: nat | x < 0x1_0000

  /** One code of a cheat, as written in the file. */
  datatype Pair = Pair(addr: U32, val: U16)

  /** A cheat, as written in the file. */
  datatype Item = Item(descr: string, enabled: bool, codes: seq<Pair>)

  // ----- C strings -----

  function UpToNul(s: string): (r: string)
    ensures '\0' !in r && |r| <= |s| && r == s[..|r|]
    ensures |r| < |s| ==> s[|r|] == '\0'
  {
    if s == "" || s[0] == '\0' then "" else [s[0]] + UpToNul(s[1..])
  }

  lemma NothingToCut(s: string)
    requires '\0' !in s
    ensures UpToNul(s) == s
  {
  }

  /** What trim takes off: characters up to the space, but not the terminator. */
  predicate Blank(c: char) { '\0' < c <= ' ' }

  function TrimLeft(s: string): (r: string)
    ensures |r| <= |s| && r == s[|s| - |r|..] && (r != "" ==> !Blank(r[0]))
  {
    if s != "" && Blank(s[0]) then TrimLeft(s[1..]) else s
  }

  function TrimRight(s: string): (r: string)
    ensures |r| <= |s| && r == s[..|r|] && (r != "" ==> !Blank(r[|r| - 1]))
  {
    if s != "" && Blank(s[|s| - 1]) then TrimRight(s[..|s| - 1]) else s
  }

  function Trim(s: string): string { TrimRight(TrimLeft(s)) }

  // ----- numbers -----

  /** The digits of %X. */
  function HexDigit(d: nat): char
    requires d < 16
  {
    if d < 10 then '0' + d as char else 'A' + (d - 10) as char
  }

  /** The digits that %x accepts. */
  predicate IsHex(c: char) { '0' <= c <= '9' || 'A' <= c <= 'F' || 'a' <= c <= 'f' }

  function HexValue(c: char): (d: nat)
    requires IsHex(c)
    ensures d < 16
  {
    if c <= '9' then (c - '0') as int else if c <= 'F' then (c - 'A') as int + 10 else (c - 'a') as int + 10
  }

  /** %.nX of a number that fits in n digits. */
  function PrintHex(x: nat, n: nat): (s: string)
    ensures |s| == n && forall k :: 0 <= k < n ==> IsHex(s[k]) && s[k] < 'a'
  {
    if n == 0 then "" else PrintHex(x / 16, n - 1) + [HexDigit(x % 16)]
  }

  function Value(s: string): nat
    requires forall k :: 0 <= k < |s| ==> IsHex(s[k])
  {
    if s == "" then 0 else Value(s[..|s| - 1]) * 16 + HexValue(s[|s| - 1])
  }

  function Power16(n: nat): nat { if n == 0 then 1 else 16 * Power16(n - 1) }

  lemma DigitHasItsValue(d: nat)
    requires d < 16
    ensures IsHex(HexDigit(d)) && HexValue(HexDigit(d)) == d
  {
  }

  lemma {:induction false} ValueOfPrint(x: nat, n: nat)
    requires x < Power16(n)
    ensures Value(PrintHex(x, n)) == x
  {
    hide HexDigit, HexValue, IsHex;
    if n > 0 {
      var front := PrintHex(x / 16, n - 1);
      ValueOfPrint(x / 16, n - 1);
      assert PrintHex(x, n)[..n - 1] == front;
      DigitHasItsValue(x % 16);
    }
  }

  predicate IsSpace(c: char) { c == ' ' || '\t' <= c <= '\r' }

  function SkipSpaces(s: string): (r: string)
    ensures |r| <= |s| && (s == "" || !IsSpace(s[0]) ==> r == s)
  {
    if s != "" && IsSpace(s[0]) then SkipSpaces(s[1..]) else s
  }

  function DigitCount(s: string): (n: nat)
    ensures n <= |s| && forall k :: 0 <= k < n ==> IsHex(s[k])
    ensures n < |s| ==> !IsHex(s[n])
  {
    if s == "" || !IsHex(s[0]) then 0 else 1 + DigitCount(s[1..])
  }

  datatype Scan = NoMatch | Match(value: U32, rest: string)

  /** A number too long for 32 bits becomes the largest, as strtoul has it. */
  function Clip(v: nat, negative: bool): U32
  {
    if v >= 0x1_0000_0000 then 0xFFFF_FFFF else if negative && v > 0 then 0x1_0000_0000 - v else v
  }

  /** One %x: spaces, a sign and 0x are allowed in front. */
  function ScanHex(s: string): Scan
  {
    var t := SkipSpaces(s);
    var signed := t != "" && (t[0] == '+' || t[0] == '-');
    var u := if signed then t[1..] else t;
    var v := if |u| >= 2 && u[0] == '0' && (u[1] == 'x' || u[1] == 'X') then u[2..] else u;
    var n := DigitCount(v);
    if n == 0 then NoMatch else Match(Clip(Value(v[..n]), signed && t[0] == '-'), v[n..])
  }

  /** sscanf(s, "%x %x", &t1, &t2): a number that is not there leaves its variable as it was. */
  function ScanPair(s: string, t1: U32, t2: U32): (U32, U32)
  {
    match ScanHex(s)
    case NoMatch => (t1, t2)
    case Match(v1, rest) =>
      match ScanHex(rest)
      case NoMatch => (v1, t2)
      case Match(v2, _) => (v1, v2)
  }

  lemma DigitsAreCounted(p: string, rest: string)
    requires forall k :: 0 <= k < |p| ==> IsHex(p[k])
    requires rest == "" || !IsHex(rest[0])
    ensures DigitCount(p + rest) == |p|
  {
    assert forall k :: 0 <= k < |p| ==> (p + rest)[k] == p[k];
    assert rest != "" ==> (p + rest)[|p|] == rest[0];
  }

  /** A printed number is read back, and the reading stops right after it. */
  lemma PrintedIsScanned(x: nat, n: nat, rest: string)
    requires 2 <= n && x < Power16(n) <= 0x1_0000_0000
    requires rest == "" || !IsHex(rest[0])
    ensures ScanHex(PrintHex(x, n) + rest) == Match(x, rest)
    ensures ScanHex(" " + PrintHex(x, n) + rest) == Match(x, rest)
  {
    hide PrintHex, Power16, DigitCount;
    var p := PrintHex(x, n);
    var s := p + rest;
    assert IsHex(s[0]) && IsHex(s[1]);
    assert SkipSpaces(s) == s;
    assert (" " + p + rest)[1..] == s;
    assert SkipSpaces(" " + p + rest) == s;
    DigitsAreCounted(p, rest);
    assert s[..n] == p && s[n..] == rest;
    ValueOfPrint(x, n);
  }

  // ----- saving -----

  function CodeLine(c: Pair): string { PrintHex(c.addr, 8) + " " + PrintHex(c.val, 4) }

  function CodeLines(codes: seq<Pair>): string
  {
    if codes == [] then "" else CodeLine(codes[0]) + "\n" + CodeLines(codes[1..])
  }

  function HeadLine(it: Item): string { (if it.enabled then "[*" else "[") + it.descr + "]" }

  function SaveItem(it: Item): string { HeadLine(it) + "\n" + CodeLines(it.codes) + "\n" }

  /** SaveCheats. */
  function SaveText(items: seq<Item>): string
  {
    if items == [] then "" else SaveItem(items[0]) + SaveText(items[1..])
  }

  // ----- loading -----

  /** The characters that fgets puts into a buffer of 255: up to the first newline, at most 254. */
  const CHUNK := 254

  function ChunkLength(s: string, limit: nat): (k: nat)
    ensures k <= |s| && k <= limit && (s != "" && limit > 0 ==> k > 0)
    ensures forall i :: 0 <= i < k - 1 ==> s[i] != '\n'
  {
    if s == "" || limit == 0 then 0 else if s[0] == '\n' then 1 else 1 + ChunkLength(s[1..], limit - 1)
  }

  /** The cheats read so far, and the two variables of sscanf, which keep their values between lines. */
  datatype Loading = Loading(items: seq<Item>, t1: U32, t2: U32)

  predicate IsComment(buf: string)
  {
    buf == "" || buf[0] == '#' || buf[0] == ';' || buf[0] == '/' || buf[0] == '\"'
  }

  predicate IsHead(buf: string) { buf != "" && buf[0] == '[' && buf[|buf| - 1] == ']' }

  /** The cheat that a head line starts. */
  function Headed(buf: string): Item
    requires IsHead(buf)
  {
    var body := buf[1..|buf| - 1];
    if body != "" && body[0] == '*' then Item(body[1..], true, []) else Item(body, false, [])
  }

  /** One trimmed line. */
  function LoadLine(st: Loading, buf: string): Loading
  {
    if IsComment(buf) then st
    else if IsHead(buf) then st.(items := st.items + [Headed(buf)])
    else if st.items == [] then st
    else
      var (t1, t2) := ScanPair(buf, st.t1, st.t2);
      var last := st.items[|st.items| - 1];
      Loading(st.items[..|st.items| - 1] + [last.(codes := last.codes + [Pair(t1, t2 % 0x1_0000)])], t1, t2)
  }

  /** LoadCheats: the file is read chunk by chunk. */
  function LoadText(st: Loading, text: string): Loading
    decreases |text|
  {
    if text == "" then st
    else
      var k := ChunkLength(text, CHUNK);
      LoadText(LoadLine(st, Trim(UpToNul(text[..k]))), text[k..])
  }

  // ----- the round trip -----

  /** A cheat that survives: a description of one line that fits into the buffer with its brackets, and
      does not look enabled when it is not. */
  predicate Storable(it: Item)
  {
    '\n' !in it.descr && |it.descr| <= (if it.enabled then 251 else 252) &&
    (!it.enabled && it.descr != "" ==> it.descr[0] != '*')
  }

  predicate Printable(it: Item) { '\0' !in it.descr }

  lemma TrimmedAlready(s: string)
    requires s != "" && !Blank(s[0]) && !Blank(s[|s| - 1])
    ensures Trim(s) == s && Trim(s + "\n") == s
  {
    assert (s + "\n")[..|s|] == s;
    assert TrimRight(s + "\n") == TrimRight(s);
  }

  lemma {:induction false} ChunkIsLine(line: string, rest: string, limit: nat)
    requires '\n' !in line && |line| <= limit
    ensures ChunkLength(line + "\n" + rest, limit) == if |line| < limit then |line| + 1 else |line|
    decreases |line|
  {
    var s := line + "\n" + rest;
    if line == "" {
      assert s[0] == '\n';
    } else {
      assert s[0] == line[0] && s[1..] == line[1..] + "\n" + rest;
      if limit > 0 { ChunkIsLine(line[1..], rest, limit - 1); }
    }
  }

  lemma BlankLineIsSkipped(st: Loading, rest: string)
    ensures LoadText(st, "\n" + rest) == LoadText(st, rest)
  {
    var s := "\n" + rest;
    assert s[..1] == "\n" && s[1..] == rest;
    assert ChunkLength(s, CHUNK) == 1;
    assert UpToNul("\n") == "\n" by { NothingToCut("\n"); }
    assert TrimLeft("\n") == "";
  }

  /** A line that fits into the buffer is read as a whole, even where its newline no longer fits. */
  lemma LineIsRead(st: Loading, line: string, rest: string)
    requires line != "" && '\n' !in line && '\0' !in line && |line| <= CHUNK
    requires !Blank(line[0]) && !Blank(line[|line| - 1])
    ensures LoadText(st, line + "\n" + rest) == LoadText(LoadLine(st, line), rest)
  {
    hide LoadLine, Trim, UpToNul, ChunkLength;
    var s := line + "\n" + rest;
    ChunkIsLine(line, rest, CHUNK);
    TrimmedAlready(line);
    NothingToCut(line);
    NothingToCut(line + "\n");
    if |line| < CHUNK {
      assert s[..|line| + 1] == line + "\n" && s[|line| + 1..] == rest;
    } else {
      assert s[..|line|] == line && s[|line|..] == "\n" + rest;
      BlankLineIsSkipped(LoadLine(st, line), rest);
    }
  }

  lemma HeadIsRead(st: Loading, it: Item, rest: string)
    requires Storable(it) && Printable(it)
    ensures LoadText(st, HeadLine(it) + "\n" + rest) == LoadText(st.(items := st.items + [it.(codes := [])]), rest)
  {
    var line := HeadLine(it);
    assert IsHead(line);
    var body := line[1..|line| - 1];
    assert body == if it.enabled then "*" + it.descr else it.descr;
    if it.enabled { assert body[1..] == it.descr; }
    assert LoadLine(st, line) == st.(items := st.items + [it.(codes := [])]);
    LineIsRead(st, line, rest);
  }

  lemma CodeIsScanned(c: Pair, t1: U32, t2: U32)
    ensures ScanPair(CodeLine(c), t1, t2) == (c.addr, c.val)
  {
    hide ScanHex, PrintHex;
    assert Power16(2) == 0x100 && Power16(4) == 0x1_0000 && Power16(6) == 0x100_0000 && Power16(8) == 0x1_0000_0000;
    PrintedIsScanned(c.addr, 8, " " + PrintHex(c.val, 4));
    assert CodeLine(c) == PrintHex(c.addr, 8) + (" " + PrintHex(c.val, 4));
    PrintedIsScanned(c.val, 4, "");
    assert " " + PrintHex(c.val, 4) + "" == " " + PrintHex(c.val, 4);
  }

  lemma CodeLineShape(c: Pair)
    ensures var line := CodeLine(c);
      |line| == 13 && '\n' !in line && '\0' !in line && IsHex(line[0]) && IsHex(line[12])
  {
    hide PrintHex;
    var line := CodeLine(c);
    assert forall k :: 0 <= k < 13 ==> line[k] == ' ' || IsHex(line[k]);
  }

  lemma CodeIsLoaded(st: Loading, items: seq<Item>, it: Item, c: Pair)
    requires st.items == items + [it]
    ensures LoadLine(st, CodeLine(c)) == Loading(items + [it.(codes := it.codes + [c])], c.addr, c.val)
  {
    hide ScanPair, CodeLine;
    CodeLineShape(c);
    CodeIsScanned(c, st.t1, st.t2);
    assert st.items[..|st.items| - 1] == items;
  }

  lemma CodeIsRead(st: Loading, items: seq<Item>, it: Item, c: Pair, rest: string)
    requires st.items == items + [it]
    ensures LoadText(st, CodeLine(c) + "\n" + rest) ==
      LoadText(Loading(items + [it.(codes := it.codes + [c])], c.addr, c.val), rest)
  {
    hide LoadLine, LoadText, CodeLine;
    CodeLineShape(c);
    CodeIsLoaded(st, items, it, c);
    LineIsRead(st, CodeLine(c), rest);
  }

  lemma {:induction false} CodesAreRead(st: Loading, items: seq<Item>, it: Item, codes: seq<Pair>, rest: string)
      returns (end: Loading)
    requires st.items == items + [it]
    ensures LoadText(st, CodeLines(codes) + rest) == LoadText(end, rest)
    ensures end.items == items + [it.(codes := it.codes + codes)]
    decreases |codes|
  {
    hide LoadText, CodeLine;
    if codes == [] {
      assert CodeLines(codes) + rest == rest && it.codes + codes == it.codes;
      end := st;
    } else {
      var c := codes[0];
      var more := CodeLines(codes[1..]) + rest;
      assert CodeLines(codes) + rest == CodeLine(c) + "\n" + more;
      CodeIsRead(st, items, it, c, more);
      var next := it.(codes := it.codes + [c]);
      end := CodesAreRead(Loading(items + [next], c.addr, c.val), items, next, codes[1..], rest);
      assert next.codes + codes[1..] == it.codes + codes;
    }
  }

  lemma NothingIsRead(st: Loading)
    ensures LoadText(st, "") == st
  {
  }

  lemma {:induction false} SavedIsRead(st: Loading, items: seq<Item>)
    requires forall it :: it in items ==> Storable(it) && Printable(it)
    ensures LoadText(st, SaveText(items)).items == st.items + items
    decreases |items|
  {
    hide HeadLine, CodeLines, Storable, Printable, LoadText;
    if items == [] {
      assert st.items + items == st.items;
      NothingIsRead(st);
    } else {
      var it := items[0];
      var rest := SaveText(items[1..]);
      assert SaveText(items) == HeadLine(it) + "\n" + (CodeLines(it.codes) + ("\n" + rest));
      HeadIsRead(st, it, CodeLines(it.codes) + ("\n" + rest));
      var bare := it.(codes := []);
      var end := CodesAreRead(st.(items := st.items + [bare]), st.items, bare, it.codes, "\n" + rest);
      assert bare.codes + it.codes == it.codes;
      BlankLineIsSkipped(end, rest);
      SavedIsRead(end, items[1..]);
      assert st.items + [it] + items[1..] == st.items + items;
    }
  }

  lemma TrimmedIsPart(s: string)
    ensures |Trim(s)| <= |s|
    ensures forall c :: c in Trim(s) ==> c in s
    ensures Trim(s) != "" ==> !Blank(Trim(s)[|Trim(s)| - 1])
  {
    hide TrimLeft, TrimRight;
  }

  /** A newline at the end of a chunk is trimmed away. */
  lemma TrimmedIsOneLine(s: string)
    requires forall i :: 0 <= i < |s| - 1 ==> s[i] != '\n'
    ensures '\n' !in Trim(s)
  {
    hide TrimLeft, TrimRight;
    var l := TrimLeft(s);
    var t := Trim(s);
    forall i | 0 <= i < |t|
      ensures t[i] != '\n'
    {
      assert t[i] == l[i] == s[|s| - |l| + i];
    }
  }

  /** Whatever the file, every cheat read from it is one that survives. */
  lemma {:induction false} ReadIsStorable(st: Loading, text: string)
    requires forall it :: it in st.items ==> Storable(it)
    ensures forall it :: it in LoadText(st, text).items ==> Storable(it)
    decreases |text|
  {
    if text != "" {
      var k := ChunkLength(text, CHUNK);
      var chunk := UpToNul(text[..k]);
      var buf := Trim(chunk);
      TrimmedIsPart(chunk);
      TrimmedIsOneLine(chunk);
      LineIsStorable(st, buf);
      ReadIsStorable(LoadLine(st, buf), text[k..]);
    }
  }

  lemma LineIsStorable(st: Loading, buf: string)
    requires '\n' !in buf && |buf| <= CHUNK
    requires forall it :: it in st.items ==> Storable(it)
    ensures forall it :: it in LoadLine(st, buf).items ==> Storable(it)
  {
    hide ScanPair;
    if IsHead(buf) {
      assert Storable(Headed(buf));
    } else if st.items != [] {
      assert Storable(st.items[|st.items| - 1]);
    }
  }

  /** Loading what was saved gives back the same cheats, in order, with descriptions, enabled bits and
      codes, if and only if every one of them survives.  What the variables of sscanf held does not matter. */
  lemma RoundTripExactly(items: seq<Item>, t1: U32, t2: U32)
    requires forall it :: it in items ==> Printable(it)
    ensures LoadText(Loading([], t1, t2), SaveText(items)).items == items <==> forall it :: it in items ==> Storable(it)
  {
    var st := Loading([], t1, t2);
    if forall it :: it in items ==> Storable(it) {
      SavedIsRead(st, items);
      assert [] + items == items;
    } else {
      ReadIsStorable(st, SaveText(items));
    }
  }
}
