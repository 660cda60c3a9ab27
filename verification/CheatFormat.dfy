/** The text of cheats as their users write it (libpcsxcore/cheat.c:64-181, 326-470): the digits, the lines of a
    file, comments, and the codes given to AddCheat and EditCheat.
  */
module CheatFormat {
  import opened Common
  import opened CheatText
  import opened CheatStore

  /** The digits in capitals when printed, in either case when read. */
  lemma Digits(d: nat)
    requires d < 16
    ensures HexDigit(d) == "0123456789ABCDEF"[d]
    ensures IsHex("0123456789abcdef"[d]) && HexValue("0123456789abcdef"[d]) == d
    ensures IsHex("0123456789ABCDEF"[d]) && HexValue("0123456789ABCDEF"[d]) == d
  {
  }

  /** Digit `k` of a printed number, counted from its end. */
  lemma {:induction false} DigitAt(x: nat, n: nat, k: nat)
    requires k < n
    ensures Power16(k) > 0 && PrintHex(x, n)[n - 1 - k] == "0123456789ABCDEF"[x / Power16(k) % 16]
  {
    hide HexDigit;
    Digits(x % 16);
    if k > 0 {
      DigitAt(x / 16, n - 1, k - 1);
      Shifted(x, Power16(k - 1));
    }
  }

  lemma Shifted(x: nat, p: nat)
    requires p > 0
    ensures 16 * p > 0 && x / (16 * p) == x / 16 / p
  {
    var q, r := x / 16, x % 16;
    var a, b := q / p, q % p;
    assert x == 16 * p * a + (16 * b + r) by {
      assert q == p * a + b;
      assert 16 * (p * a) == 16 * p * a;
    }
    Quotient(x, 16 * p, a, 16 * b + r);
  }

  /** The file of one cheat with one code. */
  lemma FileOfOne(descr: string, enabled: bool, c: Pair)
    ensures SaveText([Item(descr, enabled, [c])]) ==
      (if enabled then "[*" else "[") + descr + "]\n" + PrintHex(c.addr, 8) + " " + PrintHex(c.val, 4) + "\n\n"
  {
    hide PrintHex;
    var it := Item(descr, enabled, [c]);
    assert [it][1..] == [] && it.codes[1..] == [];
    assert SaveText([it]) == SaveItem(it);
    assert CodeLines([c]) == PrintHex(c.addr, 8) + " " + PrintHex(c.val, 4) + "\n";
  }

  /** A line that begins as a comment does is passed over, and so is an empty one. */
  lemma CommentsAreSkipped(st: Loading, buf: string)
    requires buf == "" || buf[0] in "#;/\""
    ensures LoadLine(st, buf) == st
  {
  }

  /** A line in brackets begins a cheat, which is on if a star follows the bracket. */
  lemma HeadsBeginCheats(st: Loading, descr: string)
    ensures LoadLine(st, "[*" + descr + "]") == st.(items := st.items + [Item(descr, true, [])])
    ensures descr == "" || descr[0] != '*' ==>
      LoadLine(st, "[" + descr + "]") == st.(items := st.items + [Item(descr, false, [])])
  {
    var on, off := "[*" + descr + "]", "[" + descr + "]";
    assert on[1..|on| - 1] == "*" + descr && ("*" + descr)[1..] == descr;
    assert off[1..|off| - 1] == descr;
  }

  /** A string whose first `n` characters are the digits of `x`, and which does not go on with one. */
  predicate Begins(s: string, x: nat, n: nat, rest: string)
  {
    2 <= n <= |s| && DigitCount(s) == n && s[n..] == rest && IsHex(s[0]) && IsHex(s[1]) && Value(s[..n]) == x
  }

  lemma PrintedBegins(x: nat, n: nat, rest: string)
    requires 2 <= n && x < Power16(n) && (rest == "" || !IsHex(rest[0]))
    ensures Begins(PrintHex(x, n) + rest, x, n, rest)
  {
    hide PrintHex, Power16, Value, DigitCount;
    var p := PrintHex(x, n);
    DigitsAreCounted(p, rest);
    ValueOfPrint(x, n);
    assert (p + rest)[..n] == p && (p + rest)[n..] == rest;
  }

  lemma SignIsRead(sign: char, s: string, x: U32, n: nat, rest: string)
    requires (sign == '+' || sign == '-') && Begins(s, x, n, rest)
    ensures ScanHex([sign] + s) == Match(if sign == '-' && x > 0 then 0x1_0000_0000 - x else x, rest)
  {
    hide Value, DigitCount;
    assert SkipSpaces([sign] + s) == [sign] + s && ([sign] + s)[1..] == s;
  }

  lemma PrefixIsRead(s: string, x: U32, n: nat, rest: string)
    requires Begins(s, x, n, rest)
    ensures ScanHex("0x" + s) == Match(x, rest)
  {
    hide Value, DigitCount;
    assert SkipSpaces("0x" + s) == "0x" + s && ("0x" + s)[2..] == s;
  }

  /** A sign and the prefix 0x in front of a number do not count, but for the minus. */
  lemma PrefixesAreRead(x: U32, n: nat, rest: string)
    requires 2 <= n && x < Power16(n) && (rest == "" || !IsHex(rest[0]))
    ensures ScanHex("0x" + (PrintHex(x, n) + rest)) == ScanHex("+" + (PrintHex(x, n) + rest)) == Match(x, rest)
    ensures x > 0 ==> ScanHex("-" + (PrintHex(x, n) + rest)) == Match(0x1_0000_0000 - x, rest)
  {
    hide *;
    PrintedBegins(x, n, rest);
    var s := PrintHex(x, n) + rest;
    SignIsRead('+', s, x, n, rest);
    SignIsRead('-', s, x, n, rest);
    PrefixIsRead(s, x, n, rest);
  }

  // ----- the codes given to AddCheat and EditCheat -----

  /** A line with a code counts if its address is large enough. */
  lemma LineIsCode(c: Pair)
    ensures CodeIn(CodeLine(c)) == if c.addr > 0x1000_0000 then [c] else []
  {
    hide ScanPair, CodeLine;
    CodeIsScanned(c, 0, 0);
  }

  lemma {:induction false} LineEndAt(line: string, rest: string)
    requires '\n' !in line
    ensures LineEnd(line + "\n" + rest) == |line|
    decreases |line|
  {
    if line != "" {
      assert (line + "\n" + rest)[1..] == line[1..] + "\n" + rest;
      LineEndAt(line[1..], rest);
    }
  }

  /** The codes written down line by line are the codes read. */
  lemma {:induction false} LinesAreCodes(codes: seq<Pair>)
    requires forall c :: c in codes ==> c.addr > 0x1000_0000
    ensures CodesIn(CodeLines(codes)) == codes
    decreases |codes|
  {
    hide CodeIn, CodeLine;
    if codes == [] {
      LineWithoutCode();
      assert CodesIn("") == CodeIn("");
    } else {
      var c, rest := codes[0], CodeLines(codes[1..]);
      var text := CodeLine(c) + "\n" + rest;
      assert CodeLines(codes) == text;
      CodeLineShape(c);
      LineEndAt(CodeLine(c), rest);
      assert text[..|CodeLine(c)|] == CodeLine(c) && text[|CodeLine(c)| + 1..] == rest;
      LineIsCode(c);
      LinesAreCodes(codes[1..]);
      assert [c] + codes[1..] == codes;
    }
  }

  lemma LineWithoutCode()
    ensures CodeIn("") == []
  {
    assert ScanHex("") == NoMatch;
  }
}
