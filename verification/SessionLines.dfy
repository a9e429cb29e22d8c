/** The two ways a session source is cut into lines: `str.splitlines` on the
    decoded text and `bytes.splitlines` on the file. */
module SessionLines {

  type byte = n: int | 0 <= n < 0x100

  // ---- splitlines ----------------------------------------------------------

  /** What ends a line; a carriage return and a line feed together end only one. */
  datatype Breaks<!T> = Breaks(ends: T -> bool, cr: T, lf: T)

  datatype Scanner<T> = Scanner(lines: seq<seq<T>>, open: seq<T>, afterReturn: bool)

  function Step<T(==)>(k: Breaks<T>, s: Scanner<T>, c: T): Scanner<T> {
    if c == k.lf && s.afterReturn then s.(afterReturn := false)
    else if k.ends(c) then Scanner(s.lines + [s.open], [], c == k.cr)
    else Scanner(s.lines, s.open + [c], false)
  }

  function Scan<T(==)>(k: Breaks<T>, t: seq<T>): Scanner<T> {
    if t == [] then Scanner([], [], false) else Step(k, Scan(k, t[..|t| - 1]), t[|t| - 1])
  }

  function Lines<T(==)>(k: Breaks<T>, t: seq<T>): seq<seq<T>> {
    var s := Scan(k, t);
    if s.open == [] then s.lines else s.lines + [s.open]
  }

  predicate EndsByteLine(b: byte) { b == 10 || b == 13 }

  predicate EndsNarrowLine(c: char) { c == '\n' || c == '\r' }

  /** The separators that only `str.splitlines` knows. */
  predicate Exotic(c: char) {
    var n := c as int;
    n == 11 || n == 12 || 28 <= n <= 30 || n == 0x85 || n == 0x2028 || n == 0x2029
  }

  predicate EndsTextLine(c: char) { EndsNarrowLine(c) || Exotic(c) }

  function ByteBreaks(): Breaks<byte> { Breaks((b: byte) => EndsByteLine(b), 13, 10) }

  function NarrowBreaks(): Breaks<char> { Breaks((c: char) => EndsNarrowLine(c), '\r', '\n') }

  function TextBreaks(): Breaks<char> { Breaks((c: char) => EndsTextLine(c), '\r', '\n') }

  ghost predicate Unbroken<T>(k: Breaks<T>, t: seq<T>) {
    forall i :: 0 <= i < |t| ==> !k.ends(t[i])
  }

  lemma ScanAppend<T>(k: Breaks<T>, t: seq<T>, c: T)
    ensures Scan(k, t + [c]) == Step(k, Scan(k, t), c)
  {
  }

  /** A stretch without separators only extends the open line. */
  lemma {:induction false} ScanUnbroken<T>(k: Breaks<T>, t: seq<T>, part: seq<T>)
    requires Unbroken(k, part) && k.ends(k.lf)
    ensures part == [] ==> Scan(k, t + part) == Scan(k, t)
    ensures part != [] ==> Scan(k, t + part) == Scanner(Scan(k, t).lines, Scan(k, t).open + part, false)
  {
    if part == [] {
      assert t + part == t;
    } else {
      var n := |part| - 1;
      ScanUnbroken(k, t, part[..n]);
      assert t + part == t + part[..n] + [part[n]];
      assert part == part[..n] + [part[n]];
      ScanAppend(k, t + part[..n], part[n]);
    }
  }

  /** Finished lines stay. */
  lemma {:induction false} ScanKeepsLines<T>(k: Breaks<T>, t: seq<T>, more: seq<T>)
    ensures Scan(k, t).lines <= Scan(k, t + more).lines
  {
    if more == [] {
      assert t + more == t;
    } else {
      var n := |more| - 1;
      ScanKeepsLines(k, t, more[..n]);
      assert t + more == t + more[..n] + [more[n]];
      ScanAppend(k, t + more[..n], more[n]);
    }
  }

  // ---- text lines and byte lines -------------------------------------------

  function Utf8(c: char): (bs: seq<byte>)
    ensures bs != []
    ensures if c as int < 0x80 then bs == [c as int] else forall i :: 0 <= i < |bs| ==> bs[i] >= 0x80
  {
    var n := c as int;
    if n < 0x80 then [n]
    else if n < 0x800 then [0xC0 + n / 0x40, 0x80 + n % 0x40]
    else if n < 0x1_0000 then [0xE0 + n / 0x1000, 0x80 + n / 0x40 % 0x40, 0x80 + n % 0x40]
    else [0xF0 + n / 0x4_0000, 0x80 + n / 0x1000 % 0x40, 0x80 + n / 0x40 % 0x40, 0x80 + n % 0x40]
  }

  function Encode(t: string): seq<byte> {
    if t == [] then [] else Encode(t[..|t| - 1]) + Utf8(t[|t| - 1])
  }

  function EncodeAll(ts: seq<string>): seq<seq<byte>> {
    seq(|ts|, i requires 0 <= i < |ts| => Encode(ts[i]))
  }

  lemma EncodeAppend(t: string, c: char)
    ensures Encode(t + [c]) == Encode(t) + Utf8(c) && Encode(t + [c]) != []
  {
  }

  /** Byte by byte or character by character, the scanner does the same. */
  lemma {:induction false} ScanEncoded(t: string)
    ensures Scan(ByteBreaks(), Encode(t)) == EncodeScan(Scan(NarrowBreaks(), t))
  {
    hide Scan, Encode, EncodeScan;
    if t == [] {
      ScanNothing();
    } else {
      var n := |t| - 1;
      ScanEncoded(t[..n]);
      assert t == t[..n] + [t[n]];
      EncodeStep(t[..n], t[n]);
    }
  }

  lemma ScanNothing()
    ensures Scan(ByteBreaks(), Encode([])) == EncodeScan(Scan(NarrowBreaks(), []))
  {
  }

  function EncodeScan(s: Scanner<char>): Scanner<byte> {
    Scanner(EncodeAll(s.lines), Encode(s.open), s.afterReturn)
  }

  lemma EncodeStep(t: string, c: char)
    requires Scan(ByteBreaks(), Encode(t)) == EncodeScan(Scan(NarrowBreaks(), t))
    ensures Scan(ByteBreaks(), Encode(t + [c])) == EncodeScan(Scan(NarrowBreaks(), t + [c]))
  {
    hide Scan, Encode, Utf8, EncodeScan, Step;
    ScanAppend(NarrowBreaks(), t, c);
    EncodeAppend(t, c);
    if c as int < 0x80 {
      ScanAppend(ByteBreaks(), Encode(t), c as int);
      AsciiStep(Scan(NarrowBreaks(), t), c);
    } else {
      assert Unbroken(ByteBreaks(), Utf8(c));
      ScanUnbroken(ByteBreaks(), Encode(t), Utf8(c));
      WideStep(Scan(NarrowBreaks(), t), c);
    }
  }

  lemma AsciiStep(s: Scanner<char>, c: char)
    requires c as int < 0x80
    ensures Step(ByteBreaks(), EncodeScan(s), c as int) == EncodeScan(Step(NarrowBreaks(), s, c))
  {
  }

  lemma WideStep(s: Scanner<char>, c: char)
    requires c as int >= 0x80
    ensures Scanner(EncodeScan(s).lines, EncodeScan(s).open + Utf8(c), false) == EncodeScan(Step(NarrowBreaks(), s, c))
  {
  }

  /** `bytes.splitlines` of an encoded text is the encoded text cut at line feeds
      and carriage returns only. */
  lemma ByteLines(t: string)
    ensures Lines(ByteBreaks(), Encode(t)) == EncodeAll(Lines(NarrowBreaks(), t))
  {
    hide Scan, Utf8;
    ScanEncoded(t);
    var s := Scan(NarrowBreaks(), t);
    if s.open != [] {
      EncodeAppend(s.open[..|s.open| - 1], s.open[|s.open| - 1]);
      assert s.open == s.open[..|s.open| - 1] + [s.open[|s.open| - 1]];
    }
  }

  function Exotics(t: string): nat {
    if t == [] then 0 else Exotics(t[..|t| - 1]) + if Exotic(t[|t| - 1]) then 1 else 0
  }

  /** Each exotic separator costs the text scanner one more finished line. */
  lemma {:induction false} ScansDiffer(t: string)
    ensures var w, n := Scan(TextBreaks(), t), Scan(NarrowBreaks(), t);
            && |w.lines| == |n.lines| + Exotics(t) && w.afterReturn == n.afterReturn
            && (w.open == [] <==> t == [] || EndsTextLine(t[|t| - 1]))
            && (n.open == [] <==> t == [] || EndsNarrowLine(t[|t| - 1]))
            && (n.afterReturn ==> w.open == [] == n.open)
  {
    if t != [] {
      ScansDiffer(t[..|t| - 1]);
    }
  }

  lemma {:induction false} ExoticsZero(t: string)
    ensures Exotics(t) == 0 <==> forall i :: 0 <= i < |t| ==> !Exotic(t[i])
  {
    if t != [] {
      ExoticsZero(t[..|t| - 1]);
      assert t == t[..|t| - 1] + [t[|t| - 1]];
    }
  }

  /** Text and bytes have equally many lines exactly when no exotic separator
      stands anywhere but at the very end. */
  lemma LineCountsAgreeIff(t: string)
    ensures |Lines(TextBreaks(), t)| == |Lines(ByteBreaks(), Encode(t))| <==>
            forall i :: 0 <= i < |t| - 1 ==> !Exotic(t[i])
  {
    hide Scan;
    ByteLines(t);
    ScansDiffer(t);
    if t != [] {
      ExoticsZero(t[..|t| - 1]);
      assert forall i :: 0 <= i < |t| - 1 ==> t[..|t| - 1][i] == t[i];
    }
  }

  // ---- terminated lines ----------------------------------------------------

  /** Each text followed by a line feed. */
  function Terminated(ts: seq<string>): string {
    if ts == [] then [] else Terminated(ts[..|ts| - 1]) + ts[|ts| - 1] + ['\n']
  }

  /** Breaks that include the line feed but not as a carriage return. */
  ghost predicate LineFeeds(k: Breaks<char>) {
    k.lf == '\n' && k.cr == '\r' && k.ends('\n')
  }

  /** From a fresh start, an unbroken text and a line feed make one line. */
  lemma ScanLine(k: Breaks<char>, t: string, part: string)
    requires LineFeeds(k) && Unbroken(k, part) && Scan(k, t).open == [] && !Scan(k, t).afterReturn
    ensures Scan(k, t + part + ['\n']) == Scanner(Scan(k, t).lines + [part], [], false)
  {
    hide Scan, Unbroken;
    ScanUnbroken(k, t, part);
    ScanAppend(k, t + part, '\n');
    assert [] + part == part;
  }

  lemma {:induction false} ScanTerminated(k: Breaks<char>, ts: seq<string>)
    requires LineFeeds(k) && forall i :: 0 <= i < |ts| ==> Unbroken(k, ts[i])
    ensures Scan(k, Terminated(ts)) == Scanner(ts, [], false)
  {
    hide Step, Unbroken;
    if ts != [] {
      var n := |ts| - 1;
      ScanTerminated(k, ts[..n]);
      ScanLine(k, Terminated(ts[..n]), ts[n]);
      assert ts == ts[..n] + [ts[n]];
    }
  }

  /** Cutting terminated lines gives the lines back. */
  lemma {:induction false} TerminatedLines(k: Breaks<char>, ts: seq<string>)
    requires LineFeeds(k) && forall i :: 0 <= i < |ts| ==> Unbroken(k, ts[i])
    ensures Lines(k, Terminated(ts)) == ts
  {
    ScanTerminated(k, ts);
  }

  /** A text with a separator inside is cut there: what stands before the first
      separator becomes a line of its own. */
  lemma {:induction false} CutLine(ts: seq<string>, i: nat, p: nat)
    requires forall j :: 0 <= j < i < |ts| ==> Unbroken(TextBreaks(), ts[j])
    requires i < |ts| && p < |ts[i]| && Exotic(ts[i][p]) && Unbroken(TextBreaks(), ts[i][..p])
    ensures ts[i][..p] in Lines(TextBreaks(), Terminated(ts))
  {
    hide Scan;
    var k := TextBreaks();
    var front := Terminated(ts[..i]);
    ScanTerminated(k, ts[..i]);
    ScanUnbroken(k, front, ts[i][..p]);
    ScanAppend(k, front + ts[i][..p], ts[i][p]);
    assert [] + ts[i][..p] == ts[i][..p];
    var cut := front + ts[i][..p] + [ts[i][p]];
    assert Scan(k, cut).lines == ts[..i] + [ts[i][..p]];
    var more := TerminatedStarts(ts, i, p);
    ScanKeepsLines(k, cut, more);
    assert Scan(k, cut).lines[i] == ts[i][..p];
  }

  lemma {:induction false} TerminatedStarts(ts: seq<string>, i: nat, p: nat) returns (more: string)
    requires i < |ts| && p < |ts[i]|
    ensures Terminated(ts) == Terminated(ts[..i]) + ts[i][..p] + [ts[i][p]] + more
    decreases |ts|
  {
    var n := |ts| - 1;
    if i == n {
      more := ts[i][p + 1..] + ['\n'];
      assert ts[i] == ts[i][..p] + [ts[i][p]] + ts[i][p + 1..];
    } else {
      var m := TerminatedStarts(ts[..n], i, p);
      assert ts[..n][..i] == ts[..i];
      more := m + ts[n] + ['\n'];
    }
  }
}
