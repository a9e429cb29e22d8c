/** Library functions that obey the laws capture and audit rely on. */
module SessionExample {
  import opened Json
  import opened Wrappers
  import opened SessionLines
  import opened SessionEvents
  import opened SessionCapture

  // ---- decoding ------------------------------------------------------------

  /** A number is its digits to base 64. */
  lemma Digits(n: nat)
    ensures n == n / 0x40 * 0x40 + n % 0x40
    ensures n == n / 0x1000 * 0x1000 + n / 0x40 % 0x40 * 0x40 + n % 0x40
    ensures n == n / 0x4_0000 * 0x4_0000 + n / 0x1000 % 0x40 * 0x1000 + n / 0x40 % 0x40 * 0x40 + n % 0x40
  {
    var a := n / 0x40;
    var b := a / 0x40;
    assert n / 0x1000 == b && n / 0x4_0000 == b / 0x40;
  }

  lemma Utf8Last(c: char, d: char)
    requires Utf8(c) == Utf8(d)
    ensures c == d
  {
    var n, m := c as int, d as int;
    var bs := Utf8(c);
    Digits(n);
    Digits(m);
    Utf8Length(c);
    Utf8Length(d);
    hide Utf8;
    Utf8Bytes(c);
    Utf8Bytes(d);
  }

  lemma Utf8Length(c: char)
    ensures var n := c as int; |Utf8(c)| == if n < 0x80 then 1 else if n < 0x800 then 2 else if n < 0x1_0000 then 3 else 4
  {
  }

  lemma Utf8Bytes(c: char)
    ensures var n, bs := c as int, Utf8(c);
      && (|bs| == 1 ==> bs[0] == n)
      && (|bs| == 2 ==> bs[0] == 0xC0 + n / 0x40 && bs[1] == 0x80 + n % 0x40)
      && (|bs| == 3 ==> bs[0] == 0xE0 + n / 0x1000 && bs[1] == 0x80 + n / 0x40 % 0x40 && bs[2] == 0x80 + n % 0x40)
      && (|bs| == 4 ==> bs[0] == 0xF0 + n / 0x4_0000 && bs[1] == 0x80 + n / 0x1000 % 0x40
                        && bs[2] == 0x80 + n / 0x40 % 0x40 && bs[3] == 0x80 + n % 0x40)
      && 1 <= |bs| <= 4
  {
  }

  predicate Continues(b: byte) { 0x80 <= b < 0xC0 }

  /** The first byte of a character, and no other, is no continuation. */
  lemma Utf8Starts(c: char)
    ensures !Continues(Utf8(c)[0]) && forall i :: 0 < i < |Utf8(c)| ==> Continues(Utf8(c)[i])
  {
  }

  lemma Utf8Suffix(xs: seq<byte>, c: char, ys: seq<byte>, d: char)
    requires xs + Utf8(c) == ys + Utf8(d)
    ensures c == d && xs == ys
  {
    hide Utf8, Continues;
    var s := xs + Utf8(c);
    Utf8Starts(c);
    Utf8Starts(d);
    var n, m := |Utf8(c)|, |Utf8(d)|;
    assert Utf8(c) == s[|s| - n..] && Utf8(d) == s[|s| - m..];
    assert !Continues(s[|s| - n]) && !Continues(s[|s| - m]);
    assert forall i :: |s| - n < i < |s| ==> s[i] == Utf8(c)[i - (|s| - n)];
    assert forall i :: |s| - m < i < |s| ==> s[i] == Utf8(d)[i - (|s| - m)];
    Utf8Last(c, d);
    assert xs == s[..|s| - n] && ys == s[..|s| - n];
  }

  /** Different texts have different encodings. */
  lemma {:induction false} EncodeOnce(t: string, u: string)
    requires Encode(t) == Encode(u)
    ensures t == u
    decreases |t|
  {
    hide Utf8;
    if t != [] && u != [] {
      var n, m := |t| - 1, |u| - 1;
      Utf8Suffix(Encode(t[..n]), t[n], Encode(u[..m]), u[m]);
      EncodeOnce(t[..n], u[..m]);
      assert t == t[..n] + [t[n]] && u == u[..m] + [u[m]];
    }
  }

  // ---- printing ------------------------------------------------------------

  /** A character as unary digits, unless it is a separator that printing keeps. */
  function Glyph(c: char): string {
    if RawSeparator(c) then ['s', c] else seq(c as int, i => 'c') + ['.']
  }

  function Script(t: string): string {
    if t == "" then "}" else Glyph(t[0]) + Script(t[1..])
  }

  function Mark(c: Captured): string {
    [match c.form case EventMessage => 'e' case ResponseItem => 'i' case ClaudeMessage => 'm', if c.role == User then 'u' else 'a',
     if c.stamp.Some? then 'y' else 'n']
  }

  function Line(c: Captured): string {
    "{" + Mark(c) + (if c.stamp.Some? then Script(c.stamp.value) else "") + Script(c.text)
  }

  lemma GlyphEnds(c: char, d: char, x: string, y: string)
    requires Glyph(c) + x <= Glyph(d) + y
    ensures c == d && x <= y
  {
    var s, u := Glyph(c) + x, Glyph(d) + y;
    assert forall i :: 0 <= i < |s| ==> s[i] == u[i];
    assert s[0] == Glyph(c)[0] && u[0] == Glyph(d)[0];
    if RawSeparator(c) {
      assert s[1] == c && u[1] == d;
    } else {
      var n, m := c as int, d as int;
      assert s[n] == '.' && forall i :: 0 <= i < n ==> s[i] == 'c';
      assert u[m] == '.' && forall i :: 0 <= i < m ==> u[i] == 'c';
    }
    assert Glyph(c) == Glyph(d);
    assert x == s[|Glyph(c)|..] && y == u[|Glyph(c)|..];
  }

  lemma GlyphStarts(c: char)
    ensures Glyph(c) != "" && Glyph(c)[0] != '}'
  {
  }

  lemma ScriptStarts(t: string)
    ensures Script(t) != "" && (Script(t)[0] == '}' <==> t == "")
  {
    if t != "" { GlyphStarts(t[0]); }
  }

  /** No printed text is the beginning of another. */
  lemma {:induction false} ScriptEnds(t: string, u: string, x: string, y: string)
    requires Script(t) + x <= Script(u) + y
    ensures t == u && x <= y
    decreases |t|
  {
    hide Glyph;
    var s, v := Script(t) + x, Script(u) + y;
    ScriptStarts(t);
    ScriptStarts(u);
    assert s[0] == v[0];
    if t == "" || u == "" {
      assert x == s[1..] && y == v[1..];
    } else {
      assert s == Glyph(t[0]) + (Script(t[1..]) + x) && v == Glyph(u[0]) + (Script(u[1..]) + y);
      GlyphEnds(t[0], u[0], Script(t[1..]) + x, Script(u[1..]) + y);
      ScriptEnds(t[1..], u[1..], x, y);
    }
  }

  lemma MarkTells(c: Captured, d: Captured)
    requires Mark(c) == Mark(d)
    ensures c.form == d.form && c.role == d.role && c.stamp.Some? == d.stamp.Some?
  {
    assert Mark(c)[0] == Mark(d)[0] && Mark(c)[1] == Mark(d)[1] && Mark(c)[2] == Mark(d)[2];
  }

  /** Nor is a printed event. */
  lemma {:induction false} LineEnds(c: Captured, d: Captured)
    requires Line(c) <= Line(d)
    ensures c == d
  {
    hide Script, Mark;
    assert |Mark(c)| == 3 == |Mark(d)| by { MarkLength(c); MarkLength(d); }
    var s, v := Line(c), Line(d);
    assert s[1..4] == Mark(c) && v[1..4] == Mark(d) && s[1..4] == v[1..4];
    MarkTells(c, d);
    if c.stamp.Some? {
      assert s[4..] == Script(c.stamp.value) + Script(c.text) && v[4..] == Script(d.stamp.value) + Script(d.text);
      ScriptEnds(c.stamp.value, d.stamp.value, Script(c.text), Script(d.text));
    }
    assert Script(c.text) <= Script(d.text) by {
      if c.stamp.None? { assert s[4..] == Script(c.text) && v[4..] == Script(d.text); }
    }
    assert Script(c.text) + "" == Script(c.text) && Script(d.text) + "" == Script(d.text);
    ScriptEnds(c.text, d.text, "", "");
  }

  lemma MarkLength(c: Captured)
    ensures |Mark(c)| == 3 && forall i :: 0 <= i < 3 ==> !EndsTextLine(Mark(c)[i])
  {
  }

  /** Only kept separators end a line, and they are all kept. */
  lemma {:induction false} ScriptSeparates(t: string)
    ensures forall i :: 0 <= i < |Script(t)| && EndsTextLine(Script(t)[i]) ==> RawSeparator(Script(t)[i])
    ensures Clean(Script(t)) <==> Clean(t)
  {
    if t != "" {
      var g, rest := Glyph(t[0]), Script(t[1..]);
      ScriptSeparates(t[1..]);
      assert Script(t) == g + rest;
      CleanJoins(g, rest);
      assert t == [t[0]] + t[1..];
      CleanJoins([t[0]], t[1..]);
      GlyphSeparates(t[0]);
    }
  }

  lemma GlyphSeparates(c: char)
    ensures forall i :: 0 <= i < |Glyph(c)| && EndsTextLine(Glyph(c)[i]) ==> RawSeparator(Glyph(c)[i])
    ensures Clean(Glyph(c)) <==> Clean([c])
  {
    if RawSeparator(c) { assert Glyph(c)[1] == c && [c][0] == c; }
  }

  lemma CleanJoins(x: string, y: string)
    ensures Clean(x + y) <==> Clean(x) && Clean(y)
  {
    if Clean(x + y) {
      forall i | 0 <= i < |x| ensures !RawSeparator(x[i]) { assert (x + y)[i] == x[i]; }
      forall i | 0 <= i < |y| ensures !RawSeparator(y[i]) { assert (x + y)[|x| + i] == y[i]; }
    }
  }

  lemma LineSeparates(c: Captured)
    ensures forall i :: 0 <= i < |Line(c)| && EndsTextLine(Line(c)[i]) ==> RawSeparator(Line(c)[i])
    ensures Clean(Line(c)) <==> Clean(c.text) && (c.stamp.Some? ==> Clean(c.stamp.value))
  {
    hide Script, Mark, Clean;
    MarkLength(c);
    ScriptSeparates(c.text);
    var head, stamp := "{" + Mark(c), if c.stamp.Some? then Script(c.stamp.value) else "";
    if c.stamp.Some? { ScriptSeparates(c.stamp.value); }
    CleanJoins(head + stamp, Script(c.text));
    CleanJoins(head, stamp);
    assert Clean(head) && Clean("") by { HeadClean(c); }
  }

  lemma HeadClean(c: Captured)
    ensures Clean("{" + Mark(c)) && Clean("")
  {
  }

  // ---- reading back --------------------------------------------------------

  lemma RenderParts(c: Captured)
    ensures var m := Render(c); var slot := if c.form == ClaudeMessage then "message" else "payload";
      && Get(m, "type") == Str(match c.form case EventMessage => "event_msg" case ResponseItem => "response_item"
                                            case ClaudeMessage => RoleName(c.role))
      && Get(m, slot) == Dict(Body(c)) && Get(m, "timestamp") == if c.stamp.Some? then Str(c.stamp.value) else Null
  {
    hide Body;
  }

  lemma BodyTells(c: Captured, d: Captured)
    requires c.form == d.form && Body(c) == Body(d)
    ensures c.role == d.role && c.text == d.text
  {
    match c.form
    case EventMessage =>
      assert Get(Body(c), "type") == Get(Body(d), "type") && Get(Body(c), "message") == Get(Body(d), "message");
      assert "user_message"[0] != "agent_message"[0];
    case _ =>
      assert Get(Body(c), "role") == Get(Body(d), "role") && Get(Body(c), "content") == Get(Body(d), "content");
      assert "user"[0] != "assistant"[0];
      var x, y := Get(Body(c), "content").items[0], Get(Body(d), "content").items[0];
      assert Get(x.entries, "text") == Str(c.text) && Get(y.entries, "text") == Str(d.text);
  }

  /** Different events are written differently. */
  lemma RenderOnce(c: Captured, d: Captured)
    requires Render(c) == Render(d)
    ensures c == d
  {
    hide Render, Body;
    RenderParts(c);
    RenderParts(d);
    assert |"event_msg"| == 9 && |"response_item"| == 13 && |"user"| == 4 && "user"[0] != "assistant"[0];
    assert "event_msg"[0] != "assistant"[0];
    BodyTells(c, d);
  }

  ghost predicate Writes(c: Captured, j: Json) { Dict(Render(c)) == j }

  ghost predicate Prints(c: Captured, s: string) { Line(c) == s }

  ghost function Shown(j: Json): string {
    if c: Captured :| Writes(c, j) then Line(c) else ""
  }

  ghost function ReadBack(s: string): Option<Json> {
    if c: Captured :| Prints(c, s) then Some(Dict(Render(c))) else None
  }

  ghost function Decoded(data: seq<byte>): Option<string> {
    if t :| Encode(t) == data then Some(t) else None
  }

  /** An environment of this kind, whose timestamps are its clean texts. */
  ghost function Example(): Env {
    Env(s => s, s => if s != "" && Clean(s) then Some(s) else None, j => Shown(j), s => ReadBack(s), b => Decoded(b), b => "")
  }

  lemma ShownIs(c: Captured)
    ensures Shown(Dict(Render(c))) == Line(c)
  {
    hide Line, Render;
    assert Writes(c, Dict(Render(c)));
    forall d: Captured | Writes(d, Dict(Render(c))) ensures d == c { RenderOnce(d, c); }
  }

  lemma ReadsBack(c: Captured)
    ensures ReadBack(Line(c)) == Some(Dict(Render(c)))
    ensures forall k :: 0 < k < |Line(c)| ==> ReadBack(Line(c)[..k]) == None
  {
    hide Line, Render;
    assert Prints(c, Line(c));
    forall d: Captured, k | 0 < k <= |Line(c)| && Prints(d, Line(c)[..k]) ensures d == c && k == |Line(c)| { LineEnds(d, c); }
    assert Line(c)[..|Line(c)|] == Line(c);
    assert Line(c) != "" by { LineStarts(c); }
  }

  lemma DecodesBack(t: string)
    ensures Decoded(Encode(t)) == Some(t)
  {
    hide Encode;
    forall u | Encode(u) == Encode(t) ensures u == t { EncodeOnce(u, t); }
  }

  /** So the laws can be met. */
  lemma {:induction false} ExampleIsLawful()
    ensures Lawful(Example())
  {
    hide Line, Render, Encode;
    var env := Example();
    forall t ensures env.decode(Encode(t)) == Some(t) {
      DecodesBack(t);
    }
    forall c: Captured ensures PrintsWell(env, c) {
      ShownIs(c);
      ReadsBack(c);
      LineSeparates(c);
      assert Line(c) != "" && Line(c)[0] == '{' by { LineStarts(c); }
    }
  }

  lemma LineStarts(c: Captured)
    ensures Line(c) != "" && Line(c)[0] == '{'
  {
  }
}
