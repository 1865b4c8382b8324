/** The pixel buffer of `src/canvas.rs` and its plain-text PPM ("P3") serialisation: a
    three-line header, then per canvas row the red, green and blue values of its pixels,
    clamped to 0..255, written as decimal numbers separated by spaces and wrapped so that no
    line passes 68 characters, the row ending with a newline. */
module Canvases {
  import opened Tuples

  /** Rust's `i32`. */
  newtype i32 = x: int | -0x8000_0000 <= x < 0x8000_0000

  // ---------------------------------------------------------------- decimal text

  predicate IsDigit(c: char) { '0' <= c <= '9' }

  function DigitChar(d: nat): (c: char)
    requires d < 10
    ensures IsDigit(c)
  {
    ('0' as int + d) as char
  }

  function DigitValue(c: char): int {
    c as int - '0' as int
  }

  /** `format!("{}", n)` for n ≥ 0: the decimal digits, most significant first, without
      leading zeros. */
  function ShowNat(n: nat): (s: string)
    ensures 1 <= |s| && forall k :: 0 <= k < |s| ==> IsDigit(s[k])
  {
    if n < 10 then [DigitChar(n)] else ShowNat(n / 10) + [DigitChar(n % 10)]
  }

  /** Reads decimal digits back, most significant first. */
  function ParseNat(s: string): int {
    if |s| == 0 then 0 else 10 * ParseNat(s[..|s| - 1]) + DigitValue(s[|s| - 1])
  }

  lemma {:induction false} ParseShowNat(n: nat)
    ensures ParseNat(ShowNat(n)) == n
  {
    var s := ShowNat(n);
    if n >= 10 {
      ParseShowNat(n / 10);
      assert s[..|s| - 1] == ShowNat(n / 10);
    }
  }

  function Pow10(k: nat): nat {
    if k == 0 then 1 else 10 * Pow10(k - 1)
  }

  /** A number below 10^k has at most k digits. */
  lemma {:induction false} ShowNatLength(n: nat, k: nat)
    requires 1 <= k && n < Pow10(k)
    ensures |ShowNat(n)| <= k
  {
    if n >= 10 {
      assert k != 1;
      assert n / 10 < Pow10(k - 1);
      ShowNatLength(n / 10, k - 1);
    }
  }

  /** `format!("{}", n)` for an `i32`: a minus sign before the digits of a negative number. */
  function Show(n: i32): (s: string)
    ensures 1 <= |s| <= 11
    ensures forall k :: 0 <= k < |s| ==> s[k] != ' ' && s[k] != '\n'
  {
    assert Pow10(10) == 10000000000;
    if n < 0 then
      ShowNatLength(-(n as int), 10);
      "-" + ShowNat(-(n as int))
    else
      ShowNatLength(n as int, 10);
      ShowNat(n as int)
  }

  /** Reads an optional minus sign and decimal digits back. */
  function Parse(s: string): int {
    if 0 < |s| && s[0] == '-' then -ParseNat(s[1..]) else ParseNat(s)
  }

  /** Parsing undoes the decimal rendering of every `i32`. */
  lemma ParseShow(n: i32)
    ensures Parse(Show(n)) == n as int
  {
    if n < 0 {
      assert ("-" + ShowNat(-(n as int)))[1..] == ShowNat(-(n as int));
      ParseShowNat(-(n as int));
    } else {
      ParseShowNat(n as int);
    }
  }

  // ---------------------------------------------------------------- splitting text

  /** The pieces of a text cut at separator characters: the finished ones and the last. */
  datatype Pieces = Pieces(done: seq<string>, last: string)

  /** Reading one more character: a separator finishes the last piece, any other extends it. */
  function Step(p: Pieces, c: char, seps: set<char>): Pieces {
    if c in seps then Pieces(p.done + [p.last], "") else Pieces(p.done, p.last + [c])
  }

  function Cut(s: string, seps: set<char>): Pieces {
    if |s| == 0 then Pieces([], "") else Step(Cut(s[..|s| - 1], seps), s[|s| - 1], seps)
  }

  /** The pieces of s between separator characters, as `str::split` gives them: one more
      piece than there are separators, empty pieces included. */
  function Split(s: string, seps: set<char>): seq<string> {
    var p := Cut(s, seps);
    p.done + [p.last]
  }

  /** The lines of a text. */
  function Lines(s: string): seq<string> { Split(s, {'\n'}) }

  /** The words of a text broken at spaces and newlines. */
  function Words(s: string): seq<string> { Split(s, {' ', '\n'}) }

  lemma CutAppendChar(s: string, c: char, seps: set<char>)
    ensures Cut(s + [c], seps) == Step(Cut(s, seps), c, seps)
  {
    assert (s + [c])[..|s|] == s;
    assert (s + [c])[|s|] == c;
  }

  lemma Reassociate(s: string, c: char, rest: string, w: string)
    requires 0 < |w| && c == w[0] && rest == w[1..]
    ensures s + [c] + rest == s + w
  {
    assert w == [c] + rest;
  }

  /** Appending text without separators extends the last piece. */
  lemma {:induction false} CutAppendWord(s: string, w: string, seps: set<char>)
    requires forall k :: 0 <= k < |w| ==> w[k] !in seps
    ensures Cut(s + w, seps) == Pieces(Cut(s, seps).done, Cut(s, seps).last + w)
    decreases |w|
  {
    if |w| == 0 {
      assert s + w == s;
    } else {
      var c, rest := w[0], w[1..];
      CutAppendChar(s, c, seps);
      CutAppendWord(s + [c], rest, seps);
      Reassociate(s, c, rest, w);
      Reassociate(Cut(s, seps).last, c, rest, w);
    }
  }

  /** The pieces of a + b: the last piece of a runs into the first piece of b. */
  function Join(p: Pieces, q: Pieces): Pieces {
    if |q.done| == 0 then Pieces(p.done, p.last + q.last)
    else Pieces(p.done + [p.last + q.done[0]] + q.done[1..], q.last)
  }

  lemma JoinStep(p: Pieces, q: Pieces, c: char, seps: set<char>)
    ensures Step(Join(p, q), c, seps) == Join(p, Step(q, c, seps))
  {
    if |q.done| == 0 {
      if c !in seps {
        assert p.last + q.last + [c] == p.last + (q.last + [c]);
      }
    } else if c in seps {
      var r := q.done + [q.last];
      assert r[0] == q.done[0] && r[1..] == q.done[1..] + [q.last];
      assert p.done + [p.last + q.done[0]] + q.done[1..] + [q.last]
          == p.done + [p.last + q.done[0]] + (q.done[1..] + [q.last]);
    }
  }

  lemma JoinEmpty(p: Pieces)
    ensures Join(p, Pieces([], "")) == p
  {
    assert p.last + "" == p.last;
  }

  lemma AppendLast(a: string, b: string, c: char)
    ensures a + b + [c] == a + (b + [c])
  {}

  /** Cutting a concatenation joins the pieces of its halves. */
  lemma {:induction false} CutConcat(a: string, b: string, seps: set<char>)
    ensures Cut(a + b, seps) == Join(Cut(a, seps), Cut(b, seps))
  {
    if |b| == 0 {
      assert a + b == a;
      JoinEmpty(Cut(a, seps));
    } else {
      var b', c := b[..|b| - 1], b[|b| - 1];
      CutConcat(a, b', seps);
      assert b' + [c] == b;
      AppendLast(a, b', c);
      CutAppendChar(a + b', c, seps);
      CutAppendChar(b', c, seps);
      JoinStep(Cut(a, seps), Cut(b', seps), c, seps);
    }
  }

  /** After a finished line, the pieces of what follows are simply appended. */
  lemma JoinAfterBreak(p: Pieces, q: Pieces)
    requires p.last == ""
    ensures Join(p, q) == Pieces(p.done + q.done, q.last)
  {
    if |q.done| > 0 {
      assert "" + q.done[0] == q.done[0];
      assert [q.done[0]] + q.done[1..] == q.done;
      assert p.done + [q.done[0]] + q.done[1..] == p.done + ([q.done[0]] + q.done[1..]);
    } else {
      assert "" + q.last == q.last;
      assert p.done + q.done == p.done;
    }
  }

  // ---------------------------------------------------------------- colors_to_ppm_string

  /** The wrap column: a number that would reach it goes to a new line. */
  const LineLimit: nat := 68

  /** The text built so far and `pos`, the length of its last line. */
  datatype Wrapped = Wrapped(text: string, pos: nat)

  /** One turn of the loop of `colors_to_ppm_string`. */
  function WrapStep(w: Wrapped, n: i32): Wrapped {
    var d := Show(n);
    var broken := if w.pos + |d| >= LineLimit then Wrapped(w.text + ['\n'], 0) else w;
    var spaced := if broken.pos != 0 then Wrapped(broken.text + [' '], broken.pos + 1) else broken;
    Wrapped(spaced.text + d, spaced.pos + |d|)
  }

  /** The state of `colors_to_ppm_string` after the numbers of v. */
  function Wrap(v: seq<i32>): Wrapped {
    if |v| == 0 then Wrapped("", 0) else WrapStep(Wrap(v[..|v| - 1]), v[|v| - 1])
  }

  /** The decimal renderings of v, in order. */
  function ShowAll(v: seq<i32>): (r: seq<string>)
    ensures |r| == |v| && forall k :: 0 <= k < |v| ==> r[k] == Show(v[k])
  {
    if |v| == 0 then [] else ShowAll(v[..|v| - 1]) + [Show(v[|v| - 1])]
  }

  /** A line the PPM format accepts: at most 68 characters, no space at either end. */
  predicate Tidy(line: string) {
    |line| <= LineLimit && (0 < |line| ==> line[0] != ' ' && line[|line| - 1] != ' ')
  }

  predicate AllTidy(lines: seq<string>) {
    forall k :: 0 <= k < |lines| ==> Tidy(lines[k])
  }

  /** No separator inside a rendered number. */
  predicate NoBreak(s: string) {
    forall k :: 0 <= k < |s| ==> s[k] != '\n'
  }

  predicate Plain(d: string) {
    forall k :: 0 <= k < |d| ==> d[k] != ' ' && d[k] != '\n'
  }

  /** What the wrapping keeps true after each number: the words are the numbers so far, every
      line is tidy, and `pos` is the length of the last line, which is never empty. */
  predicate WrapInvariant(v: seq<i32>, w: Wrapped) {
    if |v| == 0 then w == Wrapped("", 0)
    else
      var words, lines := Cut(w.text, {' ', '\n'}), Cut(w.text, {'\n'});
      words.done + [words.last] == ShowAll(v) && AllTidy(lines.done) && Tidy(lines.last)
      && w.pos == |lines.last| && 0 < w.pos
  }

  /** Appending a separator and a number makes the number the last word. */
  lemma AppendWord(text: string, sep: char, d: string)
    requires Plain(d) && (sep == ' ' || sep == '\n')
    ensures var p := Cut(text, {' ', '\n'});
      Cut(text + [sep] + d, {' ', '\n'}) == Pieces(p.done + [p.last], d)
  {
    CutAppendChar(text, sep, {' ', '\n'});
    CutAppendWord(text + [sep], d, {' ', '\n'});
    assert "" + d == d;
  }

  /** After a space a number extends the last line; after a newline it is the new last line. */
  lemma AppendToLine(text: string, sep: char, d: string)
    requires Plain(d) && (sep == ' ' || sep == '\n')
    ensures var p := Cut(text, {'\n'});
      Cut(text + [sep] + d, {'\n'}) == if sep == ' ' then Pieces(p.done, p.last + [' '] + d) else Pieces(p.done + [p.last], d)
  {
    CutAppendChar(text, sep, {'\n'});
    CutAppendWord(text + [sep], d, {'\n'});
    assert "" + d == d;
  }

  /** The first number is the whole text, one word on one line. */
  lemma AppendFirst(d: string)
    requires Plain(d)
    ensures Cut("" + d, {' ', '\n'}) == Pieces([], d) && Cut("" + d, {'\n'}) == Pieces([], d)
  {
    CutAppendWord("", d, {' ', '\n'});
    CutAppendWord("", d, {'\n'});
    assert "" + d == d;
  }

  /** A line extended by a space and a number stays tidy while it fits. */
  lemma ExtendTidy(line: string, d: string)
    requires Tidy(line) && 0 < |line| && Plain(d) && 0 < |d| && |line| + 1 + |d| <= LineLimit
    ensures Tidy(line + [' '] + d) && |line + [' '] + d| == |line| + 1 + |d|
  {
    assert (line + [' '] + d)[0] == line[0];
    assert (line + [' '] + d)[|line| + |d|] == d[|d| - 1];
  }

  lemma ShowAllAppend(u: seq<i32>, n: i32)
    ensures ShowAll(u + [n]) == ShowAll(u) + [Show(n)]
  {
    assert (u + [n])[..|u|] == u;
  }

  /** A number that still fits goes after a space on the current line. */
  lemma SpacedKeepsInvariant(u: seq<i32>, n: i32, w: Wrapped)
    requires 0 < |u| && WrapInvariant(u, w) && w.pos + |Show(n)| < LineLimit
    ensures WrapInvariant(u + [n], WrapStep(w, n))
  {
    var d := Show(n);
    ShowAllAppend(u, n);
    AppendWord(w.text, ' ', d);
    AppendToLine(w.text, ' ', d);
    ExtendTidy(Cut(w.text, {'\n'}).last, d);
  }

  /** A number that would reach the limit goes to a new line. */
  lemma BrokenKeepsInvariant(u: seq<i32>, n: i32, w: Wrapped)
    requires 0 < |u| && WrapInvariant(u, w) && LineLimit <= w.pos + |Show(n)|
    ensures WrapInvariant(u + [n], WrapStep(w, n))
  {
    var d := Show(n);
    ShowAllAppend(u, n);
    AppendWord(w.text, '\n', d);
    AppendToLine(w.text, '\n', d);
  }

  /** Each turn of the loop keeps WrapInvariant. */
  lemma {:induction false} WrapKeepsInvariant(v: seq<i32>)
    ensures WrapInvariant(v, Wrap(v))
  {
    if |v| > 0 {
      var u, n := v[..|v| - 1], v[|v| - 1];
      assert v == u + [n];
      WrapKeepsInvariant(u);
      var w := Wrap(u);
      if |u| == 0 {
        ShowAllAppend(u, n);
        AppendFirst(Show(n));
      } else if w.pos + |Show(n)| >= LineLimit {
        BrokenKeepsInvariant(u, n, w);
      } else {
        SpacedKeepsInvariant(u, n, w);
      }
    }
  }

  /** What `colors_to_ppm_string` delivers: every line is at most 68 characters with no space
      at either end, and cutting the text at spaces and newlines gives back the numbers, in
      order; no numbers give the empty text. */
  lemma {:induction false} WrapWellFormed(v: seq<i32>)
    ensures AllTidy(Lines(Wrap(v).text))
    ensures |v| == 0 ==> Wrap(v).text == ""
    ensures 0 < |v| ==> |Words(Wrap(v).text)| == |v|
    ensures 0 < |v| ==> forall k :: 0 <= k < |v| ==> Parse(Words(Wrap(v).text)[k]) == v[k] as int
  {
    WrapKeepsInvariant(v);
    var words := Words(Wrap(v).text);
    if 0 < |v| {
      assert words == ShowAll(v);
      forall k | 0 <= k < |v|
        ensures Parse(words[k]) == v[k] as int
      {
        ParseShow(v[k]);
      }
    }
  }

  /** `colors_to_ppm_string`: appends each number, first breaking the line when the number
      would reach column 68 and otherwise separating it from the previous one by a space. */
  method ColorsToPpmString(v: seq<i32>) returns (s: string)
    ensures s == Wrap(v).text
    ensures AllTidy(Lines(s))
  {
    var pos: nat := 0;
    s := "";
    var i := 0;
    while i < |v|
      invariant 0 <= i <= |v|
      invariant Wrapped(s, pos) == Wrap(v[..i])
    {
      assert v[..i + 1][..i] == v[..i];
      var n := Show(v[i]);
      if pos + |n| >= LineLimit {
        s := s + ['\n'];
        pos := 0;
      }
      if pos != 0 {
        s := s + [' '];
        pos := pos + 1;
      }
      s := s + n;
      pos := pos + |n|;
      i := i + 1;
    }
    assert v[..|v|] == v;
    WrapWellFormed(v);
  }

  /** The numbers of v joined by single spaces. */
  function Spaced(v: seq<i32>): (r: string)
    ensures 0 < |v| ==> |Show(v[|v| - 1])| <= |r|
  {
    if |v| == 0 then ""
    else if |v| == 1 then Show(v[0])
    else Spaced(v[..|v| - 1]) + [' '] + Show(v[|v| - 1])
  }

  lemma NoBreakJoin(a: string, d: string)
    requires NoBreak(a) && NoBreak(d)
    ensures NoBreak(a + [' '] + d)
  {
    var r := a + [' '] + d;
    forall k | 0 <= k < |r|
      ensures r[k] != '\n'
    {
      if k < |a| {
        assert r[k] == a[k];
      } else if |a| < k {
        assert r[k] == d[k - |a| - 1];
      }
    }
  }

  /** Spaced numbers hold no newline. */
  lemma {:induction false} SpacedPlain(v: seq<i32>)
    ensures NoBreak(Spaced(v))
  {
    if 1 < |v| {
      SpacedPlain(v[..|v| - 1]);
      NoBreakJoin(Spaced(v[..|v| - 1]), Show(v[|v| - 1]));
    }
  }

  lemma SpacedPrefix(v: seq<i32>)
    requires 1 < |v|
    ensures Spaced(v) == Spaced(v[..|v| - 1]) + [' '] + Show(v[|v| - 1])
    ensures |Spaced(v[..|v| - 1])| + 1 + |Show(v[|v| - 1])| == |Spaced(v)|
    ensures 0 < |Spaced(v[..|v| - 1])|
  {}

  /** Numbers that fit on one line, joined by single spaces, are written as that line. */
  lemma {:induction false} WrapOneLine(v: seq<i32>)
    requires 0 < |v| && |Spaced(v)| <= LineLimit
    ensures Wrap(v) == Wrapped(Spaced(v), |Spaced(v)|)
    decreases |v|
  {
    if |v| == 1 {
      assert "" + Show(v[0]) == Show(v[0]);
    } else {
      SpacedPrefix(v);
      WrapOneLine(v[..|v| - 1]);
    }
  }

  lemma WrapConcatLast(u: seq<i32>, v: seq<i32>)
    requires 0 < |v|
    ensures (u + v)[..|u + v| - 1] == u + v[..|v| - 1] && (u + v)[|u + v| - 1] == v[|v| - 1]
  {}

  lemma NewLineAssoc(t: string, a: string, d: string)
    ensures t + ['\n'] + a + [' '] + d == t + ['\n'] + (a + [' '] + d)
  {}

  /** After a line that the next number would overflow, numbers that fit on one line are
      written as that line, on a line of their own. */
  lemma {:induction false} WrapAfterFullLine(u: seq<i32>, v: seq<i32>)
    requires 0 < |v| && Wrap(u).pos + |Show(v[0])| >= LineLimit && |Spaced(v)| <= LineLimit
    ensures Wrap(u + v) == Wrapped(Wrap(u).text + ['\n'] + Spaced(v), |Spaced(v)|)
    decreases |v|
  {
    WrapConcatLast(u, v);
    if |v| == 1 {
      assert u + v == u + [v[0]];
    } else {
      var v' := v[..|v| - 1];
      SpacedPrefix(v);
      WrapAfterFullLine(u, v');
      NewLineAssoc(Wrap(u).text, Spaced(v'), Show(v[|v| - 1]));
    }
  }

  // ---------------------------------------------------------------- ppm_color

  /** `f64::round`: the nearest integer, halves rounded away from zero. */
  function Round(r: real): (n: int)
    ensures Abs(r - n as real) <= 0.5
    ensures Abs(r - n as real) == 0.5 ==> Abs(r) < Abs(n as real)
  {
    if r >= 0.0 then (r + 0.5).Floor else -((-r + 0.5).Floor)
  }

  /** `as i32` from a whole number: values beyond the range saturate. */
  function SaturateI32(n: int): (v: i32)
    ensures -0x8000_0000 <= n <= 0x7fff_ffff ==> v as int == n
    ensures n < -0x8000_0000 ==> v as int == -0x8000_0000
    ensures 0x7fff_ffff < n ==> v as int == 0x7fff_ffff
  {
    if n < -0x8000_0000 then -0x8000_0000 as i32 else if n > 0x7fff_ffff then 0x7fff_ffff as i32 else n as i32
  }

  /** `ppm_color`: a channel scaled to 0..255, rounded, and clamped. */
  function PpmColor(x: real): (v: i32)
    ensures 0 <= v <= 255
    ensures v == 0 <==> x * 255.0 < 0.5
    ensures v == 255 <==> 254.5 <= x * 255.0
    ensures 0 < v < 255 ==> Abs(x * 255.0 - v as real) <= 0.5
  {
    var v := SaturateI32(Round(x * 255.0));
    if v < 0 then 0 else if v > 255 then 255 else v
  }

  lemma PpmColorTest()
    ensures PpmColor(1.5) == 255 && PpmColor(0.5) == 128 && PpmColor(-0.5) == 0
    ensures PpmColor(0.0) == 0 && PpmColor(1.0) == 255
    ensures PpmColor(0.8) == 204 && PpmColor(0.6) == 153
  {}

  // ---------------------------------------------------------------- the PPM text

  /** The header `format!("P3\n{} {}\n255\n", width, height)`. */
  function Header(w: nat, h: nat): string {
    "P3" + ['\n'] + ShowNat(w) + [' '] + ShowNat(h) + ['\n'] + "255" + ['\n']
  }

  /** The numbers of one canvas row: red, green and blue of each pixel, left to right. */
  function ColorValues(row: seq<Tuple>): seq<i32> {
    if |row| == 0 then []
    else
      var c := row[|row| - 1];
      ColorValues(row[..|row| - 1]) + [PpmColor(c.x), PpmColor(c.y), PpmColor(c.z)]
  }

  /** Row j of a canvas w pixels wide, stored row after row. */
  function RowOf(pixels: seq<Tuple>, w: nat, j: nat): seq<Tuple>
    requires j * w + w <= |pixels|
  {
    pixels[j * w .. j * w + w]
  }

  /** The text of the first h rows: each row wrapped on its own and ended by a newline. */
  function Body(pixels: seq<Tuple>, w: nat, h: nat): string
    requires h * w <= |pixels|
  {
    if h == 0 then ""
    else Body(pixels, w, h - 1) + Wrap(ColorValues(RowOf(pixels, w, h - 1))).text + ['\n']
  }

  /** `to_ppm`: the header, then every row. */
  function Ppm(w: nat, h: nat, pixels: seq<Tuple>): string
    requires |pixels| == w * h
  {
    Header(w, h) + Body(pixels, w, h)
  }

  /** 3·width numbers per row, red, green, blue for each pixel from the left. */
  lemma {:induction false} ColorValuesLayout(row: seq<Tuple>)
    ensures |ColorValues(row)| == 3 * |row|
    ensures forall i :: 0 <= i < |row| ==>
      ColorValues(row)[3 * i] == PpmColor(row[i].x) && ColorValues(row)[3 * i + 1] == PpmColor(row[i].y)
      && ColorValues(row)[3 * i + 2] == PpmColor(row[i].z)
  {
    if |row| > 0 {
      ColorValuesLayout(row[..|row| - 1]);
    }
  }

  /** A text followed by a newline, after a finished line, adds its own lines. */
  lemma TextThenBreak(before: string, text: string)
    requires Cut(before, {'\n'}).last == ""
    ensures Cut(before + text + ['\n'], {'\n'}) == Pieces(Cut(before, {'\n'}).done + Lines(text), "")
  {
    var nl := {'\n'};
    CutConcat(before, text, nl);
    JoinAfterBreak(Cut(before, nl), Cut(text, nl));
    CutAppendChar(before + text, '\n', nl);
    var p, q := Cut(before, nl), Cut(text, nl);
    assert p.done + q.done + [q.last] == p.done + (q.done + [q.last]);
  }

  /** A text without newlines is one line. */
  lemma OneLine(text: string)
    requires NoBreak(text)
    ensures Lines(text) == [text]
  {
    CutAppendWord("", text, {'\n'});
    assert "" + text == text;
  }

  /** Three texts without newlines, each followed by one, are three lines. */
  lemma ThreeLines(a: string, b: string, c: string)
    requires NoBreak(a)
    requires NoBreak(b)
    requires NoBreak(c)
    ensures Cut(a + ['\n'] + b + ['\n'] + c + ['\n'], {'\n'}) == Pieces([a, b, c], "")
  {
    OneLine(a);
    OneLine(b);
    OneLine(c);
    TextThenBreak("", a);
    assert "" + a == a;
    TextThenBreak(a + ['\n'], b);
    TextThenBreak(a + ['\n'] + b + ['\n'], c);
  }

  /** The header is the three lines "P3", "{width} {height}" and "255". */
  lemma HeaderLines(w: nat, h: nat)
    ensures Cut(Header(w, h), {'\n'}) == Pieces(["P3", ShowNat(w) + [' '] + ShowNat(h), "255"], "")
  {
    var dims := ShowNat(w) + [' '] + ShowNat(h);
    ThreeLines("P3", dims, "255");
    assert Header(w, h) == "P3" + ['\n'] + dims + ['\n'] + "255" + ['\n'];
  }

  /** Row h - 1 ends where h rows end. */
  lemma LastRowEnds(w: nat, h: nat)
    requires 0 < h
    ensures (h - 1) * w + w == h * w
  {}

  lemma AllTidyConcat(a: seq<string>, b: seq<string>)
    requires AllTidy(a) && AllTidy(b)
    ensures AllTidy(a + b)
  {}

  /** A canvas row's text becomes whole lines of the body: the wrapping starts afresh on
      every row, and every body line is tidy. */
  lemma {:induction false} BodyLines(pixels: seq<Tuple>, w: nat, h: nat)
    requires h * w <= |pixels|
    ensures Cut(Body(pixels, w, h), {'\n'}).last == ""
    ensures AllTidy(Cut(Body(pixels, w, h), {'\n'}).done)
    ensures 0 < h ==> (h - 1) * w + w == h * w
    ensures 0 < h ==>
      Cut(Body(pixels, w, h), {'\n'}).done
      == Cut(Body(pixels, w, h - 1), {'\n'}).done + Lines(Wrap(ColorValues(RowOf(pixels, w, h - 1))).text)
  {
    if 0 < h {
      LastRowEnds(w, h);
      var before := Body(pixels, w, h - 1);
      var values := ColorValues(RowOf(pixels, w, h - 1));
      BodyLines(pixels, w, h - 1);
      TextThenBreak(before, Wrap(values).text);
      WrapWellFormed(values);
      AllTidyConcat(Cut(before, {'\n'}).done, Lines(Wrap(values).text));
    }
  }

  /** The lines of `to_ppm`'s text: "P3", "{width} {height}" and "255", then the lines of
      the rows, every one of them tidy, then the empty rest after the final newline. */
  lemma PpmLines(w: nat, h: nat, pixels: seq<Tuple>)
    requires |pixels| == w * h
    ensures Lines(Ppm(w, h, pixels))
         == ["P3", ShowNat(w) + [' '] + ShowNat(h), "255"] + Cut(Body(pixels, w, h), {'\n'}).done + [""]
    ensures AllTidy(Cut(Body(pixels, w, h), {'\n'}).done)
  {
    var nl := {'\n'};
    var head, body := Header(w, h), Body(pixels, w, h);
    HeaderLines(w, h);
    BodyLines(pixels, w, h);
    CutConcat(head, body, nl);
    JoinAfterBreak(Cut(head, nl), Cut(body, nl));
  }

  /** `to_ppm`'s text ends with a newline. */
  lemma PpmEndsWithNewline(w: nat, h: nat, pixels: seq<Tuple>)
    requires |pixels| == w * h
    ensures 0 < |Ppm(w, h, pixels)| && Ppm(w, h, pixels)[|Ppm(w, h, pixels)| - 1] == '\n'
  {
    var head, body := Header(w, h), Body(pixels, w, h);
    assert head[|head| - 1] == '\n';
    if 0 < h {
      assert body[|body| - 1] == '\n';
    }
  }

  /** The numbers of a canvas row read back from its text: three per pixel, the clamped
      red, green and blue, from the left. */
  lemma RowWords(row: seq<Tuple>)
    requires 0 < |row|
    ensures |Words(Wrap(ColorValues(row)).text)| == 3 * |row|
    ensures forall i :: 0 <= i < |row| ==>
      var words := Words(Wrap(ColorValues(row)).text);
      Parse(words[3 * i]) == PpmColor(row[i].x) as int && Parse(words[3 * i + 1]) == PpmColor(row[i].y) as int
      && Parse(words[3 * i + 2]) == PpmColor(row[i].z) as int
  {
    var v := ColorValues(row);
    ColorValuesLayout(row);
    WrapWellFormed(v);
    var words := Words(Wrap(v).text);
    forall i | 0 <= i < |row|
      ensures Parse(words[3 * i]) == PpmColor(row[i].x) as int
      ensures Parse(words[3 * i + 1]) == PpmColor(row[i].y) as int
      ensures Parse(words[3 * i + 2]) == PpmColor(row[i].z) as int
    {
      assert Parse(words[3 * i]) == v[3 * i] as int;
      assert Parse(words[3 * i + 1]) == v[3 * i + 1] as int;
      assert Parse(words[3 * i + 2]) == v[3 * i + 2] as int;
    }
  }

  // ---------------------------------------------------------------- the canvas

  /** x + y·width addresses a pixel of a w×h canvas. */
  lemma IndexInRange(x: nat, y: nat, w: nat, h: nat)
    requires x < w && y < h
    ensures x + y * w < w * h
  {
    assert y * w + w <= h * w by { RowsBelow(y, h, w); }
  }

  lemma {:induction false} RowsBelow(y: nat, h: nat, w: nat)
    requires y < h
    ensures y * w + w <= h * w
    decreases h - y
  {
    LastRowEnds(w, h);
    if y < h - 1 {
      RowsBelow(y, h - 1, w);
    }
  }

  /** Different pixels of a canvas have different addresses. */
  lemma IndexInjective(x: nat, y: nat, i: nat, j: nat, w: nat)
    requires x < w && i < w
    requires x + y * w == i + j * w
    ensures x == i && y == j
  {
    if y < j {
      RowsBelow(y, j, w);
      assert false;
    } else if j < y {
      RowsBelow(j, y, w);
      assert false;
    }
  }

  /** `Canvas`: a width×height grid of colours stored row after row. */
  class Canvas {
    const width: nat
    const height: nat
    const pixels: array<Tuple>

    predicate Valid()
      reads this
    {
      pixels.Length == width * height
    }

    /** `Canvas::new`: every pixel black. */
    constructor (w: nat, h: nat)
      ensures width == w && height == h && Valid()
      ensures fresh(pixels)
      ensures forall k :: 0 <= k < pixels.Length ==> pixels[k] == Color(0.0, 0.0, 0.0)
    {
      width, height := w, h;
      pixels := new Tuple[w * h](_ => Color(0.0, 0.0, 0.0));
    }

    /** `pixel_at`: the colour stored at x + y·width. */
    function PixelAt(x: nat, y: nat): (c: Tuple)
      reads this, pixels
      requires x + y * width < pixels.Length
      ensures c in pixels[..]
    {
      pixels[x + y * width]
    }

    /** `write_pixel`: stores c at x + y·width, and no other pixel changes. */
    method WritePixel(x: nat, y: nat, c: Tuple)
      requires x + y * width < pixels.Length
      modifies pixels
      ensures pixels[..] == old(pixels[..])[x + y * width := c]
      ensures PixelAt(x, y) == c
      ensures x < width ==> forall i: nat, j: nat :: i < width && i + j * width < pixels.Length && (i, j) != (x, y)
                                ==> PixelAt(i, j) == old(PixelAt(i, j))
    {
      pixels[x + y * width] := c;
      if x < width {
        forall i: nat, j: nat | i < width && i + j * width < pixels.Length && (i, j) != (x, y)
          ensures PixelAt(i, j) == old(PixelAt(i, j))
        {
          if i + j * width == x + y * width {
            IndexInjective(i, j, x, y, width);
          }
        }
      }
    }

    /** The inner loop of `to_ppm`: the clamped red, green and blue of each pixel of row y. */
    method RowValues(y: nat) returns (v: seq<i32>)
      requires Valid() && y < height
      ensures y * width + width <= pixels.Length
      ensures v == ColorValues(RowOf(pixels[..], width, y))
    {
      var start := y * width;
      RowsBelow(y, height, width);
      assert start + width <= pixels.Length by { assert height * width == width * height; }
      v := [];
      var i := 0;
      while i < width
        invariant 0 <= i <= width
        invariant v == ColorValues(pixels[..][start .. start + i])
      {
        var c := PixelAt(i, y);
        NextPixel(pixels[..], start, i, v, c);
        v := v + [PpmColor(c.x)];
        v := v + [PpmColor(c.y)];
        v := v + [PpmColor(c.z)];
        i := i + 1;
      }
    }

    /** `to_ppm`: the header, then row by row the wrapped colour values and a newline. */
    method ToPpm() returns (s: string)
      requires Valid()
      ensures s == Ppm(width, height, pixels[..])
    {
      s := Header(width, height);
      assert s == Header(width, height) + Body(pixels[..], width, 0);
      var j := 0;
      while j < height
        invariant 0 <= j <= height
        invariant j * width <= pixels.Length
        invariant s == Header(width, height) + Body(pixels[..], width, j)
      {
        var v := RowValues(j);
        var text := ColorsToPpmString(v);
        NextRow(Header(width, height), pixels[..], width, j, text);
        s := s + text + ['\n'];
        j := j + 1;
      }
    }
  }

  /** Appending row j's text and a newline extends the body by that row. */
  lemma NextRow(head: string, pixels: seq<Tuple>, w: nat, j: nat, text: string)
    requires j * w + w <= |pixels|
    requires text == Wrap(ColorValues(RowOf(pixels, w, j))).text
    ensures (j + 1) * w <= |pixels|
    ensures head + Body(pixels, w, j) + text + ['\n'] == head + Body(pixels, w, j + 1)
  {
    LastRowEnds(w, j + 1);
    var body := Body(pixels, w, j);
    assert head + body + text + ['\n'] == head + (body + text + ['\n']);
  }

  /** One more pixel of a row adds its three values. */
  lemma NextPixel(pixels: seq<Tuple>, start: nat, i: nat, v: seq<i32>, c: Tuple)
    requires start + i < |pixels|
    requires v == ColorValues(pixels[start .. start + i]) && c == pixels[start + i]
    ensures v + [PpmColor(c.x)] + [PpmColor(c.y)] + [PpmColor(c.z)] == ColorValues(pixels[start .. start + i + 1])
  {
    assert pixels[start .. start + i + 1][..i] == pixels[start .. start + i];
  }

  // ---------------------------------------------------------------- building blocks for the tests

  lemma DropLast<T>(u: seq<T>, v: seq<T>)
    requires 0 < |v|
    ensures (u + v)[..|u + v| - 1] == u + v[..|v| - 1] && (u + v)[|u + v| - 1] == v[|v| - 1]
    ensures |v| == 1 ==> (u + v)[..|u + v| - 1] == u
  {}

  lemma SpaceAssoc(a: string, b: string, d: string)
    ensures a + [' '] + b + [' '] + d == a + [' '] + (b + [' '] + d)
  {}

  lemma {:induction false} SpacedConcat(u: seq<i32>, v: seq<i32>)
    requires 0 < |u| && 0 < |v|
    ensures Spaced(u + v) == Spaced(u) + [' '] + Spaced(v)
    decreases |v|
  {
    DropLast(u, v);
    SpacedPrefix(u + v);
    if 1 < |v| {
      var v' := v[..|v| - 1];
      SpacedPrefix(v);
      SpacedConcat(u, v');
      SpaceAssoc(Spaced(u), Spaced(v'), Show(v[|v| - 1]));
    }
  }

  lemma SpacedTriple(a: i32, b: i32, c: i32)
    ensures Spaced([a, b, c]) == Show(a) + [' '] + Show(b) + [' '] + Show(c)
  {
    assert [a, b, c] == [a] + [b] + [c];
    SpacedConcat([a], [b]);
    SpacedConcat([a] + [b], [c]);
  }

  lemma {:induction false} ColorValuesConcat(a: seq<Tuple>, b: seq<Tuple>)
    ensures ColorValues(a + b) == ColorValues(a) + ColorValues(b)
    decreases |b|
  {
    if |b| == 0 {
      assert a + b == a;
    } else {
      var b' := b[..|b| - 1];
      DropLast(a, b);
      ColorValuesConcat(a, b');
      var c := b[|b| - 1];
      AppendAssoc(ColorValues(a), ColorValues(b'), [PpmColor(c.x), PpmColor(c.y), PpmColor(c.z)]);
    }
  }

  lemma AppendAssoc<T>(a: seq<T>, b: seq<T>, c: seq<T>)
    ensures a + b + c == a + (b + c)
  {}

  function PixelValues(c: Tuple): seq<i32> {
    [PpmColor(c.x), PpmColor(c.y), PpmColor(c.z)]
  }

  lemma ColorValuesSingle(c: Tuple)
    ensures ColorValues([c]) == PixelValues(c)
  {}

  /** Two texts without newlines, with one newline between them, are two lines. */
  lemma TwoLines(a: string, b: string)
    requires NoBreak(a)
    requires NoBreak(b)
    ensures Lines(a + ['\n'] + b) == [a, b]
  {
    var nl := {'\n'};
    TextThenBreak("", a);
    OneLine(a);
    assert "" + a == a;
    CutAppendWord(a + ['\n'], b, nl);
    assert "" + b == b;
  }

  /** The body lines of a canvas three rows high, row by row. */
  lemma ThreeRowBody(w: nat, pixels: seq<Tuple>)
    requires 3 * w <= |pixels|
    ensures 2 * w + w <= |pixels|
    ensures Cut(Body(pixels, w, 3), {'\n'}).done
         == Lines(Wrap(ColorValues(RowOf(pixels, w, 0))).text) + Lines(Wrap(ColorValues(RowOf(pixels, w, 1))).text)
            + Lines(Wrap(ColorValues(RowOf(pixels, w, 2))).text)
  {
    BodyLines(pixels, w, 3);
    BodyLines(pixels, w, 2);
    BodyLines(pixels, w, 1);
    var d1, d2, d3 := Cut(Body(pixels, w, 1), {'\n'}).done, Cut(Body(pixels, w, 2), {'\n'}).done, Cut(Body(pixels, w, 3), {'\n'}).done;
    var l0, l1, l2 := Lines(Wrap(ColorValues(RowOf(pixels, w, 0))).text), Lines(Wrap(ColorValues(RowOf(pixels, w, 1))).text), Lines(Wrap(ColorValues(RowOf(pixels, w, 2))).text);
    assert Body(pixels, w, 0) == "";
    assert d1 == l0;
    assert d2 == l0 + l1;
  }

  /** The body lines of a canvas two rows high, row by row. */
  lemma TwoRowBody(w: nat, pixels: seq<Tuple>)
    requires 2 * w <= |pixels|
    ensures w + w <= |pixels|
    ensures Cut(Body(pixels, w, 2), {'\n'}).done
         == Lines(Wrap(ColorValues(RowOf(pixels, w, 0))).text) + Lines(Wrap(ColorValues(RowOf(pixels, w, 1))).text)
  {
    BodyLines(pixels, w, 2);
    BodyLines(pixels, w, 1);
    var d1 := Cut(Body(pixels, w, 1), {'\n'}).done;
    assert Body(pixels, w, 0) == "";
    assert d1 == Lines(Wrap(ColorValues(RowOf(pixels, w, 0))).text);
  }

  lemma ShowSmall(n: i32)
    requires 0 <= n <= 255
    ensures |Show(n)| <= 3
  {
    ShowNatLength(n as int, 3);
  }

  /** The three numbers of a pixel, spaced: at most 11 characters. */
  lemma PixelText(c: Tuple)
    ensures Spaced(PixelValues(c)) == Show(PpmColor(c.x)) + [' '] + Show(PpmColor(c.y)) + [' '] + Show(PpmColor(c.z))
    ensures 0 < |Spaced(PixelValues(c))| <= 11
  {
    SpacedTriple(PpmColor(c.x), PpmColor(c.y), PpmColor(c.z));
    ShowSmall(PpmColor(c.x));
    ShowSmall(PpmColor(c.y));
    ShowSmall(PpmColor(c.z));
  }

  lemma ColorValuesFive(p0: Tuple, p1: Tuple, p2: Tuple, p3: Tuple, p4: Tuple)
    ensures ColorValues([p0, p1, p2, p3, p4])
         == PixelValues(p0) + PixelValues(p1) + PixelValues(p2) + PixelValues(p3) + PixelValues(p4)
  {
    var r1, r2, r3 := [p0] + [p1], [p0] + [p1] + [p2], [p0] + [p1] + [p2] + [p3];
    assert [p0, p1, p2, p3, p4] == r3 + [p4];
    ColorValuesSingle(p0);
    ColorValuesSingle(p1);
    ColorValuesSingle(p2);
    ColorValuesSingle(p3);
    ColorValuesSingle(p4);
    ColorValuesConcat([p0], [p1]);
    ColorValuesConcat(r1, [p2]);
    ColorValuesConcat(r2, [p3]);
    ColorValuesConcat(r3, [p4]);
  }

  lemma SpacedFive(t0: seq<i32>, t1: seq<i32>, t2: seq<i32>, t3: seq<i32>, t4: seq<i32>)
    requires 0 < |t0| && 0 < |t1| && 0 < |t2| && 0 < |t3| && 0 < |t4|
    ensures Spaced(t0 + t1 + t2 + t3 + t4)
         == Spaced(t0) + [' '] + Spaced(t1) + [' '] + Spaced(t2) + [' '] + Spaced(t3) + [' '] + Spaced(t4)
  {
    SpacedConcat(t0, t1);
    SpacedConcat(t0 + t1, t2);
    SpacedConcat(t0 + t1 + t2, t3);
    SpacedConcat(t0 + t1 + t2 + t3, t4);
  }

  /** A row of five pixels always fits on one line. */
  lemma FivePixelRow(p0: Tuple, p1: Tuple, p2: Tuple, p3: Tuple, p4: Tuple)
    ensures Lines(Wrap(ColorValues([p0, p1, p2, p3, p4])).text) == [Wrap(ColorValues([p0, p1, p2, p3, p4])).text]
    ensures Wrap(ColorValues([p0, p1, p2, p3, p4])).text
         == Spaced(PixelValues(p0)) + [' '] + Spaced(PixelValues(p1)) + [' '] + Spaced(PixelValues(p2)) + [' ']
            + Spaced(PixelValues(p3)) + [' '] + Spaced(PixelValues(p4))
  {
    var v0, v1, v2, v3, v4 := PixelValues(p0), PixelValues(p1), PixelValues(p2), PixelValues(p3), PixelValues(p4);
    ColorValuesFive(p0, p1, p2, p3, p4);
    SpacedFive(v0, v1, v2, v3, v4);
    PixelText(p0);
    PixelText(p1);
    PixelText(p2);
    PixelText(p3);
    PixelText(p4);
    WrapOneLine(v0 + v1 + v2 + v3 + v4);
    SpacedPlain(v0 + v1 + v2 + v3 + v4);
    OneLine(Spaced(v0 + v1 + v2 + v3 + v4));
  }

  lemma ShowDigits(n: i32, d: string)
    requires 0 <= n && ShowNat(n as int) == d
    ensures Show(n) == d
  {}

  lemma Show0()
    ensures Show(0) == "0"
  {
    ShowDigits(0, "0");
  }

  lemma Show128()
    ensures Show(128) == "128"
  {
    ShowDigits(128, "128");
  }

  lemma Show153()
    ensures Show(153) == "153"
  {
    ShowDigits(153, "153");
  }

  lemma Show204()
    ensures Show(204) == "204"
  {
    ShowDigits(204, "204");
  }

  lemma Show255()
    ensures Show(255) == "255"
  {
    ShowDigits(255, "255");
  }

  lemma PixelTextOf(red: real, green: real, blue: real, r: i32, g: i32, b: i32)
    requires PpmColor(red) == r && PpmColor(green) == g && PpmColor(blue) == b
    ensures Spaced(PixelValues(Color(red, green, blue))) == Show(r) + [' '] + Show(g) + [' '] + Show(b)
  {
    PixelText(Color(red, green, blue));
  }

  lemma BlackText()
    ensures Color(0.0, 0.0, 0.0) == Black
    ensures Spaced(PixelValues(Black)) == "0 0 0"
  {
    PpmColorTest();
    PixelTextOf(0.0, 0.0, 0.0, 0, 0, 0);
    Show0();
  }

  lemma RedText()
    ensures Spaced(PixelValues(Color(1.5, 0.0, 0.0))) == "255 0 0"
  {
    PpmColorTest();
    PixelTextOf(1.5, 0.0, 0.0, 255, 0, 0);
    Show0();
    Show255();
  }

  lemma GreenText()
    ensures Spaced(PixelValues(Color(0.0, 0.5, 0.0))) == "0 128 0"
  {
    PpmColorTest();
    PixelTextOf(0.0, 0.5, 0.0, 0, 128, 0);
    Show0();
    Show128();
  }

  lemma BlueText()
    ensures Spaced(PixelValues(Color(-0.5, 0.0, 1.0))) == "0 0 255"
  {
    PpmColorTest();
    PixelTextOf(-0.5, 0.0, 1.0, 0, 0, 255);
    Show0();
    Show255();
  }

  lemma LongRowPixel()
    ensures PixelValues(Color(1.0, 0.8, 0.6)) == [255, 204, 153]
  {
    PpmColorTest();
  }

  lemma PixelDataRow0(row: seq<Tuple>)
    requires row == [Color(1.5, 0.0, 0.0), Black, Black, Black, Black]
    ensures Lines(Wrap(ColorValues(row)).text) == ["255 0 0 0 0 0 0 0 0 0 0 0 0 0 0"]
  {
    FivePixelRow(Color(1.5, 0.0, 0.0), Black, Black, Black, Black);
    RedText();
    BlackText();
    PixelDataLine0();
  }

  lemma PixelDataLine0()
    ensures "255 0 0" + [' '] + "0 0 0" + [' '] + "0 0 0" + [' '] + "0 0 0" + [' '] + "0 0 0" == "255 0 0 0 0 0 0 0 0 0 0 0 0 0 0"
  {
    assert "255 0 0" + [' '] + "0 0 0" == "255 0 0 0 0 0";
    assert "255 0 0 0 0 0" + [' '] + "0 0 0" == "255 0 0 0 0 0 0 0 0";
    assert "255 0 0 0 0 0 0 0 0" + [' '] + "0 0 0" == "255 0 0 0 0 0 0 0 0 0 0 0";
  }

  lemma PixelDataRow1(row: seq<Tuple>)
    requires row == [Black, Black, Color(0.0, 0.5, 0.0), Black, Black]
    ensures Lines(Wrap(ColorValues(row)).text) == ["0 0 0 0 0 0 0 128 0 0 0 0 0 0 0"]
  {
    FivePixelRow(Black, Black, Color(0.0, 0.5, 0.0), Black, Black);
    GreenText();
    BlackText();
    PixelDataLine1();
  }

  lemma PixelDataLine1()
    ensures "0 0 0" + [' '] + "0 0 0" + [' '] + "0 128 0" + [' '] + "0 0 0" + [' '] + "0 0 0" == "0 0 0 0 0 0 0 128 0 0 0 0 0 0 0"
  {}

  lemma PixelDataRow2(row: seq<Tuple>)
    requires row == [Black, Black, Black, Black, Color(-0.5, 0.0, 1.0)]
    ensures Lines(Wrap(ColorValues(row)).text) == ["0 0 0 0 0 0 0 0 0 0 0 0 0 0 255"]
  {
    FivePixelRow(Black, Black, Black, Black, Color(-0.5, 0.0, 1.0));
    BlueText();
    BlackText();
    PixelDataLine2();
  }

  lemma PixelDataLine2()
    ensures "0 0 0" + [' '] + "0 0 0" + [' '] + "0 0 0" + [' '] + "0 0 0" + [' '] + "0 0 255" == "0 0 0 0 0 0 0 0 0 0 0 0 0 0 255"
  {}

  /** The body of the 5×3 canvas of `constructing_ppm_pixel_data`, line by line. */
  lemma PixelDataBody(pixels: seq<Tuple>)
    requires |pixels| == 5 * 3
    requires RowOf(pixels, 5, 0) == [Color(1.5, 0.0, 0.0), Black, Black, Black, Black]
    requires RowOf(pixels, 5, 1) == [Black, Black, Color(0.0, 0.5, 0.0), Black, Black]
    requires RowOf(pixels, 5, 2) == [Black, Black, Black, Black, Color(-0.5, 0.0, 1.0)]
    ensures Cut(Body(pixels, 5, 3), {'\n'}).done
         == ["255 0 0 0 0 0 0 0 0 0 0 0 0 0 0", "0 0 0 0 0 0 0 128 0 0 0 0 0 0 0", "0 0 0 0 0 0 0 0 0 0 0 0 0 0 255"]
  {
    ThreeRowBody(5, pixels);
    PixelDataRow0(RowOf(pixels, 5, 0));
    PixelDataRow1(RowOf(pixels, 5, 1));
    PixelDataRow2(RowOf(pixels, 5, 2));
    ThreeSingleLines(Cut(Body(pixels, 5, 3), {'\n'}).done,
      Lines(Wrap(ColorValues(RowOf(pixels, 5, 0))).text), Lines(Wrap(ColorValues(RowOf(pixels, 5, 1))).text),
      Lines(Wrap(ColorValues(RowOf(pixels, 5, 2))).text));
  }

  lemma ThreeSingleLines(body: seq<string>, l0: seq<string>, l1: seq<string>, l2: seq<string>)
    requires body == l0 + l1 + l2 && |l0| == 1 && |l1| == 1 && |l2| == 1
    ensures body == [l0[0], l1[0], l2[0]]
  {}

  lemma LinesAfterHeader(lines: seq<string>, head: seq<string>, body: seq<string>)
    requires |head| == 3 && lines == head + body + [""]
    ensures 3 + |body| < |lines| && lines[3..3 + |body|] == body
  {
    assert (head + body + [""])[3..3 + |body|] == body;
  }

  /** Lines 4 to 6 of the 5×3 canvas of `constructing_ppm_pixel_data`. */
  lemma PixelDataLines(pixels: seq<Tuple>)
    requires |pixels| == 5 * 3
    requires RowOf(pixels, 5, 0) == [Color(1.5, 0.0, 0.0), Black, Black, Black, Black]
    requires RowOf(pixels, 5, 1) == [Black, Black, Color(0.0, 0.5, 0.0), Black, Black]
    requires RowOf(pixels, 5, 2) == [Black, Black, Black, Black, Color(-0.5, 0.0, 1.0)]
    ensures 6 < |Lines(Ppm(5, 3, pixels))|
    ensures Lines(Ppm(5, 3, pixels))[3..6]
         == ["255 0 0 0 0 0 0 0 0 0 0 0 0 0 0", "0 0 0 0 0 0 0 128 0 0 0 0 0 0 0", "0 0 0 0 0 0 0 0 0 0 0 0 0 0 255"]
  {
    PpmLines(5, 3, pixels);
    PixelDataBody(pixels);
    LinesAfterHeader(Lines(Ppm(5, 3, pixels)), ["P3", ShowNat(5) + [' '] + ShowNat(3), "255"], Cut(Body(pixels, 5, 3), {'\n'}).done);
  }

  // The ten-pixel rows of `splitting_long_lines_in_pmm_files`: thirty numbers, of which the
  // first seventeen fill a line of 67 characters.

  function Triple(): seq<i32> { [255, 204, 153] }

  /** The numbers of the first and of the second line of a long row. */
  function LongU(): seq<i32> { Triple() + Triple() + Triple() + Triple() + Triple() + [255, 204] }
  function LongV(): seq<i32> { [153] + Triple() + Triple() + Triple() + Triple() }

  lemma TripleText()
    ensures Spaced(Triple()) == "255 204 153"
  {
    Show153();
    Show204();
    Show255();
    SpacedTriple(255, 204, 153);
  }

  lemma PairText()
    ensures Spaced([255, 204]) == "255 204" && Spaced([153]) == "153"
  {
    Show153();
    Show204();
    Show255();
    SpacedConcat([255], [204]);
    assert [255, 204] == [255] + [204];
  }

  lemma LongLine1Literal()
    ensures "255 204 153" + [' '] + "255 204 153" + [' '] + "255 204 153" + [' '] + "255 204 153" + [' '] + "255 204 153" + [' '] + "255 204" == "255 204 153 255 204 153 255 204 153 255 204 153 255 204 153 255 204"
  {
    assert "255 204 153" + [' '] + "255 204 153" == "255 204 153 255 204 153";
    assert "255 204 153 255 204 153" + [' '] + "255 204 153" == "255 204 153 255 204 153 255 204 153";
    assert "255 204 153 255 204 153 255 204 153" + [' '] + "255 204 153" == "255 204 153 255 204 153 255 204 153 255 204 153";
    assert "255 204 153 255 204 153 255 204 153 255 204 153" + [' '] + "255 204 153" == "255 204 153 255 204 153 255 204 153 255 204 153 255 204 153";
    assert "255 204 153 255 204 153 255 204 153 255 204 153 255 204 153" + [' '] + "255 204" == "255 204 153 255 204 153 255 204 153 255 204 153 255 204 153 255 204";
  }

  lemma LongLine2Literal()
    ensures "153" + [' '] + "255 204 153" + [' '] + "255 204 153" + [' '] + "255 204 153" + [' '] + "255 204 153" == "153 255 204 153 255 204 153 255 204 153 255 204 153"
  {
    assert "153" + [' '] + "255 204 153" == "153 255 204 153";
    assert "153 255 204 153" + [' '] + "255 204 153" == "153 255 204 153 255 204 153";
    assert "153 255 204 153 255 204 153" + [' '] + "255 204 153" == "153 255 204 153 255 204 153 255 204 153";
    assert "153 255 204 153 255 204 153 255 204 153" + [' '] + "255 204 153" == "153 255 204 153 255 204 153 255 204 153 255 204 153";
  }

  /** The first line of a long row: five pixels and two numbers of the sixth. */
  lemma LongLine1()
    ensures Spaced(LongU()) == "255 204 153 255 204 153 255 204 153 255 204 153 255 204 153 255 204"
  {
    var t := Triple();
    SpacedFive(t, t, t, t, t);
    SpacedConcat(t + t + t + t + t, [255, 204]);
    TripleText();
    PairText();
    LongLine1Literal();
  }

  /** The second line of a long row: the last number of the sixth pixel and four pixels. */
  lemma LongLine2()
    ensures Spaced(LongV()) == "153 255 204 153 255 204 153 255 204 153 255 204 153"
  {
    var t := Triple();
    SpacedFive([153], t, t, t, t);
    TripleText();
    PairText();
    LongLine2Literal();
  }

  lemma SplitTen<T>(a: seq<T>, b: seq<T>, t: seq<T>)
    requires t == a + b
    ensures (t + t + t + t + t) + (t + t + t + t + t) == (t + t + t + t + t + a) + (b + t + t + t + t)
  {}

  lemma LongRowValues(row: seq<Tuple>)
    requires |row| == 10 && forall i :: 0 <= i < 10 ==> row[i] == Color(1.0, 0.8, 0.6)
    ensures ColorValues(row) == LongU() + LongV()
  {
    var p := Color(1.0, 0.8, 0.6);
    var half := [p, p, p, p, p];
    assert row == half + half;
    ColorValuesConcat(half, half);
    ColorValuesFive(p, p, p, p, p);
    LongRowPixel();
    SplitTen([255, 204], [153], Triple());
  }

  /** Numbers that fill one line with `u` and break before `v` are written on two lines. */
  lemma TwoLineRow(vals: seq<i32>, u: seq<i32>, v: seq<i32>)
    requires vals == u + v && 0 < |u| && 0 < |v|
    requires |Spaced(u)| <= LineLimit && LineLimit <= |Spaced(u)| + |Show(v[0])| && |Spaced(v)| <= LineLimit
    ensures Lines(Wrap(vals).text) == [Spaced(u), Spaced(v)]
  {
    WrapOneLine(u);
    WrapAfterFullLine(u, v);
    SpacedPlain(u);
    SpacedPlain(v);
    TwoLines(Spaced(u), Spaced(v));
  }

  lemma LongLengths()
    ensures |Spaced(LongU())| == 67 && |Spaced(LongV())| == 51 && LongV()[0] == 153
  {
    LongLine1();
    LongLine2();
  }

  /** A row of ten pixels (1, 0.8, 0.6) is written on two lines. */
  lemma LongRow(row: seq<Tuple>)
    requires |row| == 10 && forall i :: 0 <= i < 10 ==> row[i] == Color(1.0, 0.8, 0.6)
    ensures Lines(Wrap(ColorValues(row)).text) == [Spaced(LongU()), Spaced(LongV())]
  {
    LongRowValues(row);
    LongLengths();
    Show153();
    TwoLineRow(ColorValues(row), LongU(), LongV());
  }

  /** Row `y` of a 10-wide canvas painted in (1, 0.8, 0.6) is written on two lines. */
  lemma LongRowAt(pixels: seq<Tuple>, y: nat)
    requires y * 10 + 10 <= |pixels|
    requires forall k :: 0 <= k < |pixels| ==> pixels[k] == Color(1.0, 0.8, 0.6)
    ensures Lines(Wrap(ColorValues(RowOf(pixels, 10, y))).text) == [Spaced(LongU()), Spaced(LongV())]
  {
    var row := RowOf(pixels, 10, y);
    forall i | 0 <= i < 10
      ensures row[i] == Color(1.0, 0.8, 0.6)
    {
      assert row[i] == pixels[y * 10 + i];
    }
    LongRow(row);
  }

  lemma TwoDoubleLines(body: seq<string>, l0: seq<string>, l1: seq<string>, a: string, b: string)
    requires body == l0 + l1 && l0 == [a, b] && l1 == [a, b]
    ensures body == [a, b, a, b]
  {}

  /** The body of the 10×2 canvas of `splitting_long_lines_in_pmm_files`, line by line. */
  lemma LongLinesBody(pixels: seq<Tuple>)
    requires |pixels| == 10 * 2
    requires forall k :: 0 <= k < |pixels| ==> pixels[k] == Color(1.0, 0.8, 0.6)
    ensures Cut(Body(pixels, 10, 2), {'\n'}).done == [Spaced(LongU()), Spaced(LongV()), Spaced(LongU()), Spaced(LongV())]
  {
    TwoRowBody(10, pixels);
    LongRowAt(pixels, 0);
    LongRowAt(pixels, 1);
    TwoDoubleLines(Cut(Body(pixels, 10, 2), {'\n'}).done,
      Lines(Wrap(ColorValues(RowOf(pixels, 10, 0))).text), Lines(Wrap(ColorValues(RowOf(pixels, 10, 1))).text),
      Spaced(LongU()), Spaced(LongV()));
  }

  /** Lines 4 to 7 of the 10×2 canvas of `splitting_long_lines_in_pmm_files`. */
  lemma LongLines(pixels: seq<Tuple>)
    requires |pixels| == 10 * 2
    requires forall k :: 0 <= k < |pixels| ==> pixels[k] == Color(1.0, 0.8, 0.6)
    ensures 7 < |Lines(Ppm(10, 2, pixels))|
    ensures Lines(Ppm(10, 2, pixels))[3..7]
         == ["255 204 153 255 204 153 255 204 153 255 204 153 255 204 153 255 204",
             "153 255 204 153 255 204 153 255 204 153 255 204 153",
             "255 204 153 255 204 153 255 204 153 255 204 153 255 204 153 255 204",
             "153 255 204 153 255 204 153 255 204 153 255 204 153"]
  {
    LongLine1();
    LongLine2();
    PpmLines(10, 2, pixels);
    LongLinesBody(pixels);
    LinesAfterHeader(Lines(Ppm(10, 2, pixels)), ["P3", ShowNat(10) + [' '] + ShowNat(2), "255"], Cut(Body(pixels, 10, 2), {'\n'}).done);
  }

  // The tests of the canvas, each as a method that builds the canvas the same way.

  /** `creating_canvas`: a new 10×20 canvas is black everywhere. */
  method CreatingCanvasTest() returns (c: Canvas)
    ensures c.width == 10 && c.height == 20 && c.Valid()
    ensures forall i: nat, j: nat :: i < 10 && j < 20 ==> c.PixelAt(i, j) == Color(0.0, 0.0, 0.0)
  {
    c := new Canvas(10, 20);
  }

  /** `writing_pixels_to_canvas`: a written pixel reads back. */
  method WritingPixelsTest() returns (c: Canvas)
    ensures c.width == 10 && c.height == 20 && c.Valid()
    ensures c.PixelAt(2, 3) == Color(1.0, 0.0, 0.0)
  {
    c := new Canvas(10, 20);
    c.WritePixel(2, 3, Color(1.0, 0.0, 0.0));
  }

  /** `constructing_ppm_header`: the first three lines of a 5×3 canvas. */
  method PpmHeaderTest() returns (ppm: string)
    ensures 3 <= |Lines(ppm)| && Lines(ppm)[..3] == ["P3", "5 3", "255"]
  {
    var c := new Canvas(5, 3);
    ppm := c.ToPpm();
    PpmLines(5, 3, c.pixels[..]);
    assert ShowNat(5) + [' '] + ShowNat(3) == "5 3";
  }

  /** `constructing_ppm_pixel_data`: three coloured pixels, one per row, clamped. */
  method PpmPixelDataTest() returns (ppm: string)
    ensures 6 < |Lines(ppm)|
    ensures Lines(ppm)[3..6]
         == ["255 0 0 0 0 0 0 0 0 0 0 0 0 0 0", "0 0 0 0 0 0 0 128 0 0 0 0 0 0 0", "0 0 0 0 0 0 0 0 0 0 0 0 0 0 255"]
  {
    var c := new Canvas(5, 3);
    c.WritePixel(0, 0, Color(1.5, 0.0, 0.0));
    c.WritePixel(2, 1, Color(0.0, 0.5, 0.0));
    c.WritePixel(4, 2, Color(-0.5, 0.0, 1.0));
    var p := c.pixels[..];
    assert RowOf(p, 5, 0) == [Color(1.5, 0.0, 0.0), Black, Black, Black, Black];
    assert RowOf(p, 5, 1) == [Black, Black, Color(0.0, 0.5, 0.0), Black, Black];
    assert RowOf(p, 5, 2) == [Black, Black, Black, Black, Color(-0.5, 0.0, 1.0)];
    ppm := c.ToPpm();
    PixelDataLines(p);
  }

  /** The nested loops of `splitting_long_lines_in_pmm_files`: write col at every (i, j). */
  method PaintAll(c: Canvas, col: Tuple)
    requires c.Valid() && c.width == 10 && c.height == 2
    modifies c.pixels
    ensures forall k :: 0 <= k < c.pixels.Length ==> c.pixels[k] == col
  {
    for i := 0 to 10
      invariant forall x: nat, y: nat :: x < i && y < 2 ==> c.PixelAt(x, y) == col
    {
      for j := 0 to 2
        invariant forall x: nat, y: nat :: x < i && y < 2 ==> c.PixelAt(x, y) == col
        invariant forall y: nat :: y < j ==> c.PixelAt(i, y) == col
      {
        c.WritePixel(i, j, col);
      }
    }
    forall k | 0 <= k < c.pixels.Length
      ensures c.pixels[k] == col
    {
      assert c.PixelAt(k % 10, k / 10) == c.pixels[k];
    }
  }

  /** `splitting_long_lines_in_pmm_files`: a 10×2 canvas painted in (1, 0.8, 0.6). */
  method SplittingLongLinesTest() returns (ppm: string)
    ensures 7 < |Lines(ppm)|
    ensures Lines(ppm)[3..7]
         == ["255 204 153 255 204 153 255 204 153 255 204 153 255 204 153 255 204",
             "153 255 204 153 255 204 153 255 204 153 255 204 153",
             "255 204 153 255 204 153 255 204 153 255 204 153 255 204 153 255 204",
             "153 255 204 153 255 204 153 255 204 153 255 204 153"]
  {
    var c := new Canvas(10, 2);
    PaintAll(c, Color(1.0, 0.8, 0.6));
    LongLines(c.pixels[..]);
    ppm := c.ToPpm();
  }

  /** `ppm_files_are_terminated_by_newline`. */
  method PpmEndsWithNewlineTest() returns (ppm: string)
    ensures 0 < |ppm| && ppm[|ppm| - 1] == '\n'
  {
    var c := new Canvas(5, 3);
    ppm := c.ToPpm();
    PpmEndsWithNewline(5, 3, c.pixels[..]);
  }
}
