/**
 The append-only memory log: reading and printing the file, and the three commands.
 Text is a sequence of characters; `now` is whatever the clock says.
 */
module MemLog {
  import opened Prelude

  // ------------------------------------------------------------------ characters and lines

  predicate BreakFree(s: string) {
    forall i :: 0 <= i < |s| ==> !IsBreak(s[i])
  }

  /** Lines of `cur + s`, where `cur` is the unfinished line read so far. */
  function LinesFrom(cur: string, s: string): seq<string>
    decreases |s|
  {
    if s == "" then (if cur == "" then [] else [cur])
    else if s[0] == '\r' && |s| > 1 && s[1] == '\n' then [cur] + LinesFrom("", s[2..])
    else if IsBreak(s[0]) then [cur] + LinesFrom("", s[1..])
    else LinesFrom(cur + [s[0]], s[1..])
  }

  function SplitLines(s: string): seq<string> {
    LinesFrom("", s)
  }

  function JoinSpace(lines: seq<string>): string {
    if lines == [] then "" else if |lines| == 1 then lines[0] else lines[0] + " " + JoinSpace(lines[1..])
  }

  /** Reading a text file turns every line ending into a single newline. */
  function UniversalNewlines(s: string): string
    decreases |s|
  {
    if s == "" then ""
    else if s[0] == '\r' && |s| > 1 && s[1] == '\n' then "\n" + UniversalNewlines(s[2..])
    else if s[0] == '\r' then "\n" + UniversalNewlines(s[1..])
    else [s[0]] + UniversalNewlines(s[1..])
  }

  function LStripNewlines(s: string): string {
    if s != "" && s[0] == '\n' then LStripNewlines(s[1..]) else s
  }

  function RStripNewlines(s: string): string {
    if s != "" && s[|s| - 1] == '\n' then RStripNewlines(s[..|s| - 1]) else s
  }

  /** The words of `cur + s`, where `cur` is the unfinished word read so far. */
  function WordsFrom(cur: string, s: string): seq<string>
    decreases |s|
  {
    if s == "" then (if cur == "" then [] else [cur])
    else if IsSpace(s[0]) then (if cur == "" then [] else [cur]) + WordsFrom("", s[1..])
    else WordsFrom(cur + [s[0]], s[1..])
  }

  // ------------------------------------------------------------------ front matter

  datatype Field = Field(key: string, value: string)

  /** A dictionary in insertion order. */
  type Meta = seq<Field>

  function IndexOf(m: Meta, key: string): (r: Option<nat>)
    ensures r.Some? ==> r.value < |m| && m[r.value].key == key
    ensures r.None? ==> forall i :: 0 <= i < |m| ==> m[i].key != key
  {
    if m == [] then None
    else if m[0].key == key then Some(0)
    else
      match IndexOf(m[1..], key)
      case None => None
      case Some(i) => Some(i + 1)
  }

  function Put(m: Meta, f: Field): Meta {
    match IndexOf(m, f.key)
    case Some(i) => m[i := f]
    case None => m + [f]
  }

  function Drop(m: Meta, key: string): Meta {
    if m == [] then []
    else (if m[0].key == key then [] else [m[0]]) + Drop(m[1..], key)
  }

  /** Stamp `updated` and keep it last. */
  function Touch(m: Meta, now: string): Meta {
    Drop(m, "updated") + [Field("updated", now)]
  }

  // ------------------------------------------------------------------ printing

  function OneLine(v: string): string {
    JoinSpace(SplitLines(v))
  }

  function FieldLine(f: Field): string {
    f.key + ": " + OneLine(f.value)
  }

  function FieldLines(m: Meta): seq<string> {
    seq(|m|, i requires 0 <= i < |m| => FieldLine(m[i]))
  }

  function Render(m: Meta, body: string): string {
    "---\n" + Join(FieldLines(m)) + "\n---\n\n" + RStripNewlines(body) + "\n"
  }

  // ------------------------------------------------------------------ reading

  datatype LogError = NoFrontMatter | Unterminated | Missing | Exists | BadField

  function Find(lines: seq<string>, line: string): (r: Option<nat>)
    ensures r.Some? ==> r.value < |lines| && lines[r.value] == line && line !in lines[..r.value]
    ensures r.None? ==> line !in lines
  {
    if lines == [] then None
    else if lines[0] == line then Some(0)
    else
      match Find(lines[1..], line)
      case None => None
      case Some(i) => assert lines == [lines[0]] + lines[1..]; Some(i + 1)
  }

  function FirstColon(s: string): (r: Option<nat>)
    ensures r.Some? ==> r.value < |s| && s[r.value] == ':' && forall i :: 0 <= i < r.value ==> s[i] != ':'
    ensures r.None? ==> ':' !in s
  {
    if s == "" then None
    else if s[0] == ':' then Some(0)
    else
      match FirstColon(s[1..])
      case None => None
      case Some(i) => Some(i + 1)
  }

  function ParseField(line: string): Option<Field> {
    match FirstColon(line)
    case None => None
    case Some(i) => Some(Field(Strip(line[..i]), Strip(line[i + 1..])))
  }

  function ParseFields(lines: seq<string>): Meta {
    if lines == [] then []
    else
      var before := ParseFields(lines[..|lines| - 1]);
      match ParseField(lines[|lines| - 1])
      case None => before
      case Some(f) => Put(before, f)
  }

  function ParseLines(lines: seq<string>): Result<(Meta, string), LogError> {
    if lines == [] || lines[0] != "---" then Err(NoFrontMatter)
    else
      match Find(lines[1..], "---")
      case None => Err(Unterminated)
      case Some(i) => Ok((ParseFields(lines[1..i + 1]), LStripNewlines(Join(lines[i + 2..]))))
  }

  /** What a stored text reads back as. */
  function Split(text: string): Result<(Meta, string), LogError> {
    ParseLines(SplitLines(UniversalNewlines(text)))
  }

  // ------------------------------------------------------------------ what collapsing white space means

  /** A character that is no white space, and whether white space stands before it. */
  datatype Glyph = Glyph(c: char, apart: bool)

  /** The characters of a text that are no white space; `apart` says whether white space came just before. */
  function Glyphs(s: string, apart: bool): seq<Glyph> {
    if s == "" then []
    else if IsSpace(s[0]) then Glyphs(s[1..], true)
    else [Glyph(s[0], apart)] + Glyphs(s[1..], false)
  }

  /** The same characters in the same order, set apart at the same places. */
  ghost predicate SameWords(s: string, t: string) {
    var a, b := Glyphs(s, true), Glyphs(t, true);
    |a| == |b| && forall i :: 0 <= i < |a| ==> a[i] == b[i]
  }

  /** No white space but single spaces between other characters. */
  predicate Tight(s: string) {
    Trimmed(s) && forall i :: 0 <= i < |s| && IsSpace(s[i]) ==> s[i] == ' ' && 0 < i < |s| - 1 && !IsSpace(s[i + 1])
  }

  /** `line` is `text` with each run of white space made one space, and none at the ends. */
  ghost predicate Collapses(text: string, line: string) {
    Tight(line) && SameWords(text, line)
  }

  lemma {:induction false} GlyphsOfWord(w: string, rest: string, apart: bool)
    requires w != "" && forall i :: 0 <= i < |w| ==> !IsSpace(w[i])
    ensures Glyphs(w + rest, apart) == [Glyph(w[0], apart)] + Glyphs(w[1..] + rest, false)
    decreases |w|
  {
    assert (w + rest)[0] == w[0] && (w + rest)[1..] == w[1..] + rest;
  }

  /** Both texts begin with the same word. */
  lemma {:induction false} SameFirstWord(w: string, s: string, t: string, apart: bool)
    requires (forall i :: 0 <= i < |w| ==> !IsSpace(w[i])) && Glyphs(s, w == "" && apart) == Glyphs(t, w == "" && apart)
    ensures Glyphs(w + s, apart) == Glyphs(w + t, apart)
    decreases |w|
  {
    if w == "" {
      assert w + s == s && w + t == t;
    } else {
      GlyphsOfWord(w, s, apart);
      GlyphsOfWord(w, t, apart);
      if |w| == 1 {
        assert w[1..] + s == s && w[1..] + t == t;
      } else {
        SameFirstWord(w[1..], s, t, false);
      }
    }
  }

  predicate IsWord(w: string) {
    w != "" && forall i :: 0 <= i < |w| ==> !IsSpace(w[i])
  }

  predicate AllWords(ws: seq<string>) {
    forall i :: 0 <= i < |ws| ==> IsWord(ws[i])
  }

  lemma {:induction false} WordsAreWords(cur: string, s: string)
    requires cur == "" || IsWord(cur)
    ensures AllWords(WordsFrom(cur, s))
    decreases |s|
  {
    if s != "" {
      if IsSpace(s[0]) {
        WordsAreWords("", s[1..]);
      } else {
        WordsAreWords(cur + [s[0]], s[1..]);
      }
    }
  }

  /** The words, joined, have the glyphs of the text. */
  lemma {:induction false} WordsHaveTheGlyphs(cur: string, s: string)
    requires cur == "" || IsWord(cur)
    ensures Glyphs(JoinSpace(WordsFrom(cur, s)), true) == Glyphs(cur + s, true)
    decreases |s|
  {
    if s == "" {
      assert cur + s == cur;
    } else if IsSpace(s[0]) {
      var rest := WordsFrom("", s[1..]);
      WordsHaveTheGlyphs("", s[1..]);
      WordsAreWords("", s[1..]);
      assert "" + s[1..] == s[1..];
      if cur == "" {
        assert cur + s == s && WordsFrom(cur, s) == rest;
      } else {
        WordThenSpace(cur, rest, s);
      }
    } else {
      WordsHaveTheGlyphs(cur + [s[0]], s[1..]);
      assert cur + [s[0]] + s[1..] == cur + s;
    }
  }

  /** A word followed by white space, and then the rest. */
  lemma WordThenSpace(w: string, ws: seq<string>, s: string)
    requires IsWord(w) && s != "" && IsSpace(s[0]) && AllWords(ws)
    requires Glyphs(JoinSpace(ws), true) == Glyphs(s[1..], true)
    ensures Glyphs(JoinSpace([w] + ws), true) == Glyphs(w + s, true)
  {
    assert ([w] + ws)[1..] == ws;
    if ws == [] {
      assert JoinSpace([w] + ws) == w + "";
      SameFirstWord(w, "", s, true);
    } else {
      assert JoinSpace([w] + ws) == w + (" " + JoinSpace(ws));
      assert (" " + JoinSpace(ws))[1..] == JoinSpace(ws);
      SameFirstWord(w, " " + JoinSpace(ws), s, true);
    }
  }

  lemma {:induction false} JoinedWordsAreTight(ws: seq<string>)
    requires AllWords(ws)
    ensures Tight(JoinSpace(ws))
    ensures ws != [] ==> JoinSpace(ws) != ""
    decreases |ws|
  {
    if |ws| > 1 {
      JoinedWordsAreTight(ws[1..]);
      WordBeforeTight(ws[0], JoinSpace(ws[1..]));
    }
  }

  lemma WordBeforeTight(w: string, t: string)
    requires IsWord(w) && t != "" && Tight(t)
    ensures Tight(w + " " + t)
  {
    var s := w + " " + t;
    forall i | 0 <= i < |s| && IsSpace(s[i]) ensures s[i] == ' ' && 0 < i < |s| - 1 && !IsSpace(s[i + 1]) {
      if i > |w| {
        assert s[i] == t[i - |w| - 1];
        assert s[i + 1] == t[i - |w|];
      }
    }
    assert s[0] == w[0] && s[|s| - 1] == t[|t| - 1];
  }

  /** What the words of a text, joined by single spaces, are. */
  lemma WordsCollapse(text: string)
    ensures Collapses(text, JoinSpace(WordsFrom("", text)))
  {
    WordsAreWords("", text);
    WordsHaveTheGlyphs("", text);
    assert "" + text == text;
    JoinedWordsAreTight(WordsFrom("", text));
  }

  /** White space only as single spaces, each before another character. */
  predicate Tidy(s: string) {
    forall i :: 0 <= i < |s| && IsSpace(s[i]) ==> s[i] == ' ' && i < |s| - 1 && !IsSpace(s[i + 1])
  }

  lemma {:induction false} TidyIsUnique(a: string, b: string)
    requires Tidy(a) && Tidy(b) && Glyphs(a, false) == Glyphs(b, false)
    ensures a == b
    decreases |a|
  {
    if a != "" {
      FirstGlyph(a);
    }
    if b != "" {
      FirstGlyph(b);
    }
    if a != "" && b != "" {
      var k := if IsSpace(a[0]) then 2 else 1;
      assert Glyphs(a, false)[0] == Glyphs(b, false)[0];
      assert Glyphs(a, false)[1..] == Glyphs(a[k..], false) && Glyphs(b, false)[1..] == Glyphs(b[k..], false);
      TidyTail(a, k);
      TidyTail(b, k);
      TidyIsUnique(a[k..], b[k..]);
      assert a == a[..k] + a[k..] && b == b[..k] + b[k..];
    }
  }

  lemma FirstGlyph(s: string)
    requires Tidy(s) && s != ""
    ensures var k := if IsSpace(s[0]) then 2 else 1;
            && k <= |s| && Glyphs(s, false) == [Glyph(s[k - 1], k == 2)] + Glyphs(s[k..], false)
            && (k == 2 ==> s[0] == ' ')
  {
    if IsSpace(s[0]) {
      assert s[1..][0] == s[1] && s[1..][1..] == s[2..];
    }
  }

  lemma TidyTail(s: string, k: nat)
    requires Tidy(s) && k <= |s|
    ensures Tidy(s[k..])
  {
  }

  lemma FirstOfTight(s: string)
    requires Tight(s)
    ensures Tidy(s)
    ensures s != "" ==> Glyphs(s, true) == [Glyph(s[0], true)] + Glyphs(s[1..], false)
  {
  }

  /** A text collapses to one line only. */
  lemma CollapsesOnce(text: string, a: string, b: string)
    requires Collapses(text, a) && Collapses(text, b)
    ensures a == b
  {
    assert Glyphs(a, true) == Glyphs(b, true);
    FirstOfTight(a);
    FirstOfTight(b);
    if a != "" && b != "" {
      TidyTail(a, 1);
      TidyTail(b, 1);
      assert Glyphs(a, true)[0] == Glyphs(b, true)[0];
      assert Glyphs(a, true)[1..] == Glyphs(a[1..], false) && Glyphs(b, true)[1..] == Glyphs(b[1..], false);
      TidyIsUnique(a[1..], b[1..]);
      assert a == [a[0]] + a[1..] && b == [b[0]] + b[1..];
    }
  }

  // ------------------------------------------------------------------ lines: facts

  lemma {:induction false} NewlineEndsLine(cur: string, x: string, y: string)
    ensures LinesFrom(cur, x + "\n" + y) == LinesFrom(cur, x + "\n") + SplitLines(y)
    decreases |x|
  {
    var s, t := x + "\n" + y, x + "\n";
    if x == "" {
      assert s[1..] == y && t[1..] == "";
    } else if x[0] == '\r' && |x| > 1 && x[1] == '\n' {
      assert s[2..] == x[2..] + "\n" + y && t[2..] == x[2..] + "\n";
      NewlineEndsLine("", x[2..], y);
    } else if x == "\r" {
      assert s[2..] == y && t[2..] == "";
    } else if IsBreak(x[0]) {
      assert |x| > 1 ==> s[1] == x[1] && t[1] == x[1];
      assert s[1..] == x[1..] + "\n" + y && t[1..] == x[1..] + "\n";
      NewlineEndsLine("", x[1..], y);
    } else {
      assert s[1..] == x[1..] + "\n" + y && t[1..] == x[1..] + "\n";
      NewlineEndsLine(cur + [x[0]], x[1..], y);
    }
  }

  lemma {:induction false} BreakFreeIsOneLine(cur: string, l: string)
    requires BreakFree(l)
    ensures LinesFrom(cur, l + "\n") == [cur + l]
    decreases |l|
  {
    if l == "" {
      assert (l + "\n")[1..] == "" && cur + l == cur;
    } else {
      assert (l + "\n")[1..] == l[1..] + "\n";
      BreakFreeIsOneLine(cur + [l[0]], l[1..]);
      assert cur + [l[0]] + l[1..] == cur + l;
    }
  }

  ghost predicate AllBreakFree(lines: seq<string>) {
    forall i :: 0 <= i < |lines| ==> BreakFree(lines[i])
  }

  lemma OneMoreLine(l: string, rest: string)
    requires BreakFree(l)
    ensures SplitLines(l + "\n" + rest) == [l] + SplitLines(rest)
  {
    NewlineEndsLine("", l, rest);
    BreakFreeIsOneLine("", l);
    assert "" + l == l;
  }

  /** `nl` is the newline. */
  lemma JoinCons(lines: seq<string>, nl: string, rest: string)
    requires |lines| > 1 && nl == "\n"
    ensures Join(lines) + nl + rest == lines[0] + nl + (Join(lines[1..]) + nl + rest)
  {
  }

  /** Break-free lines joined by newlines split back into themselves. */
  lemma {:induction false} JoinedLinesSplit(lines: seq<string>, rest: string)
    requires lines != [] && AllBreakFree(lines)
    ensures SplitLines(Join(lines) + "\n" + rest) == lines + SplitLines(rest)
    decreases |lines|
  {
    assert [lines[0]] + lines[1..] == lines;
    if |lines| == 1 {
      OneMoreLine(lines[0], rest);
    } else {
      JoinCons(lines, "\n", rest);
      OneMoreLine(lines[0], Join(lines[1..]) + "\n" + rest);
      JoinedLinesSplit(lines[1..], rest);
    }
  }

  /** Line endings are all the same to the line splitter. */
  lemma {:induction false} NewlinesDoNotMatter(cur: string, s: string)
    ensures LinesFrom(cur, UniversalNewlines(s)) == LinesFrom(cur, s)
    decreases |s|
  {
    var u := UniversalNewlines(s);
    if s == "" {
    } else if s[0] == '\r' && |s| > 1 && s[1] == '\n' {
      assert u[1..] == UniversalNewlines(s[2..]);
      NewlinesDoNotMatter("", s[2..]);
    } else if s[0] == '\r' {
      assert u[1..] == UniversalNewlines(s[1..]);
      NewlinesDoNotMatter("", s[1..]);
    } else {
      assert u[1..] == UniversalNewlines(s[1..]);
      if IsBreak(s[0]) {
        NewlinesDoNotMatter("", s[1..]);
      } else {
        NewlinesDoNotMatter(cur + [s[0]], s[1..]);
      }
    }
  }

  lemma {:induction false} LinesAreBreakFree(cur: string, s: string)
    requires BreakFree(cur)
    ensures AllBreakFree(LinesFrom(cur, s))
    decreases |s|
  {
    if s == "" {
    } else if s[0] == '\r' && |s| > 1 && s[1] == '\n' {
      LinesAreBreakFree("", s[2..]);
    } else if IsBreak(s[0]) {
      LinesAreBreakFree("", s[1..]);
    } else {
      LinesAreBreakFree(cur + [s[0]], s[1..]);
    }
  }

  lemma {:induction false} JoinSpaceBreakFree(lines: seq<string>)
    requires AllBreakFree(lines)
    ensures BreakFree(JoinSpace(lines))
    decreases |lines|
  {
    if |lines| > 1 {
      JoinSpaceBreakFree(lines[1..]);
    }
  }

  lemma OneLineBreakFree(v: string)
    ensures BreakFree(OneLine(v))
  {
    LinesAreBreakFree("", v);
    JoinSpaceBreakFree(SplitLines(v));
  }

  // ------------------------------------------------------------------ round trip

  /** Bodies as the commands make them: lines joined by newlines, no empty first or last line. */
  ghost predicate CleanLines(lines: seq<string>) {
    AllBreakFree(lines) && (lines != [] ==> lines[0] != "" && lines[|lines| - 1] != "")
  }

  lemma JoinEnds(lines: seq<string>)
    requires lines != [] && CleanLines(lines)
    ensures Join(lines) != ""
    ensures Join(lines)[0] == lines[0][0]
    ensures Join(lines)[|Join(lines)| - 1] == lines[|lines| - 1][|lines[|lines| - 1]| - 1]
  {
    JoinEndsTail(lines);
  }

  lemma {:induction false} JoinEndsTail(lines: seq<string>)
    requires lines != [] && lines[|lines| - 1] != ""
    ensures Join(lines) != ""
    ensures Join(lines)[|Join(lines)| - 1] == lines[|lines| - 1][|lines[|lines| - 1]| - 1]
    decreases |lines|
  {
    if |lines| > 1 {
      JoinEndsTail(lines[1..]);
    }
  }

  /** The lines of the printed front matter. */
  function FrontLines(m: Meta): seq<string> {
    SplitLines(Join(FieldLines(m)) + "\n")
  }

  /** The lines that a body is printed as. */
  function BodyLines(lines: seq<string>): seq<string> {
    if lines == [] then [""] else lines
  }

  lemma BodySplits(lines: seq<string>)
    requires CleanLines(lines)
    ensures RStripNewlines(Join(lines)) == Join(lines)
    ensures SplitLines(Join(lines) + "\n") == BodyLines(lines)
  {
    if lines != [] { JoinEnds(lines); }
    JoinedLinesSplit(BodyLines(lines), "");
    assert Join(lines) + "\n" == Join(BodyLines(lines)) + "\n" + "";
    assert BodyLines(lines) + SplitLines("") == BodyLines(lines);
  }

  lemma Regroup(f: string, fm: string, nl: string, rest: string)
    requires nl == "\n"
    ensures f + nl + fm + nl + f + nl + nl + rest == f + nl + (fm + nl + (f + nl + ("" + nl + rest)))
  {
  }

  /** A text of the printed shape, with any fence line `f`, splits at its joints. */
  lemma FencedSplits(f: string, fm: string, rest: string)
    requires BreakFree(f)
    ensures SplitLines(f + "\n" + fm + "\n" + f + "\n" + "\n" + rest) ==
            [f] + SplitLines(fm + "\n") + [f, ""] + SplitLines(rest)
  {
    Regroup(f, fm, "\n", rest);
    var tail := "" + "\n" + rest;
    var after := f + "\n" + tail;
    OneMoreLine(f, fm + "\n" + after);
    NewlineEndsLine("", fm, after);
    OneMoreLine(f, tail);
    OneMoreLine("", rest);
    FourParts([f], SplitLines(fm + "\n"), [f], [""], SplitLines(rest));
    assert [f] + [""] == [f, ""];
  }

  lemma FourParts(a: seq<string>, b: seq<string>, c: seq<string>, d: seq<string>, e: seq<string>)
    ensures a + (b + (c + (d + e))) == a + b + (c + d) + e
  {
  }

  lemma PrintedLines(m: Meta, lines: seq<string>)
    requires CleanLines(lines)
    ensures SplitLines(UniversalNewlines(Render(m, Join(lines)))) ==
            ["---"] + FrontLines(m) + ["---", ""] + BodyLines(lines)
  {
    NewlinesDoNotMatter("", Render(m, Join(lines)));
    BodySplits(lines);
    var fm, rest := Join(FieldLines(m)), Join(lines) + "\n";
    RenderShape(m, Join(lines), "---");
    FencedSplits("---", fm, rest);
  }

  lemma RenderShape(m: Meta, body: string, f: string)
    requires f == "---" && RStripNewlines(body) == body
    ensures Render(m, body) ==
            f + "\n" + Join(FieldLines(m)) + "\n" + f + "\n" + "\n" + (body + "\n")
  {
  }

  lemma {:induction false} JoinConcat(a: seq<string>, b: seq<string>)
    requires b != []
    ensures Join(a + b) == if a == [] then Join(b) else Join(a) + "\n" + Join(b)
    decreases |a|
  {
    if a == [] {
      assert a + b == b;
    } else {
      assert (a + b)[0] == a[0] && (a + b)[1..] == a[1..] + b;
      JoinConcat(a[1..], b);
    }
  }

  lemma {:induction false} StripStopsAt(x: string, c: char, y: string)
    requires c != '\n'
    ensures |LStripNewlines(x + [c] + y)| >= 1 + |y|
    decreases |x|
  {
    var s := x + [c] + y;
    if x != "" && x[0] == '\n' {
      assert s[1..] == x[1..] + [c] + y;
      StripStopsAt(x[1..], c, y);
    }
  }

  lemma FindAfter(front: seq<string>, line: string, rest: seq<string>)
    requires line !in front
    ensures Find(front + [line] + rest, line) == Some(|front|)
  {
    var all := front + [line] + rest;
    assert all[|front|] == line;
    forall j | 0 <= j < |front| ensures all[j] != line {
      assert all[j] == front[j];
    }
    forall n | |front| < n <= |all| ensures line in all[..n] {
      assert all[..n][|front|] == line;
    }
  }

  lemma FindBefore(front: seq<string>, line: string, rest: seq<string>)
    requires line in front
    ensures Find(front + rest, line).Some? && Find(front + rest, line).value < |front|
  {
    var i :| 0 <= i < |front| && front[i] == line;
    var all := front + rest;
    assert all[i] == line;
    forall n | i < n <= |all| ensures line in all[..n] {
      assert all[..n][i] == line;
    }
  }

  lemma CleanFrontParses(front: seq<string>, body: seq<string>)
    requires "---" !in front
    ensures ParseLines(["---"] + front + ["---", ""] + body) ==
            Ok((ParseFields(front), LStripNewlines(Join([""] + body))))
  {
    var all := ["---"] + front + ["---", ""] + body;
    assert all[1..] == front + ["---"] + ([""] + body);
    FindAfter(front, "---", [""] + body);
    assert all[1..|front| + 1] == front;
    assert all[|front| + 2..] == [""] + body;
  }

  lemma BlankThenBody(lines: seq<string>)
    requires CleanLines(lines)
    ensures LStripNewlines(Join([""] + BodyLines(lines))) == Join(lines)
  {
    JoinConcat([""], BodyLines(lines));
    var s := "\n" + Join(lines);
    assert Join([""] + BodyLines(lines)) == s;
    assert s[1..] == Join(lines);
    if lines != [] {
      JoinEnds(lines);
      assert !IsBreak(lines[0][0]);
    }
  }

  lemma FencedFrontSwallows(front: seq<string>, lines: seq<string>)
    requires "---" in front
    ensures var r := ParseLines(["---"] + front + ["---", ""] + BodyLines(lines));
            r.Ok? && |r.value.1| > |Join(lines)|
  {
    var rest := ["---", ""] + BodyLines(lines);
    var all := ["---"] + front + ["---", ""] + BodyLines(lines);
    assert all[1..] == front + rest;
    FindBefore(front, "---", rest);
    var i := Find(front + rest, "---").value;
    RestIsLonger(front[i + 1..], lines);
    assert all[i + 2..] == (front + rest)[i + 1..] == front[i + 1..] + rest;
  }

  lemma RestIsLonger(before: seq<string>, lines: seq<string>)
    ensures |LStripNewlines(Join(before + (["---", ""] + BodyLines(lines))))| > |Join(lines)|
  {
    var rest := ["---", ""] + BodyLines(lines);
    var y := "--\n\n" + Join(lines);
    FencedJoin(lines, y);
    JoinConcat(before, rest);
    StripStopsBefore(if before == [] then "" else Join(before) + "\n", y, Join(before + rest));
  }

  lemma FencedJoin(lines: seq<string>, y: string)
    requires y == "--\n\n" + Join(lines)
    ensures Join(["---", ""] + BodyLines(lines)) == ['-'] + y
  {
    assert ["---", ""] + BodyLines(lines) == ["---"] + ([""] + BodyLines(lines));
    JoinConcat(["---"], [""] + BodyLines(lines));
    JoinConcat([""], BodyLines(lines));
    FenceHead(Join(lines));
  }

  lemma StripStopsBefore(x: string, y: string, s: string)
    requires s == x + (['-'] + y)
    ensures |LStripNewlines(s)| > |y|
  {
    assert s == x + ['-'] + y;
    StripStopsAt(x, '-', y);
  }

  lemma FenceHead(b: string)
    ensures "---" + "\n" + ("" + "\n" + b) == ['-'] + ("--\n\n" + b)
  {
  }

  /**
   A printed log reads back with its body exactly when no line of its front matter is a fence;
   the fields are then those the front lines parse to.
   */
  lemma BodySurvives(m: Meta, lines: seq<string>)
    requires CleanLines(lines)
    ensures var r := Split(Render(m, Join(lines)));
            && r.Ok?
            && (r.value.1 == Join(lines) <==> "---" !in FrontLines(m))
            && ("---" !in FrontLines(m) ==> r.value.0 == ParseFields(FrontLines(m)))
  {
    PrintedLines(m, lines);
    if "---" !in FrontLines(m) {
      CleanFrontParses(FrontLines(m), BodyLines(lines));
      BlankThenBody(lines);
    } else {
      FencedFrontSwallows(FrontLines(m), lines);
    }
  }

  // ------------------------------------------------------------------ fields round trip

  /** A field as it comes back: key trimmed, value on one line and trimmed. */
  function Normalised(f: Field): Field {
    Field(Strip(f.key), Strip(OneLine(f.value)))
  }

  ghost predicate KeysBreakFree(m: Meta) {
    forall i :: 0 <= i < |m| ==> BreakFree(m[i].key)
  }

  ghost predicate KeysColonFree(m: Meta) {
    forall i :: 0 <= i < |m| ==> ':' !in m[i].key
  }

  /** Break-free keys: one printed line per field, none of them a fence. */
  lemma FrontLinesAreFields(m: Meta)
    requires KeysBreakFree(m)
    ensures m != [] ==> FrontLines(m) == FieldLines(m)
    ensures "---" !in FrontLines(m)
  {
    var ls := FieldLines(m);
    forall i | 0 <= i < |ls| ensures BreakFree(ls[i]) && ls[i] != "---" {
      OneLineBreakFree(m[i].value);
      assert ls[i][|m[i].key|] == ':';
    }
    if m != [] {
      JoinedLinesSplit(ls, "");
      assert Join(ls) + "\n" == Join(ls) + "\n" + "";
      assert SplitLines("") == [] && ls + [] == ls;
    } else {
      BreakFreeIsOneLine("", "");
    }
  }

  lemma StripLeadingSpace(v: string)
    ensures Strip(" " + v) == Strip(v)
  {
    assert (" " + v)[1..] == v;
  }

  lemma ColonFreeKeyParses(f: Field)
    requires ':' !in f.key
    ensures ParseField(FieldLine(f)) == Some(Normalised(f))
  {
    var l := FieldLine(f);
    var n := |f.key|;
    assert l[n] == ':';
    assert l[..n] == f.key;
    forall i | 0 <= i < n ensures l[i] != ':' {
      assert l[i] == f.key[i];
    }
    assert FirstColon(l) == Some(n);
    assert l[n + 1..] == " " + OneLine(f.value);
    StripLeadingSpace(OneLine(f.value));
  }

  /** Storing the fields one after the other, as a dictionary does. */
  function PutFields(m: Meta): Meta {
    if m == [] then [] else Put(PutFields(m[..|m| - 1]), Normalised(m[|m| - 1]))
  }

  lemma {:induction false} ColonFreeFieldsParse(m: Meta)
    requires KeysColonFree(m)
    ensures ParseFields(FieldLines(m)) == PutFields(m)
    decreases |m|
  {
    if m != [] {
      var init := m[..|m| - 1];
      assert FieldLines(m)[..|m| - 1] == FieldLines(init);
      ColonFreeFieldsParse(init);
      ColonFreeKeyParses(m[|m| - 1]);
    }
  }

  lemma NoFieldOnBlankLine(lines: seq<string>)
    requires |lines| == 1 && lines[0] == ""
    ensures ParseFields(lines) == []
  {
    assert lines[..0] == [] && FirstColon(lines[0]).None?;
  }

  ghost predicate TrimmedKeysDiffer(m: Meta) {
    forall i, j :: 0 <= i < j < |m| ==> Strip(m[i].key) != Strip(m[j].key)
  }

  function NormalisedFields(m: Meta): Meta {
    seq(|m|, i requires 0 <= i < |m| => Normalised(m[i]))
  }

  lemma PutNewKey(m: Meta, f: Field)
    requires forall i :: 0 <= i < |m| ==> m[i].key != f.key
    ensures Put(m, f) == m + [f]
  {
  }

  lemma {:induction false} DistinctFieldsKeepOrder(m: Meta)
    requires TrimmedKeysDiffer(m)
    ensures PutFields(m) == NormalisedFields(m)
    decreases |m|
  {
    if m != [] {
      var init, last := m[..|m| - 1], m[|m| - 1];
      DistinctFieldsKeepOrder(init);
      PutNewKey(NormalisedFields(init), Normalised(last));
      assert NormalisedFields(m) == NormalisedFields(init) + [Normalised(last)];
    }
  }

  /**
   The round trip: with keys free of colons and line breaks, reading a printed log gives the
   same body and the fields in order, keys trimmed and values on one line.
   */
  lemma RoundTrip(m: Meta, lines: seq<string>)
    requires CleanLines(lines) && KeysBreakFree(m) && KeysColonFree(m)
    ensures Split(Render(m, Join(lines))) == Ok((PutFields(m), Join(lines)))
    ensures TrimmedKeysDiffer(m) ==> PutFields(m) == NormalisedFields(m)
  {
    FrontLinesAreFields(m);
    BodySurvives(m, lines);
    ColonFreeFieldsParse(m);
    if m == [] {
      BreakFreeIsOneLine("", "");
      assert FieldLines([]) == [] && "" + "\n" == "\n";
      NoFieldOnBlankLine([""]);
    }
    if TrimmedKeysDiffer(m) {
      DistinctFieldsKeepOrder(m);
    }
  }
}
