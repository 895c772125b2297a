/** The front matter as a dictionary: what a reader finds in it after the commands have rewritten it. */
module MemLogFields {
  import opened Prelude
  import opened MemLog
  import opened MemLogCommands

  /** What the dictionary holds under a key. */
  function Value(m: Meta, key: string): Option<string> {
    match IndexOf(m, key)
    case None => None
    case Some(i) => Some(m[i].value)
  }

  ghost predicate KeysDiffer(m: Meta) {
    forall i, j :: 0 <= i < j < |m| ==> m[i].key != m[j].key
  }

  /** Keys as a reader makes them: trimmed, on one line, and without a colon. */
  ghost predicate ReadableKey(key: string) {
    Trimmed(key) && BreakFree(key) && ':' !in key
  }

  ghost predicate Readable(m: Meta) {
    KeysDiffer(m) && forall i :: 0 <= i < |m| ==> ReadableKey(m[i].key)
  }

  /** A value as it is printed and read again: on one line, and trimmed. */
  function Shown(v: string): string {
    Strip(OneLine(v))
  }

  // ------------------------------------------------------------------ one line

  lemma BreakFreeStays(v: string)
    requires BreakFree(v)
    ensures OneLine(v) == v
  {
    if v == "" {
      assert SplitLines(v) == [];
    } else {
      assert "" + v == v;
      LastLine("", v);
    }
  }

  /** Values keep their lines, with a space for each line break. */
  lemma LinesBecomeOne(l: string, rest: string)
    requires BreakFree(l)
    ensures OneLine(l + "\n" + rest) == if SplitLines(rest) == [] then l else l + " " + OneLine(rest)
  {
    OneMoreLine(l, rest);
    assert ([l] + SplitLines(rest))[1..] == SplitLines(rest);
  }

  lemma CleanValueStays(v: string)
    requires Trimmed(v) && BreakFree(v)
    ensures Shown(v) == v
  {
    BreakFreeStays(v);
    TrimmedStrips(v);
  }

  // ------------------------------------------------------------------ the dictionary

  lemma ValueAt(m: Meta, i: nat)
    requires KeysDiffer(m) && i < |m|
    ensures Value(m, m[i].key) == Some(m[i].value)
  {
    var j := IndexOf(m, m[i].key).value;
    assert m[j].key == m[i].key;
  }

  lemma ValueNone(m: Meta, key: string)
    ensures Value(m, key).None? <==> forall i :: 0 <= i < |m| ==> m[i].key != key
  {
  }

  lemma PutFacts(m: Meta, f: Field, key: string)
    requires KeysDiffer(m)
    ensures KeysDiffer(Put(m, f))
    ensures Value(Put(m, f), key) == if key == f.key then Some(f.value) else Value(m, key)
  {
    var n := Put(m, f);
    if key == f.key {
      var at := if IndexOf(m, f.key).Some? then IndexOf(m, f.key).value else |m|;
      assert n[at] == f;
      ValueAt(n, at);
    } else {
      OtherValue(m, f, key);
    }
  }

  lemma OtherValue(m: Meta, f: Field, key: string)
    requires KeysDiffer(m) && KeysDiffer(Put(m, f)) && key != f.key
    ensures Value(Put(m, f), key) == Value(m, key)
  {
    var n := Put(m, f);
    if i :| 0 <= i < |m| && m[i].key == key {
      assert n[i] == m[i];
      ValueAt(m, i);
      ValueAt(n, i);
    } else {
      assert forall j :: 0 <= j < |n| ==> n[j] == f || n[j] in m;
      ValueNone(m, key);
      ValueNone(n, key);
    }
  }

  /** Reading fields line by line: a line with a colon sets its key, and any other line changes nothing. */
  lemma LastLineSets(lines: seq<string>, line: string, key: string)
    requires KeysDiffer(ParseFields(lines))
    ensures var before, after := ParseFields(lines), ParseFields(lines + [line]);
            var f := ParseField(line);
            && KeysDiffer(after) && (f.None? <==> ':' !in line)
            && Value(after, key) == if f.Some? && f.value.key == key then Some(f.value.value) else Value(before, key)
  {
    assert (lines + [line])[..|lines|] == lines;
    var f := ParseField(line);
    if f.Some? {
      PutFacts(ParseFields(lines), f.value, key);
    }
  }

  lemma {:induction false} DropHas(m: Meta, gone: string, f: Field)
    ensures f in Drop(m, gone) <==> f in m && f.key != gone
    decreases |m|
  {
    if m != [] {
      DropHas(m[1..], gone, f);
      assert f in m <==> f == m[0] || f in m[1..];
    }
  }

  lemma {:induction false} DropKeysDiffer(m: Meta, gone: string)
    requires KeysDiffer(m)
    ensures KeysDiffer(Drop(m, gone))
    decreases |m|
  {
    if m != [] {
      var rest := Drop(m[1..], gone);
      DropKeysDiffer(m[1..], gone);
      forall j | 0 <= j < |rest| ensures rest[j].key != m[0].key {
        DropHas(m[1..], gone, rest[j]);
        var i :| 0 <= i < |m[1..]| && m[1..][i] == rest[j];
        assert m[i + 1] == rest[j];
      }
    }
  }

  lemma {:induction false} DropFacts(m: Meta, gone: string, key: string)
    ensures Value(Drop(m, gone), key) == if key == gone then None else Value(m, key)
    decreases |m|
  {
    if m != [] {
      DropFacts(m[1..], gone, key);
      FirstValue(m, key);
      if m[0].key == gone {
        assert Drop(m, gone) == Drop(m[1..], gone);
      } else {
        assert Drop(m, gone)[1..] == Drop(m[1..], gone);
        FirstValue(Drop(m, gone), key);
      }
    }
  }

  lemma FirstValue(m: Meta, key: string)
    ensures m != [] ==> Value(m, key) == if m[0].key == key then Some(m[0].value) else Value(m[1..], key)
  {
  }

  /** Stamping a dictionary changes `updated` alone, and puts it last. */
  lemma TouchValues(m: Meta, now: string, key: string)
    requires KeysDiffer(m)
    ensures KeysDiffer(Touch(m, now))
    ensures Value(Touch(m, now), key) == if key == "updated" then Some(now) else Value(m, key)
  {
    var d := Drop(m, "updated");
    DropKeysDiffer(m, "updated");
    DropFacts(m, "updated", "updated");
    DropFacts(m, "updated", key);
    assert Touch(m, now) == Put(d, Field("updated", now));
    PutFacts(d, Field("updated", now), key);
  }

  // ------------------------------------------------------------------ what a reader makes of lines

  lemma PieceIsClean(s: string, c: char)
    requires BreakFree(s)
    ensures Trimmed(Strip(s)) && BreakFree(Strip(s)) && (c !in s ==> c !in Strip(s))
  {
    StripBreakFree(s);
    var a, b := StripIs(s);
    if c in Strip(s) {
      var i :| 0 <= i < |Strip(s)| && Strip(s)[i] == c;
      assert s[|a| + i] == c;
    }
  }

  /** Whatever the lines are, what is parsed from them is a readable dictionary. */
  lemma {:induction false} ParsedIsReadable(lines: seq<string>)
    requires AllBreakFree(lines)
    ensures Readable(ParseFields(lines))
    decreases |lines|
  {
    if lines != [] {
      var l := lines[|lines| - 1];
      var before := ParseFields(lines[..|lines| - 1]);
      ParsedIsReadable(lines[..|lines| - 1]);
      if FirstColon(l).Some? {
        var i := FirstColon(l).value;
        PieceIsClean(l[..i], ':');
        var f := ParseField(l).value;
        PutFacts(before, f, f.key);
        assert forall j :: 0 <= j < |Put(before, f)| ==> Put(before, f)[j] == f || Put(before, f)[j] in before;
      }
    }
  }

  lemma ShownFields(m: Meta, key: string)
    requires Readable(m)
    ensures TrimmedKeysDiffer(m) && KeysDiffer(NormalisedFields(m))
    ensures Value(NormalisedFields(m), key) == match Value(m, key) case None => None case Some(v) => Some(Shown(v))
  {
    var n := NormalisedFields(m);
    forall i | 0 <= i < |m| ensures n[i] == Field(m[i].key, Shown(m[i].value)) && Strip(m[i].key) == m[i].key {
      TrimmedStrips(m[i].key);
    }
    if i :| 0 <= i < |m| && m[i].key == key {
      ValueAt(m, i);
      ValueAt(n, i);
    } else {
      ValueNone(m, key);
      ValueNone(n, key);
    }
  }

  /** A readable dictionary, printed with a body and read again: the same keys with the shown values. */
  lemma PrintedReadsBack(m: Meta, lines: seq<string>, key: string)
    requires Readable(m) && EntryLines(lines)
    ensures var r := Split(Render(m, Join(lines)));
            && r.Ok? && r.value.1 == Join(lines)
            && Value(r.value.0, key) == match Value(m, key) case None => None case Some(v) => Some(Shown(v))
  {
    ShownFields(m, key);
    EntryLinesAreClean(lines);
    RoundTrip(m, lines);
  }

  // ------------------------------------------------------------------ the commands

  /** What a reader of the log finds under a key. */
  ghost function Found(file: Option<string>, key: string): Option<string> {
    if file.Some? && Split(file.value).Ok? then Value(Split(file.value).value.0, key) else None
  }

  lemma StoredIsReadable(file: Option<string>, m: Meta, lines: seq<string>)
    requires Stores(file, m, lines)
    ensures file.Some? && Split(file.value).Ok? && Readable(Split(file.value).value.0)
    ensures Split(file.value).value.1 == Join(lines)
    ensures forall key :: Found(file, key).Some? ==> Trimmed(Found(file, key).value) && BreakFree(Found(file, key).value)
  {
    StoredReadsBack(file, m, lines);
    LinesAreBreakFree("", Join(FieldLines(m)) + "\n");
    ParsedIsReadable(FrontLines(m));
    forall key | Found(file, key).Some?
      ensures Trimmed(Found(file, key).value) && BreakFree(Found(file, key).value)
    {
      ParsedValuesAreClean(FrontLines(m), IndexOf(ParseFields(FrontLines(m)), key).value);
    }
  }

  lemma {:induction false} ParsedValuesAreClean(lines: seq<string>, i: nat)
    requires AllBreakFree(lines) && i < |ParseFields(lines)|
    ensures Trimmed(ParseFields(lines)[i].value) && BreakFree(ParseFields(lines)[i].value)
    decreases |lines|
  {
    var l := lines[|lines| - 1];
    var before := ParseFields(lines[..|lines| - 1]);
    if i < |before| {
      ParsedValuesAreClean(lines[..|lines| - 1], i);
    }
    if FirstColon(l).Some? {
      PieceIsClean(l[FirstColon(l).value + 1..], ':');
    }
  }

  lemma TouchIsReadable(m: Meta, now: string)
    requires Readable(m)
    ensures Readable(Touch(m, now))
  {
    TouchValues(m, now, "updated");
    var d := Drop(m, "updated");
    assert ReadableKey("updated");
    forall i | 0 <= i < |d| ensures ReadableKey(d[i].key) {
      DropHas(m, "updated", d[i]);
    }
  }

  /**
   Setting a field and reading the log again: the key holds the new value, `updated` the time, every
   other key what it held before, and the body is the same.
   */
  lemma SetReadsBack(file: Option<string>, m: Meta, lines: seq<string>, key: string, value: string, now: string,
                     other: string)
    requires Stores(file, m, lines) && ReadableKey(key) && key != "updated"
    ensures var after := Step(file, Set(key, value, now)).file;
            && after.Some? && Split(after.value).Ok? && Split(after.value).value.1 == Split(file.value).value.1
            && Found(after, key) == Some(Shown(value)) && Found(after, "updated") == Some(Shown(now))
            && (other != key && other != "updated" ==> Found(after, other) == Found(file, other))
  {
    StoredIsReadable(file, m, lines);
    var read := Split(file.value).value.0;
    var put := Put(read, Field(key, value));
    PutIsReadable(read, key, value);
    TouchIsReadable(put, now);
    FieldRead(read, put, Touch(put, now), lines, key, value, now, key);
    FieldRead(read, put, Touch(put, now), lines, key, value, now, "updated");
    FieldRead(read, put, Touch(put, now), lines, key, value, now, other);
    if Found(file, other).Some? {
      CleanValueStays(Found(file, other).value);
    }
  }

  lemma PutIsReadable(m: Meta, key: string, value: string)
    requires Readable(m) && ReadableKey(key)
    ensures Readable(Put(m, Field(key, value)))
  {
    var f := Field(key, value);
    PutFacts(m, f, key);
    assert forall j :: 0 <= j < |Put(m, f)| ==> Put(m, f)[j] == f || Put(m, f)[j] in m;
  }

  lemma FieldRead(read: Meta, put: Meta, t: Meta, lines: seq<string>, key: string, value: string, now: string,
                  k: string)
    requires Readable(read) && put == Put(read, Field(key, value)) && t == Touch(put, now)
    requires Readable(put) && Readable(t) && EntryLines(lines)
    ensures var r := Split(Render(t, Join(lines)));
            && r.Ok? && r.value.1 == Join(lines)
            && Value(r.value.0, k) ==
               if k == "updated" then Some(Shown(now))
               else if k == key then Some(Shown(value))
               else match Value(read, k) case None => None case Some(v) => Some(Shown(v))
  {
    PrintedReadsBack(t, lines, k);
    TouchValues(put, now, k);
    PutFacts(read, Field(key, value), k);
  }

  /** Appending an entry leaves every field as it was, except `updated`. */
  lemma AppendKeepsFields(file: Option<string>, m: Meta, lines: seq<string>, c: Command, key: string)
    requires Stores(file, m, lines) && c.Append? && Plain(c)
    ensures var after := Step(file, c).file;
            && after.Some? && Split(after.value).Ok?
            && Found(after, key) == if key == "updated" then Some(Shown(c.now)) else Found(file, key)
  {
    StoredIsReadable(file, m, lines);
    var read := Split(file.value).value.0;
    var entry := Entry(c.text, c.kind, c.author);
    EntryIsOneLine(c.text, c.kind, c.author);
    BodyWithEntry(lines, entry);
    TouchIsReadable(read, c.now);
    TouchValues(read, c.now, key);
    PrintedReadsBack(Touch(read, c.now), lines + [entry], key);
    if Found(file, key).Some? {
      CleanValueStays(Found(file, key).value);
    }
  }

  // ------------------------------------------------------------------ the fields given to `init`

  lemma {:induction false} SplitAtEquals(key: string, value: string)
    requires '=' !in key
    ensures FirstEquals(key + "=" + value) == Some(|key|)
    decreases |key|
  {
    var s := key + "=" + value;
    if key != "" {
      assert s[0] == key[0] && s[1..] == key[1..] + "=" + value;
      SplitAtEquals(key[1..], value);
    }
  }

  lemma {:induction false} GivenKeysDiffer(pairs: seq<string>)
    requires InitFields(pairs).Some?
    ensures KeysDiffer(InitFields(pairs).value)
    decreases |pairs|
  {
    if pairs != [] {
      GivenKeysDiffer(pairs[..|pairs| - 1]);
      var m, pair := InitFields(pairs[..|pairs| - 1]).value, pairs[|pairs| - 1];
      var i := FirstEquals(pair).value;
      PutFacts(m, Field(Strip(pair[..i]), Strip(pair[i + 1..])), "");
    }
  }

  /** One more pair: its trimmed key holds its trimmed value, whatever came before, and no other key changes. */
  lemma GivenFields(pairs: seq<string>, key: string, value: string, other: string)
    requires InitFields(pairs).Some? && '=' !in key
    ensures var all := InitFields(pairs + [key + "=" + value]);
            && all.Some? && Value(all.value, Strip(key)) == Some(Strip(value))
            && (other != Strip(key) ==> Value(all.value, other) == Value(InitFields(pairs).value, other))
  {
    var pair := key + "=" + value;
    var longer := pairs + [pair];
    assert longer[..|longer| - 1] == pairs;
    SplitAtEquals(key, value);
    assert pair[..|key|] == key && pair[|key| + 1..] == value;
    GivenKeysDiffer(pairs);
    PutFacts(InitFields(pairs).value, Field(Strip(key), Strip(value)), Strip(key));
    PutFacts(InitFields(pairs).value, Field(Strip(key), Strip(value)), other);
  }

  /** A new log: a reader finds the fields that were given, and the time. */
  lemma InitReadsBack(fields: seq<string>, now: string, key: string)
    requires InitFields(fields).Some? && forall f :: f in InitFields(fields).value ==> BreakFree(f.key) && ':' !in f.key
    ensures var after, m := Step(None, Init(fields, now)).file, InitFields(fields).value;
            && after.Some? && Split(after.value).Ok? && Split(after.value).value.1 == ""
            && Found(after, key) ==
               if key == "updated" then Some(Shown(now))
               else match Value(m, key) case None => None case Some(v) => Some(Shown(v))
  {
    var m := InitFields(fields).value;
    GivenKeysDiffer(fields);
    forall i | 0 <= i < |m| ensures ReadableKey(m[i].key) {
      GivenKeyIsTrimmed(fields, i);
      assert m[i] in m;
    }
    TouchIsReadable(m, now);
    TouchValues(m, now, key);
    PrintedReadsBack(Touch(m, now), [], key);
    assert Join([]) == "";
  }

  lemma {:induction false} GivenKeyIsTrimmed(pairs: seq<string>, i: nat)
    requires InitFields(pairs).Some? && i < |InitFields(pairs).value|
    ensures Trimmed(InitFields(pairs).value[i].key)
    decreases |pairs|
  {
    var m, pair := InitFields(pairs[..|pairs| - 1]).value, pairs[|pairs| - 1];
    if i < |m| {
      GivenKeyIsTrimmed(pairs[..|pairs| - 1], i);
    }
    var a, b := StripIs(pair[..FirstEquals(pair).value]);
  }
}
