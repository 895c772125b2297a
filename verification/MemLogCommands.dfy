/** The commands `init`, `append` and `set` of the memory log, and whole runs of them. */
module MemLogCommands {
  import opened Prelude
  import opened MemLog

  // ------------------------------------------------------------------ what the commands compute

  /** The inline tag. */
  function Tag(kind: string, author: string): string {
    if author == "" then kind else Strip(kind + " by " + author)
  }

  /** The tag and the text of one entry, on one line. */
  function Entry(text: string, kind: string, author: string): string {
    var who := Tag(kind, author);
    "- " + (if who == "" then "" else "(" + who + ") ") + JoinSpace(WordsFrom("", text))
  }

  function WithEntry(body: string, entry: string): string {
    if Strip(body) == "" then entry else RStripNewlines(body) + "\n" + entry
  }

  predicate IsEntryLine(line: string) {
    |line| >= 2 && line[0] == '-' && line[1] == ' '
  }

  function CountEntries(lines: seq<string>): nat {
    if lines == [] then 0 else (if IsEntryLine(lines[0]) then 1 else 0) + CountEntries(lines[1..])
  }

  /** The acknowledged number of entries. */
  function EntryCount(body: string): nat {
    CountEntries(SplitLines(body))
  }

  /** Each line counts on its own, and counts as one exactly when a dash and a space start it. */
  lemma {:induction false} CountIsByLine(a: seq<string>, b: seq<string>, line: string)
    ensures CountEntries(a + b) == CountEntries(a) + CountEntries(b)
    ensures CountEntries([line]) == if "- " <= line then 1 else 0
    decreases |a|
  {
    StartsEntry(line);
    assert [line][1..] == [];
    if a == [] {
      assert a + b == b;
    } else {
      assert (a + b)[1..] == a[1..] + b;
      CountIsByLine(a[1..], b, line);
    }
  }

  lemma StartsEntry(line: string)
    ensures IsEntryLine(line) <==> "- " <= line
  {
  }

  function FirstEquals(s: string): (r: Option<nat>)
    ensures r.Some? ==> r.value < |s|
  {
    if s == "" then None
    else if s[0] == '=' then Some(0)
    else
      match FirstEquals(s[1..])
      case None => None
      case Some(i) => Some(i + 1)
  }

  /** The fields given to `init`; one without `=` is refused. */
  function InitFields(pairs: seq<string>): Option<Meta> {
    if pairs == [] then Some([])
    else
      var pair := pairs[|pairs| - 1];
      match (InitFields(pairs[..|pairs| - 1]), FirstEquals(pair))
      case (Some(m), Some(i)) => Some(Put(m, Field(Strip(pair[..i]), Strip(pair[i + 1..]))))
      case _ => None
  }

  datatype Command =
    | Init(fields: seq<string>, now: string)
    | Append(text: string, kind: string, author: string, now: string)
    | Set(key: string, value: string, now: string)

  /** The stored file after a command, and the acknowledged count or the error. */
  datatype Reply = Reply(file: Option<string>, ack: Result<nat, LogError>)

  function Step(file: Option<string>, c: Command): Reply {
    match c
    case Init(fields, now) =>
      if file.Some? then Reply(file, Err(Exists))
      else
        (match InitFields(fields)
         case None => Reply(file, Err(BadField))
         case Some(m) => Reply(Some(Render(Touch(m, now), "")), Ok(0)))
    case Append(text, kind, author, now) =>
      if file.None? then Reply(file, Err(Missing))
      else
        (match Split(file.value)
         case Err(e) => Reply(file, Err(e))
         case Ok((m, body)) =>
           var longer := WithEntry(body, Entry(text, kind, author));
           Reply(Some(Render(Touch(m, now), longer)), Ok(EntryCount(longer))))
    case Set(key, value, now) =>
      if file.None? then Reply(file, Err(Missing))
      else
        (match Split(file.value)
         case Err(e) => Reply(file, Err(e))
         case Ok((m, body)) =>
           Reply(Some(Render(Touch(Put(m, Field(key, value)), now), body)), Ok(EntryCount(body))))
  }

  // ------------------------------------------------------------------ the commands as they run

  class LogFile {
    var file: Option<string>

    constructor (file: Option<string>)
      ensures this.file == file
    {
      this.file := file;
    }

    method CountLines(body: string) returns (n: nat)
      ensures n == EntryCount(body)
    {
      var lines := SplitLines(body);
      n := 0;
      var i := |lines|;
      while i > 0
        invariant 0 <= i <= |lines| && n == CountEntries(lines[i..])
      {
        i := i - 1;
        if IsEntryLine(lines[i]) {
          n := n + 1;
        }
        assert lines[i..][1..] == lines[i + 1..];
      }
      assert lines[0..] == lines;
    }

    method ReadFields(front: seq<string>) returns (meta: Meta)
      ensures meta == ParseFields(front)
    {
      meta := [];
      for i := 0 to |front|
        invariant meta == ParseFields(front[..i])
      {
        assert front[..i + 1][..i] == front[..i];
        var f := ParseField(front[i]);
        if f.Some? {
          meta := Put(meta, f.value);
        }
      }
      assert front[..|front|] == front;
    }

    /** Reading a log: the fence search, then the front lines one by one. */
    method ReadText(text: string) returns (r: Result<(Meta, string), LogError>)
      ensures r == Split(text)
    {
      var lines := SplitLines(UniversalNewlines(text));
      if lines == [] || lines[0] != "---" {
        return Err(NoFrontMatter);
      }
      var end := 1;
      while end < |lines| && lines[end] != "---"
        invariant 1 <= end <= |lines| && "---" !in lines[1..end]
      {
        assert lines[1..end + 1] == lines[1..end] + [lines[end]];
        end := end + 1;
      }
      FirstFence(lines, end);
      if end == |lines| {
        return Err(Unterminated);
      }
      var meta := ReadFields(lines[1..end]);
      return Ok((meta, LStripNewlines(Join(lines[end + 1..]))));
    }

    method CmdInit(fields: seq<string>, now: string) returns (ack: Result<nat, LogError>)
      modifies this
      ensures Reply(file, ack) == Step(old(file), Init(fields, now))
    {
      if file.Some? {
        return Err(Exists);
      }
      var meta: Meta := [];
      var bad := false;
      for i := 0 to |fields|
        invariant InitFields(fields[..i]) == Some(meta)
        invariant unchanged(this)
      {
        assert fields[..i + 1][..i] == fields[..i];
        var at := FirstEquals(fields[i]);
        if at.None? {
          BadFieldRefused(fields, i);
          return Err(BadField);
        }
        meta := Put(meta, Field(Strip(fields[i][..at.value]), Strip(fields[i][at.value + 1..])));
      }
      assert fields[..|fields|] == fields;
      meta := Drop(meta, "updated");
      meta := meta + [Field("updated", now)];
      file := Some(Render(meta, ""));
      return Ok(0);
    }

    method CmdAppend(text: string, kind: string, author: string, now: string) returns (ack: Result<nat, LogError>)
      modifies this
      ensures Reply(file, ack) == Step(old(file), Append(text, kind, author, now))
    {
      if file.None? {
        return Err(Missing);
      }
      var read := ReadText(file.value);
      if read.Err? {
        return Err(read.error);
      }
      var (meta, body) := read.value;
      var who := kind;
      if author != "" {
        who := Strip(who + " by " + author);
      }
      var tag := if who == "" then "" else "(" + who + ") ";
      var entry := "- " + tag + JoinSpace(WordsFrom("", text));
      if Strip(body) != "" {
        body := RStripNewlines(body) + "\n" + entry;
      } else {
        body := entry;
      }
      meta := Drop(meta, "updated");
      meta := meta + [Field("updated", now)];
      file := Some(Render(meta, body));
      var n := CountLines(body);
      return Ok(n);
    }

    method CmdSet(key: string, value: string, now: string) returns (ack: Result<nat, LogError>)
      modifies this
      ensures Reply(file, ack) == Step(old(file), Set(key, value, now))
    {
      if file.None? {
        return Err(Missing);
      }
      var read := ReadText(file.value);
      if read.Err? {
        return Err(read.error);
      }
      var (meta, body) := read.value;
      meta := Put(meta, Field(key, value));
      meta := Drop(meta, "updated");
      meta := meta + [Field("updated", now)];
      file := Some(Render(meta, body));
      var n := CountLines(body);
      return Ok(n);
    }
  }

  /** The line at which the search stops is the first fence, or there is none. */
  lemma FirstFence(lines: seq<string>, end: nat)
    requires 1 <= end <= |lines| && "---" !in lines[1..end] && (end < |lines| ==> lines[end] == "---")
    ensures Find(lines[1..], "---") == if end == |lines| then None else Some(end - 1)
  {
    if end < |lines| {
      assert lines[1..] == lines[1..end] + [lines[end]] + lines[end + 1..];
      FindAfter(lines[1..end], "---", lines[end + 1..]);
    } else {
      assert lines[1..] == lines[1..end];
    }
  }

  lemma {:induction false} BadFieldRefused(pairs: seq<string>, i: nat)
    requires i < |pairs| && FirstEquals(pairs[i]).None?
    ensures InitFields(pairs).None?
    decreases |pairs|
  {
    if i < |pairs| - 1 {
      BadFieldRefused(pairs[..|pairs| - 1], i);
    }
  }

  // ------------------------------------------------------------------ runs

  function Run(file: Option<string>, cs: seq<Command>): Option<string>
    decreases |cs|
  {
    if cs == [] then file else Run(Step(file, cs[0]).file, cs[1..])
  }

  /** The entries that a sequence of commands appends, in order. */
  function EntriesOf(cs: seq<Command>): seq<string> {
    if cs == [] then []
    else (if cs[0].Append? then [Entry(cs[0].text, cs[0].kind, cs[0].author)] else []) + EntriesOf(cs[1..])
  }

  /** A key one of whose lines is a fence once the colon follows it. */
  predicate HidesFence(key: string) {
    "---" in SplitLines(key + ":")
  }

  /** A tag without line breaks, a key that hides no fence; texts and values may contain anything. */
  ghost predicate Plain(c: Command) {
    match c
    case Init(_, _) => true
    case Append(_, kind, author, _) => BreakFree(Tag(kind, author))
    case Set(key, _, _) => !HidesFence(key)
  }

  ghost predicate EntryLines(lines: seq<string>) {
    AllBreakFree(lines) && forall i :: 0 <= i < |lines| ==> IsEntryLine(lines[i])
  }

  /** The stored file: fields that hide no fence, `updated` last, and exactly these body lines. */
  ghost predicate Stores(file: Option<string>, m: Meta, lines: seq<string>) {
    && file == Some(Render(m, Join(lines)))
    && m != [] && m[|m| - 1].key == "updated" && "---" !in FrontLines(m)
    && EntryLines(lines)
  }

  lemma StripBreakFree(s: string)
    requires BreakFree(s)
    ensures BreakFree(Strip(s))
  {
    LStripBreakFree(s);
    RStripBreakFree(LStrip(s));
  }

  lemma {:induction false} LStripBreakFree(s: string)
    requires BreakFree(s)
    ensures BreakFree(LStrip(s))
    decreases |s|
  {
    if s != "" && IsSpace(s[0]) {
      LStripBreakFree(s[1..]);
    }
  }

  lemma {:induction false} RStripBreakFree(s: string)
    requires BreakFree(s)
    ensures BreakFree(RStrip(s))
    decreases |s|
  {
    if s != "" && IsSpace(s[|s| - 1]) {
      RStripBreakFree(s[..|s| - 1]);
    }
  }

  lemma {:induction false} WordsBreakFree(cur: string, s: string)
    requires BreakFree(cur)
    ensures AllBreakFree(WordsFrom(cur, s))
    decreases |s|
  {
    if s != "" {
      if IsSpace(s[0]) {
        WordsBreakFree("", s[1..]);
      } else {
        WordsBreakFree(cur + [s[0]], s[1..]);
      }
    }
  }

  lemma EntryIsOneLine(text: string, kind: string, author: string)
    ensures BreakFree(Entry(text, kind, author)) <==> BreakFree(Tag(kind, author))
    ensures IsEntryLine(Entry(text, kind, author))
  {
    WordsBreakFree("", text);
    JoinSpaceBreakFree(WordsFrom("", text));
    var who, words := Tag(kind, author), JoinSpace(WordsFrom("", text));
    if who != "" {
      assert Entry(text, kind, author) == "- (" + who + (") " + words);
      PartIsBreakFreeToo("- (", who, ") " + words);
    }
  }

  lemma PartIsBreakFreeToo(a: string, b: string, c: string)
    requires BreakFree(a) && BreakFree(c)
    ensures BreakFree(a + b + c) <==> BreakFree(b)
  {
    forall i | 0 <= i < |b| ensures (a + b + c)[|a| + i] == b[i] {
    }
  }

  /**
   What the line of an appended entry holds: a dash, the tag in brackets if there is a kind or an author,
   and the text with its white space collapsed.
   */
  ghost predicate Records(line: string, text: string, kind: string, author: string) {
    exists words: string :: Collapses(text, words) &&
      line == "- " + (if kind == "" && author == "" then ""
                      else if author == "" then "(" + kind + ") "
                      else "(" + Strip(kind + " by " + author) + ") ") + words
  }

  lemma EntryRecords(text: string, kind: string, author: string)
    ensures Records(Entry(text, kind, author), text, kind, author)
  {
    WordsCollapse(text);
    if author != "" {
      AttributionStays(kind, author);
    }
  }

  /** An attribution is never blank. */
  lemma AttributionStays(kind: string, author: string)
    ensures Strip(kind + " by " + author) != ""
  {
    var s := kind + " by " + author;
    assert s[|kind| + 1] == 'b' && !IsSpace('b');
    var a, b := StripIs(s);
    assert AllSpace(a + b) && !AllSpace(s);
    assert Strip(s) == "" ==> a + Strip(s) + b == a + b;
  }

  lemma {:induction false} AllEntriesCount(lines: seq<string>)
    requires EntryLines(lines)
    ensures CountEntries(lines) == |lines|
    decreases |lines|
  {
    if lines != [] {
      AllEntriesCount(lines[1..]);
    }
  }

  lemma {:induction false} StripKeepsDash(s: string, i: nat)
    requires i < |s| && s[i] == '-'
    ensures Strip(s) != ""
  {
    LStripKeepsDash(s, i);
    var j :| 0 <= j < |LStrip(s)| && LStrip(s)[j] == '-';
    RStripKeepsDash(LStrip(s), j);
  }

  lemma {:induction false} LStripKeepsDash(s: string, i: nat)
    requires i < |s| && s[i] == '-'
    ensures exists j :: 0 <= j < |LStrip(s)| && LStrip(s)[j] == '-'
    decreases |s|
  {
    if IsSpace(s[0]) {
      LStripKeepsDash(s[1..], i - 1);
      assert LStrip(s) == LStrip(s[1..]);
    } else {
      assert LStrip(s)[i] == '-';
    }
  }

  lemma {:induction false} RStripKeepsDash(s: string, i: nat)
    requires i < |s| && s[i] == '-'
    ensures RStrip(s) != ""
    decreases |s|
  {
    if IsSpace(s[|s| - 1]) {
      RStripKeepsDash(s[..|s| - 1], i);
    }
  }

  /** Reading the stored lines of a body back: they are the body's lines, and all count. */
  lemma BodyReadsBack(lines: seq<string>)
    requires EntryLines(lines)
    ensures SplitLines(Join(lines)) == lines && EntryCount(Join(lines)) == |lines|
  {
    AllEntriesCount(lines);
    if lines == [] {
      assert SplitLines("") == [];
    } else {
      JoinedWithoutEnd(lines);
    }
  }

  lemma {:induction false} LastLine(cur: string, l: string)
    requires BreakFree(l) && cur + l != ""
    ensures LinesFrom(cur, l) == [cur + l]
    decreases |l|
  {
    if l == "" {
      assert cur + l == cur;
    } else {
      if |l| == 1 {
        assert l[1..] == "" && cur + [l[0]] == cur + l;
      } else {
        assert cur + [l[0]] + l[1..] == cur + l;
      }
      LastLine(cur + [l[0]], l[1..]);
      assert cur + [l[0]] + l[1..] == cur + l;
    }
  }

  lemma {:induction false} JoinedWithoutEnd(lines: seq<string>)
    requires lines != [] && AllBreakFree(lines) && lines[|lines| - 1] != ""
    ensures SplitLines(Join(lines)) == lines
    decreases |lines|
  {
    if |lines| == 1 {
      assert "" + lines[0] == lines[0];
      LastLine("", lines[0]);
      assert [lines[0]] == lines;
    } else {
      OneMoreLine(lines[0], Join(lines[1..]));
      JoinedWithoutEnd(lines[1..]);
      assert [lines[0]] + lines[1..] == lines;
    }
  }

  lemma EntryLinesAreClean(lines: seq<string>)
    requires EntryLines(lines)
    ensures CleanLines(lines)
  {
  }

  lemma {:induction false} ParsedKeysBreakFree(lines: seq<string>)
    requires AllBreakFree(lines)
    ensures KeysBreakFree(ParseFields(lines))
    decreases |lines|
  {
    if lines != [] {
      var l := lines[|lines| - 1];
      ParsedKeysBreakFree(lines[..|lines| - 1]);
      if FirstColon(l).Some? {
        StripBreakFree(l[..FirstColon(l).value]);
      }
    }
  }

  lemma {:induction false} DropBreakFree(m: Meta, key: string)
    requires KeysBreakFree(m)
    ensures KeysBreakFree(Drop(m, key))
    decreases |m|
  {
    if m != [] {
      DropBreakFree(m[1..], key);
    }
  }

  lemma TouchFacts(m: Meta, now: string)
    requires KeysBreakFree(m)
    ensures var t := Touch(m, now);
            KeysBreakFree(t) && t != [] && t[|t| - 1] == Field("updated", now)
  {
    DropBreakFree(m, "updated");
  }

  /** What a stored log reads back as: the body's lines, and fields with break-free keys. */
  lemma StoredReadsBack(file: Option<string>, m: Meta, lines: seq<string>)
    requires Stores(file, m, lines)
    ensures file.Some? && Split(file.value) == Ok((ParseFields(FrontLines(m)), Join(lines)))
    ensures KeysBreakFree(ParseFields(FrontLines(m)))
  {
    EntryLinesAreClean(lines);
    BodySurvives(m, lines);
    LinesAreBreakFree("", Join(FieldLines(m)) + "\n");
    ParsedKeysBreakFree(FrontLines(m));
  }

  lemma BodyWithEntry(lines: seq<string>, entry: string)
    requires EntryLines(lines) && BreakFree(entry) && IsEntryLine(entry)
    ensures EntryLines(lines + [entry])
    ensures WithEntry(Join(lines), entry) == Join(lines + [entry])
  {
    JoinConcat(lines, [entry]);
    if lines == [] {
      assert Strip("") == "";
    } else {
      EntryLinesAreClean(lines);
      BodySplits(lines);
      JoinEnds(lines);
      StripKeepsDash(Join(lines), 0);
    }
  }

  lemma AppendStores(file: Option<string>, m: Meta, lines: seq<string>, c: Command, entry: string)
    returns (next: Meta)
    requires Stores(file, m, lines) && Plain(c) && c.Append? && entry == Entry(c.text, c.kind, c.author)
    ensures Stores(Step(file, c).file, next, lines + [entry])
    ensures Step(file, c).ack == Ok(|lines + [entry]|) && next[|next| - 1] == Field("updated", c.now)
  {
    StoredReadsBack(file, m, lines);
    var read := ParseFields(FrontLines(m));
    next := Touch(read, c.now);
    TouchFacts(read, c.now);
    FrontLinesAreFields(next);
    EntryIsOneLine(c.text, c.kind, c.author);
    BodyWithEntry(lines, entry);
    BodyReadsBack(lines + [entry]);
  }

  lemma SetStores(file: Option<string>, m: Meta, lines: seq<string>, c: Command) returns (next: Meta)
    requires Stores(file, m, lines) && Plain(c) && c.Set?
    ensures Stores(Step(file, c).file, next, lines)
    ensures Step(file, c).ack == Ok(|lines|) && next[|next| - 1] == Field("updated", c.now)
  {
    StoredReadsBack(file, m, lines);
    var read := ParseFields(FrontLines(m));
    next := Touch(Put(read, Field(c.key, c.value)), c.now);
    OnlyTheKeyCanHide(read, c.key, c.value, c.now);
    FenceComesFromAKey(next);
    BodyReadsBack(lines);
  }

  lemma EntriesOfOne(c: Command)
    ensures EntriesOf([c]) == if c.Append? then [Entry(c.text, c.kind, c.author)] else []
  {
    assert [c][1..] == [];
  }

  /** One command: an append adds one line at the end, a set leaves the body alone. */
  lemma StepStores(file: Option<string>, m: Meta, lines: seq<string>, c: Command) returns (next: Meta)
    requires Stores(file, m, lines) && Plain(c)
    ensures Stores(Step(file, c).file, next, lines + EntriesOf([c]))
    ensures !c.Init? ==> Step(file, c).ack == Ok(|lines + EntriesOf([c])|) && next[|next| - 1] == Field("updated", c.now)
    ensures c.Init? ==> Step(file, c).ack == Err(Exists) && Step(file, c).file == file
  {
    EntriesOfOne(c);
    assert lines + [] == lines;
    if c.Append? {
      next := AppendStores(file, m, lines, c, Entry(c.text, c.kind, c.author));
    } else if c.Set? {
      next := SetStores(file, m, lines, c);
    } else {
      next := m;
    }
  }

  lemma {:induction false} EntriesConcat(c: Command, cs: seq<Command>)
    ensures EntriesOf([c] + cs) == EntriesOf([c]) + EntriesOf(cs)
  {
    assert ([c] + cs)[1..] == cs && [c][1..] == [];
  }

  lemma RunCons(file: Option<string>, cs: seq<Command>)
    requires cs != []
    ensures Run(file, cs) == Run(Step(file, cs[0]).file, cs[1..])
    ensures EntriesOf(cs) == EntriesOf([cs[0]]) + EntriesOf(cs[1..])
  {
    assert cs == [cs[0]] + cs[1..];
    EntriesConcat(cs[0], cs[1..]);
  }

  ghost predicate AllPlain(cs: seq<Command>) {
    forall i :: 0 <= i < |cs| ==> Plain(cs[i])
  }

  lemma AllPlainTail(cs: seq<Command>)
    requires cs != [] && AllPlain(cs)
    ensures Plain(cs[0]) && AllPlain(cs[1..])
  {
  }

  lemma {:induction false} RunStores(file: Option<string>, m: Meta, lines: seq<string>, cs: seq<Command>)
    returns (next: Meta)
    requires Stores(file, m, lines) && AllPlain(cs)
    ensures Stores(Run(file, cs), next, lines + EntriesOf(cs))
    decreases |cs|
  {
    if cs == [] {
      next := m;
      assert lines + [] == lines;
    } else {
      next := RunStoresStep(file, m, lines, cs);
    }
  }

  /** The first command's outcome, told without the command. */
  lemma FirstStores(file: Option<string>, m: Meta, lines: seq<string>, cs: seq<Command>)
    returns (after: Option<string>, mid: Meta, added: seq<string>)
    requires cs != [] && Stores(file, m, lines) && AllPlain(cs)
    ensures Stores(after, mid, lines + added)
    ensures Run(file, cs) == Run(after, cs[1..]) && EntriesOf(cs) == added + EntriesOf(cs[1..])
  {
    AllPlainTail(cs);
    mid := StepStores(file, m, lines, cs[0]);
    after, added := Step(file, cs[0]).file, EntriesOf([cs[0]]);
    RunCons(file, cs);
  }

  lemma {:induction false} RunStoresStep(file: Option<string>, m: Meta, lines: seq<string>, cs: seq<Command>)
    returns (next: Meta)
    requires cs != [] && Stores(file, m, lines) && AllPlain(cs)
    ensures Stores(Run(file, cs), next, lines + EntriesOf(cs))
    decreases |cs|, 0
  {
    var after, mid, added := FirstStores(file, m, lines, cs);
    AllPlainTail(cs);
    next := RunStores(after, mid, lines + added, cs[1..]);
    Associate(lines, added, EntriesOf(cs[1..]));
  }

  lemma Associate(a: seq<string>, b: seq<string>, c: seq<string>)
    ensures a + b + c == a + (b + c)
  {
  }

  /** What the file then reads back as: `lines` are its body lines, all counted; `updated` is last. */
  ghost predicate ReadsBackAs(file: Option<string>, lines: seq<string>) {
    && BodyIs(file, lines)
    && EntryCount(Split(file.value).value.1) == |lines|
    && exists m: Meta :: file == Some(Render(m, Split(file.value).value.1)) && UpdatedIsLast(m)
  }

  /** The body that a reader gets consists of exactly these lines. */
  ghost predicate BodyIs(file: Option<string>, lines: seq<string>) {
    && file.Some? && Split(file.value).Ok?
    && Split(file.value).value.1 == Join(lines)
    && SplitLines(Join(lines)) == lines
  }

  /** The last printed front line is the field `updated`. */
  ghost predicate UpdatedIsLast(m: Meta) {
    && m != [] && m[|m| - 1].key == "updated"
    && FrontLines(m) != [] && FrontLines(m)[|FrontLines(m)| - 1] == FieldLine(m[|m| - 1])
  }

  lemma LastFieldIsLastLine(m: Meta)
    requires m != [] && BreakFree(m[|m| - 1].key)
    ensures FrontLines(m) != [] && FrontLines(m)[|FrontLines(m)| - 1] == FieldLine(m[|m| - 1])
  {
    var last, before := FieldLine(m[|m| - 1]), FieldLines(m[..|m| - 1]);
    OneLineBreakFree(m[|m| - 1].value);
    BreakFreeIsOneLine("", last);
    assert "" + last == last && FieldLines(m) == before + [last];
    JoinConcat(before, [last]);
    if before != [] {
      assert Join(FieldLines(m)) + "\n" == Join(before) + "\n" + (last + "\n");
      NewlineEndsLine("", Join(before), last + "\n");
    }
  }

  lemma StoredIsRead(file: Option<string>, m: Meta, lines: seq<string>)
    requires Stores(file, m, lines) && BreakFree(m[|m| - 1].key)
    ensures ReadsBackAs(file, lines)
  {
    StoredReadsBack(file, m, lines);
    BodyReadsBack(lines);
    LastFieldIsLastLine(m);
    assert UpdatedIsLast(m);
  }

  /**
   Append-only: after any run of plain commands on a stored log, the body's lines are the old
   ones followed by the appended entries in order, and the count is their number.
   */
  lemma AppendOnly(file: Option<string>, m: Meta, lines: seq<string>, cs: seq<Command>)
    requires Stores(file, m, lines) && AllPlain(cs)
    ensures ReadsBackAs(Run(file, cs), lines + EntriesOf(cs))
  {
    var next := RunStores(file, m, lines, cs);
    StoredIsRead(Run(file, cs), next, lines + EntriesOf(cs));
  }

  /** None of the fields given to `init` hides a fence. */
  ghost predicate CleanFields(fields: seq<string>) {
    InitFields(fields).Some? && forall f :: f in InitFields(fields).value ==> !HidesFence(f.key)
  }

  lemma StampHidesNoFence(m: Meta, now: string)
    ensures "---" in FrontLines(Touch(m, now)) <==> exists f :: f in m && HidesFence(f.key)
  {
    var t := Touch(m, now);
    FenceComesFromAKey(t);
    BreakFreeHidesNoFence("updated");
    DropOnlyFrom(m, "updated");
    if i :| 0 <= i < |t| && HidesFence(t[i].key) {
      assert t[i] in Drop(m, "updated");
    }
    if f :| f in m && HidesFence(f.key) {
      var i :| 0 <= i < |m| && m[i] == f;
      DropKeeps(m, "updated", i);
      var j :| 0 <= j < |Drop(m, "updated")| && Drop(m, "updated")[j] == f;
      assert t[j] == f;
    }
  }

  /** The commands of a run that append, in order. */
  function Appends(cs: seq<Command>): (r: seq<Command>)
    ensures forall c :: c in r ==> c.Append?
  {
    if cs == [] then [] else (if cs[0].Append? then [cs[0]] else []) + Appends(cs[1..])
  }

  lemma {:induction false} EntriesAreRecords(cs: seq<Command>)
    ensures |EntriesOf(cs)| == |Appends(cs)|
    ensures forall k :: 0 <= k < |Appends(cs)| ==>
              var c := Appends(cs)[k]; Records(EntriesOf(cs)[k], c.text, c.kind, c.author)
    decreases |cs|
  {
    if cs != [] {
      EntriesAreRecords(cs[1..]);
      if cs[0].Append? {
        EntryRecords(cs[0].text, cs[0].kind, cs[0].author);
      }
    }
  }

  /**
   Line by line: after any run of plain commands on a stored log, the body a reader gets has the old
   lines first, and then one line for each append, which records that append's text.
   */
  lemma LinesRecordAppends(file: Option<string>, m: Meta, lines: seq<string>, cs: seq<Command>)
    requires Stores(file, m, lines) && AllPlain(cs)
    ensures var after := Run(file, cs);
            && after.Some? && Split(after.value).Ok?
            && var body := SplitLines(Split(after.value).value.1);
               && |body| == |lines| + |Appends(cs)| && body[..|lines|] == lines
               && forall k :: 0 <= k < |Appends(cs)| ==>
                    var c := Appends(cs)[k]; Records(body[|lines| + k], c.text, c.kind, c.author)
  {
    AppendOnly(file, m, lines, cs);
    EntriesAreRecords(cs);
    NewLines(lines, EntriesOf(cs));
  }

  lemma NewLines(lines: seq<string>, entries: seq<string>)
    ensures (lines + entries)[..|lines|] == lines
    ensures forall k :: 0 <= k < |entries| ==> (lines + entries)[|lines| + k] == entries[k]
  {
  }

  lemma InitStores(fields: seq<string>, now: string)
    requires CleanFields(fields)
    ensures Stores(Step(None, Init(fields, now)).file, Touch(InitFields(fields).value, now), [])
  {
    StampHidesNoFence(InitFields(fields).value, now);
  }

  /** From nothing: a successful init without hidden fences followed by any run of plain commands. */
  lemma AppendOnlyFromInit(fields: seq<string>, now: string, cs: seq<Command>)
    requires CleanFields(fields) && AllPlain(cs)
    ensures ReadsBackAs(Run(None, [Init(fields, now)] + cs), EntriesOf(cs))
  {
    InitStores(fields, now);
    AppendOnly(Step(None, Init(fields, now)).file, Touch(InitFields(fields).value, now), [], cs);
    assert ([Init(fields, now)] + cs)[1..] == cs;
    assert [] + EntriesOf(cs) == EntriesOf(cs);
  }

  // ------------------------------------------------------------------ append-only, exactly

  lemma BrokenTagBreaksTheBody(file: Option<string>, m: Meta, lines: seq<string>, c: Command)
    requires Stores(file, m, lines) && c.Append? && !Plain(c)
    ensures !BodyIs(Step(file, c).file, lines + EntriesOf([c]))
  {
    EntriesOfOne(c);
    EntryIsOneLine(c.text, c.kind, c.author);
    var all := lines + EntriesOf([c]);
    LinesAreBreakFree("", Join(all));
    assert !BreakFree(all[|lines|]);
  }

  lemma HiddenFenceBreaksTheBody(file: Option<string>, m: Meta, lines: seq<string>, c: Command)
    requires Stores(file, m, lines) && c.Set? && !Plain(c)
    ensures !BodyIs(Step(file, c).file, lines + EntriesOf([c]))
  {
    EntriesOfOne(c);
    assert lines + [] == lines;
    SetKeepsBodyUnlessKeyHidesFence(file, m, lines, c.key, c.value, c.now);
  }

  /** One command does to the body what it should exactly when it is plain. */
  lemma StepKeepsBodyIff(file: Option<string>, m: Meta, lines: seq<string>, c: Command)
    requires Stores(file, m, lines)
    ensures BodyIs(Step(file, c).file, lines + EntriesOf([c])) <==> Plain(c)
  {
    if Plain(c) {
      var next := StepStores(file, m, lines, c);
      StoredReadsBack(Step(file, c).file, next, lines + EntriesOf([c]));
      BodyReadsBack(lines + EntriesOf([c]));
    } else if c.Append? {
      BrokenTagBreaksTheBody(file, m, lines, c);
    } else {
      HiddenFenceBreaksTheBody(file, m, lines, c);
    }
  }

  /** After every command of the run, the body is the old one and the entries appended so far. */
  ghost predicate AppendsOnly(file: Option<string>, lines: seq<string>, cs: seq<Command>) {
    forall n :: 0 <= n <= |cs| ==> BodyIs(Run(file, cs[..n]), lines + EntriesOf(cs[..n]))
  }

  lemma AppendsOnlyTail(file: Option<string>, lines: seq<string>, cs: seq<Command>)
    requires cs != [] && AppendsOnly(file, lines, cs)
    ensures BodyIs(Step(file, cs[0]).file, lines + EntriesOf([cs[0]]))
    ensures AppendsOnly(Step(file, cs[0]).file, lines + EntriesOf([cs[0]]), cs[1..])
  {
    forall n | 0 <= n <= |cs| - 1
      ensures BodyIs(Run(Step(file, cs[0]).file, cs[1..][..n]), lines + EntriesOf([cs[0]]) + EntriesOf(cs[1..][..n]))
    {
      OneCommandOff(file, lines, cs, n);
      assert BodyIs(Run(file, cs[..n + 1]), lines + EntriesOf(cs[..n + 1]));
    }
    assert cs[1..][..0] == [] && EntriesOf([]) == [];
    assert lines + EntriesOf([cs[0]]) + [] == lines + EntriesOf([cs[0]]);
  }

  lemma OneCommandOff(file: Option<string>, lines: seq<string>, cs: seq<Command>, n: nat)
    requires n < |cs|
    ensures Run(file, cs[..n + 1]) == Run(Step(file, cs[0]).file, cs[1..][..n])
    ensures lines + EntriesOf(cs[..n + 1]) == lines + EntriesOf([cs[0]]) + EntriesOf(cs[1..][..n])
  {
    assert cs[..n + 1][0] == cs[0] && cs[..n + 1][1..] == cs[1..][..n];
    RunCons(file, cs[..n + 1]);
  }

  lemma {:induction false} AppendsOnlyMeansPlain(file: Option<string>, m: Meta, lines: seq<string>, cs: seq<Command>)
    requires Stores(file, m, lines) && AppendsOnly(file, lines, cs)
    ensures AllPlain(cs)
    decreases |cs|
  {
    if cs != [] {
      AppendsOnlyTail(file, lines, cs);
      StepKeepsBodyIff(file, m, lines, cs[0]);
      var next := StepStores(file, m, lines, cs[0]);
      AppendsOnlyMeansPlain(Step(file, cs[0]).file, next, lines + EntriesOf([cs[0]]), cs[1..]);
      assert forall i :: 1 <= i < |cs| ==> cs[i] == cs[1..][i - 1];
    }
  }

  /**
   Exactly when a log is append-only: the body is right after every command of a run if and only
   if no tag of an append contains a line break and no key that is set hides a fence.
   */
  lemma AppendOnlyIff(file: Option<string>, m: Meta, lines: seq<string>, cs: seq<Command>)
    requires Stores(file, m, lines)
    ensures AppendsOnly(file, lines, cs) <==> AllPlain(cs)
  {
    if AllPlain(cs) {
      forall n | 0 <= n <= |cs| ensures BodyIs(Run(file, cs[..n]), lines + EntriesOf(cs[..n])) {
        assert AllPlain(cs[..n]);
        AppendOnly(file, m, lines, cs[..n]);
      }
    } else if AppendsOnly(file, lines, cs) {
      AppendsOnlyMeansPlain(file, m, lines, cs);
    }
  }

  /** The same from nothing, for every `init` that succeeds: no field of it may hide a fence either. */
  lemma AppendOnlyFromInitIff(fields: seq<string>, now: string, cs: seq<Command>)
    requires InitFields(fields).Some?
    ensures AppendsOnly(Step(None, Init(fields, now)).file, [], cs) <==> CleanFields(fields) && AllPlain(cs)
  {
    var m := Touch(InitFields(fields).value, now);
    if CleanFields(fields) {
      InitStores(fields, now);
      AppendOnlyIff(Step(None, Init(fields, now)).file, m, [], cs);
    } else if AppendsOnly(Step(None, Init(fields, now)).file, [], cs) {
      assert cs[..0] == [] && EntriesOf([]) == [];
      assert BodyIs(Run(Step(None, Init(fields, now)).file, cs[..0]), [] + EntriesOf(cs[..0]));
      StampHidesNoFence(InitFields(fields).value, now);
      BodySurvives(m, []);
    }
  }

  // ------------------------------------------------------------------ keys with line breaks

  /** Only the part before the colon can hold a fence: the line with the colon is none. */
  lemma {:induction false} ColonLineIsNoFence(cur: string, key: string, rest: string)
    requires BreakFree(rest)
    ensures "---" in LinesFrom(cur, key + ":" + rest + "\n") <==> "---" in LinesFrom(cur, key + ":")
    decreases |key|
  {
    var s, t := key + ":" + rest + "\n", key + ":";
    if key == "" {
      assert s == (":" + rest) + "\n";
      BreakFreeIsOneLine(cur, ":" + rest);
      assert (cur + (":" + rest))[|cur|] == ':';
      assert t[1..] == "" && (cur + [':'])[|cur|] == ':';
      assert "---" != cur + (":" + rest) && "---" != cur + [':'];
    } else if key[0] == '\r' && |key| > 1 && key[1] == '\n' {
      assert s[2..] == key[2..] + ":" + rest + "\n" && t[2..] == key[2..] + ":";
      ColonLineIsNoFence("", key[2..], rest);
    } else {
      assert s[1..] == key[1..] + ":" + rest + "\n" && t[1..] == key[1..] + ":";
      assert |key| > 1 ==> s[1] == key[1] && t[1] == key[1];
      assert |key| == 1 ==> s[1] == ':' && t[1] == ':';
      if IsBreak(key[0]) {
        ColonLineIsNoFence("", key[1..], rest);
      } else {
        ColonLineIsNoFence(cur + [key[0]], key[1..], rest);
      }
    }
  }

  /** The front matter contains a fence exactly when one of its keys hides one. */
  lemma {:induction false} FenceComesFromAKey(m: Meta)
    requires m != []
    ensures "---" in FrontLines(m) <==> exists i :: 0 <= i < |m| && HidesFence(m[i].key)
    decreases |m|
  {
    var ls := FieldLines(m);
    var f := m[0];
    assert FieldLine(f) == f.key + ":" + (" " + OneLine(f.value));
    OneLineBreakFree(f.value);
    ColonLineIsNoFence("", f.key, " " + OneLine(f.value));
    if |m| > 1 {
      assert ls[1..] == FieldLines(m[1..]);
      assert Join(ls) + "\n" == ls[0] + "\n" + (Join(ls[1..]) + "\n");
      NewlineEndsLine("", ls[0], Join(ls[1..]) + "\n");
      FenceComesFromAKey(m[1..]);
      assert forall i :: 1 <= i < |m| ==> m[i] == m[1..][i - 1];
    }
  }

  /**
   Setting a field leaves the body alone exactly when the stored fields, with the new one,
   include no key that hides a fence.
   */
  lemma SetKeepsBodyIff(file: Option<string>, m: Meta, lines: seq<string>, key: string, value: string, now: string)
    requires Stores(file, m, lines)
    ensures var t := Touch(Put(ParseFields(FrontLines(m)), Field(key, value)), now);
            var next := Step(file, Set(key, value, now)).file;
            && next == Some(Render(t, Join(lines))) && Split(next.value).Ok?
            && (Split(next.value).value.1 == Join(lines) <==>
                forall i :: 0 <= i < |t| ==> !HidesFence(t[i].key))
  {
    StoredReadsBack(file, m, lines);
    EntryLinesAreClean(lines);
    var t := Touch(Put(ParseFields(FrontLines(m)), Field(key, value)), now);
    assert t != [];
    BodySurvives(t, lines);
    FenceComesFromAKey(t);
  }

  /** Of the fields that a set writes, one has the new key and all others have break-free keys. */
  lemma SetFields(read: Meta, key: string, value: string, now: string)
    requires KeysBreakFree(read)
    ensures var t := Touch(Put(read, Field(key, value)), now);
            && (exists i :: 0 <= i < |t| && t[i].key == key)
            && forall i :: 0 <= i < |t| && t[i].key != key ==> BreakFree(t[i].key)
  {
    var put := Put(read, Field(key, value));
    var t := Touch(put, now);
    assert t[|t| - 1].key == "updated";
    if key != "updated" {
      var at := if IndexOf(read, key).Some? then IndexOf(read, key).value else |read|;
      assert put[at].key == key;
      DropKeeps(put, "updated", at);
      var d := Drop(put, "updated");
      var i :| 0 <= i < |d| && d[i] == put[at];
      assert t[i] == d[i];
    }
    DropOnlyFrom(put, "updated");
    forall i | 0 <= i < |t| && t[i].key != key ensures BreakFree(t[i].key) {
      if i < |t| - 1 {
        assert t[i] in Drop(put, "updated");
        assert t[i] in read;
      }
    }
  }

  /** Break-free keys hide no fence; so only the new key can. */
  lemma SetKeepsBodyUnlessKeyHidesFence(
      file: Option<string>, m: Meta, lines: seq<string>, key: string, value: string, now: string)
    requires Stores(file, m, lines)
    ensures var next := Step(file, Set(key, value, now)).file;
            && next.Some? && Split(next.value).Ok?
            && (Split(next.value).value.1 == Join(lines) <==> !HidesFence(key))
  {
    StoredReadsBack(file, m, lines);
    SetKeepsBodyIff(file, m, lines, key, value, now);
    OnlyTheKeyCanHide(ParseFields(FrontLines(m)), key, value, now);
  }

  lemma OnlyTheKeyCanHide(read: Meta, key: string, value: string, now: string)
    requires KeysBreakFree(read)
    ensures var t := Touch(Put(read, Field(key, value)), now);
            HidesFence(key) <==> exists i :: 0 <= i < |t| && HidesFence(t[i].key)
  {
    SetFields(read, key, value, now);
    var t := Touch(Put(read, Field(key, value)), now);
    forall i | 0 <= i < |t| && t[i].key != key ensures !HidesFence(t[i].key) {
      BreakFreeHidesNoFence(t[i].key);
    }
  }

  lemma {:induction false} DropKeeps(m: Meta, key: string, i: nat)
    requires i < |m| && m[i].key != key
    ensures m[i] in Drop(m, key)
    decreases |m|
  {
    if i > 0 {
      DropKeeps(m[1..], key, i - 1);
    }
  }

  lemma {:induction false} DropOnlyFrom(m: Meta, key: string)
    ensures forall f :: f in Drop(m, key) ==> f in m
    decreases |m|
  {
    if m != [] {
      DropOnlyFrom(m[1..], key);
    }
  }

  lemma BreakFreeHidesNoFence(key: string)
    requires BreakFree(key)
    ensures !HidesFence(key)
  {
    assert BreakFree(key + ":");
    LastLine("", key + ":");
    assert ("" + (key + ":"))[|key|] == ':';
  }
}
