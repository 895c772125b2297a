/**
 The bytes that an import source feeds to its hash: length-prefixed pages in terminated
 chunks, and the salt stage that adds the excluded author names.

 The hash itself is any function; what is proved is that the bytes fed to it determine
 what was imported.
 */
module ImportFraming {
  import opened Prelude

  newtype byte = x: int | 0 <= x < 256

  type Bytes = seq<byte>

  const FOUR_BYTES: nat := 0x1_0000_0000
  const CHUNK_SIZE: nat := 1024 * 1024

  // ------------------------------------------------------------------ four-byte lengths

  function BigEndian4(n: nat): (b: Bytes)
    requires n < FOUR_BYTES
    ensures |b| == 4
  {
    [(n / 0x100_0000) as byte, (n / 0x1_0000 % 0x100) as byte, (n / 0x100 % 0x100) as byte, (n % 0x100) as byte]
  }

  function FromBigEndian4(b: Bytes): nat
    requires |b| == 4
  {
    b[0] as nat * 0x100_0000 + b[1] as nat * 0x1_0000 + b[2] as nat * 0x100 + b[3] as nat
  }

  /** Four bytes, the most significant first. */
  lemma MostSignificantFirst(n: nat)
    requires n < FOUR_BYTES
    ensures var b := BigEndian4(n);
            n == ((b[0] as nat * 256 + b[1] as nat) * 256 + b[2] as nat) * 256 + b[3] as nat
  {
    var a, b, c := n / 0x100_0000, n / 0x1_0000, n / 0x100;
    assert b == a * 0x100 + b % 0x100;
    assert c == b * 0x100 + c % 0x100;
    assert n == c * 0x100 + n % 0x100;
  }

  lemma LengthRoundTrip(n: nat)
    requires n < FOUR_BYTES
    ensures FromBigEndian4(BigEndian4(n)) == n
  {
    MostSignificantFirst(n);
  }

  // ------------------------------------------------------------------ pages and their encoding

  /** A page as it is read: its encoded name and the non-empty chunks of its contents. */
  datatype Page = Page(name: Bytes, chunks: seq<Bytes>)

  predicate Framable(p: Page) {
    && |p.name| < FOUR_BYTES
    && forall i :: 0 <= i < |p.chunks| ==> 0 < |p.chunks[i]| < FOUR_BYTES
  }

  predicate AllFramable(ps: seq<Page>) {
    forall i :: 0 <= i < |ps| ==> Framable(ps[i])
  }

  function Framed(b: Bytes): Bytes
    requires |b| < FOUR_BYTES
  {
    BigEndian4(|b|) + b
  }

  function EncodeChunks(cs: seq<Bytes>): Bytes
    requires forall i :: 0 <= i < |cs| ==> 0 < |cs[i]| < FOUR_BYTES
  {
    if cs == [] then BigEndian4(0) else Framed(cs[0]) + EncodeChunks(cs[1..])
  }

  function EncodePage(p: Page): Bytes
    requires Framable(p)
  {
    Framed(p.name) + EncodeChunks(p.chunks)
  }

  function EncodePages(ps: seq<Page>): Bytes
    requires AllFramable(ps)
  {
    Flatten(seq(|ps|, i requires 0 <= i < |ps| => EncodePage(ps[i])))
  }

  function Flatten(cs: seq<Bytes>): Bytes {
    if cs == [] then [] else cs[0] + Flatten(cs[1..])
  }

  // ------------------------------------------------------------------ the decoder

  /** One length-prefixed block and what follows it. */
  function DecodeBlock(s: Bytes): (r: Option<(Bytes, Bytes)>)
    ensures r.Some? ==> |r.value.1| < |s|
  {
    if |s| < 4 then None
    else
      var n := FromBigEndian4(s[..4]);
      if |s| < 4 + n then None else Some((s[4..4 + n], s[4 + n..]))
  }

  /** Blocks up to and including the empty one. */
  function DecodeChunks(s: Bytes): (r: Option<(seq<Bytes>, Bytes)>)
    ensures r.Some? ==> |r.value.1| < |s|
    decreases |s|
  {
    match DecodeBlock(s)
    case None => None
    case Some((c, rest)) =>
      if c == [] then Some(([], rest))
      else
        match DecodeChunks(rest)
        case None => None
        case Some((cs, tail)) => Some(([c] + cs, tail))
  }

  function DecodePages(s: Bytes): Option<seq<Page>>
    decreases |s|
  {
    if s == [] then Some([])
    else
      match DecodeBlock(s)
      case None => None
      case Some((name, afterName)) =>
        match DecodeChunks(afterName)
        case None => None
        case Some((cs, rest)) =>
          match DecodePages(rest)
          case None => None
          case Some(ps) => Some([Page(name, cs)] + ps)
  }

  lemma BlockRoundTrip(b: Bytes, rest: Bytes)
    requires |b| < FOUR_BYTES
    ensures DecodeBlock(Framed(b) + rest) == Some((b, rest))
  {
    var s := Framed(b) + rest;
    assert s[..4] == BigEndian4(|b|);
    LengthRoundTrip(|b|);
    assert s[4..4 + |b|] == b;
    assert s[4 + |b|..] == rest;
  }

  lemma {:induction false} ChunksRoundTrip(cs: seq<Bytes>, rest: Bytes)
    requires forall i :: 0 <= i < |cs| ==> 0 < |cs[i]| < FOUR_BYTES
    ensures DecodeChunks(EncodeChunks(cs) + rest) == Some((cs, rest))
    decreases |cs|
  {
    if cs == [] {
      assert BigEndian4(0) + rest == Framed([]) + rest;
      BlockRoundTrip([], rest);
    } else {
      var tail := EncodeChunks(cs[1..]) + rest;
      assert EncodeChunks(cs) + rest == Framed(cs[0]) + tail;
      BlockRoundTrip(cs[0], tail);
      ChunksRoundTrip(cs[1..], rest);
      assert [cs[0]] + cs[1..] == cs;
    }
  }

  lemma EncodePagesFirst(ps: seq<Page>)
    requires AllFramable(ps) && ps != []
    ensures EncodePages(ps) == EncodePage(ps[0]) + EncodePages(ps[1..])
  {
    var bs := seq(|ps|, i requires 0 <= i < |ps| => EncodePage(ps[i]));
    assert bs[1..] == seq(|ps| - 1, i requires 0 <= i < |ps| - 1 => EncodePage(ps[1..][i]));
  }

  /** Decoding undoes encoding, for every split of every file into non-empty chunks. */
  lemma {:induction false} PagesRoundTrip(ps: seq<Page>)
    requires AllFramable(ps)
    ensures DecodePages(EncodePages(ps)) == Some(ps)
    decreases |ps|
  {
    if ps != [] {
      var rest := EncodePages(ps[1..]);
      var afterName := EncodeChunks(ps[0].chunks) + rest;
      EncodePagesFirst(ps);
      assert EncodePages(ps) == Framed(ps[0].name) + afterName;
      BlockRoundTrip(ps[0].name, afterName);
      ChunksRoundTrip(ps[0].chunks, rest);
      PagesRoundTrip(ps[1..]);
      assert [ps[0]] + ps[1..] == ps;
    }
  }

  lemma EncodingIsInjective(ps: seq<Page>, qs: seq<Page>)
    requires AllFramable(ps) && AllFramable(qs)
    ensures EncodePages(ps) == EncodePages(qs) <==> ps == qs
  {
    PagesRoundTrip(ps);
    PagesRoundTrip(qs);
  }

  // ------------------------------------------------------------------ files read in fixed-size chunks

  /** A source file: its name as bytes and its contents. */
  datatype File = File(name: Bytes, contents: Bytes)

  function InChunks(b: Bytes, size: nat): (cs: seq<Bytes>)
    requires size > 0
    ensures forall i :: 0 <= i < |cs| ==> 0 < |cs[i]| <= size
    decreases |b|
  {
    if b == [] then []
    else if |b| <= size then [b]
    else [b[..size]] + InChunks(b[size..], size)
  }

  lemma {:induction false} ChunksHoldTheContents(b: Bytes, size: nat)
    requires size > 0
    ensures Flatten(InChunks(b, size)) == b
    decreases |b|
  {
    if b == [] {
    } else if |b| <= size {
      assert Flatten([b]) == b + Flatten([]);
    } else {
      ChunksHoldTheContents(b[size..], size);
      assert InChunks(b, size)[1..] == InChunks(b[size..], size);
      assert b[..size] + b[size..] == b;
    }
  }

  /** Every chunk but the last is as long as a read may be. */
  lemma {:induction false} ChunksAreFull(b: Bytes, size: nat)
    requires size > 0
    ensures forall i :: 0 <= i < |InChunks(b, size)| - 1 ==> |InChunks(b, size)[i]| == size
    decreases |b|
  {
    if |b| > size {
      ChunksAreFull(b[size..], size);
    }
  }

  function AsPage(f: File): Page {
    Page(f.name, InChunks(f.contents, CHUNK_SIZE))
  }

  function AsPages(fs: seq<File>): seq<Page> {
    seq(|fs|, i requires 0 <= i < |fs| => AsPage(fs[i]))
  }

  predicate NamesFit(fs: seq<File>) {
    forall i :: 0 <= i < |fs| ==> |fs[i].name| < FOUR_BYTES
  }

  function HtmlStream(fs: seq<File>): Bytes
    requires NamesFit(fs)
  {
    EncodePages(AsPages(fs))
  }

  /** Two lists of pages feed the hash the same bytes exactly when they are the same list. */
  lemma HtmlStreamsAreUnique(fs: seq<File>, gs: seq<File>)
    requires NamesFit(fs) && NamesFit(gs)
    ensures HtmlStream(fs) == HtmlStream(gs) <==> fs == gs
  {
    EncodingIsInjective(AsPages(fs), AsPages(gs));
    if AsPages(fs) == AsPages(gs) {
      assert |fs| == |AsPages(fs)| == |AsPages(gs)| == |gs|;
      forall i | 0 <= i < |fs| ensures fs[i] == gs[i] {
        assert AsPages(fs)[i] == AsPages(gs)[i];
        ChunksHoldTheContents(fs[i].contents, CHUNK_SIZE);
        ChunksHoldTheContents(gs[i].contents, CHUNK_SIZE);
      }
    }
  }

  /** The page is this file: its name, and its contents cut after every megabyte. */
  ghost predicate Holds(p: Page, f: File) {
    && p.name == f.name && Flatten(p.chunks) == f.contents
    && forall i :: 0 <= i < |p.chunks| ==>
         0 < |p.chunks[i]| <= 1048576 && (i < |p.chunks| - 1 ==> |p.chunks[i]| == 1048576)
  }

  /** What is fed reads back as the files, in order. */
  lemma FilesReadBack(fs: seq<File>)
    requires NamesFit(fs)
    ensures DecodePages(HtmlStream(fs)) == Some(AsPages(fs)) && |AsPages(fs)| == |fs|
    ensures forall i :: 0 <= i < |fs| ==> Holds(AsPages(fs)[i], fs[i])
  {
    PagesRoundTrip(AsPages(fs));
    forall i | 0 <= i < |fs| ensures Holds(AsPages(fs)[i], fs[i]) {
      ChunksHoldTheContents(fs[i].contents, CHUNK_SIZE);
      ChunksAreFull(fs[i].contents, CHUNK_SIZE);
    }
  }

  /** The chunk boundaries are part of the bytes: the hash relies on every read filling its chunk. */
  lemma ChunkBoundariesAreVisible(name: Bytes, a: Bytes, b: Bytes)
    requires |name| < FOUR_BYTES && a != [] && b != [] && |a| + |b| < FOUR_BYTES
    ensures Flatten([a, b]) == Flatten([a + b])
    ensures EncodePages([Page(name, [a, b])]) != EncodePages([Page(name, [a + b])])
  {
    assert Flatten([a, b]) == a + Flatten([b]) && Flatten([b]) == b + Flatten([]);
    assert [a, b][1..] == [b];
    assert Flatten([a + b]) == a + b + Flatten([]);
    EncodingIsInjective([Page(name, [a, b])], [Page(name, [a + b])]);
  }

  // ------------------------------------------------------------------ text as bytes

  function Utf8Char(c: char): (b: Bytes)
    ensures 1 <= |b| <= 4
  {
    var n := c as int;
    if n < 0x80 then [n as byte]
    else if n < 0x800 then [(0xC0 + n / 0x40) as byte, (0x80 + n % 0x40) as byte]
    else if n < 0x1_0000 then
      [(0xE0 + n / 0x1000) as byte, (0x80 + n / 0x40 % 0x40) as byte, (0x80 + n % 0x40) as byte]
    else
      [(0xF0 + n / 0x4_0000) as byte, (0x80 + n / 0x1000 % 0x40) as byte,
       (0x80 + n / 0x40 % 0x40) as byte, (0x80 + n % 0x40) as byte]
  }

  function Utf8(s: string): Bytes {
    if s == "" then [] else Utf8Char(s[0]) + Utf8(s[1..])
  }

  lemma Utf8CharsAreSelfDelimiting(c: char, d: char, x: Bytes, y: Bytes)
    requires Utf8Char(c) + x == Utf8Char(d) + y
    ensures c == d && x == y
  {
    var p, q := Utf8Char(c), Utf8Char(d);
    assert (p + x)[0] == p[0] && (q + y)[0] == q[0];
    assert |p| == |q|;
    forall i | 0 <= i < |p| ensures p[i] == q[i] {
      assert (p + x)[i] == p[i] && (q + y)[i] == q[i];
    }
    assert x == (p + x)[|p|..] && y == (q + y)[|q|..];
    Utf8CharIsInjective(c, d);
  }

  lemma Utf8CharIsInjective(c: char, d: char)
    requires |Utf8Char(c)| == |Utf8Char(d)|
    requires forall i :: 0 <= i < |Utf8Char(c)| ==> Utf8Char(c)[i] == Utf8Char(d)[i]
    ensures c == d
  {
    var m, n := c as int, d as int;
    var p, q := Utf8Char(c), Utf8Char(d);
    if |p| == 1 {
      assert p[0] == q[0];
    } else if |p| == 2 {
      assert p[0] == q[0] && p[1] == q[1];
      assert m == m / 0x40 * 0x40 + m % 0x40 && n == n / 0x40 * 0x40 + n % 0x40;
    } else if |p| == 3 {
      assert p[0] == q[0] && p[1] == q[1] && p[2] == q[2];
      SplitBySix(m); SplitBySix(n);
    } else {
      assert p[0] == q[0] && p[1] == q[1] && p[2] == q[2] && p[3] == q[3];
      SplitBySix(m); SplitBySix(n);
    }
  }

  lemma SplitBySix(n: nat)
    ensures n == n / 0x1000 * 0x1000 + n / 0x40 % 0x40 * 0x40 + n % 0x40
    ensures n == n / 0x4_0000 * 0x4_0000 + n / 0x1000 % 0x40 * 0x1000 + n / 0x40 % 0x40 * 0x40 + n % 0x40
  {
    var a, b, c := n / 0x40, n / 0x1000, n / 0x4_0000;
    assert n == a * 0x40 + n % 0x40;
    assert b == a / 0x40 && a == b * 0x40 + a % 0x40;
    assert c == b / 0x40 && b == c * 0x40 + b % 0x40;
  }

  lemma {:induction false} Utf8IsInjective(s: string, t: string)
    requires Utf8(s) == Utf8(t)
    ensures s == t
    decreases |s|
  {
    if s != "" && t != "" {
      Utf8CharsAreSelfDelimiting(s[0], t[0], Utf8(s[1..]), Utf8(t[1..]));
      Utf8IsInjective(s[1..], t[1..]);
      assert [s[0]] + s[1..] == s && [t[0]] + t[1..] == t;
    }
  }

  // ------------------------------------------------------------------ bytes read as text

  predicate Continues(b: byte) {
    0x80 <= b < 0xC0
  }

  function Six(b: byte): nat
    requires Continues(b)
  {
    b as nat - 0x80
  }

  /** The code point at the start of the bytes, by the table in section 3 of RFC 3629, and the rest. */
  function DecodeChar(s: Bytes): (r: Option<(nat, Bytes)>)
    ensures r.Some? ==> |r.value.1| < |s|
  {
    if |s| >= 1 && s[0] < 0x80 then Some((s[0] as nat, s[1..]))
    else if |s| >= 2 && 0xC0 <= s[0] < 0xE0 && Continues(s[1]) then
      Some(((s[0] as nat - 0xC0) * 0x40 + Six(s[1]), s[2..]))
    else if |s| >= 3 && 0xE0 <= s[0] < 0xF0 && Continues(s[1]) && Continues(s[2]) then
      Some(((s[0] as nat - 0xE0) * 0x1000 + Six(s[1]) * 0x40 + Six(s[2]), s[3..]))
    else if |s| >= 4 && 0xF0 <= s[0] && Continues(s[1]) && Continues(s[2]) && Continues(s[3]) then
      Some(((s[0] as nat - 0xF0) * 0x4_0000 + Six(s[1]) * 0x1000 + Six(s[2]) * 0x40 + Six(s[3]), s[4..]))
    else None
  }

  function DecodeText(s: Bytes): Option<seq<nat>>
    decreases |s|
  {
    if s == [] then Some([])
    else
      match DecodeChar(s)
      case None => None
      case Some((c, rest)) =>
        match DecodeText(rest)
        case None => None
        case Some(cs) => Some([c] + cs)
  }

  function CodePoints(s: string): seq<nat> {
    seq(|s|, i requires 0 <= i < |s| => s[i] as nat)
  }

  lemma CharReadsBack(c: char, rest: Bytes)
    ensures DecodeChar(Utf8Char(c) + rest) == Some((c as nat, rest))
  {
    var b := Utf8Char(c);
    SplitBySix(c as nat);
    assert forall i :: 0 <= i < |b| ==> (b + rest)[i] == b[i];
    assert (b + rest)[|b|..] == rest;
  }

  /** Decoding a name gives its code points back. */
  lemma {:induction false} TextReadsBack(s: string)
    ensures DecodeText(Utf8(s)) == Some(CodePoints(s))
    decreases |s|
  {
    if s == "" {
      assert CodePoints(s) == [];
    } else {
      CharReadsBack(s[0], Utf8(s[1..]));
      TextReadsBack(s[1..]);
      assert CodePoints(s) == [s[0] as nat] + CodePoints(s[1..]);
    }
  }

  // ------------------------------------------------------------------ the order of names

  ghost predicate Increasing(ns: seq<string>) {
    forall i, j :: 0 <= i < j < |ns| ==> LexLess(ns[i], ns[j])
  }

  function InsertName(x: string, ns: seq<string>): seq<string> {
    if ns == [] || LexLess(x, ns[0]) then [x] + ns else [ns[0]] + InsertName(x, ns[1..])
  }

  lemma {:induction false} InsertNameSorts(x: string, ns: seq<string>)
    requires Increasing(ns) && x !in ns
    ensures Increasing(InsertName(x, ns)) && |InsertName(x, ns)| == |ns| + 1
    ensures Elements(InsertName(x, ns)) == Elements(ns) + {x}
    decreases |ns|
  {
    var r := InsertName(x, ns);
    if ns == [] {
    } else if LexLess(x, ns[0]) {
      forall j | 0 <= j < |ns| ensures LexLess(x, ns[j]) {
        if j > 0 { LexTransitive(x, ns[0], ns[j]); }
      }
      assert r[1..] == ns;
    } else {
      InsertNameSorts(x, ns[1..]);
      LexTotal(x, ns[0]);
      var rest := InsertName(x, ns[1..]);
      assert r[1..] == rest;
      forall j | 0 <= j < |rest| ensures LexLess(ns[0], rest[j]) {
        assert rest[j] in Elements(rest);
        if rest[j] != x {
          assert rest[j] in ns[1..];
        }
      }
      assert Elements(ns) == {ns[0]} + Elements(ns[1..]);
      assert Elements(r) == {ns[0]} + Elements(rest);
    }
  }

  function SortedNames(ns: seq<string>): seq<string> {
    if ns == [] then [] else InsertName(ns[|ns| - 1], SortedNames(ns[..|ns| - 1]))
  }

  lemma {:induction false} SortedNamesFacts(ns: seq<string>)
    requires Distinct(ns)
    ensures Increasing(SortedNames(ns)) && Elements(SortedNames(ns)) == Elements(ns)
    ensures |SortedNames(ns)| == |ns|
    decreases |ns|
  {
    if ns != [] {
      var init, x := ns[..|ns| - 1], ns[|ns| - 1];
      SortedNamesFacts(init);
      assert x !in Elements(init);
      assert x !in SortedNames(init) by {
        assert forall y :: y in SortedNames(init) ==> y in Elements(SortedNames(init));
      }
      InsertNameSorts(x, SortedNames(init));
      assert Elements(ns) == Elements(init) + {x};
    }
  }

  lemma EmptyOrNot(a: seq<string>)
    ensures a == [] <==> Elements(a) == {}
  {
    if a != [] {
      assert a[0] in Elements(a);
    }
  }

  /** An increasing list is determined by its elements. */
  lemma {:induction false} IncreasingIsUnique(a: seq<string>, b: seq<string>)
    requires Increasing(a) && Increasing(b) && Elements(a) == Elements(b)
    ensures a == b
    decreases |a|
  {
    EmptyOrNot(a);
    EmptyOrNot(b);
    if a != [] {
      FirstIsLeast(a, b);
      TailElements(a);
      TailElements(b);
      IncreasingIsUnique(a[1..], b[1..]);
      assert [a[0]] + a[1..] == a && [b[0]] + b[1..] == b;
    }
  }

  lemma TailElements(a: seq<string>)
    requires Increasing(a) && a != []
    ensures Elements(a[1..]) == Elements(a) - {a[0]}
  {
    forall x | x in Elements(a) - {a[0]} ensures x in Elements(a[1..]) {
      var i :| 0 <= i < |a| && a[i] == x;
      assert a[1..][i - 1] == x;
    }
    forall x | x in a[1..] ensures x != a[0] {
      var i :| 0 <= i < |a| - 1 && a[1..][i] == x;
      assert LexLess(a[0], a[i + 1]);
      LexTotal(a[0], a[i + 1]);
    }
  }

  lemma FirstIsLeast(a: seq<string>, b: seq<string>)
    requires Increasing(a) && Increasing(b) && Elements(a) == Elements(b) && a != [] && b != []
    ensures a[0] == b[0]
  {
    assert a[0] in Elements(b) && b[0] in Elements(a);
    var i :| 0 <= i < |b| && b[i] == a[0];
    var j :| 0 <= j < |a| && a[j] == b[0];
    LexTotal(a[0], b[0]);
  }

  // ------------------------------------------------------------------ the salt stage

  const SALT_LABEL: string := "shkoder-import-author-exclusions-v1\0"

  function EncodeNames(ns: seq<string>): Bytes
    requires forall i :: 0 <= i < |ns| ==> |Utf8(ns[i])| < FOUR_BYTES
  {
    if ns == [] then [] else Framed(Utf8(ns[0])) + EncodeNames(ns[1..])
  }

  predicate AllNamesFit(ns: seq<string>) {
    forall i :: 0 <= i < |ns| ==> |Utf8(ns[i])| < FOUR_BYTES
  }

  /** The salted stream for an inner digest and the excluded names in any iteration order. */
  function SaltedStream(digest: Bytes, order: seq<string>): Bytes
    requires AllNamesFit(SortedNames(order))
  {
    Labelled(SALT_LABEL, digest, SortedNames(order))
  }

  function Labelled(name: string, digest: Bytes, names: seq<string>): Bytes
    requires AllNamesFit(names)
  {
    Utf8(name) + digest + EncodeNames(names)
  }

  lemma SortedNamesFit(order: seq<string>)
    requires Distinct(order) && AllNamesFit(order)
    ensures AllNamesFit(SortedNames(order))
  {
    SortedNamesFacts(order);
    var s := SortedNames(order);
    forall i | 0 <= i < |s| ensures |Utf8(s[i])| < FOUR_BYTES {
      assert s[i] in Elements(s);
    }
  }

  lemma SortingKeepsFit(order: seq<string>)
    requires Distinct(order)
    ensures AllNamesFit(SortedNames(order)) <==> AllNamesFit(order)
  {
    if AllNamesFit(order) {
      SortedNamesFit(order);
    }
    if AllNamesFit(SortedNames(order)) {
      SortedNamesFacts(order);
      forall i | 0 <= i < |order| ensures |Utf8(order[i])| < FOUR_BYTES {
        assert order[i] in Elements(SortedNames(order));
      }
    }
  }

  lemma {:induction false} EncodedNamesAreUnique(a: seq<string>, b: seq<string>)
    requires AllNamesFit(a) && AllNamesFit(b) && EncodeNames(a) == EncodeNames(b)
    ensures a == b
    decreases |a|
  {
    if a != [] && b != [] {
      BlockRoundTrip(Utf8(a[0]), EncodeNames(a[1..]));
      BlockRoundTrip(Utf8(b[0]), EncodeNames(b[1..]));
      Utf8IsInjective(a[0], b[0]);
      EncodedNamesAreUnique(a[1..], b[1..]);
      assert [a[0]] + a[1..] == a && [b[0]] + b[1..] == b;
    }
  }

  lemma FixedPartsSplit(p: Bytes, d: Bytes, x: Bytes, e: Bytes, y: Bytes)
    requires |d| == |e| && p + d + x == p + e + y
    ensures d == e && x == y
  {
    var s, t := p + d + x, p + e + y;
    assert d == s[|p|..|p| + |d|] && e == t[|p|..|p| + |d|];
    assert x == s[|p| + |d|..] && y == t[|p| + |d|..];
  }

  lemma LabelledIsUnique(head: string, d: Bytes, a: seq<string>, e: Bytes, b: seq<string>)
    requires |d| == |e| && AllNamesFit(a) && AllNamesFit(b)
    requires Labelled(head, d, a) == Labelled(head, e, b)
    ensures d == e && a == b
  {
    FixedPartsSplit(Utf8(head), d, EncodeNames(a), e, EncodeNames(b));
    EncodedNamesAreUnique(a, b);
  }

  /** The salted stream determines the inner digest and the set of names, and nothing more. */
  lemma SaltedStreamsAreUnique(d: Bytes, a: seq<string>, e: Bytes, b: seq<string>)
    requires |d| == 32 && |e| == 32
    requires Distinct(a) && Distinct(b) && AllNamesFit(a) && AllNamesFit(b)
    ensures AllNamesFit(SortedNames(a)) && AllNamesFit(SortedNames(b))
    ensures SaltedStream(d, a) == SaltedStream(e, b) <==> d == e && Elements(a) == Elements(b)
  {
    SortedNamesFit(a);
    SortedNamesFit(b);
    SortedNamesFacts(a);
    SortedNamesFacts(b);
    if SaltedStream(d, a) == SaltedStream(e, b) {
      LabelledIsUnique(SALT_LABEL, d, SortedNames(a), e, SortedNames(b));
    }
    if Elements(a) == Elements(b) {
      IncreasingIsUnique(SortedNames(a), SortedNames(b));
    }
  }

  /** Blocks to the end, each decoded as text. */
  function DecodeNames(s: Bytes): Option<seq<seq<nat>>>
    decreases |s|
  {
    if s == [] then Some([])
    else
      match DecodeBlock(s)
      case None => None
      case Some((b, rest)) =>
        match (DecodeText(b), DecodeNames(rest))
        case (Some(n), Some(ns)) => Some([n] + ns)
        case _ => None
  }

  function AllCodePoints(ns: seq<string>): seq<seq<nat>> {
    seq(|ns|, i requires 0 <= i < |ns| => CodePoints(ns[i]))
  }

  lemma {:induction false} NamesReadBack(ns: seq<string>)
    requires AllNamesFit(ns)
    ensures DecodeNames(EncodeNames(ns)) == Some(AllCodePoints(ns))
    decreases |ns|
  {
    if ns != [] {
      BlockRoundTrip(Utf8(ns[0]), EncodeNames(ns[1..]));
      TextReadsBack(ns[0]);
      NamesReadBack(ns[1..]);
      assert AllCodePoints(ns) == [CodePoints(ns[0])] + AllCodePoints(ns[1..]);
    }
  }

  lemma {:induction false} AsciiBytes(s: string)
    requires forall i :: 0 <= i < |s| ==> s[i] as int < 0x80
    ensures |Utf8(s)| == |s| && forall i :: 0 <= i < |s| ==> Utf8(s)[i] as int == s[i] as int
    decreases |s|
  {
    if s != "" {
      AsciiBytes(s[1..]);
    }
  }

  /** The bytes are the label's characters, then the digest, then the names as framed text. */
  ghost predicate SaltedReads(s: Bytes, head: string, digest: Bytes, names: seq<string>) {
    var n, m := |head|, |head| + |digest|;
    && m <= |s| && (forall i :: 0 <= i < n ==> s[i] as int == head[i] as int)
    && s[n..m] == digest && DecodeNames(s[m..]) == Some(AllCodePoints(names))
  }

  lemma LabelledReads(head: string, digest: Bytes, names: seq<string>)
    requires AllNamesFit(names) && forall i :: 0 <= i < |head| ==> head[i] as int < 0x80
    ensures SaltedReads(Labelled(head, digest, names), head, digest, names)
  {
    var s, n, m := Labelled(head, digest, names), |head|, |head| + |digest|;
    AsciiBytes(head);
    NamesReadBack(names);
    assert forall i :: 0 <= i < n ==> s[i] == Utf8(head)[i];
    assert s[n..m] == digest && s[m..] == EncodeNames(names);
  }

  lemma LabelIsAscii()
    ensures forall i :: 0 <= i < |SALT_LABEL| ==> SALT_LABEL[i] as int < 0x80
  {
  }

  /** The salted stream reads back as the label, the inner digest and the excluded names in order. */
  lemma SaltedStreamReadsBack(digest: Bytes, order: seq<string>)
    requires Distinct(order) && AllNamesFit(order)
    ensures AllNamesFit(SortedNames(order)) && Increasing(SortedNames(order))
    ensures Elements(SortedNames(order)) == Elements(order)
    ensures SaltedReads(SaltedStream(digest, order), "shkoder-import-author-exclusions-v1\0", digest, SortedNames(order))
  {
    SortedNamesFit(order);
    SortedNamesFacts(order);
    LabelIsAscii();
    LabelledReads(SALT_LABEL, digest, SortedNames(order));
  }

  /** The first four bytes of the label, read as a length. */
  const LABEL_AS_LENGTH: nat := 0x7368_6B6F

  lemma AsciiFirst(s: string, b: byte)
    requires s != "" && s[0] as int == b as int < 0x80
    ensures Utf8(s) == [b] + Utf8(s[1..])
  {
  }

  lemma LabelStart(s: string, rest: Bytes)
    requires |s| >= 4 && s[0] == 's' && s[1] == 'h' && s[2] == 'k' && s[3] == 'o'
    ensures var b := Utf8(s) + rest;
            |b| >= 4 && b[..4] == [0x73, 0x68, 0x6B, 0x6F]
  {
    AsciiFirst(s, 0x73);
    AsciiFirst(s[1..], 0x68);
    AsciiFirst(s[1..][1..], 0x6B);
    AsciiFirst(s[1..][1..][1..], 0x6F);
    var four: Bytes := [0x73, 0x68, 0x6B, 0x6F];
    assert Utf8(s) + rest == four + (Utf8(s[1..][1..][1..][1..]) + rest);
  }

  lemma StreamStart(f: File, fs: seq<File>)
    requires NamesFit([f] + fs)
    ensures var b := HtmlStream([f] + fs);
            |b| >= 4 && b[..4] == BigEndian4(|f.name|)
  {
    var ps := AsPages([f] + fs);
    EncodePagesFirst(ps);
    var p, rest := EncodePage(ps[0]), EncodePages(ps[1..]);
    assert ps[0].name == f.name;
    assert p == BigEndian4(|f.name|) + (f.name + EncodeChunks(ps[0].chunks));
    assert (p + rest)[..4] == BigEndian4(|f.name|);
  }

  /**
   Salted and unsalted hashes of pages never come from the same bytes: no page list feeds what the
   salt stage feeds, unless its first name is as long as the label's first four bytes say.
   */
  lemma SaltedIsNoPageStream(fs: seq<File>, d: Bytes, order: seq<string>)
    requires NamesFit(fs) && AllNamesFit(SortedNames(order))
    requires fs != [] ==> |fs[0].name| != LABEL_AS_LENGTH
    ensures HtmlStream(fs) != SaltedStream(d, order)
  {
    LabelledIsNoPageStream(fs, SALT_LABEL, d, SortedNames(order));
  }

  lemma LabelledIsNoPageStream(fs: seq<File>, s: string, d: Bytes, names: seq<string>)
    requires NamesFit(fs) && AllNamesFit(names) && (fs != [] ==> |fs[0].name| != LABEL_AS_LENGTH)
    requires |s| >= 4 && s[0] == 's' && s[1] == 'h' && s[2] == 'k' && s[3] == 'o'
    ensures HtmlStream(fs) != Labelled(s, d, names)
  {
    LabelStart(s, d + EncodeNames(names));
    Associate(Utf8(s), d, EncodeNames(names));
    if fs == [] {
      assert AsPages(fs) == [];
    } else {
      assert fs == [fs[0]] + fs[1..];
      StreamStart(fs[0], fs[1..]);
      LengthIsNotLabel(|fs[0].name|);
    }
  }

  lemma Associate(a: Bytes, b: Bytes, c: Bytes)
    ensures a + b + c == a + (b + c)
  {
  }

  lemma LengthIsNotLabel(n: nat)
    requires n < FOUR_BYTES && n != LABEL_AS_LENGTH
    ensures BigEndian4(n) != [0x73, 0x68, 0x6B, 0x6F]
  {
    LengthRoundTrip(n);
    var four: Bytes := [0x73, 0x68, 0x6B, 0x6F];
    assert FromBigEndian4(four) == LABEL_AS_LENGTH;
  }

  // ------------------------------------------------------------------ the hashing code

  /** A hash object: what matters is the bytes it was fed. */
  class Digest {
    var fed: Bytes

    constructor ()
      ensures fed == []
    {
      fed := [];
    }

    method Update(b: Bytes)
      modifies this
      ensures fed == old(fed) + b
    {
      fed := fed + b;
    }
  }

  /** An open file that is read to its end in pieces of at most the size asked for. */
  class Handle {
    const contents: Bytes
    var position: nat

    constructor (contents: Bytes)
      ensures this.contents == contents && position == 0
    {
      this.contents, position := contents, 0;
    }

    method Read(size: nat) returns (chunk: Bytes)
      requires position <= |contents|
      modifies this
      ensures position == if old(position) + size <= |contents| then old(position) + size else |contents|
      ensures chunk == contents[old(position)..position]
    {
      var end := if position + size <= |contents| then position + size else |contents|;
      chunk := contents[position..end];
      position := end;
    }
  }

  lemma InChunksStep(b: Bytes, size: nat, k: nat)
    requires size > 0 && b != []
    requires k == if |b| <= size then |b| else size
    ensures InChunks(b, size) == [b[..k]] + InChunks(b[k..], size)
  {
    if |b| <= size {
      assert b[..k] == b && b[k..] == [];
    }
  }

  lemma EncodeChunksCons(c: Bytes, cs: seq<Bytes>)
    requires 0 < |c| < FOUR_BYTES && forall i :: 0 <= i < |cs| ==> 0 < |cs[i]| < FOUR_BYTES
    ensures forall i :: 0 <= i < |[c] + cs| ==> 0 < |([c] + cs)[i]| < FOUR_BYTES
    ensures EncodeChunks([c] + cs) == BigEndian4(|c|) + c + EncodeChunks(cs)
  {
    assert ([c] + cs)[1..] == cs;
  }

  /** What is still owed when `chunk` has been read and `after` has not. */
  lemma FeedStep(fed: Bytes, chunk: Bytes, after: Bytes, size: nat)
    requires 0 < size < FOUR_BYTES && chunk != []
    requires |chunk| == if |chunk + after| <= size then |chunk + after| else size
    ensures fed + EncodeChunks(InChunks(chunk + after, size)) ==
            fed + BigEndian4(|chunk|) + chunk + EncodeChunks(InChunks(after, size))
  {
    var rest := chunk + after;
    assert rest[..|chunk|] == chunk && rest[|chunk|..] == after;
    InChunksStep(rest, size, |chunk|);
    EncodeChunksCons(chunk, InChunks(after, size));
    Regroup(fed, BigEndian4(|chunk|), chunk, EncodeChunks(InChunks(after, size)));
  }

  lemma ReadAhead(contents: Bytes, from: nat, to: nat)
    requires from <= to <= |contents|
    ensures contents[from..] == contents[from..to] + contents[to..]
  {
  }

  lemma Regroup(a: Bytes, b: Bytes, c: Bytes, d: Bytes)
    ensures a + (b + c + d) == a + b + c + d
  {
  }

  /** The JSON branch: the file's bytes as they are. */
  method FeedWhole(contents: Bytes, digest: Digest)
    modifies digest
    ensures digest.fed == old(digest.fed) + contents
  {
    var handle := new Handle(contents);
    var chunk := handle.Read(CHUNK_SIZE);
    while chunk != []
      invariant fresh(handle) && handle.contents == contents && handle.position <= |contents|
      invariant chunk == contents[handle.position - |chunk|..handle.position]
      invariant |chunk| <= handle.position
      invariant digest.fed == old(digest.fed) + contents[..handle.position - |chunk|]
      invariant chunk == [] ==> handle.position == |contents|
      decreases |contents| - handle.position + |chunk|
    {
      digest.Update(chunk);
      assert contents[..handle.position] == contents[..handle.position - |chunk|] + chunk;
      chunk := handle.Read(CHUNK_SIZE);
    }
    assert contents[..|contents|] == contents;
  }

  /** The framed chunks of one file and the terminating empty block. */
  method FeedChunks(contents: Bytes, size: nat, digest: Digest)
    requires 0 < size < FOUR_BYTES
    modifies digest
    ensures digest.fed == old(digest.fed) + EncodeChunks(InChunks(contents, size))
  {
    ghost var whole := digest.fed + EncodeChunks(InChunks(contents, size));
    var handle := new Handle(contents);
    var chunk := handle.Read(size);
    ReadAhead(contents, 0, handle.position);
    assert contents[0..] == contents;
    while chunk != []
      invariant fresh(handle) && handle.contents == contents && handle.position <= |contents|
      invariant |chunk| == if |chunk + contents[handle.position..]| <= size
                           then |chunk + contents[handle.position..]| else size
      invariant whole == digest.fed + EncodeChunks(InChunks(chunk + contents[handle.position..], size))
      decreases |chunk| + |contents| - handle.position
    {
      ghost var at := handle.position;
      FeedStep(digest.fed, chunk, contents[at..], size);
      FeedOne(digest, chunk);
      chunk := handle.Read(size);
      ReadAhead(contents, at, handle.position);
    }
    assert chunk + contents[handle.position..] == [];
    digest.Update(BigEndian4(0));
  }

  method FeedOne(digest: Digest, chunk: Bytes)
    requires |chunk| < FOUR_BYTES
    modifies digest
    ensures digest.fed == old(digest.fed) + BigEndian4(|chunk|) + chunk
  {
    digest.Update(BigEndian4(|chunk|));
    digest.Update(chunk);
  }

  /** One page of the HTML branch: framed name, then its contents. */
  method FeedPage(f: File, digest: Digest)
    requires |f.name| < FOUR_BYTES
    modifies digest
    ensures digest.fed == old(digest.fed) + Framed(f.name) + EncodeChunks(InChunks(f.contents, CHUNK_SIZE))
  {
    digest.Update(BigEndian4(|f.name|));
    digest.Update(f.name);
    FeedChunks(f.contents, CHUNK_SIZE, digest);
  }

  lemma {:induction false} FlattenAppend(bs: seq<Bytes>, b: Bytes)
    ensures Flatten(bs + [b]) == Flatten(bs) + b
    decreases |bs|
  {
    if bs == [] {
      assert [b][1..] == [] && bs + [b] == [b];
    } else {
      assert (bs + [b])[1..] == bs[1..] + [b];
      FlattenAppend(bs[1..], b);
    }
  }

  lemma EncodePagesAppend(ps: seq<Page>, p: Page)
    requires AllFramable(ps) && Framable(p)
    ensures AllFramable(ps + [p])
    ensures EncodePages(ps + [p]) == EncodePages(ps) + EncodePage(p)
  {
    var bs := seq(|ps|, i requires 0 <= i < |ps| => EncodePage(ps[i]));
    FlattenAppend(bs, EncodePage(p));
    assert bs + [EncodePage(p)] == seq(|ps| + 1, i requires 0 <= i < |ps| + 1 => EncodePage((ps + [p])[i]));
  }

  /** A name that does not fit four bytes stops the import, as the length conversion raises. */
  datatype HashError = NameTooLong

  lemma NextPage(fs: seq<File>, i: nat, fed: Bytes)
    requires i < |fs| && NamesFit(fs[..i]) && |fs[i].name| < FOUR_BYTES
    ensures NamesFit(fs[..i + 1])
    ensures fed + HtmlStream(fs[..i + 1]) ==
            fed + HtmlStream(fs[..i]) + Framed(fs[i].name) + EncodeChunks(InChunks(fs[i].contents, CHUNK_SIZE))
  {
    var p := AsPage(fs[i]);
    assert fs[..i + 1] == fs[..i] + [fs[i]];
    assert AsPages(fs[..i + 1]) == AsPages(fs[..i]) + [p];
    EncodePagesAppend(AsPages(fs[..i]), p);
    Regroup(fed, HtmlStream(fs[..i]), Framed(p.name), EncodeChunks(p.chunks));
  }

  /** The HTML branch: every page in order, or an error at the first name that does not fit. */
  method FeedPages(files: seq<File>, digest: Digest) returns (r: Result<(), HashError>)
    modifies digest
    ensures r.Ok? <==> NamesFit(files)
    ensures r.Ok? ==> digest.fed == old(digest.fed) + HtmlStream(files)
  {
    ghost var before := digest.fed;
    for i := 0 to |files|
      invariant NamesFit(files[..i])
      invariant digest.fed == before + HtmlStream(files[..i])
    {
      if |files[i].name| >= FOUR_BYTES {
        return Err(NameTooLong);
      }
      NextPage(files, i, before);
      FeedPage(files[i], digest);
    }
    assert files[..|files|] == files;
    return Ok(());
  }

  /**
   The bytes fed to the inner hash: the framed pages of an HTML export, or the bytes of a
   JSON export unchanged.
   */
  method FeedSource(html: bool, files: seq<File>, digest: Digest) returns (r: Result<(), HashError>)
    requires !html ==> |files| == 1
    modifies digest
    ensures !html ==> r.Ok? && digest.fed == old(digest.fed) + files[0].contents
    ensures html ==> (r.Ok? <==> NamesFit(files))
    ensures html && r.Ok? ==> digest.fed == old(digest.fed) + HtmlStream(files)
  {
    if !html {
      FeedWhole(files[0].contents, digest);
      return Ok(());
    }
    r := FeedPages(files, digest);
  }

  lemma EncodeNamesCons(n: string, ns: seq<string>)
    requires AllNamesFit(ns) && |Utf8(n)| < FOUR_BYTES
    ensures AllNamesFit([n] + ns) && EncodeNames([n] + ns) == Framed(Utf8(n)) + EncodeNames(ns)
  {
    assert ([n] + ns)[1..] == ns;
  }

  lemma {:induction false} EncodeNamesAppend(ns: seq<string>, n: string)
    requires AllNamesFit(ns) && |Utf8(n)| < FOUR_BYTES
    ensures AllNamesFit(ns + [n]) && EncodeNames(ns + [n]) == EncodeNames(ns) + Framed(Utf8(n))
    decreases |ns|
  {
    if ns == [] {
      EncodeNamesCons(n, []);
      assert [] + [n] == [n] + [];
    } else {
      var tail := ns[1..];
      EncodeNamesAppend(tail, n);
      EncodeNamesCons(ns[0], tail);
      EncodeNamesCons(ns[0], tail + [n]);
      assert ns == [ns[0]] + tail && ns + [n] == [ns[0]] + (tail + [n]);
    }
  }

  lemma NextName(ns: seq<string>, i: nat, fed: Bytes)
    requires i < |ns| && AllNamesFit(ns[..i]) && |Utf8(ns[i])| < FOUR_BYTES
    ensures AllNamesFit(ns[..i + 1])
    ensures fed + EncodeNames(ns[..i + 1]) ==
            fed + EncodeNames(ns[..i]) + BigEndian4(|Utf8(ns[i])|) + Utf8(ns[i])
  {
    EncodeNamesAppend(ns[..i], ns[i]);
    assert ns[..i + 1] == ns[..i] + [ns[i]];
  }

  /** The excluded names in sorted order, whatever order the set yields them in. */
  method SortNames(order: seq<string>) returns (names: seq<string>)
    ensures names == SortedNames(order)
  {
    names := [];
    for i := 0 to |order|
      invariant names == SortedNames(order[..i])
    {
      assert order[..i + 1][..i] == order[..i];
      names := InsertName(order[i], names);
    }
    assert order[..|order|] == order;
  }

  method FeedNames(names: seq<string>, salted: Digest) returns (r: Result<(), HashError>)
    modifies salted
    ensures r.Ok? <==> AllNamesFit(names)
    ensures r.Ok? ==> salted.fed == old(salted.fed) + EncodeNames(names)
  {
    ghost var before := salted.fed;
    for i := 0 to |names|
      invariant AllNamesFit(names[..i])
      invariant salted.fed == before + EncodeNames(names[..i])
    {
      var encoded := Utf8(names[i]);
      if |encoded| >= FOUR_BYTES {
        return Err(NameTooLong);
      }
      NextName(names, i, before);
      salted.Update(BigEndian4(|encoded|));
      salted.Update(encoded);
    }
    assert names[..|names|] == names;
    return Ok(());
  }

  /** The label, the inner hash and the sorted names, in that order. */
  method FeedSalt(head: Bytes, inner: Bytes, order: seq<string>, salted: Digest)
    returns (r: Result<(), HashError>)
    modifies salted
    ensures r.Ok? <==> AllNamesFit(SortedNames(order))
    ensures r.Ok? ==> salted.fed == old(salted.fed) + (head + inner + EncodeNames(SortedNames(order)))
  {
    salted.Update(head);
    salted.Update(inner);
    var names := SortNames(order);
    r := FeedNames(names, salted);
  }

  /**
   The bytes whose hash is reported: the source bytes when nothing is excluded, otherwise
   the label, the inner hash and the sorted names.  `order` is the set's iteration order.
   */
  method SaltImportHash(source: Bytes, sha: Bytes -> Bytes, order: seq<string>)
    returns (r: Result<Bytes, HashError>)
    requires Distinct(order)
    ensures order == [] ==> r == Ok(source)
    ensures order != [] ==> (r.Ok? <==> AllNamesFit(order))
    ensures order != [] && r.Ok? ==> AllNamesFit(SortedNames(order)) && r.value == SaltedStream(sha(source), order)
    ensures order != [] && r.Ok? ==>
              SaltedReads(r.value, "shkoder-import-author-exclusions-v1\0", sha(source), SortedNames(order))
  {
    SortingKeepsFit(order);
    if AllNamesFit(order) {
      SaltedStreamReadsBack(sha(source), order);
    }
    if order == [] {
      return Ok(source);
    }
    var salted := new Digest();
    var head := Utf8(SALT_LABEL);
    var fed := FeedSalt(head, sha(source), order, salted);
    if fed.Err? {
      return Err(fed.error);
    }
    return Ok(salted.fed);
  }
}
