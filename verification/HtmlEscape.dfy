/** The escape that migration 091 writes as five nested SQL replaces. */
module HtmlEscape {

  /** SQL `replace` of a one-character pattern. */
  function Replace(s: string, c: char, image: string): string {
    if s == "" then "" else (if s[0] == c then image else [s[0]]) + Replace(s[1..], c, image)
  }

  const AMP := "&amp;"
  const LT := "&lt;"
  const GT := "&gt;"
  const QUOT := "&quot;"
  const APOS := "&#x27;"

  function Escape(s: string): string {
    Replace(Replace(Replace(Replace(Replace(s, '&', AMP), '<', LT), '>', GT), '"', QUOT), '\'', APOS)
  }

  /** The specification: what one character becomes. */
  function EscapeChar(c: char): string {
    match c
    case '&' => AMP
    case '<' => LT
    case '>' => GT
    case '"' => QUOT
    case '\'' => APOS
    case _ => [c]
  }

  function EscapeEach(s: string): string {
    if s == "" then "" else EscapeChar(s[0]) + EscapeEach(s[1..])
  }

  lemma {:induction false} ReplaceConcat(a: string, b: string, c: char, image: string)
    ensures Replace(a + b, c, image) == Replace(a, c, image) + Replace(b, c, image)
    decreases |a|
  {
    if a == "" {
      assert a + b == b;
    } else {
      assert (a + b)[1..] == a[1..] + b;
      ReplaceConcat(a[1..], b, c, image);
    }
  }

  lemma {:induction false} ReplaceAbsent(s: string, c: char, image: string)
    requires c !in s
    ensures Replace(s, c, image) == s
    decreases |s|
  {
    if s != "" {
      ReplaceAbsent(s[1..], c, image);
    }
  }

  lemma ReplaceOne(d: char, c: char, image: string)
    ensures Replace([d], c, image) == if d == c then image else [d]
  {
    assert [d][1..] == "";
  }

  /** One round of the chain on a first character's image and the rest. */
  lemma Round(a: string, b: string, c: char, image: string)
    requires c !in a || a == [c]
    ensures Replace(a + b, c, image) == (if a == [c] then image else a) + Replace(b, c, image)
  {
    ReplaceConcat(a, b, c, image);
    if a == [c] {
      ReplaceOne(c, c, image);
    } else {
      ReplaceAbsent(a, c, image);
    }
  }

  /** The first character passes through the five rounds on its own. */
  lemma FirstOfChain(c: char, t: string)
    ensures Escape([c] + t) == EscapeChar(c) + Escape(t)
  {
    var t1 := Replace(t, '&', AMP);
    var t2 := Replace(t1, '<', LT);
    var t3 := Replace(t2, '>', GT);
    var t4 := Replace(t3, '"', QUOT);
    var a1 := if c == '&' then AMP else [c];
    var a2 := if a1 == ['<'] then LT else a1;
    var a3 := if a2 == ['>'] then GT else a2;
    var a4 := if a3 == ['"'] then QUOT else a3;
    Round([c], t, '&', AMP);
    Round(a1, t1, '<', LT);
    Round(a2, t2, '>', GT);
    Round(a3, t3, '"', QUOT);
    Round(a4, t4, '\'', APOS);
  }

  /** The chain of replaces is one substitution per character: no later round touches an entity. */
  lemma {:induction false} ChainIsPerCharacter(s: string)
    ensures Escape(s) == EscapeEach(s)
    decreases |s|
  {
    if s != "" {
      FirstOfChain(s[0], s[1..]);
      ChainIsPerCharacter(s[1..]);
      assert s == [s[0]] + s[1..];
    }
  }

  // ------------------------------------------------------------------ the result is safe

  predicate IsEntity(e: string) {
    e in {AMP, LT, GT, QUOT, APOS}
  }

  ghost predicate StartsEntity(s: string) {
    exists e: string :: IsEntity(e) && e <= s
  }

  /** No raw markup character, and every ampersand begins one of the five entities. */
  ghost predicate Safe(s: string) {
    forall i :: 0 <= i < |s| ==>
      s[i] !in {'<', '>', '"', '\''} && (s[i] == '&' ==> StartsEntity(s[i..]))
  }

  lemma SafeConcat(a: string, b: string)
    requires Safe(a) && Safe(b)
    ensures Safe(a + b)
  {
    var s := a + b;
    forall i | 0 <= i < |s|
      ensures s[i] !in {'<', '>', '"', '\''} && (s[i] == '&' ==> StartsEntity(s[i..]))
    {
      if i < |a| {
        assert s[i] == a[i];
        if a[i] == '&' {
          var e: string :| IsEntity(e) && e <= a[i..];
          assert s[i..] == a[i..] + b;
          assert e <= s[i..];
        }
      } else {
        assert s[i] == b[i - |a|];
        assert s[i..] == b[i - |a|..];
      }
    }
  }

  lemma EscapeCharSafe(c: char)
    ensures Safe(EscapeChar(c))
  {
    var e := EscapeChar(c);
    if IsEntity(e) {
      assert e[0..] == e;
      assert StartsEntity(e[0..]);
      assert forall i :: 1 <= i < |e| ==> e[i] !in {'&', '<', '>', '"', '\''};
    }
  }

  lemma {:induction false} EscapedIsSafe(s: string)
    ensures Safe(Escape(s))
    decreases |s|
  {
    ChainIsPerCharacter(s);
    if s != "" {
      ChainIsPerCharacter(s[1..]);
      EscapedIsSafe(s[1..]);
      EscapeCharSafe(s[0]);
      SafeConcat(EscapeChar(s[0]), EscapeEach(s[1..]));
    }
  }

  // ------------------------------------------------------------------ nothing is lost

  /** What a reader of HTML makes of the text. */
  function Unescape(s: string): string
    decreases |s|
  {
    if s == "" then ""
    else if "&amp;" <= s then ['&'] + Unescape(s[5..])
    else if "&lt;" <= s then ['<'] + Unescape(s[4..])
    else if "&gt;" <= s then ['>'] + Unescape(s[4..])
    else if "&quot;" <= s then ['"'] + Unescape(s[6..])
    else if "&#x27;" <= s then ['\''] + Unescape(s[6..])
    else [s[0]] + Unescape(s[1..])
  }

  lemma UnescapeFirst(c: char, rest: string)
    ensures Unescape(EscapeChar(c) + rest) == [c] + Unescape(rest)
  {
    var e := EscapeChar(c);
    var s := e + rest;
    assert s[|e|..] == rest;
    assert s[0] == e[0];
    if IsEntity(e) {
      assert e <= s;
      assert s[1] == e[1] && s[2] == e[2];
    }
  }

  lemma {:induction false} EscapeLosesNothing(s: string)
    ensures Unescape(Escape(s)) == s
    decreases |s|
  {
    ChainIsPerCharacter(s);
    if s != "" {
      ChainIsPerCharacter(s[1..]);
      EscapeLosesNothing(s[1..]);
      UnescapeFirst(s[0], EscapeEach(s[1..]));
    }
  }
}
