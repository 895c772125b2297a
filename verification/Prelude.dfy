/** Small datatypes and facts about sequences and strings that several modules share. */
module Prelude {

  datatype Option<+T> = None | Some(value: T)

  datatype Result<+T, +E> = Ok(value: T) | Err(error: E)

  ghost predicate Distinct<T(!new)>(s: seq<T>) {
    forall i, j :: 0 <= i < j < |s| ==> s[i] != s[j]
  }

  /** The elements of `s` as a set. */
  function Elements<T>(s: seq<T>): set<T> {
    set x | x in s
  }

  /** The order of strings, character by character. */
  predicate LexLess(a: string, b: string) {
    b != "" && (a == "" || a[0] < b[0] || (a[0] == b[0] && LexLess(a[1..], b[1..])))
  }

  /** They agree up to `k`, where `a` ends or has the smaller character. */
  predicate LessFrom(a: string, b: string, k: nat) {
    k <= |a| && k < |b| && a[..k] == b[..k] && (k == |a| || a[k] < b[k])
  }

  /** The order is decided where two strings first part. */
  lemma {:induction false} LexIsFirstDifference(a: string, b: string)
    ensures LexLess(a, b) <==> exists k: nat :: LessFrom(a, b, k)
    decreases |a|
  {
    if a != "" && b != "" && a[0] == b[0] {
      LexIsFirstDifference(a[1..], b[1..]);
      if k: nat :| LessFrom(a[1..], b[1..], k) {
        assert a[..k + 1] == [a[0]] + a[1..][..k] && b[..k + 1] == [b[0]] + b[1..][..k];
        assert LessFrom(a, b, k + 1);
      }
      if k: nat :| LessFrom(a, b, k) {
        LessRest(a, b, k);
      }
    } else {
      if LexLess(a, b) {
        assert LessFrom(a, b, 0);
      }
      if k: nat :| LessFrom(a, b, k) {
        if k > 0 {
          SameFirst(a, b, k);
        }
      }
    }
  }

  lemma SameFirst(a: string, b: string, k: nat)
    requires 0 < k <= |a| && k <= |b| && a[..k] == b[..k]
    ensures a[0] == b[0]
  {
    assert a[..k][0] == b[..k][0];
  }

  lemma LessRest(a: string, b: string, k: nat)
    requires a != "" && b != "" && a[0] == b[0] && LessFrom(a, b, k)
    ensures k > 0 && LessFrom(a[1..], b[1..], k - 1)
  {
    assert a[1..][..k - 1] == a[..k][1..] && b[1..][..k - 1] == b[..k][1..];
  }

  lemma {:induction false} LexTotal(a: string, b: string)
    ensures LexLess(a, b) || LexLess(b, a) || a == b
    ensures !(LexLess(a, b) && LexLess(b, a))
    ensures a == b ==> !LexLess(a, b)
    decreases |a|
  {
    if a != "" && b != "" && a[0] == b[0] {
      LexTotal(a[1..], b[1..]);
      assert [a[0]] + a[1..] == a && [b[0]] + b[1..] == b;
    }
  }

  lemma {:induction false} LexTransitive(a: string, b: string, c: string)
    requires LexLess(a, b) && LexLess(b, c)
    ensures LexLess(a, c)
    decreases |a|
  {
    if a != "" && a[0] == b[0] == c[0] {
      LexTransitive(a[1..], b[1..], c[1..]);
    }
  }

  /** The characters at which text is split into lines. */
  predicate IsBreak(c: char) {
    c in {'\n', '\r', '\U{0B}', '\U{0C}', '\U{1C}', '\U{1D}', '\U{1E}', '\U{85}', '\U{2028}', '\U{2029}'}
  }

  predicate IsSpace(c: char) {
    IsBreak(c) || c in {' ', '\t', '\U{1F}', '\U{A0}', '\U{1680}', '\U{202F}', '\U{205F}', '\U{3000}'}
    || '\U{2000}' <= c <= '\U{200A}'
  }

  function LStrip(s: string): string {
    if s != "" && IsSpace(s[0]) then LStrip(s[1..]) else s
  }

  function RStrip(s: string): string {
    if s != "" && IsSpace(s[|s| - 1]) then RStrip(s[..|s| - 1]) else s
  }

  function Strip(s: string): string {
    RStrip(LStrip(s))
  }

  predicate AllSpace(s: string) {
    forall i :: 0 <= i < |s| ==> IsSpace(s[i])
  }

  predicate Trimmed(s: string) {
    s == "" || (!IsSpace(s[0]) && !IsSpace(s[|s| - 1]))
  }

  lemma {:induction false} LStripIs(s: string) returns (a: string)
    ensures s == a + LStrip(s) && AllSpace(a) && (LStrip(s) == "" || !IsSpace(LStrip(s)[0]))
    decreases |s|
  {
    a := "";
    if s != "" && IsSpace(s[0]) {
      var rest := LStripIs(s[1..]);
      a := [s[0]] + rest;
      assert s == [s[0]] + s[1..];
    }
  }

  lemma {:induction false} RStripIs(s: string) returns (b: string)
    ensures s == RStrip(s) + b && AllSpace(b) && (RStrip(s) == "" || !IsSpace(RStrip(s)[|RStrip(s)| - 1]))
    decreases |s|
  {
    b := "";
    if s != "" && IsSpace(s[|s| - 1]) {
      var rest := RStripIs(s[..|s| - 1]);
      b := rest + [s[|s| - 1]];
      assert s == s[..|s| - 1] + [s[|s| - 1]];
    }
  }

  /** Stripping takes white space off both ends, all of it and nothing else. */
  lemma StripIs(s: string) returns (a: string, b: string)
    ensures s == a + Strip(s) + b && AllSpace(a) && AllSpace(b) && Trimmed(Strip(s))
  {
    a := LStripIs(s);
    b := RStripIs(LStrip(s));
    if Strip(s) != "" {
      assert LStrip(s)[0] == Strip(s)[0];
    }
  }

  /** A text without white space at its ends is its own strip. */
  lemma TrimmedStrips(s: string)
    requires Trimmed(s)
    ensures Strip(s) == s
  {
  }

  lemma {:induction false} SubsetNotLarger<T>(a: set<T>, b: set<T>)
    requires a <= b
    ensures |a| <= |b|
    decreases |a|
  {
    if a != {} {
      var x :| x in a;
      SubsetNotLarger(a - {x}, b - {x});
    }
  }

  lemma FewerElements<T>(a: set<T>, b: set<T>, x: T)
    requires a <= b - {x} && x in b
    ensures |a| < |b|
  {
    assert b == (b - {x}) + {x};
    SubsetNotLarger(a, b - {x});
  }

  /** Lines with newlines between them. */
  function Join(lines: seq<string>): string {
    if lines == [] then "" else if |lines| == 1 then lines[0] else lines[0] + "\n" + Join(lines[1..])
  }

  /** The seven questions, in order. */
  const FIELDS := 7

  function FieldId(i: nat): string
    requires i < FIELDS
  {
    match i
    case 0 => "name"
    case 1 => "location"
    case 2 => "referral"
    case 3 => "experience"
    case 4 => "projects"
    case 5 => "hardest"
    case _ => "goals"
  }

  lemma FieldIdsDiffer(i: nat, j: nat)
    requires i < FIELDS && j < FIELDS && FieldId(i) == FieldId(j)
    ensures i == j
  {
    assert FieldId(0)[0] == 'n' && FieldId(1)[0] == 'l' && FieldId(2)[0] == 'r' && FieldId(3)[0] == 'e';
    assert FieldId(4)[0] == 'p' && FieldId(5)[0] == 'h' && FieldId(6)[0] == 'g';
  }
}
