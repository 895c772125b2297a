/** The verdict of the coverage audit: what is eligible against what the index holds. */
module CoverageReport {
  import opened Prelude
  import opened CoverageAudit

  /** A row of the index, with its source list in position order. */
  datatype UnitRow = UnitRow(
    source: SourceId, revision: string, chunk: int, chunks: int, chat: int, hash: string, model: string,
    status: string, invalidated: bool, versions: seq<int>)

  function KeyOf(r: UnitRow): Identity {
    Identity(r.source, r.revision, r.chunk, r.chunks, r.chat, r.hash, r.model)
  }

  predicate Completed(r: UnitRow) {
    r.status == "completed"
  }

  datatype Reasons = Reasons(
    noEligible: nat, activeIdentity: nat, missingIdentity: nat, expectedInvalidated: nat,
    provenanceMismatch: nat, unexpectedActive: nat, unresolvedClaim: nat)

  datatype Report = Report(
    pass: bool, eligible: nat, indexed: nat, missing: nat, unexpectedActive: nat,
    unresolvedClaims: nat, unresolvedStatuses: map<string, nat>, reasons: Reasons)

  // ------------------------------------------------------------------ reading the rows

  /** The completed rows that are, or are not, invalidated; a later row replaces an earlier one. */
  function Stored(rows: seq<UnitRow>, invalidated: bool): Coverage {
    if rows == [] then map[]
    else
      var r := rows[|rows| - 1];
      var before := Stored(rows[..|rows| - 1], invalidated);
      if Completed(r) && r.invalidated == invalidated then before[KeyOf(r) := r.versions] else before
  }

  function Bump(m: map<string, nat>, s: string): map<string, nat> {
    m[s := (if s in m then m[s] else 0) + 1]
  }

  predicate Unresolved(r: UnitRow) {
    !Completed(r) && !r.invalidated
  }

  function Tally(rows: seq<UnitRow>): map<string, nat> {
    if rows == [] then map[]
    else
      var r := rows[|rows| - 1];
      if Unresolved(r) then Bump(Tally(rows[..|rows| - 1]), r.status) else Tally(rows[..|rows| - 1])
  }

  function CountUnresolved(rows: seq<UnitRow>): nat {
    if rows == [] then 0
    else (if Unresolved(rows[|rows| - 1]) then 1 else 0) + CountUnresolved(rows[..|rows| - 1])
  }

  method ReadRows(rows: seq<UnitRow>) returns (active: Coverage, invalidated: Coverage, unresolved: map<string, nat>)
    ensures active == Stored(rows, false) && invalidated == Stored(rows, true) && unresolved == Tally(rows)
  {
    active, invalidated, unresolved := map[], map[], map[];
    for i := 0 to |rows|
      invariant active == Stored(rows[..i], false) && invalidated == Stored(rows[..i], true)
      invariant unresolved == Tally(rows[..i])
    {
      var r := rows[i];
      assert rows[..i + 1][..i] == rows[..i];
      if r.status != "completed" {
        if !r.invalidated {
          unresolved := unresolved[r.status := (if r.status in unresolved then unresolved[r.status] else 0) + 1];
        }
      } else {
        var key := Identity(r.source, r.revision, r.chunk, r.chunks, r.chat, r.hash, r.model);
        if !r.invalidated {
          active := active[key := r.versions];
        } else {
          invalidated := invalidated[key := r.versions];
        }
      }
    }
    assert rows[..|rows|] == rows;
  }

  // ------------------------------------------------------------------ the sum of the counter

  ghost function SumOver(m: map<string, nat>, ks: set<string>): nat
    requires ks <= m.Keys
  {
    if ks == {} then 0 else var k :| k in ks; m[k] + SumOver(m, ks - {k})
  }

  lemma {:induction false} SumSplit(m: map<string, nat>, ks: set<string>, k: string)
    requires ks <= m.Keys && k in ks
    ensures SumOver(m, ks) == m[k] + SumOver(m, ks - {k})
    decreases |ks|
  {
    var x :| x in ks && SumOver(m, ks) == m[x] + SumOver(m, ks - {x});
    if x != k {
      SumSplit(m, ks - {x}, k);
      SumSplit(m, ks - {k}, x);
      assert ks - {x} - {k} == ks - {k} - {x};
    }
  }

  lemma {:induction false} SumSame(m: map<string, nat>, n: map<string, nat>, ks: set<string>)
    requires ks <= m.Keys && ks <= n.Keys && forall k :: k in ks ==> m[k] == n[k]
    ensures SumOver(m, ks) == SumOver(n, ks)
    decreases |ks|
  {
    if ks != {} {
      var k :| k in ks;
      SumSplit(m, ks, k);
      SumSplit(n, ks, k);
      SumSame(m, n, ks - {k});
    }
  }

  lemma SumBump(m: map<string, nat>, s: string)
    ensures SumOver(Bump(m, s), Bump(m, s).Keys) == SumOver(m, m.Keys) + 1
  {
    var n := Bump(m, s);
    SumSplit(n, n.Keys, s);
    SumSame(m, n, m.Keys - {s});
    if s in m {
      SumSplit(m, m.Keys, s);
      assert n.Keys == m.Keys;
    } else {
      assert n.Keys - {s} == m.Keys && m.Keys - {s} == m.Keys;
    }
  }

  lemma {:induction false} TallySums(rows: seq<UnitRow>)
    ensures SumOver(Tally(rows), Tally(rows).Keys) == CountUnresolved(rows)
    decreases |rows|
  {
    if rows != [] {
      TallySums(rows[..|rows| - 1]);
      if Unresolved(rows[|rows| - 1]) {
        SumBump(Tally(rows[..|rows| - 1]), rows[|rows| - 1].status);
      }
    }
  }

  lemma {:induction false} NoneUnresolved(rows: seq<UnitRow>)
    ensures CountUnresolved(rows) == 0 <==> forall i :: 0 <= i < |rows| ==> !Unresolved(rows[i])
    decreases |rows|
  {
    if rows != [] {
      NoneUnresolved(rows[..|rows| - 1]);
    }
  }

  method SumValues(m: map<string, nat>) returns (n: nat)
    ensures n == SumOver(m, m.Keys)
  {
    n := 0;
    var left := m.Keys;
    while left != {}
      invariant left <= m.Keys && n + SumOver(m, left) == SumOver(m, m.Keys)
    {
      var k :| k in left;
      SumSplit(m, left, k);
      n := n + m[k];
      left := left - {k};
    }
  }

  // ------------------------------------------------------------------ the comparison

  function Agreeing(expected: Coverage, active: Coverage): set<Identity> {
    set k | k in expected.Keys * active.Keys && active[k] == expected[k]
  }

  function Differing(expected: Coverage, active: Coverage): set<Identity> {
    set k | k in expected.Keys * active.Keys && active[k] != expected[k]
  }

  /** The counts add up: nothing eligible, and nothing active, is counted twice or left out. */
  predicate Balanced(r: Report, active: nat) {
    && r.indexed + r.missing == r.eligible
    && r.missing == r.reasons.missingIdentity + r.reasons.expectedInvalidated
    && active == r.indexed + r.reasons.provenanceMismatch + r.unexpectedActive
    && r.reasons.provenanceMismatch <= r.reasons.missingIdentity
    && r.reasons.unexpectedActive == r.unexpectedActive
  }

  lemma SplitSize(all: set<Identity>, a: set<Identity>, b: set<Identity>)
    requires all == a + b && a !! b
    ensures |all| == |a| + |b|
  {
  }

  lemma AgreeOrDiffer(expected: Coverage, active: Coverage)
    ensures var c, d := Agreeing(expected, active), Differing(expected, active);
            c !! d && expected.Keys * active.Keys == c + d
  {
  }

  lemma SplitKeys(e: set<Identity>, a: set<Identity>, c: set<Identity>, d: set<Identity>)
    requires c !! d && e * a == c + d
    ensures |e| == |c| + |(e - a) + d| && |a| == |c| + |d| + |a - e|
  {
    assert e == c + ((e - a) + d);
    assert a == (c + d) + (a - e);
    SplitSize(e, c, (e - a) + d);
    SplitSize(a, c + d, a - e);
    SplitSize(c + d, c, d);
  }

  lemma Partition(expected: Coverage, active: Coverage)
    ensures var c, d := Agreeing(expected, active), Differing(expected, active);
            && |c| + |(expected.Keys - active.Keys) + d| == |expected|
            && |active| == |c| + |d| + |active.Keys - expected.Keys|
  {
    AgreeOrDiffer(expected, active);
    SplitKeys(expected.Keys, active.Keys, Agreeing(expected, active), Differing(expected, active));
  }

  lemma PartitionMissing(gone: set<Identity>, d: set<Identity>, invalidated: set<Identity>)
    requires gone !! d
    ensures |(gone + d) - gone * invalidated| + |gone * invalidated| == |gone + d|
    ensures |d| <= |(gone + d) - gone * invalidated|
  {
    var rest := (gone + d) - gone * invalidated;
    assert gone + d == rest + gone * invalidated;
    SplitSize(gone + d, rest, gone * invalidated);
    assert rest == d + (rest - d);
    SplitSize(rest, d, rest - d);
  }

  lemma PassAgreement(expected: Coverage, active: Coverage)
    ensures (expected.Keys - active.Keys) + Differing(expected, active) == {} && active.Keys - expected.Keys == {}
            <==> expected == active
  {
    if expected.Keys - active.Keys == {} && Differing(expected, active) == {} && active.Keys - expected.Keys == {} {
      assert expected.Keys == active.Keys;
      forall k | k in expected ensures active[k] == expected[k] {
        assert k !in Differing(expected, active);
      }
    }
  }

  /** The set comparison and the verdict. */
  method Compare(expected: Coverage, active: Coverage, invalidated: Coverage, unresolved: map<string, nat>)
      returns (r: Report)
    ensures r.pass <==> expected != map[] && expected == active && r.unresolvedClaims == 0
    ensures r.eligible == |expected| && r.unresolvedStatuses == unresolved
    ensures r.unresolvedClaims == r.reasons.unresolvedClaim == SumOver(unresolved, unresolved.Keys)
    ensures r.indexed == r.reasons.activeIdentity == |Agreeing(expected, active)|
    ensures r.reasons.provenanceMismatch == |Differing(expected, active)|
    ensures r.reasons.expectedInvalidated == |(expected.Keys - active.Keys) * invalidated.Keys|
    ensures r.reasons.noEligible == if expected == map[] then 1 else 0
    ensures Balanced(r, |active|)
  {
    var covered := Agreeing(expected, active);
    var mismatch := Differing(expected, active);
    var missingIdentity := expected.Keys - active.Keys;
    var missing := missingIdentity + mismatch;
    var invalidatedExpected := missingIdentity * invalidated.Keys;
    var unexpected := active.Keys - expected.Keys;
    var claims := SumValues(unresolved);
    Partition(expected, active);
    PartitionMissing(missingIdentity, mismatch, invalidated.Keys);
    PassAgreement(expected, active);
    var pass := |expected| != 0 && missing == {} && unexpected == {} && claims == 0;
    r := Report(pass, |expected|, |covered|, |missing|, |unexpected|, claims, unresolved,
                Reasons(if |expected| == 0 then 1 else 0, |covered|, |missing - invalidatedExpected|,
                        |invalidatedExpected|, |mismatch|, |unexpected|, claims));
  }

  method CoverageReport(expected: Coverage, rows: seq<UnitRow>) returns (r: Report)
    ensures r.pass <==> expected != map[] && expected == Stored(rows, false)
                        && forall i :: 0 <= i < |rows| ==> !Unresolved(rows[i])
    ensures r.eligible == |expected| && r.unresolvedStatuses == Tally(rows)
    ensures r.unresolvedClaims == CountUnresolved(rows)
    ensures r.indexed == |Agreeing(expected, Stored(rows, false))|
    ensures r.reasons.provenanceMismatch == |Differing(expected, Stored(rows, false))|
    ensures r.reasons.expectedInvalidated == |(expected.Keys - Stored(rows, false).Keys) * Stored(rows, true).Keys|
    ensures Balanced(r, |Stored(rows, false)|)
  {
    var active, invalidated, unresolved := ReadRows(rows);
    TallySums(rows);
    NoneUnresolved(rows);
    r := Compare(expected, active, invalidated, unresolved);
  }

  // ------------------------------------------------------------------ what passing means

  /** The index has no two rows of one identity. */
  ghost predicate SeparateRows(rows: seq<UnitRow>) {
    forall i, j :: 0 <= i < j < |rows| ==> KeyOf(rows[i]) != KeyOf(rows[j])
  }

  ghost predicate Live(rows: seq<UnitRow>, k: Identity, versions: seq<int>) {
    exists i :: 0 <= i < |rows| && Completed(rows[i]) && !rows[i].invalidated
                && KeyOf(rows[i]) == k && rows[i].versions == versions
  }

  predicate Has(m: Coverage, k: Identity, versions: seq<int>) {
    k in m && m[k] == versions
  }

  lemma {:induction false} StoredIsLive(rows: seq<UnitRow>, k: Identity, versions: seq<int>)
    requires SeparateRows(rows)
    ensures Has(Stored(rows, false), k, versions) <==> Live(rows, k, versions)
    decreases |rows|
  {
    if rows != [] {
      var rest, r := rows[..|rows| - 1], rows[|rows| - 1];
      StoredIsLive(rest, k, versions);
      if Live(rest, k, versions) {
        var i :| 0 <= i < |rest| && Completed(rest[i]) && !rest[i].invalidated
                 && KeyOf(rest[i]) == k && rest[i].versions == versions;
        assert rows[i] == rest[i] && KeyOf(r) != k;
      }
      if Live(rows, k, versions) {
        var i :| 0 <= i < |rows| && Completed(rows[i]) && !rows[i].invalidated
                 && KeyOf(rows[i]) == k && rows[i].versions == versions;
        assert i < |rest| ==> rest[i] == rows[i];
      }
    }
  }

  ghost predicate Eligible(docs: seq<Document>, k: Identity, versions: seq<int>, model: string) {
    exists i :: 0 <= i < |docs| && IdentityOf(docs[i], model) == k && docs[i].versions == versions
  }

  lemma CoverageIsEligible(docs: seq<Document>, m: Coverage, k: Identity, versions: seq<int>, model: string)
    requires Covers(m, docs, model)
    ensures Has(m, k, versions) <==> Eligible(docs, k, versions, model)
  {
    if Has(m, k, versions) {
      assert Listed(docs, k, model);
      var i :| 0 <= i < |docs| && k == IdentityOf(docs[i], model);
      assert docs[i].versions == versions;
    }
  }

  lemma SameEntries(a: Coverage, b: Coverage)
    ensures a == b <==> forall k, v :: Has(a, k, v) <==> Has(b, k, v)
  {
    if forall k, v :: Has(a, k, v) <==> Has(b, k, v) {
      forall k ensures k in a <==> k in b {
        if k in a { assert Has(a, k, a[k]); }
        if k in b { assert Has(b, k, b[k]); }
      }
      forall k | k in a ensures a[k] == b[k] {
        assert Has(a, k, a[k]);
      }
    }
  }

  /** The index holds exactly the eligible chunks, each with exactly its sources in order. */
  ghost predicate IndexAgrees(docs: seq<Document>, rows: seq<UnitRow>, model: string) {
    forall k, versions :: Eligible(docs, k, versions, model) <==> Live(rows, k, versions)
  }

  lemma AgreementIsEquality(docs: seq<Document>, m: Coverage, rows: seq<UnitRow>, model: string)
    requires Covers(m, docs, model) && SeparateRows(rows)
    ensures m == Stored(rows, false) <==> IndexAgrees(docs, rows, model)
  {
    var s := Stored(rows, false);
    SameEntries(m, s);
    forall k, v
      ensures Has(m, k, v) <==> Eligible(docs, k, v, model)
      ensures Has(s, k, v) <==> Live(rows, k, v)
    {
      CoverageIsEligible(docs, m, k, v, model);
      StoredIsLive(rows, k, v);
    }
    if m == s {
      forall k, v ensures Eligible(docs, k, v, model) <==> Live(rows, k, v) {
        assert Has(m, k, v) <==> Eligible(docs, k, v, model);
      }
    }
    if IndexAgrees(docs, rows, model) {
      forall k, v ensures Has(m, k, v) <==> Has(s, k, v) {
        assert Eligible(docs, k, v, model) <==> Live(rows, k, v);
      }
    }
  }

  // ------------------------------------------------------------------ the same, part by part

  /** A row that counts: embedded, and not invalidated. */
  predicate Stands(r: UnitRow) {
    r.status == "completed" && !r.invalidated
  }

  /** The row is of this document, under the audited model, with the same versions in the same order. */
  predicate Matches(r: UnitRow, d: Document, model: string) {
    && r.source == d.source && r.revision == d.revision && r.chunk == d.chunk && r.chunks == d.chunks
    && r.chat == d.chat && r.hash == d.hash && r.model == model && r.versions == d.versions
  }

  /** Some part of what identifies a row differs, for any two of them. */
  ghost predicate RowsDiffer(rows: seq<UnitRow>) {
    forall i, j :: 0 <= i < j < |rows| ==>
      !(&& rows[i].source == rows[j].source && rows[i].revision == rows[j].revision
        && rows[i].chunk == rows[j].chunk && rows[i].chunks == rows[j].chunks
        && rows[i].chat == rows[j].chat && rows[i].hash == rows[j].hash && rows[i].model == rows[j].model)
  }

  /** No row is left that is neither embedded nor invalidated. */
  ghost predicate NoneOpen(rows: seq<UnitRow>) {
    forall i :: 0 <= i < |rows| ==> rows[i].status == "completed" || rows[i].invalidated
  }

  ghost predicate RowFor(rows: seq<UnitRow>, d: Document, model: string, j: int) {
    0 <= j < |rows| && Stands(rows[j]) && Matches(rows[j], d, model)
  }

  ghost predicate HasRow(rows: seq<UnitRow>, d: Document, model: string) {
    exists j :: RowFor(rows, d, model, j)
  }

  ghost predicate OneRowOnly(rows: seq<UnitRow>, d: Document, model: string) {
    forall j, k :: RowFor(rows, d, model, j) && RowFor(rows, d, model, k) ==> j == k
  }

  ghost predicate RowHasDoc(docs: seq<Document>, rows: seq<UnitRow>, model: string, j: int) {
    exists i :: 0 <= i < |docs| && RowFor(rows, docs[i], model, j)
  }

  ghost predicate OneDocOnly(docs: seq<Document>, rows: seq<UnitRow>, model: string, j: int) {
    forall i, k | 0 <= i < |docs| && 0 <= k < |docs| ::
      RowFor(rows, docs[i], model, j) && RowFor(rows, docs[k], model, j) ==> i == k
  }

  /** Each document has exactly one standing row of its own. */
  ghost predicate DocsHaveRows(docs: seq<Document>, rows: seq<UnitRow>, model: string) {
    forall i :: 0 <= i < |docs| ==> HasRow(rows, docs[i], model) && OneRowOnly(rows, docs[i], model)
  }

  /** Each standing row is of exactly one document. */
  ghost predicate RowsHaveDocs(docs: seq<Document>, rows: seq<UnitRow>, model: string) {
    forall j :: 0 <= j < |rows| && Stands(rows[j]) ==>
      RowHasDoc(docs, rows, model, j) && OneDocOnly(docs, rows, model, j)
  }

  /** Documents and standing rows match one to one. */
  ghost predicate OneToOne(docs: seq<Document>, rows: seq<UnitRow>, model: string) {
    DocsHaveRows(docs, rows, model) && RowsHaveDocs(docs, rows, model)
  }

  lemma RowsDifferIff(rows: seq<UnitRow>)
    ensures RowsDiffer(rows) <==> SeparateRows(rows)
  {
  }

  lemma RowForIff(rows: seq<UnitRow>, d: Document, model: string, j: int)
    ensures RowFor(rows, d, model, j) <==>
            0 <= j < |rows| && Completed(rows[j]) && !rows[j].invalidated
            && KeyOf(rows[j]) == IdentityOf(d, model) && rows[j].versions == d.versions
  {
  }

  lemma DocGetsRow(docs: seq<Document>, rows: seq<UnitRow>, model: string, i: nat)
    requires IndexAgrees(docs, rows, model) && i < |docs|
    ensures HasRow(rows, docs[i], model)
  {
    var k, v := IdentityOf(docs[i], model), docs[i].versions;
    assert Eligible(docs, k, v, model);
    assert Live(rows, k, v);
    var j :| 0 <= j < |rows| && Completed(rows[j]) && !rows[j].invalidated
             && KeyOf(rows[j]) == k && rows[j].versions == v;
    RowForIff(rows, docs[i], model, j);
  }

  lemma RowGetsDoc(docs: seq<Document>, rows: seq<UnitRow>, model: string, j: nat)
    requires IndexAgrees(docs, rows, model) && j < |rows| && Stands(rows[j])
    ensures RowHasDoc(docs, rows, model, j)
  {
    var k, v := KeyOf(rows[j]), rows[j].versions;
    assert Live(rows, k, v);
    assert Eligible(docs, k, v, model);
    var i :| 0 <= i < |docs| && IdentityOf(docs[i], model) == k && docs[i].versions == v;
    RowForIff(rows, docs[i], model, j);
  }

  lemma EligibleIsLive(docs: seq<Document>, rows: seq<UnitRow>, model: string, k: Identity, v: seq<int>)
    requires DocsHaveRows(docs, rows, model) && Eligible(docs, k, v, model)
    ensures Live(rows, k, v)
  {
    var i :| 0 <= i < |docs| && IdentityOf(docs[i], model) == k && docs[i].versions == v;
    assert HasRow(rows, docs[i], model);
    var j :| RowFor(rows, docs[i], model, j);
    RowForIff(rows, docs[i], model, j);
  }

  lemma LiveIsEligible(docs: seq<Document>, rows: seq<UnitRow>, model: string, k: Identity, v: seq<int>)
    requires RowsHaveDocs(docs, rows, model) && Live(rows, k, v)
    ensures Eligible(docs, k, v, model)
  {
    var j :| 0 <= j < |rows| && Completed(rows[j]) && !rows[j].invalidated
             && KeyOf(rows[j]) == k && rows[j].versions == v;
    assert Stands(rows[j]) && RowHasDoc(docs, rows, model, j);
    var i :| 0 <= i < |docs| && RowFor(rows, docs[i], model, j);
    RowForIff(rows, docs[i], model, j);
  }

  lemma OneRow(rows: seq<UnitRow>, d: Document, model: string)
    requires RowsDiffer(rows)
    ensures OneRowOnly(rows, d, model)
  {
    forall j, k | RowFor(rows, d, model, j) && RowFor(rows, d, model, k) ensures j == k {
      assert !(j < k) && !(k < j);
    }
  }

  lemma OneDoc(docs: seq<Document>, rows: seq<UnitRow>, model: string, j: int)
    requires DocsDiffer(docs)
    ensures OneDocOnly(docs, rows, model, j)
  {
    forall i, k | 0 <= i < |docs| && 0 <= k < |docs| && RowFor(rows, docs[i], model, j) && RowFor(rows, docs[k], model, j)
      ensures i == k
    {
      assert !(i < k) && !(k < i);
    }
  }

  /** The index agrees exactly when its standing rows and the documents match one to one. */
  lemma AgreementIsOneToOne(docs: seq<Document>, rows: seq<UnitRow>, model: string)
    requires DocsDiffer(docs) && RowsDiffer(rows)
    ensures IndexAgrees(docs, rows, model) <==> OneToOne(docs, rows, model)
  {
    if IndexAgrees(docs, rows, model) {
      forall i | 0 <= i < |docs| ensures HasRow(rows, docs[i], model) && OneRowOnly(rows, docs[i], model) {
        DocGetsRow(docs, rows, model, i);
        OneRow(rows, docs[i], model);
      }
      forall j | 0 <= j < |rows| && Stands(rows[j])
        ensures RowHasDoc(docs, rows, model, j) && OneDocOnly(docs, rows, model, j)
      {
        RowGetsDoc(docs, rows, model, j);
        OneDoc(docs, rows, model, j);
      }
    }
    if OneToOne(docs, rows, model) {
      forall k, v ensures Eligible(docs, k, v, model) <==> Live(rows, k, v) {
        if Eligible(docs, k, v, model) { EligibleIsLive(docs, rows, model, k, v); }
        if Live(rows, k, v) { LiveIsEligible(docs, rows, model, k, v); }
      }
    }
  }

  /** What was recorded equals what is stored exactly when documents and standing rows match. */
  lemma VerdictByParts(docs: seq<Document>, rows: seq<UnitRow>, model: string)
    requires DocsDiffer(docs) && RowsDiffer(rows)
    ensures Record(map[], docs, model) == Stored(rows, false) <==> OneToOne(docs, rows, model)
    ensures |Record(map[], docs, model)| == |docs|
  {
    DifferMeansSeparate(docs, model);
    RowsDifferIff(rows);
    RecordCovers(docs, model);
    AgreementIsEquality(docs, Record(map[], docs, model), rows, model);
    AgreementIsOneToOne(docs, rows, model);
  }

  /**
   The whole audit, for listers that return whole sources in cursor order: it does not fail, and
   it passes exactly when something is eligible, the documents and the standing rows match one to
   one, and no row is left that is neither completed nor invalidated.
   */
  method Audit(messages: Lister, cards: Lister, model: string, rows: seq<UnitRow>, ghost pool: set<Document>,
               ghost ms: seq<Source>, ghost cs: seq<Source>, ghost limit: nat)
      returns (r: Result<Report, AuditError>)
    requires DrawsFrom(messages, pool) && DrawsFrom(cards, pool)
    ensures Conforms(messages, ms, limit, Message(0)) && Conforms(cards, cs, limit, Card(""))
            && DocsDiffer(AllDocs(ms) + AllDocs(cs)) && RowsDiffer(rows) ==>
              && r.Ok?
              && r.value.eligible == |AllDocs(ms) + AllDocs(cs)|
              && (r.value.pass <==>
                  && AllDocs(ms) + AllDocs(cs) != []
                  && OneToOne(AllDocs(ms) + AllDocs(cs), rows, model)
                  && NoneOpen(rows))
  {
    var expected := EligibleIdentities(messages, cards, model, pool, ms, cs, limit);
    if expected.Err? {
      return Err(expected.error);
    }
    var report := CoverageReport(expected.value, rows);
    ghost var docs := AllDocs(ms) + AllDocs(cs);
    if DocsDiffer(docs) && RowsDiffer(rows) {
      VerdictByParts(docs, rows, model);
    }
    return Ok(report);
  }
}
