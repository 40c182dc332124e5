/** The suite runner's counters (crates/bench/benches/xsts_compliance.rs:489-704).
    What each backend answered to each case is an input; wall-clock is left out. */
module Tally {
  import opened Basics
  import opened Workers

  datatype Kind = Schema | Instance

  /** A case of the manifest, with the answer of each backend.  A case without a
      primary document is skipped. */
  datatype Case = Case(kind: Kind, path: Option<Path>, expectValid: bool, outcomes: seq<Outcome>)

  datatype Stats = Stats(schemaPass: nat, schemaFail: nat, schemaTimeout: nat, instancePass: nat,
                         instanceFail: nat, instanceNoSchema: nat, instanceTimeout: nat)

  const ZeroStats := Stats(0, 0, 0, 0, 0, 0, 0)

  datatype Contrib = Contrib(perBackend: seq<Stats>, schemaAgree: nat, schemaTotal: nat,
                             instanceAgree: nat, instanceTotal: nat)

  datatype Record = Record(backend: nat, kind: Kind, path: Path)

  /** One answer per backend, and compiling never answers `NoSchema`. */
  predicate CaseOk(c: Case, n: nat) {
    |c.outcomes| == n && (c.kind == Schema ==> NoSchema !in c.outcomes)
  }

  predicate Concrete(o: Outcome) { o == Outcome.Valid || o == Invalid }

  // ── reference: what the counters should come to ───────────────────────────

  function Zero(n: nat): Contrib { Contrib(seq(n, _ => ZeroStats), 0, 0, 0, 0) }

  function Plus(a: Stats, b: Stats): Stats {
    Stats(a.schemaPass + b.schemaPass, a.schemaFail + b.schemaFail, a.schemaTimeout + b.schemaTimeout,
          a.instancePass + b.instancePass, a.instanceFail + b.instanceFail,
          a.instanceNoSchema + b.instanceNoSchema, a.instanceTimeout + b.instanceTimeout)
  }

  function PlusAll(a: seq<Stats>, b: seq<Stats>): (r: seq<Stats>)
    requires |a| == |b|
    ensures |r| == |a| && forall i :: 0 <= i < |a| ==> r[i] == Plus(a[i], b[i])
  {
    seq(|a|, i requires 0 <= i < |a| => Plus(a[i], b[i]))
  }

  function Join(a: Contrib, b: Contrib): Contrib
    requires |a.perBackend| == |b.perBackend|
  {
    Contrib(PlusAll(a.perBackend, b.perBackend),
            a.schemaAgree + b.schemaAgree, a.schemaTotal + b.schemaTotal,
            a.instanceAgree + b.instanceAgree, a.instanceTotal + b.instanceTotal)
  }

  /** How one answer counts. */
  function Mark(k: Kind, expectValid: bool, o: Outcome): Stats {
    match (k, o)
    case (Schema, Timeout) => ZeroStats.(schemaTimeout := 1)
    case (Schema, _) =>
      if (o == Outcome.Valid) == expectValid then ZeroStats.(schemaPass := 1) else ZeroStats.(schemaFail := 1)
    case (Instance, Timeout) => ZeroStats.(instanceTimeout := 1)
    case (Instance, NoSchema) => ZeroStats.(instanceNoSchema := 1)
    case (Instance, _) =>
      if (o == Outcome.Valid) == expectValid then ZeroStats.(instancePass := 1) else ZeroStats.(instanceFail := 1)
  }

  function Marks(c: Case, n: nat): (r: seq<Stats>)
    requires n <= |c.outcomes|
    ensures |r| == n && forall i :: 0 <= i < n ==> r[i] == Mark(c.kind, c.expectValid, c.outcomes[i])
  {
    seq(n, i requires 0 <= i < n => Mark(c.kind, c.expectValid, c.outcomes[i]))
  }

  ghost predicate AllSame(o: seq<Outcome>) { forall i, j :: 0 <= i < |o| && 0 <= j < |o| ==> o[i] == o[j] }

  ghost predicate AllVerdicts(o: seq<Outcome>) { forall x :: x in o ==> Concrete(x) }

  /** All backends answered the same; for an instance, with a verdict. */
  ghost predicate Agreed(c: Case) {
    AllSame(c.outcomes) && (c.kind == Instance ==> AllVerdicts(c.outcomes))
  }

  ghost function Delta(c: Case): Contrib {
    var n := |c.outcomes|;
    if c.path.None? then Zero(n)
    else
      Contrib(Marks(c, n),
              if c.kind == Schema && Agreed(c) then 1 else 0, if c.kind == Schema then 1 else 0,
              if c.kind == Instance && Agreed(c) then 1 else 0, if c.kind == Instance then 1 else 0)
  }

  /** The timeouts of one case, in backend order, up to backend `n`. */
  function Records(c: Case, n: nat): seq<Record>
    requires n <= |c.outcomes|
  {
    if n == 0 || c.path.None? then []
    else Records(c, n - 1) + (if c.outcomes[n - 1] == Timeout then [Record(n - 1, c.kind, c.path.value)] else [])
  }

  ghost predicate CasesOk(cases: seq<Case>, n: nat) { forall c :: c in cases ==> CaseOk(c, n) }

  ghost function Total(cases: seq<Case>, n: nat): (t: Contrib)
    requires CasesOk(cases, n)
    ensures |t.perBackend| == n
    decreases |cases|
  {
    if cases == [] then Zero(n)
    else
      var last := cases[|cases| - 1];
      assert CaseOk(last, n);
      Join(Total(cases[..|cases| - 1], n), Delta(last))
  }

  ghost function AllRecords(cases: seq<Case>): seq<Record>
    decreases |cases|
  {
    if cases == [] then []
    else AllRecords(cases[..|cases| - 1]) + Records(cases[|cases| - 1], |cases[|cases| - 1].outcomes|)
  }

  // ── conservation ──────────────────────────────────────────────────────────

  predicate Balanced(s: Stats, schemaTotal: nat, instanceTotal: nat) {
    && s.schemaPass + s.schemaFail + s.schemaTimeout == schemaTotal
    && s.instancePass + s.instanceFail + s.instanceNoSchema + s.instanceTimeout == instanceTotal
  }

  /** Every backend accounts for every case, and agreements never exceed cases. */
  ghost predicate Conserved(t: Contrib) {
    && (forall i :: 0 <= i < |t.perBackend| ==> Balanced(t.perBackend[i], t.schemaTotal, t.instanceTotal))
    && t.schemaAgree <= t.schemaTotal && t.instanceAgree <= t.instanceTotal
  }

  function TimedOut(per: seq<Stats>): nat {
    if per == [] then 0
    else TimedOut(per[..|per| - 1]) + per[|per| - 1].schemaTimeout + per[|per| - 1].instanceTimeout
  }

  lemma JoinConserves(a: Contrib, b: Contrib)
    requires |a.perBackend| == |b.perBackend| && Conserved(a) && Conserved(b)
    ensures Conserved(Join(a, b))
  {
  }

  lemma {:induction false} JoinTimedOut(a: seq<Stats>, b: seq<Stats>)
    requires |a| == |b|
    ensures TimedOut(PlusAll(a, b)) == TimedOut(a) + TimedOut(b)
  {
    if a != [] {
      var n := |a| - 1;
      JoinTimedOut(a[..n], b[..n]);
      assert PlusAll(a, b)[..n] == PlusAll(a[..n], b[..n]);
    }
  }

  lemma TotalTimedOut(a: Contrib, b: Contrib)
    requires |a.perBackend| == |b.perBackend|
    ensures TimedOut(Join(a, b).perBackend) == TimedOut(a.perBackend) + TimedOut(b.perBackend)
  {
    JoinTimedOut(a.perBackend, b.perBackend);
  }

  lemma {:induction false} ZeroTimedOut(n: nat)
    ensures TimedOut(seq(n, _ => ZeroStats)) == 0
  {
    if n > 0 {
      ZeroTimedOut(n - 1);
      assert seq(n, _ => ZeroStats)[..n - 1] == seq(n - 1, _ => ZeroStats);
    }
  }

  lemma {:induction false} MarksTimedOut(c: Case, n: nat)
    requires n <= |c.outcomes| && c.path.Some?
    ensures TimedOut(Marks(c, n)) == |Records(c, n)|
  {
    if n > 0 {
      MarksTimedOut(c, n - 1);
      assert Marks(c, n)[..n - 1] == Marks(c, n - 1);
    }
  }

  lemma DeltaConserves(c: Case, n: nat)
    requires CaseOk(c, n)
    ensures Conserved(Delta(c)) && TimedOut(Delta(c).perBackend) == |Records(c, n)|
  {
    if c.path.Some? { MarksTimedOut(c, n); } else { ZeroTimedOut(n); }
    forall i | 0 <= i < n && c.kind == Schema ensures c.outcomes[i] != NoSchema { assert c.outcomes[i] in c.outcomes; }
  }

  /** After any cases, for every backend pass, fail and timeout add up to the cases
      seen, and the recorded timeouts number exactly the timeouts counted. */
  lemma {:induction false} TotalConserves(cases: seq<Case>, n: nat)
    requires CasesOk(cases, n)
    ensures Conserved(Total(cases, n)) && TimedOut(Total(cases, n).perBackend) == |AllRecords(cases)|
    decreases |cases|
  {
    if cases == [] {
      ZeroTimedOut(n);
    } else {
      var before, last := cases[..|cases| - 1], cases[|cases| - 1];
      assert CaseOk(last, n);
      hide Join, Delta, Conserved, CaseOk, TimedOut, Records;
      TotalConserves(before, n);
      DeltaConserves(last, n);
      JoinConserves(Total(before, n), Delta(last));
      TotalTimedOut(Total(before, n), Delta(last));
    }
  }

  lemma JoinZero(a: Contrib, n: nat)
    requires |a.perBackend| == n
    ensures Join(a, Zero(n)) == a
  {
    assert Join(a, Zero(n)).perBackend == a.perBackend;
  }

  lemma JoinAssociates(a: Contrib, b: Contrib, c: Contrib)
    requires |a.perBackend| == |b.perBackend| == |c.perBackend|
    ensures Join(Join(a, b), c) == Join(a, Join(b, c))
  {
    assert Join(Join(a, b), c).perBackend == Join(a, Join(b, c)).perBackend;
  }

  /** Adding the totals of two test sets gives the totals of both run together. */
  lemma {:induction false} TotalJoins(a: seq<Case>, b: seq<Case>, n: nat)
    requires CasesOk(a, n) && CasesOk(b, n)
    ensures CasesOk(a + b, n) && Total(a + b, n) == Join(Total(a, n), Total(b, n))
    decreases |b|
  {
    if b == [] {
      assert a + b == a;
      JoinZero(Total(a, n), n);
    } else {
      var before, last := b[..|b| - 1], b[|b| - 1];
      assert CaseOk(last, n);
      TotalJoins(a, before, n);
      assert (a + b)[..|a + b| - 1] == a + before;
      hide Join, Delta, CaseOk;
      JoinAssociates(Total(a, n), Total(before, n), Delta(last));
    }
  }

  // ── the counters in place ─────────────────────────────────────────────────

  /** Neighbours agree all along: `windows(2)`. */
  method AllAgree(o: seq<Outcome>) returns (b: bool)
    ensures b <==> AllSame(o)
  {
    var k := 1;
    while k < |o|
      invariant 1 <= k && (|o| > 0 ==> k <= |o|)
      invariant forall i :: 0 <= i < k && i < |o| ==> o[i] == o[0]
    {
      if o[k] != o[k - 1] {
        assert o[k] != o[0];
        return false;
      }
      k := k + 1;
    }
    b := true;
  }

  method AllConcrete(o: seq<Outcome>) returns (b: bool)
    ensures b <==> AllVerdicts(o)
  {
    var k := 0;
    while k < |o|
      invariant k <= |o| && forall x :: x in o[..k] ==> Concrete(x)
    {
      if !Concrete(o[k]) { return false; }
      k := k + 1;
    }
    b := true;
  }

  /** The first `n` backends have been counted. */
  ghost predicate Counted(before: seq<Stats>, now: seq<Stats>, c: Case, n: nat) {
    && |before| == |now| == |c.outcomes| && n <= |now|
    && (forall j :: 0 <= j < n ==> now[j] == Plus(before[j], Mark(c.kind, c.expectValid, c.outcomes[j])))
    && (forall j :: n <= j < |now| ==> now[j] == before[j])
  }

  lemma CountedNext(before: seq<Stats>, now: seq<Stats>, c: Case, n: nat)
    requires Counted(before, now, c, n) && n < |now|
    ensures Counted(before, now[n := Plus(now[n], Mark(c.kind, c.expectValid, c.outcomes[n]))], c, n + 1)
  {
    hide Plus, Mark;
  }

  lemma CountedAll(before: seq<Stats>, now: seq<Stats>, c: Case)
    requires Counted(before, now, c, |c.outcomes|)
    ensures now == PlusAll(before, Marks(c, |c.outcomes|))
  {
    hide Plus, Mark;
  }

  class ContribStats {
    const perBackend: array<Stats>
    var schemaAgree: nat
    var schemaTotal: nat
    var instanceAgree: nat
    var instanceTotal: nat

    ghost function Value(): Contrib
      reads this, perBackend
    {
      Contrib(perBackend[..], schemaAgree, schemaTotal, instanceAgree, instanceTotal)
    }

    constructor (n: nat)
      ensures Value() == Zero(n) && fresh(perBackend)
    {
      perBackend := new Stats[n](_ => ZeroStats);
      schemaAgree, schemaTotal, instanceAgree, instanceTotal := 0, 0, 0, 0;
      new;
      assert perBackend[..] == seq(n, _ => ZeroStats);
    }

    /** Adds another set of counters, backend by backend. */
    method Add(other: ContribStats)
      requires other.perBackend.Length == perBackend.Length && other.perBackend != perBackend && other != this
      modifies this, perBackend
      ensures Value() == Join(old(Value()), other.Value())
    {
      var i := 0;
      while i < perBackend.Length
        invariant i <= perBackend.Length
        invariant forall j :: 0 <= j < i ==> perBackend[j] == Plus(old(perBackend[j]), other.perBackend[j])
        invariant forall j :: i <= j < perBackend.Length ==> perBackend[j] == old(perBackend[j])
        modifies perBackend
      {
        hide Plus;
        perBackend[i] := Plus(perBackend[i], other.perBackend[i]);
        i := i + 1;
      }
      schemaAgree, schemaTotal := schemaAgree + other.schemaAgree, schemaTotal + other.schemaTotal;
      instanceAgree, instanceTotal := instanceAgree + other.instanceAgree, instanceTotal + other.instanceTotal;
      assert perBackend[..] == Join(old(Value()), other.Value()).perBackend;
    }

    /** Counts the answer of backend `i`. */
    method Count(i: nat, k: Kind, expectValid: bool, o: Outcome)
      requires i < perBackend.Length && (k == Schema ==> o != NoSchema)
      modifies perBackend
      ensures perBackend[..] == old(perBackend[..])[i := Plus(old(perBackend[i]), Mark(k, expectValid, o))]
    {
      var s := perBackend[i];
      if k == Schema && Concrete(o) {
        if (o == Outcome.Valid) == expectValid { s := s.(schemaPass := s.schemaPass + 1); }
        else { s := s.(schemaFail := s.schemaFail + 1); }
      } else if k == Schema {
        s := s.(schemaTimeout := s.schemaTimeout + 1);
      } else if Concrete(o) {
        if (o == Outcome.Valid) == expectValid { s := s.(instancePass := s.instancePass + 1); }
        else { s := s.(instanceFail := s.instanceFail + 1); }
      } else if o == NoSchema {
        s := s.(instanceNoSchema := s.instanceNoSchema + 1);
      } else {
        s := s.(instanceTimeout := s.instanceTimeout + 1);
      }
      perBackend[i] := s;
    }

    /** The inner loop: every backend's answer to one case. */
    method CountAll(c: Case, timeouts: seq<Record>) returns (more: seq<Record>)
      requires CaseOk(c, perBackend.Length) && c.path.Some?
      modifies perBackend
      ensures perBackend[..] == PlusAll(old(perBackend[..]), Marks(c, |c.outcomes|))
      ensures more == timeouts + Records(c, |c.outcomes|)
    {
      more := timeouts;
      var i := 0;
      while i < |c.outcomes|
        invariant i <= |c.outcomes| && more == timeouts + Records(c, i)
        invariant Counted(old(perBackend[..]), perBackend[..], c, i)
      {
        hide Plus, Mark, Counted, PlusAll, Marks;
        var o := c.outcomes[i];
        assert o in c.outcomes;
        CountedNext(old(perBackend[..]), perBackend[..], c, i);
        Count(i, c.kind, c.expectValid, o);
        if o == Timeout { more := more + [Record(i, c.kind, c.path.value)]; }
        i := i + 1;
      }
      CountedAll(old(perBackend[..]), perBackend[..], c);
    }

    /** One case: every backend's answer, then the agreement counters. */
    method RunCase(c: Case, timeouts: seq<Record>) returns (more: seq<Record>)
      requires CaseOk(c, perBackend.Length)
      modifies this, perBackend
      ensures Value() == Join(old(Value()), Delta(c))
      ensures more == timeouts + Records(c, |c.outcomes|)
    {
      if c.path.None? {
        JoinZero(Value(), |c.outcomes|);
        return timeouts;
      }
      hide Plus, Mark, PlusAll, Marks, Records, AllSame, AllVerdicts;
      more := CountAll(c, timeouts);
      var concrete := AllConcrete(c.outcomes);
      var same := AllAgree(c.outcomes);
      if c.kind == Schema {
        schemaTotal := schemaTotal + 1;
        if same { schemaAgree := schemaAgree + 1; }
      } else {
        instanceTotal := instanceTotal + 1;
        if concrete && same { instanceAgree := instanceAgree + 1; }
      }
    }
  }

  lemma NoCases(n: nat, cases: seq<Case>)
    requires cases == []
    ensures CasesOk(cases, n) && Total(cases, n) == Zero(n) && AllRecords(cases) == []
  {
  }

  lemma NextCase(cases: seq<Case>, n: nat, i: nat)
    requires CasesOk(cases, n) && i < |cases|
    ensures CasesOk(cases[..i], n) && CasesOk(cases[..i + 1], n) && CaseOk(cases[i], n) && |cases[i].outcomes| == n
    ensures Total(cases[..i + 1], n) == Join(Total(cases[..i], n), Delta(cases[i]))
    ensures AllRecords(cases[..i + 1]) == AllRecords(cases[..i]) + Records(cases[i], |cases[i].outcomes|)
  {
    assert cases[..i + 1][..i] == cases[..i] && CaseOk(cases[i], n);
  }

  /** The runner over all cases of a manifest. */
  method RunTestSet(cases: seq<Case>, n: nat, timeouts: seq<Record>) returns (stats: ContribStats, more: seq<Record>)
    requires CasesOk(cases, n)
    ensures fresh(stats) && stats.Value() == Total(cases, n) && Conserved(stats.Value())
    ensures more == timeouts + AllRecords(cases)
    ensures |more| == |timeouts| + TimedOut(stats.perBackend[..])
  {
    hide CasesOk, Total, AllRecords, Join, Delta, CaseOk, Records, Conserved;
    stats := new ContribStats(n);
    more := timeouts;
    var i := 0;
    NoCases(n, cases[..0]);
    while i < |cases|
      invariant i <= |cases| && fresh(stats) && fresh(stats.perBackend) && CasesOk(cases[..i], n)
      invariant stats.Value() == Total(cases[..i], n) && more == timeouts + AllRecords(cases[..i])
    {
      NextCase(cases, n, i);
      more := stats.RunCase(cases[i], more);
      i := i + 1;
    }
    assert cases[..i] == cases;
    TotalConserves(cases, n);
  }
}
