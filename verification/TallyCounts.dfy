/** What the suite's counters and timeout records count: cases, picked by what the
    manifest expects of them and what a backend answered
    (crates/bench/benches/xsts_compliance.rs:576-704). */
module TallyCounts {
  import opened Basics
  import opened Workers
  import opened Tally

  /** A question about a case: was it run, what did backend `i` make of it, did the
      backends agree. */
  datatype Question =
    | Run(kind: Kind)
    | AsExpected(kind: Kind, i: nat)
    | AgainstExpected(kind: Kind, i: nat)
    | Said(kind: Kind, i: nat, o: Outcome)
    | Alike(kind: Kind)
    | GaveUpOn(kind: Kind, i: nat, path: Path)

  predicate Answered(c: Case, i: nat, o: Outcome) { i < |c.outcomes| && c.outcomes[i] == o }

  /** No backend answered differently from another. */
  ghost predicate Unanimous(c: Case) { forall x, y :: x in c.outcomes && y in c.outcomes ==> x == y }

  /** All found it valid, or all invalid. */
  ghost predicate OneVerdict(c: Case) {
    (forall x :: x in c.outcomes ==> x == Outcome.Valid) || (forall x :: x in c.outcomes ==> x == Invalid)
  }

  /** The answer is yes; a case without a document is not run. */
  ghost predicate Yes(c: Case, q: Question) {
    && c.path.Some? && c.kind == q.kind
    && match q
       case Run(_) => true
       case AsExpected(_, i) => Answered(c, i, if c.expectValid then Outcome.Valid else Invalid)
       case AgainstExpected(_, i) => Answered(c, i, if c.expectValid then Invalid else Outcome.Valid)
       case Said(_, i, o) => Answered(c, i, o)
       case Alike(Schema) => Unanimous(c)
       case Alike(Instance) => OneVerdict(c)
       case GaveUpOn(_, i, path) => c.path.value == path && Answered(c, i, Timeout)
  }

  ghost function Where(cases: seq<Case>, q: Question): set<nat> { set k | 0 <= k < |cases| && Yes(cases[k], q) }

  /** The cases of which the answer is yes. */
  ghost function HowMany(cases: seq<Case>, q: Question): nat { |Where(cases, q)| }

  lemma OneMore(cases: seq<Case>, q: Question)
    requires cases != []
    ensures HowMany(cases, q) == HowMany(cases[..|cases| - 1], q) + Bit(Yes(cases[|cases| - 1], q))
  {
    hide Yes;
    var n := |cases| - 1;
    assert Where(cases, q) == Where(cases[..n], q) + (if Yes(cases[n], q) then {n} else {});
  }

  lemma NoneYet(q: Question)
    ensures HowMany([], q) == 0
  {
    assert Where([], q) == {};
  }

  // ── the counters of one backend ───────────────────────────────────────────

  ghost function Tallied(cases: seq<Case>, i: nat): Stats {
    Stats(HowMany(cases, AsExpected(Schema, i)), HowMany(cases, AgainstExpected(Schema, i)),
          HowMany(cases, Said(Schema, i, Timeout)), HowMany(cases, AsExpected(Instance, i)),
          HowMany(cases, AgainstExpected(Instance, i)), HowMany(cases, Said(Instance, i, NoSchema)),
          HowMany(cases, Said(Instance, i, Timeout)))
  }

  function Bit(b: bool): nat { if b then 1 else 0 }

  lemma OneCase(c: Case, n: nat, i: nat)
    requires CaseOk(c, n) && i < n
    ensures Delta(c).perBackend[i] ==
      Stats(Bit(Yes(c, AsExpected(Schema, i))), Bit(Yes(c, AgainstExpected(Schema, i))),
            Bit(Yes(c, Said(Schema, i, Timeout))), Bit(Yes(c, AsExpected(Instance, i))),
            Bit(Yes(c, AgainstExpected(Instance, i))), Bit(Yes(c, Said(Instance, i, NoSchema))),
            Bit(Yes(c, Said(Instance, i, Timeout))))
  {
    assert c.outcomes[i] in c.outcomes;
  }

  lemma TalliedNext(cases: seq<Case>, n: nat, i: nat)
    requires cases != [] && CaseOk(cases[|cases| - 1], n) && i < n
    ensures Tallied(cases, i) == Plus(Tallied(cases[..|cases| - 1], i), Delta(cases[|cases| - 1]).perBackend[i])
  {
    OneCase(cases[|cases| - 1], n, i);
    OneMore(cases, AsExpected(Schema, i));
    OneMore(cases, AgainstExpected(Schema, i));
    OneMore(cases, Said(Schema, i, Timeout));
    OneMore(cases, AsExpected(Instance, i));
    OneMore(cases, AgainstExpected(Instance, i));
    OneMore(cases, Said(Instance, i, NoSchema));
    OneMore(cases, Said(Instance, i, Timeout));
    hide HowMany, Yes, Delta;
  }

  /** Every counter of every backend is the number of cases of its kind that were run
      and answered so: as the manifest expects, the other way, or not at all. */
  lemma {:induction false} StatsExactly(cases: seq<Case>, n: nat, i: nat)
    requires CasesOk(cases, n) && i < n
    ensures Total(cases, n).perBackend[i] == Tallied(cases, i)
    decreases |cases|
  {
    if cases == [] {
      forall q ensures HowMany([], q) == 0 { NoneYet(q); }
    } else {
      var before, last := cases[..|cases| - 1], cases[|cases| - 1];
      assert CaseOk(last, n);
      StatsExactly(before, n, i);
      TalliedNext(cases, n, i);
      hide Tallied, Delta, CaseOk, Plus;
    }
  }

  // ── the shared counters ───────────────────────────────────────────────────

  lemma SameAnswers(c: Case)
    ensures AllSame(c.outcomes) <==> Unanimous(c)
    ensures AllSame(c.outcomes) && AllVerdicts(c.outcomes) <==> OneVerdict(c)
  {
    if Unanimous(c) {
      forall i, j | 0 <= i < |c.outcomes| && 0 <= j < |c.outcomes| ensures c.outcomes[i] == c.outcomes[j] {
        assert c.outcomes[i] in c.outcomes && c.outcomes[j] in c.outcomes;
      }
    }
    if c.outcomes != [] { assert c.outcomes[0] in c.outcomes; }
  }

  lemma OneAgreement(c: Case)
    ensures Delta(c).schemaTotal == Bit(Yes(c, Run(Schema))) && Delta(c).instanceTotal == Bit(Yes(c, Run(Instance)))
    ensures Delta(c).schemaAgree == Bit(Yes(c, Alike(Schema))) && Delta(c).instanceAgree == Bit(Yes(c, Alike(Instance)))
  {
    SameAnswers(c);
    hide AllSame, AllVerdicts, Unanimous, OneVerdict, Marks;
  }

  /** Agreement on a schema is every backend answering alike, on an instance every
      backend reaching the same verdict. */
  lemma {:induction false} AgreementsExactly(cases: seq<Case>, n: nat)
    requires CasesOk(cases, n)
    ensures var t := Total(cases, n);
      && t.schemaTotal == HowMany(cases, Run(Schema)) && t.schemaAgree == HowMany(cases, Alike(Schema))
      && t.instanceTotal == HowMany(cases, Run(Instance)) && t.instanceAgree == HowMany(cases, Alike(Instance))
    decreases |cases|
  {
    if cases == [] {
      forall q ensures HowMany([], q) == 0 { NoneYet(q); }
    } else {
      var before, last := cases[..|cases| - 1], cases[|cases| - 1];
      assert CaseOk(last, n);
      AgreementsExactly(before, n);
      OneAgreement(last);
      OneMore(cases, Run(Schema));
      OneMore(cases, Run(Instance));
      OneMore(cases, Alike(Schema));
      OneMore(cases, Alike(Instance));
      hide HowMany, Yes, Delta, PlusAll, CaseOk;
    }
  }

  // ── the timeout records ───────────────────────────────────────────────────

  lemma {:induction false} RecordOnce(c: Case, n: nat, q: Question)
    requires n <= |c.outcomes| && q.GaveUpOn?
    ensures multiset(Records(c, n))[Record(q.i, q.kind, q.path)] == Bit(q.i < n && Yes(c, q))
  {
    if n > 0 {
      RecordOnce(c, n - 1, q);
      LastOnce(c, n, q);
      hide Records, LastRecord, Yes;
      Together(Records(c, n - 1), LastRecord(c, n), Record(q.i, q.kind, q.path));
    }
  }

  lemma Together(a: seq<Record>, b: seq<Record>, r: Record)
    ensures multiset(a + b)[r] == multiset(a)[r] + multiset(b)[r]
  {
    assert multiset(a + b) == multiset(a) + multiset(b);
  }

  lemma LastOnce(c: Case, n: nat, q: Question)
    requires 0 < n <= |c.outcomes| && q.GaveUpOn?
    ensures multiset(LastRecord(c, n))[Record(q.i, q.kind, q.path)] == Bit(q.i == n - 1 && Yes(c, q))
  {
  }

  function LastRecord(c: Case, n: nat): (more: seq<Record>)
    requires 0 < n <= |c.outcomes|
    ensures Records(c, n) == Records(c, n - 1) + more
  {
    if c.path.Some? && c.outcomes[n - 1] == Timeout then [Record(n - 1, c.kind, c.path.value)] else []
  }

  /** A record occurs once for each case of its kind and document that its backend
      timed out on. */
  lemma {:induction false} RecordsExactly(cases: seq<Case>, i: nat, kind: Kind, path: Path)
    ensures multiset(AllRecords(cases))[Record(i, kind, path)] == HowMany(cases, GaveUpOn(kind, i, path))
    decreases |cases|
  {
    var q := GaveUpOn(kind, i, path);
    if cases == [] {
      NoneYet(q);
    } else {
      var before, last := cases[..|cases| - 1], cases[|cases| - 1];
      RecordsExactly(before, i, kind, path);
      RecordOnce(last, |last.outcomes|, q);
      OneMore(cases, q);
      assert multiset(AllRecords(cases)) == multiset(AllRecords(before)) + multiset(Records(last, |last.outcomes|));
    }
  }

  /** A case, and a backend. */
  datatype At = At(k: nat, i: nat)

  predicate Before(x: At, y: At) { x.k < y.k || (x.k == y.k && x.i < y.i) }

  ghost predicate LiesAt(r: Record, cases: seq<Case>, at: At) {
    at.k < |cases| && at.i == r.backend && Yes(cases[at.k], GaveUpOn(r.kind, at.i, r.path))
  }

  /** The records lie at these places, in order. */
  ghost predicate LieAt(records: seq<Record>, cases: seq<Case>, ats: seq<At>) {
    && |ats| == |records|
    && (forall x :: 0 <= x < |ats| ==> LiesAt(records[x], cases, ats[x]))
    && (forall x, y :: 0 <= x < y < |ats| ==> Before(ats[x], ats[y]))
  }

  lemma {:induction false} CaseInOrder(cases: seq<Case>, k: nat, n: nat) returns (ats: seq<At>)
    requires k < |cases| && n <= |cases[k].outcomes|
    ensures LieAt(Records(cases[k], n), cases, ats)
    ensures forall x :: 0 <= x < |ats| ==> ats[x].k == k && ats[x].i < n
  {
    ats := [];
    if n > 0 && cases[k].path.Some? {
      ats := CaseInOrder(cases, k, n - 1);
      if cases[k].outcomes[n - 1] == Timeout { ats := ats + [At(k, n - 1)]; }
    }
  }

  /** The records are in the order of the cases, and within a case of the backends. */
  lemma {:induction false} RecordsInOrder(cases: seq<Case>) returns (ats: seq<At>)
    ensures LieAt(AllRecords(cases), cases, ats)
    decreases |cases|
  {
    ats := [];
    if cases != [] {
      var before, k := cases[..|cases| - 1], |cases| - 1;
      var first := RecordsInOrder(before);
      var then_ := CaseInOrder(cases, k, |cases[k].outcomes|);
      ats := first + then_;
      hide Records, Yes;
      forall x | 0 <= x < |ats| ensures LiesAt(AllRecords(cases)[x], cases, ats[x]) {
        if x < |first| { assert LiesAt(AllRecords(before)[x], before, first[x]); }
      }
    }
  }
}
