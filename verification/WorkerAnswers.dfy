/** What each answer of a schema backend says about the files, from the requests and
    answers before it alone (crates/bench/benches/xsts_compliance.rs:238-363). */
module WorkerAnswers {
  import opened Basics
  import opened Workers
  import opened Backend

  // ── the front end's log ───────────────────────────────────────────────────

  /** Entry `c` compiled a schema, and nothing before entry `k` replaced or lost it. */
  ghost predicate InForce(eng: Engine, log: seq<Entry>, c: nat, k: nat) {
    && c < k <= |log| && log[c].req.Compile? && log[c].outcome == Valid && eng.compile(log[c].req.path).Some?
    && forall j :: c < j < k ==> log[j].req.Validate? && log[j].outcome != Timeout
  }

  lemma SchemaNext(eng: Engine, log: seq<Entry>, k: nat)
    requires k < |log| && Sequential(eng, log[..k + 1])
    ensures Sequential(eng, log[..k]) && Fits(eng, SchemaAfter(eng, log[..k]), log[k])
    ensures SchemaAfter(eng, log[..k + 1]) ==
      match log[k].req
      case Compile(p) => (if log[k].outcome == Valid then eng.compile(p) else None)
      case Validate(_) => (if log[k].outcome == Timeout then None else SchemaAfter(eng, log[..k]))
  {
    assert log[..k + 1] == log[..k] + [log[k]];
    AppendLog(eng, log[..k], log[k]);
  }

  lemma {:induction false} SchemaInForce(eng: Engine, log: seq<Entry>, k: nat) returns (c: nat)
    requires k <= |log| && Sequential(eng, log[..k])
    ensures var s := SchemaAfter(eng, log[..k]);
      && (s.Some? ==> InForce(eng, log, c, k))
      && forall c': nat :: InForce(eng, log, c', k) ==> s == eng.compile(log[c'].req.path)
  {
    c := 0;
    if k > 0 {
      SchemaNext(eng, log, k - 1);
      c := SchemaInForce(eng, log, k - 1);
      var e := log[k - 1];
      if e.req.Compile? { c := k - 1; }
      hide SchemaAfter, Sequential;
      forall c': nat | InForce(eng, log, c', k) ensures SchemaAfter(eng, log[..k]) == eng.compile(log[c'].req.path) {
        if c' < k - 1 { assert InForce(eng, log, c', k - 1); }
      }
    }
  }

  lemma {:induction false} PrefixSequential(eng: Engine, log: seq<Entry>, k: nat)
    requires k <= |log| && Sequential(eng, log)
    ensures Sequential(eng, log[..k])
    decreases |log| - k
  {
    if k == |log| {
      assert log[..k] == log;
    } else {
      PrefixSequential(eng, log, k + 1);
      SchemaNext(eng, log, k);
    }
  }

  /** The answer is a timeout or says truly whether the schema compiles. */
  predicate CompileTrue(eng: Engine, p: Path, o: Outcome) {
    o == Timeout || o == if eng.compile(p).Some? then Outcome.Valid else Invalid
  }

  /** Without a schema in force the answer is that there is none, with one it is not;
      a verdict is that of the schema in force. */
  ghost predicate ValidateTrue(eng: Engine, log: seq<Entry>, k: nat, p: Path, o: Outcome) {
    && (o == NoSchema <==> forall c: nat :: !InForce(eng, log, c, k))
    && forall c: nat :: InForce(eng, log, c, k) ==>
      var s := eng.compile(log[c].req.path).value;
      o == Timeout || o == if eng.valid(s, p) then Outcome.Valid else Invalid
  }

  /** In every run, whatever was abandoned or died: each answer to a compilation, unless
      a timeout, is whether that file compiles; each answer to a validation is what the
      schema compiled last says of the file, none if a failed compilation or a timeout
      came since. */
  lemma AnswersExplained(eng: Engine, es: seq<Event>, k: nat)
    requires Runs(eng, Initial, es) && k < |After(eng, Initial, es).log|
    ensures var log := After(eng, Initial, es).log;
      match log[k].req
      case Compile(p) => CompileTrue(eng, p, log[k].outcome)
      case Validate(p) => ValidateTrue(eng, log, k, p, log[k].outcome)
  {
    RefinesSequential(eng, es);
    var log := After(eng, Initial, es).log;
    PrefixSequential(eng, log, k + 1);
    SchemaNext(eng, log, k);
    var c := SchemaInForce(eng, log, k);
    hide Runs, After, SchemaAfter, Sequential;
  }

  // ── the worker's replies ──────────────────────────────────────────────────

  /** Request `c` compiled a schema, and no compilation followed before request `k`. */
  ghost predicate LastCompiled(eng: Engine, reqs: seq<Req>, c: nat, k: nat) {
    && c < k <= |reqs| && reqs[c].Compile? && eng.compile(reqs[c].path).Some?
    && forall j :: c < j < k ==> reqs[j].Validate?
  }

  lemma {:induction false} SpecCached(eng: Engine, reqs: seq<Req>, k: nat) returns (c: nat)
    requires k <= |reqs|
    ensures var s := SpecSchema(eng, reqs[..k]);
      && (s.Some? ==> LastCompiled(eng, reqs, c, k))
      && forall c': nat :: LastCompiled(eng, reqs, c', k) ==> s == eng.compile(reqs[c'].path)
  {
    c := 0;
    if k > 0 {
      c := SpecCached(eng, reqs, k - 1);
      assert reqs[..k][..k - 1] == reqs[..k - 1];
      if reqs[k - 1].Compile? { c := k - 1; }
      forall c': nat | LastCompiled(eng, reqs, c', k) ensures SpecSchema(eng, reqs[..k]) == eng.compile(reqs[c'].path) {
        if c' < k - 1 { assert LastCompiled(eng, reqs, c', k - 1); }
      }
    }
  }

  lemma {:induction false} ReplyAt(eng: Engine, reqs: seq<Req>, k: nat)
    requires k < |reqs|
    ensures SpecReplies(eng, reqs)[k] == Accept <==> Verdict(eng, SpecSchema(eng, reqs[..k]), reqs[k]) == Outcome.Valid
    decreases |reqs|
  {
    var n := |reqs| - 1;
    if k < n {
      ReplyAt(eng, reqs[..n], k);
      assert reqs[..n][..k] == reqs[..k];
    }
  }

  /** The worker accepts a compilation exactly when the file compiles, and a validation
      exactly when the schema it compiled last accepts the file. */
  lemma RepliesExplained(eng: Engine, reqs: seq<Req>, k: nat)
    requires k < |reqs|
    ensures SpecReplies(eng, reqs)[k] == Accept <==>
      match reqs[k]
      case Compile(p) => eng.compile(p).Some?
      case Validate(p) => exists c: nat :: LastCompiled(eng, reqs, c, k) && eng.valid(eng.compile(reqs[c].path).value, p)
  {
    ReplyAt(eng, reqs, k);
    var c := SpecCached(eng, reqs, k);
    hide SpecSchema, SpecReplies;
  }
}
