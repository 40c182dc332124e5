/** The backend object and the worker's loop, updating their own variables
    (crates/bench/benches/xsts_compliance.rs:171-273, 277-402). */
module Backend {
  import opened Basics
  import opened Workers

  /** What the other threads answer one call: whether the send found a receiver, and
      the reply received, if any, after the steps `during` taken while waiting. */
  ghost predicate Answers(eng: Engine, s: System, req: Req, sent: bool, got: Option<Reply>, during: seq<Event>) {
    var b := BeginCall(s, req);
    && (sent <==> b.call.Waiting?)
    && (sent ==>
          && Runs(eng, b, during) && After(eng, b, during).call == b.call
          && (forall e :: e in during ==> e.Take? || e.Finish? || e.Exit? || e.Die?)
          && (got.Some? ==>
                var t := After(eng, b, during);
                CanReceive(t) && t.workers[t.worker.value].replies[0].item == got.value))
  }

  /** The system after the whole call. */
  ghost function Called(eng: Engine, s: System, req: Req, got: Option<Reply>, during: seq<Event>): System
    requires exists sent :: Answers(eng, s, req, sent, got, during)
  {
    var b := BeginCall(s, req);
    if b.call == Ready then b
    else if got.Some? then ReceiveReply(After(eng, b, during))
    else Abandon(After(eng, b, during), req)
  }

  /** While the other threads run, the front end's own fields stand still. */
  lemma {:induction false} FrontWaits(eng: Engine, s: System, es: seq<Event>)
    requires Runs(eng, s, es) && forall e :: e in es ==> e.Take? || e.Finish? || e.Exit? || e.Die?
    ensures var t := After(eng, s, es);
      t.worker == s.worker && t.ready == s.ready && t.call == s.call && t.log == s.log && t.tickets == s.tickets
    decreases |es|
  {
    if es != [] {
      assert es[0] in es;
      FrontWaits(eng, Step(eng, s, es[0]), es[1..]);
    }
  }

  class SchemaBackend {
    const eng: Engine
    var worker: Option<Wid>
    var schemaReady: bool
    ghost var call: Call
    ghost var workers: seq<Worker>
    ghost var log: seq<Entry>
    ghost var tickets: nat
    ghost var made: seq<Wid>
    ghost var freed: seq<Handle>

    ghost function Value(): System
      reads this
    {
      System(worker, schemaReady, call, workers, log, tickets, made, freed)
    }

    ghost predicate Valid()
      reads this
    {
      Inv(eng, Value()) && call == Ready
    }

    constructor (e: Engine)
      ensures Value() == Initial && Valid() && eng == e
    {
      eng, worker, schemaReady, call, workers, log, tickets, made, freed := e, None, false, Ready, [], [], 0, [], [];
    }

    ghost method Become(s: System)
      requires s.worker == worker && s.ready == schemaReady
      modifies this
      ensures Value() == s && worker == old(worker) && schemaReady == old(schemaReady)
    {
      call, workers, log, tickets, made, freed := s.call, s.workers, s.log, s.tickets, s.made, s.freed;
    }

    method WorkerMut(next: Wid)
      requires next == |workers|
      modifies this
      ensures Value() == Ensure(old(Value()))
    {
      if worker.None? {
        worker := Some(next);
        workers := workers + [NewWorker];
      }
    }

    method DropWorker()
      modifies this`worker, this`schemaReady
      ensures worker == None && !schemaReady
    {
      worker := None;
      schemaReady := false;
    }

    method CompileSchema(path: Path, next: Wid, sent: bool, got: Option<Reply>, ghost during: seq<Event>)
      returns (o: Outcome)
      requires Valid() && next == |workers| && Answers(eng, Value(), Compile(path), sent, got, during)
      modifies this
      ensures Value() == Called(eng, old(Value()), Compile(path), got, during) && Valid()
      ensures log == old(log) + [Entry(Compile(path), o)]
      ensures o == Timeout || o == (if eng.compile(path).Some? then Outcome.Valid else Invalid)
      ensures schemaReady <==> o == Outcome.Valid
    {
      ghost var s, req := Value(), Compile(path);
      ghost var b := BeginCall(s, req);
      CallInv(eng, s, req, sent, got, during);
      hide Inv;
      WorkerMut(next);
      if !sent {
        DropWorker();
        Become(b);
        return Timeout;
      }
      FrontWaits(eng, b, during);
      if got.None? {
        DropWorker();
        Become(Abandon(After(eng, b, during), req));
        return Timeout;
      }
      schemaReady := got.value == Accept;
      Become(ReceiveReply(After(eng, b, during)));
      o := ToOutcome(got.value);
    }

    method ValidateInstance(path: Path, next: Wid, sent: bool, got: Option<Reply>, ghost during: seq<Event>)
      returns (o: Outcome)
      requires Valid() && next == |workers| && Answers(eng, Value(), Validate(path), sent, got, during)
      modifies this
      ensures Value() == Called(eng, old(Value()), Validate(path), got, during) && Valid()
      ensures log == old(log) + [Entry(Validate(path), o)]
      ensures Fits(eng, SchemaAfter(eng, old(log)), Entry(Validate(path), o))
      ensures o == NoSchema <==> !old(schemaReady)
      ensures schemaReady == (old(schemaReady) && o != Timeout)
    {
      ghost var s, req := Value(), Validate(path);
      ghost var b := BeginCall(s, req);
      CallInv(eng, s, req, sent, got, during);
      hide Inv;
      if !schemaReady {
        Become(b);
        return NoSchema;
      }
      WorkerMut(next);
      if !sent {
        DropWorker();
        Become(b);
        return Timeout;
      }
      FrontWaits(eng, b, during);
      if got.None? {
        DropWorker();
        Become(Abandon(After(eng, b, during), req));
        return Timeout;
      }
      Become(ReceiveReply(After(eng, b, during)));
      o := ToOutcome(got.value);
    }
  }

  /** A call leaves the system between calls, with one more fitting entry in the log. */
  lemma CallInv(eng: Engine, s: System, req: Req, sent: bool, got: Option<Reply>, during: seq<Event>)
    requires Inv(eng, s) && s.call == Ready && Answers(eng, s, req, sent, got, during)
    ensures var t := Called(eng, s, req, got, during);
      && Inv(eng, t) && t.call == Ready && |t.log| == |s.log| + 1 && t.log[..|s.log|] == s.log
      && Fits(eng, SchemaAfter(eng, s.log), t.log[|s.log|]) && (s.ready <==> SchemaAfter(eng, s.log).Some?)
  {
    var b := BeginCall(s, req);
    BeginInv(eng, s, req);
    BeginLogs(s, req);
    assert s.ready <==> SchemaAfter(eng, s.log).Some?;
    hide Inv, BeginCall, Runs;
    if b.call.Waiting? {
      var t := After(eng, b, during);
      RunInv(eng, b, during);
      FrontWaits(eng, b, during);
      if got.Some? { ReceiveInv(eng, t); } else { GiveUpInv(eng, t); }
    }
    var u := Called(eng, s, req, got, during);
    assert u.log == s.log + [u.log[|s.log|]];
    FitsLast(eng, u, s.log);
  }

  /** A call answered on the spot logs one entry; one that waits logs none yet. */
  lemma BeginLogs(s: System, req: Req)
    requires s.call == Ready
    ensures var b := BeginCall(s, req);
      if b.call.Waiting? then b.call.req == req && b.log == s.log
      else |b.log| == |s.log| + 1 && b.log[..|s.log|] == s.log
  {
  }

  lemma FitsLast(eng: Engine, u: System, log: seq<Entry>)
    requires Inv(eng, u) && |u.log| == |log| + 1 && u.log == log + [u.log[|log|]]
    ensures Fits(eng, SchemaAfter(eng, log), u.log[|log|])
  {
    AppendLog(eng, log, u.log[|log|]);
    hide HandlesOk, SchemaAfter, WorkersOk;
  }

  // ── the worker's loop ─────────────────────────────────────────────────────

  function UpTo(n: nat): seq<Handle> {
    if n == 0 then [] else UpTo(n - 1) + [n - 1]
  }

  /** The sequential validator's verdicts, as the worker words them. */
  function SpecReplies(eng: Engine, reqs: seq<Req>): (r: seq<Reply>)
    ensures |r| == |reqs|
    decreases |reqs|
  {
    if reqs == [] then []
    else
      var before, last := reqs[..|reqs| - 1], reqs[|reqs| - 1];
      SpecReplies(eng, before) + [if Verdict(eng, SpecSchema(eng, before), last) == Outcome.Valid then Accept else Reject]
  }

  lemma NextReply(eng: Engine, reqs: seq<Req>, i: nat)
    requires i < |reqs|
    ensures SpecSchema(eng, reqs[..i + 1]) ==
      if reqs[i].Compile? then eng.compile(reqs[i].path) else SpecSchema(eng, reqs[..i])
    ensures SpecReplies(eng, reqs[..i + 1]) == SpecReplies(eng, reqs[..i]) +
      [if Verdict(eng, SpecSchema(eng, reqs[..i]), reqs[i]) == Outcome.Valid then Accept else Reject]
  {
    assert reqs[..i + 1][..i] == reqs[..i];
  }

  function SchemaOf(current: Option<Cached>): Option<Schema> {
    if current.Some? then Some(current.value.schema) else None
  }

  /** All schemas made are freed, in order, but for the one cached, the latest. */
  predicate Books(current: Option<Cached>, made: nat, freed: seq<Handle>) {
    if current.Some? then made > 0 && current.value.handle == made - 1 && freed == UpTo(made - 1)
    else freed == UpTo(made)
  }

  /** The body of the worker's loop up to the send. */
  method ServeOne(eng: Engine, req: Req, current: Option<Cached>, made: nat, freed: seq<Handle>)
    returns (reply: Reply, current': Option<Cached>, made': nat, freed': seq<Handle>)
    requires Books(current, made, freed)
    ensures Books(current', made', freed')
    ensures reply == if Verdict(eng, SchemaOf(current), req) == Outcome.Valid then Accept else Reject
    ensures SchemaOf(current') == if req.Compile? then eng.compile(req.path) else SchemaOf(current)
  {
    reply, current', made', freed' := Reject, current, made, freed;
    match req
    case Compile(p) =>
      if current.Some? {
        freed' := freed + [current.value.handle];
        current' := None;
      }
      var c := eng.compile(p);
      if c.Some? {
        reply, current', made' := Accept, Some(Cached(made, c.value)), made + 1;
      }
    case Validate(p) =>
      if current.Some? && eng.valid(current.value.schema, p) {
        reply := Accept;
      }
  }

  /** One worker thread from its first request to its exit.  The front end hears
      `hears` replies and then lets go, so the next send fails.  The replies are the
      sequential validator's verdicts, and each compiled schema is freed once, in
      the order of compilation. */
  method WorkerLoop(eng: Engine, reqs: seq<Req>, hears: nat)
    returns (replies: seq<Reply>, made: nat, freed: seq<Handle>)
    ensures replies == SpecReplies(eng, reqs[..Min(|reqs|, hears + 1)])
    ensures freed == UpTo(made)
  {
    replies, made, freed := [], 0, [];
    var current: Option<Cached> := None;
    var i, heard := 0, true;
    while i < |reqs| && heard
      invariant i <= |reqs| && i <= hears + 1 && (heard <==> i <= hears)
      invariant replies == SpecReplies(eng, reqs[..i])
      invariant SpecSchema(eng, reqs[..i]) == SchemaOf(current) && Books(current, made, freed)
      decreases |reqs| - i
    {
      hide SpecSchema, SpecReplies, UpTo, Books, Verdict, SchemaOf;
      NextReply(eng, reqs, i);
      var reply;
      reply, current, made, freed := ServeOne(eng, reqs[i], current, made, freed);
      replies := replies + [reply];
      heard := i < hears;
      i := i + 1;
    }
    if current.Some? {
      freed := freed + [current.value.handle];
    }
  }
}
