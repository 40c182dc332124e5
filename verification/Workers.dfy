/** A schema backend and its worker threads, as asynchronous steps: the front end
    sends a request, waits, and on a timeout abandons the worker, which keeps
    running on its own (crates/bench/benches/xsts_compliance.rs:140-402).

    The tickets, `log`, `made` and `freed` exist only here, to say what happened. */
module Workers {
  import opened Basics

  type Path = string
  type Schema = nat
  type Wid = nat
  type Handle = nat

  /** What compiling a schema file and validating an instance file answer. */
  datatype Engine = Engine(compile: Path -> Option<Schema>, valid: (Schema, Path) -> bool)

  datatype Req = Compile(path: Path) | Validate(path: Path)
  datatype Reply = Accept | Reject
  datatype Outcome = Valid | Invalid | NoSchema | Timeout

  datatype Cached = Cached(handle: Handle, schema: Schema)
  datatype Status = Alive | Exited | Died
  datatype Mail<T> = Mail(ticket: nat, item: T)
  datatype Task = Free | Busy(job: Mail<Req>)

  /** A worker thread with its two channels and the schema it caches. */
  datatype Worker = Worker(reqs: seq<Mail<Req>>, task: Task, replies: seq<Mail<Reply>>,
                           current: Option<Cached>, status: Status)

  const NewWorker := Worker([], Free, [], None, Alive)

  datatype Call = Ready | Waiting(ticket: nat, req: Req)
  datatype Entry = Entry(req: Req, outcome: Outcome)

  /** `worker` and `ready` are the backend's two fields.  `made[h]` is the worker
      that compiled schema handle `h`; `freed` the handles released, in order. */
  datatype System = System(worker: Option<Wid>, ready: bool, call: Call, workers: seq<Worker>,
                           log: seq<Entry>, tickets: nat, made: seq<Wid>, freed: seq<Handle>)

  const Initial := System(None, false, Ready, [], [], 0, [], [])

  datatype Event = Begin(req: Req) | Receive | GiveUp | Take(w: Wid) | Finish(w: Wid) | Exit(w: Wid) | Die(w: Wid)

  // ── the front end ─────────────────────────────────────────────────────────

  function ToOutcome(r: Reply): Outcome { if r == Accept then Valid else Invalid }

  function Log(s: System, req: Req, o: Outcome): System { s.(log := s.log + [Entry(req, o)]) }

  /** `worker_mut`: spawn a worker if there is none. */
  function Ensure(s: System): System {
    if s.worker.Some? then s else s.(worker := Some(|s.workers|), workers := s.workers + [NewWorker])
  }

  /** `drop_worker`, then report a timeout. */
  function Abandon(s: System, req: Req): System {
    Log(s.(worker := None, ready := false, call := Ready), req, Timeout)
  }

  function SetWorker(s: System, w: Wid, r: Worker): System
    requires w < |s.workers|
  {
    s.(workers := s.workers[w := r])
  }

  /** The send fails when the receiving thread is gone. */
  function Send(s: System, req: Req): System
    requires s.worker.Some?
  {
    var w := s.worker.value;
    if w >= |s.workers| || s.workers[w].status != Alive then Abandon(s, req)
    else
      var r := s.workers[w];
      SetWorker(s, w, r.(reqs := r.reqs + [Mail(s.tickets, req)]))
        .(call := Waiting(s.tickets, req), tickets := s.tickets + 1)
  }

  /** A validation without a schema is answered on the spot. */
  function BeginCall(s: System, req: Req): System {
    if req.Validate? && !s.ready then Log(s, req, NoSchema) else Send(Ensure(s), req)
  }

  /** `recv_timeout` returns the oldest reply. */
  function ReceiveReply(s: System): System
    requires CanReceive(s)
  {
    var r := s.workers[s.worker.value];
    var reply := r.replies[0].item;
    var t := SetWorker(s, s.worker.value, r.(replies := r.replies[1..]));
    var u := if s.call.req.Compile? then t.(ready := reply == Accept) else t;
    Log(u.(call := Ready), s.call.req, ToOutcome(reply))
  }

  predicate CanReceive(s: System) {
    s.call.Waiting? && s.worker.Some? && s.worker.value < |s.workers| && s.workers[s.worker.value].replies != []
  }

  // ── the worker thread ─────────────────────────────────────────────────────

  function Held(c: Option<Cached>): seq<Handle> { if c.Some? then [c.value.handle] else [] }

  /** Take a request; before a compile the cached schema is freed. */
  function TakeReq(s: System, w: Wid): System
    requires w < |s.workers| && s.workers[w].reqs != []
  {
    var r := s.workers[w];
    var t := r.(reqs := r.reqs[1..], task := Busy(r.reqs[0]));
    if r.reqs[0].item.Compile? then SetWorker(s, w, t.(current := None)).(freed := s.freed + Held(r.current))
    else SetWorker(s, w, t)
  }

  /** The answer of one request, and the schema cached afterwards; `h` names a new one. */
  function Serve(eng: Engine, current: Option<Cached>, req: Req, h: Handle): (Reply, Option<Cached>) {
    match req
    case Compile(p) =>
      var c := eng.compile(p);
      if c.Some? then (Accept, Some(Cached(h, c.value))) else (Reject, None)
    case Validate(p) =>
      if current.None? then (Reject, None)
      else (if eng.valid(current.value.schema, p) then Accept else Reject, current)
  }

  /** The thread leaves its loop and frees what it caches. */
  function Leave(s: System, w: Wid): System
    requires w < |s.workers|
  {
    var r := s.workers[w];
    SetWorker(s, w, r.(reqs := [], task := Free, current := None, status := Exited))
      .(freed := s.freed + Held(r.current))
  }

  /** Work the request out and cache the schema it yields. */
  function Compute(eng: Engine, s: System, w: Wid): System
    requires w < |s.workers| && s.workers[w].task.Busy?
  {
    var r := s.workers[w];
    var current := Serve(eng, r.current, r.task.job.item, |s.made|).1;
    SetWorker(s, w, r.(task := Free, current := current))
      .(made := if r.task.job.item.Compile? && current.Some? then s.made + [w] else s.made)
  }

  /** Answer the request; the send fails when the front end has let go. */
  function FinishReq(eng: Engine, s: System, w: Wid): System
    requires w < |s.workers| && s.workers[w].task.Busy?
  {
    var r := s.workers[w];
    var reply := Serve(eng, r.current, r.task.job.item, |s.made|).0;
    var t := Compute(eng, s, w);
    if s.worker == Some(w) then SetWorker(t, w, t.workers[w].(replies := r.replies + [Mail(r.task.job.ticket, reply)]))
    else Leave(t, w)
  }

  /** The thread dies without cleaning up; its receiver goes, replies already sent stay. */
  function Kill(s: System, w: Wid): System
    requires w < |s.workers|
  {
    SetWorker(s, w, s.workers[w].(reqs := [], task := Free, current := None, status := Died))
  }

  predicate Idle(s: System, w: Wid) { w < |s.workers| && s.workers[w].status == Alive && s.workers[w].task == Free }

  /** The front end may give up at any moment of a wait, and any thread may die. */
  predicate Enabled(s: System, e: Event) {
    match e
    case Begin(_) => s.call == Ready
    case Receive => CanReceive(s)
    case GiveUp => s.call.Waiting?
    case Take(w) => Idle(s, w) && s.workers[w].reqs != []
    case Finish(w) => w < |s.workers| && s.workers[w].status == Alive && s.workers[w].task.Busy?
    case Exit(w) => Idle(s, w) && s.workers[w].reqs == [] && s.worker != Some(w)
    case Die(w) => w < |s.workers| && s.workers[w].status == Alive
  }

  function Step(eng: Engine, s: System, e: Event): System
    requires Enabled(s, e)
  {
    match e
    case Begin(req) => BeginCall(s, req)
    case Receive => ReceiveReply(s)
    case GiveUp => Abandon(s, s.call.req)
    case Take(w) => TakeReq(s, w)
    case Finish(w) => FinishReq(eng, s, w)
    case Exit(w) => Leave(s, w)
    case Die(w) => Kill(s, w)
  }

  // ── the sequential validator ──────────────────────────────────────────────

  /** The schema in force after a log: a timeout forgets it. */
  function SchemaAfter(eng: Engine, log: seq<Entry>): Option<Schema>
    decreases |log|
  {
    if log == [] then None
    else
      var last := log[|log| - 1];
      match last.req
      case Compile(p) => if last.outcome == Valid then eng.compile(p) else None
      case Validate(_) => if last.outcome == Timeout then None else SchemaAfter(eng, log[..|log| - 1])
  }

  /** What a single-threaded validator answers. */
  function Verdict(eng: Engine, schema: Option<Schema>, req: Req): Outcome {
    match req
    case Compile(p) => if eng.compile(p).Some? then Valid else Invalid
    case Validate(p) =>
      if schema.None? then NoSchema else if eng.valid(schema.value, p) then Valid else Invalid
  }

  predicate Fits(eng: Engine, schema: Option<Schema>, e: Entry) {
    e.outcome == Verdict(eng, schema, e.req) || (e.outcome == Timeout && Verdict(eng, schema, e.req) != NoSchema)
  }

  /** Every entry is the sequential answer, or a timeout of a request actually sent. */
  ghost predicate Sequential(eng: Engine, log: seq<Entry>)
    decreases |log|
  {
    log == [] || (Sequential(eng, log[..|log| - 1]) && Fits(eng, SchemaAfter(eng, log[..|log| - 1]), log[|log| - 1]))
  }

  // ── invariant ─────────────────────────────────────────────────────────────

  /** At most one request is with a worker, and a validation only with a schema. */
  predicate WorkerOk(r: Worker) {
    && |r.reqs| + (if r.task.Busy? then 1 else 0) <= 1
    && (r.reqs != [] && r.reqs[0].item.Validate? ==> r.current.Some?)
    && (r.task.Busy? ==> (r.task.job.item.Validate? <==> r.current.Some?))
    && (r.status != Alive ==> r.reqs == [] && r.task == Free && r.current == None)
  }

  /** The worker is between requests, caching `schema` if it is alive. */
  predicate Settled(r: Worker, schema: Option<Schema>) {
    && r.reqs == [] && r.task == Free
    && (r.status == Alive ==> (if r.current.Some? then Some(r.current.value.schema) else None) == schema)
  }

  /** The request is with the worker: queued, running, answered, or lost with it. */
  predicate InFlight(eng: Engine, r: Worker, k: nat, req: Req, schema: Option<Schema>) {
    var after := if Verdict(eng, schema, req) == Valid && req.Compile? then eng.compile(req.path)
                 else if req.Compile? then None else schema;
    if r.replies != [] then
      |r.replies| == 1 && r.replies[0].ticket == k
      && ToOutcome(r.replies[0].item) == Verdict(eng, schema, req) && Settled(r, after)
    else if r.status != Alive then r.reqs == [] && r.task == Free
    else if r.task.Busy? then
      r.task.job == Mail(k, req) && r.reqs == [] && (req.Validate? ==> r.current.Some? && Some(r.current.value.schema) == schema)
    else
      r.reqs == [Mail(k, req)] && (req.Validate? ==> r.current.Some? && Some(r.current.value.schema) == schema)
  }

  ghost predicate Front(eng: Engine, s: System) {
    var schema := SchemaAfter(eng, s.log);
    && Sequential(eng, s.log)
    && (s.ready <==> schema.Some?)
    && (s.worker.None? ==> s.call == Ready && !s.ready)
    && (s.worker.Some? ==> s.worker.value < |s.workers|)
    && (s.worker.Some? && s.call == Ready ==>
          s.workers[s.worker.value].replies == [] && Settled(s.workers[s.worker.value], schema))
    && (s.call.Waiting? ==>
          && s.call.ticket + 1 == s.tickets
          && (s.call.req.Validate? ==> s.ready)
          && InFlight(eng, s.workers[s.worker.value], s.call.ticket, s.call.req, schema))
  }

  ghost predicate WorkersOk(workers: seq<Worker>) { forall w :: 0 <= w < |workers| ==> WorkerOk(workers[w]) }

  predicate Holds(workers: seq<Worker>, w: Wid, h: Handle) {
    w < |workers| && workers[w].current.Some? && workers[w].current.value.handle == h
  }

  /** A handle is cached by its maker, or freed, once, or lost when its maker died. */
  ghost predicate HandlesOk(workers: seq<Worker>, made: seq<Wid>, freed: seq<Handle>) {
    && (forall i, j :: 0 <= i < j < |freed| ==> freed[i] != freed[j])
    && (forall h :: h in freed ==> h < |made|)
    && (forall w, h: Handle :: Holds(workers, w, h) ==> h < |made| && made[h] == w && h !in freed)
    && (forall h: Handle :: h < |made| ==> Settles(workers, made[h], freed, h))
  }

  predicate Settles(workers: seq<Worker>, maker: Wid, freed: seq<Handle>, h: Handle) {
    maker < |workers| && (h in freed || Holds(workers, maker, h) || workers[maker].status == Died)
  }

  ghost predicate Inv(eng: Engine, s: System) {
    Front(eng, s) && WorkersOk(s.workers) && HandlesOk(s.workers, s.made, s.freed)
  }

  // ── schema handles ────────────────────────────────────────────────────────

  /** Queues and tasks do not matter to handles, nor does a new worker. */
  lemma HandlesKeep(workers: seq<Worker>, after: seq<Worker>, made: seq<Wid>, freed: seq<Handle>)
    requires HandlesOk(workers, made, freed) && |workers| <= |after|
    requires forall w :: 0 <= w < |workers| ==>
      after[w].current == workers[w].current && (workers[w].status == Died ==> after[w].status == Died)
    requires forall w :: |workers| <= w < |after| ==> after[w].current == None
    ensures HandlesOk(after, made, freed)
  {
    forall w, h: Handle | Holds(after, w, h) ensures h < |made| && made[h] == w && h !in freed {
      assert Holds(workers, w, h);
    }
    forall h: Handle | h < |made| ensures Settles(after, made[h], freed, h) {
      assert Settles(workers, made[h], freed, h);
      assert Holds(workers, made[h], h) ==> Holds(after, made[h], h);
    }
  }

  /** Freeing what a worker caches. */
  lemma HandlesFree(workers: seq<Worker>, w: Wid, r: Worker, made: seq<Wid>, freed: seq<Handle>)
    requires HandlesOk(workers, made, freed) && w < |workers|
    requires r.current == None && (workers[w].status == Died ==> r.status == Died)
    ensures HandlesOk(workers[w := r], made, freed + Held(workers[w].current))
  {
    var after, more := workers[w := r], freed + Held(workers[w].current);
    assert workers[w].current.Some? ==> Holds(workers, w, workers[w].current.value.handle);
    forall v, h: Handle | Holds(after, v, h) ensures h < |made| && made[h] == v && h !in more {
      assert Holds(workers, v, h);
    }
    forall h: Handle | h < |made| ensures Settles(after, made[h], more, h) {
      assert Settles(workers, made[h], freed, h);
      assert Holds(workers, made[h], h) && made[h] != w ==> Holds(after, made[h], h);
      assert Holds(workers, w, h) ==> h in Held(workers[w].current);
    }
  }

  /** Caching a newly compiled schema. */
  lemma HandlesMake(workers: seq<Worker>, w: Wid, r: Worker, made: seq<Wid>, freed: seq<Handle>)
    requires HandlesOk(workers, made, freed) && w < |workers|
    requires workers[w].current == None && r.current.Some? && r.current.value.handle == |made| && workers[w].status == r.status
    ensures HandlesOk(workers[w := r], made + [w], freed)
  {
    var after, more := workers[w := r], made + [w];
    forall v, h: Handle | Holds(after, v, h) ensures h < |more| && more[h] == v && h !in freed {
      assert v != w ==> Holds(workers, v, h);
    }
    forall h: Handle | h < |more| ensures Settles(after, more[h], freed, h) {
      if h == |made| { assert Holds(after, w, h); }
      else {
        assert Settles(workers, made[h], freed, h);
        assert Holds(workers, made[h], h) ==> Holds(after, made[h], h);
      }
    }
  }

  /** A dying worker loses what it caches. */
  lemma HandlesLose(workers: seq<Worker>, w: Wid, r: Worker, made: seq<Wid>, freed: seq<Handle>)
    requires HandlesOk(workers, made, freed) && w < |workers| && r.current == None && r.status == Died
    ensures HandlesOk(workers[w := r], made, freed)
  {
    var after := workers[w := r];
    forall v, h: Handle | Holds(after, v, h) ensures h < |made| && made[h] == v && h !in freed {
      assert Holds(workers, v, h);
    }
    forall h: Handle | h < |made| ensures Settles(after, made[h], freed, h) {
      assert Settles(workers, made[h], freed, h);
      assert made[h] != w && Holds(workers, made[h], h) ==> Holds(after, made[h], h);
    }
  }

  // ── one step ──────────────────────────────────────────────────────────────

  lemma AppendLog(eng: Engine, log: seq<Entry>, e: Entry)
    ensures Sequential(eng, log + [e]) <==> Sequential(eng, log) && Fits(eng, SchemaAfter(eng, log), e)
    ensures SchemaAfter(eng, log + [e]) ==
      match e.req
      case Compile(p) => (if e.outcome == Valid then eng.compile(p) else None)
      case Validate(_) => (if e.outcome == Timeout then None else SchemaAfter(eng, log))
  {
    assert (log + [e])[..|log|] == log;
  }

  lemma EnsureInv(eng: Engine, s: System)
    requires Inv(eng, s) && s.call == Ready
    ensures Inv(eng, Ensure(s)) && Ensure(s).worker.Some?
  {
    HandlesKeep(s.workers, Ensure(s).workers, s.made, s.freed);
    hide HandlesOk, SchemaAfter, Sequential;
  }

  lemma SendInv(eng: Engine, s: System, req: Req)
    requires Inv(eng, s) && s.call == Ready && s.worker.Some? && (req.Validate? ==> s.ready)
    ensures Inv(eng, Send(s, req))
  {
    AppendLog(eng, s.log, Entry(req, Timeout));
    HandlesKeep(s.workers, Send(s, req).workers, s.made, s.freed);
    hide HandlesOk, SchemaAfter, Sequential;
  }

  lemma BeginInv(eng: Engine, s: System, req: Req)
    requires Inv(eng, s) && s.call == Ready
    ensures Inv(eng, BeginCall(s, req))
  {
    if req.Validate? && !s.ready {
      AppendLog(eng, s.log, Entry(req, NoSchema));
      hide HandlesOk, SchemaAfter, Sequential;
    } else {
      EnsureInv(eng, s);
      SendInv(eng, Ensure(s), req);
    }
  }

  lemma GiveUpInv(eng: Engine, s: System)
    requires Inv(eng, s) && s.call.Waiting?
    ensures Inv(eng, Abandon(s, s.call.req))
  {
    AppendLog(eng, s.log, Entry(s.call.req, Timeout));
    hide HandlesOk, SchemaAfter, Sequential;
  }

  lemma ReceiveInv(eng: Engine, s: System)
    requires Inv(eng, s) && CanReceive(s)
    ensures Inv(eng, ReceiveReply(s))
  {
    AppendLog(eng, s.log, Entry(s.call.req, ToOutcome(s.workers[s.worker.value].replies[0].item)));
    HandlesKeep(s.workers, ReceiveReply(s).workers, s.made, s.freed);
    hide HandlesOk, SchemaAfter, Sequential;
  }

  lemma TakeInv(eng: Engine, s: System, w: Wid)
    requires Inv(eng, s) && Enabled(s, Take(w))
    ensures Inv(eng, TakeReq(s, w))
  {
    var t := TakeReq(s, w);
    if s.workers[w].reqs[0].item.Compile? { HandlesFree(s.workers, w, t.workers[w], s.made, s.freed); }
    else { HandlesKeep(s.workers, t.workers, s.made, s.freed); }
    hide HandlesOk, SchemaAfter, Sequential;
  }

  lemma LeaveInv(eng: Engine, s: System, w: Wid)
    requires Inv(eng, s) && w < |s.workers| && s.workers[w].status == Alive && s.worker != Some(w)
    ensures Inv(eng, Leave(s, w))
  {
    HandlesFree(s.workers, w, Leave(s, w).workers[w], s.made, s.freed);
    hide HandlesOk, SchemaAfter, Sequential;
  }

  lemma ComputeHandles(eng: Engine, s: System, w: Wid)
    requires WorkersOk(s.workers) && HandlesOk(s.workers, s.made, s.freed) && Enabled(s, Finish(w))
    ensures var t := Compute(eng, s, w); WorkersOk(t.workers) && HandlesOk(t.workers, t.made, t.freed)
  {
    var t := Compute(eng, s, w);
    if s.workers[w].task.job.item.Compile? && t.workers[w].current.Some? {
      HandlesMake(s.workers, w, t.workers[w], s.made, s.freed);
    } else {
      HandlesKeep(s.workers, t.workers, s.made, s.freed);
    }
    hide HandlesOk;
  }

  lemma FinishInv(eng: Engine, s: System, w: Wid)
    requires Inv(eng, s) && Enabled(s, Finish(w))
    ensures Inv(eng, FinishReq(eng, s, w))
  {
    ComputeHandles(eng, s, w);
    var t := Compute(eng, s, w);
    if s.worker == Some(w) {
      HandlesKeep(t.workers, FinishReq(eng, s, w).workers, t.made, t.freed);
    } else {
      LeaveInv(eng, t, w);
    }
    hide HandlesOk, SchemaAfter, Sequential;
  }

  lemma KillInv(eng: Engine, s: System, w: Wid)
    requires Inv(eng, s) && Enabled(s, Die(w))
    ensures Inv(eng, Kill(s, w))
  {
    HandlesLose(s.workers, w, Kill(s, w).workers[w], s.made, s.freed);
    hide HandlesOk, SchemaAfter, Sequential;
  }

  lemma StepInv(eng: Engine, s: System, e: Event)
    requires Inv(eng, s) && Enabled(s, e)
    ensures Inv(eng, Step(eng, s, e))
  {
    hide Inv;
    match e
    case Begin(req) => BeginInv(eng, s, req);
    case Receive => ReceiveInv(eng, s);
    case GiveUp => GiveUpInv(eng, s);
    case Take(w) => TakeInv(eng, s, w);
    case Finish(w) => FinishInv(eng, s, w);
    case Exit(w) => LeaveInv(eng, s, w);
    case Die(w) => KillInv(eng, s, w);
  }

  // ── runs ──────────────────────────────────────────────────────────────────

  ghost predicate Runs(eng: Engine, s: System, es: seq<Event>)
    decreases |es|
  {
    es == [] || (Enabled(s, es[0]) && Runs(eng, Step(eng, s, es[0]), es[1..]))
  }

  ghost function After(eng: Engine, s: System, es: seq<Event>): System
    requires Runs(eng, s, es)
    decreases |es|
  {
    if es == [] then s else After(eng, Step(eng, s, es[0]), es[1..])
  }

  lemma {:induction false} RunInv(eng: Engine, s: System, es: seq<Event>)
    requires Inv(eng, s) && Runs(eng, s, es)
    ensures Inv(eng, After(eng, s, es))
    decreases |es|
  {
    hide Inv, Step, Enabled;
    if es != [] {
      StepInv(eng, s, es[0]);
      RunInv(eng, Step(eng, s, es[0]), es[1..]);
    }
  }

  /** In every run, with orphaned workers still going and workers dying at any
      moment: the reply the front end reads is the one to the request it just sent,
      it is the sequential answer to it, and between calls the current worker's
      channels are empty. */
  lemma NoStaleReplies(eng: Engine, es: seq<Event>)
    requires Runs(eng, Initial, es)
    ensures var s := After(eng, Initial, es);
      && (s.call == Ready && s.worker.Some? ==>
            && s.worker.value < |s.workers|
            && s.workers[s.worker.value].reqs == [] && s.workers[s.worker.value].replies == [])
      && (CanReceive(s) ==>
            var replies := s.workers[s.worker.value].replies;
            && |replies| == 1 && replies[0].ticket == s.call.ticket == s.tickets - 1
            && ToOutcome(replies[0].item) == Verdict(eng, SchemaAfter(eng, s.log), s.call.req))
  {
    RunInv(eng, Initial, es);
    hide HandlesOk, SchemaAfter, Sequential, Step;
  }

  /** In every run the outcomes are those of the sequential validator, up to timeouts
      of requests really sent; `ready` says whether that validator has a schema; and
      between calls the current worker, if it lives, caches exactly that schema. */
  lemma RefinesSequential(eng: Engine, es: seq<Event>)
    requires Runs(eng, Initial, es)
    ensures var s := After(eng, Initial, es);
      && Sequential(eng, s.log)
      && (s.ready <==> SchemaAfter(eng, s.log).Some?)
      && (s.ready && s.call == Ready ==>
            && s.worker.Some? && s.worker.value < |s.workers|
            && var r := s.workers[s.worker.value];
               (r.status == Alive ==> r.current.Some? && Some(r.current.value.schema) == SchemaAfter(eng, s.log)))
  {
    RunInv(eng, Initial, es);
    hide HandlesOk, SchemaAfter, Sequential, Step;
  }

  /** The arms that answer a validation without a schema never execute. */
  lemma NoDefensiveArm(eng: Engine, es: seq<Event>, w: Wid)
    requires Runs(eng, Initial, es)
    ensures var s := After(eng, Initial, es);
      w < |s.workers| && s.workers[w].task.Busy? && s.workers[w].task.job.item.Validate? ==> s.workers[w].current.Some?
  {
    RunInv(eng, Initial, es);
    hide HandlesOk, SchemaAfter, Sequential, Step;
  }

  /** No schema is freed twice or while cached, and a worker that left its loop
      has freed every schema it compiled. */
  lemma FreedOnce(eng: Engine, es: seq<Event>)
    requires Runs(eng, Initial, es)
    ensures var s := After(eng, Initial, es);
      && (forall i, j :: 0 <= i < j < |s.freed| ==> s.freed[i] != s.freed[j])
      && (forall w, h: Handle :: Holds(s.workers, w, h) ==> h !in s.freed)
      && (forall h: Handle :: h < |s.made| ==>
            && s.made[h] < |s.workers|
            && (s.workers[s.made[h]].status == Exited ==> h in s.freed))
  {
    RunInv(eng, Initial, es);
    var s := After(eng, Initial, es);
    hide SchemaAfter, Sequential, Step, Front;
    forall h: Handle | h < |s.made| ensures s.made[h] < |s.workers| && (s.workers[s.made[h]].status == Exited ==> h in s.freed) {
      assert Settles(s.workers, s.made[h], s.freed, h);
    }
  }

  // ── runs without timeouts ─────────────────────────────────────────────────

  /** The thread serving the front end is alive whenever a send could find it dead. */
  predicate Reachable(s: System) {
    s.worker.Some? && s.worker.value < |s.workers| ==>
      var r := s.workers[s.worker.value];
      s.call == Ready || r.replies != [] ==> r.status == Alive
  }

  /** Workers die, if at all, while working on a request. */
  predicate DiesBusy(s: System, e: Event) {
    e.Die? && e.w < |s.workers| ==> s.workers[e.w].task.Busy?
  }

  ghost predicate AllDieBusy(eng: Engine, s: System, es: seq<Event>)
    requires Runs(eng, s, es)
    decreases |es|
  {
    es == [] || (DiesBusy(s, es[0]) && AllDieBusy(eng, Step(eng, s, es[0]), es[1..]))
  }

  function Timeouts(log: seq<Entry>): nat
    decreases |log|
  {
    if log == [] then 0
    else Timeouts(log[..|log| - 1]) + (if log[|log| - 1].outcome == Timeout then 1 else 0)
  }

  function GiveUps(es: seq<Event>): nat { if es == [] then 0 else GiveUps(es[1..]) + (if es[0] == GiveUp then 1 else 0) }

  lemma AppendTimeouts(log: seq<Entry>, e: Entry)
    ensures Timeouts(log + [e]) == Timeouts(log) + (if e.outcome == Timeout then 1 else 0)
  {
    assert (log + [e])[..|log|] == log;
  }

  lemma TimeoutStep(eng: Engine, s: System, e: Event)
    requires Inv(eng, s) && Enabled(s, e) && Reachable(s) && DiesBusy(s, e)
    ensures Reachable(Step(eng, s, e))
    ensures Timeouts(Step(eng, s, e).log) == Timeouts(s.log) + (if e == GiveUp then 1 else 0)
  {
    hide HandlesOk, SchemaAfter, Sequential, Timeouts;
    if e.Begin? { AppendTimeouts(s.log, Entry(e.req, NoSchema)); }
    if e.GiveUp? { AppendTimeouts(s.log, Entry(s.call.req, Timeout)); }
    if e.Receive? {
      AppendTimeouts(s.log, Entry(s.call.req, ToOutcome(s.workers[s.worker.value].replies[0].item)));
    }
  }

  /** When threads die only at work, no send ever fails: the timeouts reported are
      exactly the waits the front end gave up on. */
  lemma {:induction false} SendsSucceed(eng: Engine, s: System, es: seq<Event>)
    requires Inv(eng, s) && Runs(eng, s, es) && Reachable(s) && AllDieBusy(eng, s, es)
    ensures Timeouts(After(eng, s, es).log) == Timeouts(s.log) + GiveUps(es)
    decreases |es|
  {
    hide Inv, Step, Enabled, Reachable, DiesBusy, Timeouts;
    if es != [] {
      TimeoutStep(eng, s, es[0]);
      StepInv(eng, s, es[0]);
      SendsSucceed(eng, Step(eng, s, es[0]), es[1..]);
    }
  }

  /** The schema a single-threaded validator holds after the requests, and its answers. */
  function SpecSchema(eng: Engine, reqs: seq<Req>): Option<Schema>
    decreases |reqs|
  {
    if reqs == [] then None
    else
      match reqs[|reqs| - 1]
      case Compile(p) => eng.compile(p)
      case Validate(_) => SpecSchema(eng, reqs[..|reqs| - 1])
  }

  function SpecOutcomes(eng: Engine, reqs: seq<Req>): seq<Outcome>
    decreases |reqs|
  {
    if reqs == [] then []
    else
      var before := reqs[..|reqs| - 1];
      SpecOutcomes(eng, before) + [Verdict(eng, SpecSchema(eng, before), reqs[|reqs| - 1])]
  }

  function Reqs(log: seq<Entry>): seq<Req> { seq(|log|, i requires 0 <= i < |log| => log[i].req) }
  function Outcomes(log: seq<Entry>): seq<Outcome> { seq(|log|, i requires 0 <= i < |log| => log[i].outcome) }

  lemma {:induction false} SequentialExactly(eng: Engine, log: seq<Entry>)
    requires Sequential(eng, log) && Timeouts(log) == 0
    ensures Outcomes(log) == SpecOutcomes(eng, Reqs(log)) && SchemaAfter(eng, log) == SpecSchema(eng, Reqs(log))
    decreases |log|
  {
    if log != [] {
      var before := log[..|log| - 1];
      SequentialExactly(eng, before);
      assert Reqs(log)[..|log| - 1] == Reqs(before);
      assert Outcomes(log) == Outcomes(before) + [log[|log| - 1].outcome];
    }
  }

  /** Any run whose log holds no timeout, whatever died meanwhile, answers exactly as
      the sequential validator does. */
  lemma UntimedRun(eng: Engine, es: seq<Event>)
    requires Runs(eng, Initial, es) && Timeouts(After(eng, Initial, es).log) == 0
    ensures var log := After(eng, Initial, es).log; Outcomes(log) == SpecOutcomes(eng, Reqs(log))
  {
    RunInv(eng, Initial, es);
    SequentialExactly(eng, After(eng, Initial, es).log);
  }

  /** That is so when the front end never gives up and threads die only at work. */
  lemma UndisturbedRun(eng: Engine, es: seq<Event>)
    requires Runs(eng, Initial, es) && AllDieBusy(eng, Initial, es) && GiveUps(es) == 0
    ensures Timeouts(After(eng, Initial, es).log) == 0
    ensures var log := After(eng, Initial, es).log; Outcomes(log) == SpecOutcomes(eng, Reqs(log))
  {
    SendsSucceed(eng, Initial, es);
    UntimedRun(eng, es);
  }
}
