/** No live document reaches freed memory, in every interleaving that keeps to the
    move protocol; and what the protocol does not cover
    (crates/compat/src/dict.rs:139-192, 246-283). */
module Safety {
  import opened Sums
  import opened Basics
  import opened CompatState
  import opened CompatCounts
  import opened CompatSteps
  import opened Lifetime
  import opened Grafts
  import opened Chains

  // ── the cross-thread move ─────────────────────────────────────────────────

  /** Thread `t` stashed arena `a` at step `i`, `xmlDictOwns(src, name)` answered 1
      at step `j`, and at step `k` it looks `name` up in another dictionary `dst`,
      with no other lookup, unlink or owning probe of its own in between. */
  ghost predicate Move(r: Run, i: nat, j: nat, k: nat, t: Tid, a: Arena, src: Ptr, dst: Ptr, name: Ptr)
    requires Valid(r)
  {
    && k < |r.events| && StashedAt(r, k, t, a, i) && ArmedAt(r, k, t, src, name, j)
    && Consumes(r.events[k], t) && r.events[k].d == dst && r.events[k].name == name && src != dst
  }

  /** A lookup pins an arena exactly when it completes such a move, and then it is
      that move's arena, pinned on the dictionary looked up in; nothing else about
      any dictionary's pins changes. */
  lemma PinIffMove(r: Run, k: nat, t: Tid, a: Arena)
    requires Valid(r) && k < |r.events| && Consumes(r.events[k], t)
    ensures t in r.states[k].threads
    ensures PinBy(r.states[k], t, r.events[k].d, r.events[k].name) == Some(a)
       <==> exists i, j, src :: Move(r, i, j, k, t, a, src, r.events[k].d, r.events[k].name)
    ensures forall e, b: Arena :: (Pinned(r.states[k + 1].dicts, e, b)
       <==> Pinned(r.states[k].dicts, e, b)
            || (e == r.events[k].d && PinBy(r.states[k], t, e, r.events[k].name) == Some(b)))
  {
    hide Lookup, Release, Pinned, ChainOwns, TableOk, Inv;
    var s, e := r.states[k], r.events[k];
    assert Enabled(s, e) && r.states[k + 1] == Step(s, e);
    RunSound(r, k);
    SoundTable(s, e.d);
    LookupPins(s, t, e.d, e.name, e.bytes, e.addr);
    hide Step, Enabled;
    GraftSlotMeans(r, k, t, a);
    if PinBy(s, t, e.d, e.name) == Some(a) {
      ReinternSlotMeans(r, k, t, s.threads[t].pendingSrc, e.name);
      var i: nat :| StashedAt(r, k, t, a, i);
      var j: nat :| ArmedAt(r, k, t, s.threads[t].pendingSrc, e.name, j);
      assert Move(r, i, j, k, t, a, s.threads[t].pendingSrc, e.d, e.name);
    }
    if i: nat, j: nat, src :| Move(r, i, j, k, t, a, src, e.d, e.name) {
      ReinternSlotMeans(r, k, t, src, e.name);
    }
  }

  /** No stash is pinned twice: two completed moves of one thread started from
      different unlinks. */
  lemma StashPinnedOnce(r: Run, i: nat, j: nat, k: nat, i': nat, j': nat, k': nat, t: Tid,
                        a: Arena, a': Arena, src: Ptr, src': Ptr, dst: Ptr, dst': Ptr, name: Ptr, name': Ptr)
    requires Valid(r) && Move(r, i, j, k, t, a, src, dst, name) && Move(r, i', j', k', t, a', src', dst', name')
    requires k < k'
    ensures i < k < i'
  {
    hide Step, Enabled, ChainOwns;
  }

  // ── how long a pin lasts ──────────────────────────────────────────────────

  /** A pin on a dictionary of a document's chains lasts while the document keeps to
      a chain that dictionary is on. */
  lemma {:induction false} PinLasts(r: Run, m: nat, n: nat, doc: DocId, d: Ptr, a: Arena)
    requires Valid(r) && m <= n < |r.states|
    requires Pinned(r.states[m].dicts, d, a)
    requires forall x :: m <= x <= n ==> OnDict(r.states[x], doc, d)
    ensures Pinned(r.states[n].dicts, d, a)
    decreases n - m
  {
    if m < n {
      hide Step, Inv, Enabled, OnChain, Pinned;
      RunSound(r, m);
      assert Enabled(r.states[m], r.events[m]);
      StepPins(r.states[m], r.events[m]);
      assert OnDict(r.states[m + 1], doc, d);
      OnChainLive(r.states[m + 1].dicts, r.states[m + 1].docs[doc], d);
      PinKept(r.states[m].dicts, r.states[m + 1].dicts, d, a);
      PinLasts(r, m + 1, n, doc, d, a);
    }
  }

  predicate ThreadKeeps(th: Thread, a: Arena) { a in th.keepAlive || th.graft == Some(a) }

  /** After a completed move the moved memory is covered while the document stays on
      a chain of the dictionary looked up in. */
  lemma MoveCovers(r: Run, i: nat, j: nat, k: nat, t: Tid, a: Arena, src: Ptr, dst: Ptr, name: Ptr, doc: DocId, m: nat)
    requires Valid(r) && Move(r, i, j, k, t, a, src, dst, name) && k < m < |r.states|
    requires forall x :: k < x <= m ==> OnDict(r.states[x], doc, dst)
    ensures doc in r.states[m].docs && Covered(r.states[m], r.states[m].docs[doc], a)
  {
    hide Step, Enabled, Pinned, OnChain;
    PinIffMove(r, k, t, a);
    PinLasts(r, k + 1, m, doc, dst, a);
    assert OnDict(r.states[m], doc, dst);
  }

  /** Between the unlink and the lookup the pending slot itself holds the arena. */
  lemma MoveInFlight(r: Run, i: nat, j: nat, k: nat, t: Tid, a: Arena, src: Ptr, dst: Ptr, name: Ptr, m: nat)
    requires Valid(r) && Move(r, i, j, k, t, a, src, dst, name) && i < m <= k
    requires t in r.states[m].threads
    ensures r.states[m].threads[t].graft == Some(a)
  {
    hide Step, Enabled;
    assert StashedAt(r, m, t, a, i);
    GraftSlotMeans(r, m, t, a);
  }

  /** The whole window of a move: from the unlink on, while the moving thread has
      not exited before its lookup and the destination document afterwards stays on
      the dictionary looked up in, the moved memory has a holder. */
  lemma MoveBacked(r: Run, i: nat, j: nat, k: nat, t: Tid, a: Arena, src: Ptr, dst: Ptr, name: Ptr, doc: DocId, m: nat)
    requires Valid(r) && Move(r, i, j, k, t, a, src, dst, name) && i < m < |r.states|
    requires m <= k ==> t in r.states[m].threads && doc in r.states[m].docs
    requires m > k ==> forall x :: k < x <= m ==> OnDict(r.states[x], doc, dst)
    ensures doc in r.states[m].docs && Backed(r.states[m], None, r.states[m].docs[doc], a)
    ensures a in r.states[m].arcs
  {
    hide Step, Enabled, Pinned, Inv;
    if m <= k {
      MoveInFlight(r, i, j, k, t, a, src, dst, name, m);
      assert ThreadKeeps(r.states[m].threads[t], a);
    } else {
      MoveCovers(r, i, j, k, t, a, src, dst, name, doc, m);
    }
    RunSound(r, m);
    BackedLive(r.states[m], doc, a);
  }

  /** A thread keeps every arena it opened until it exits. */
  lemma {:induction false} KeptUntilExit(r: Run, i: nat, m: nat)
    requires Valid(r) && i < m < |r.states| && r.events[i].NewDoc?
    requires forall x :: i < x < m ==> r.events[x] != ThreadExit(r.events[i].t)
    ensures r.events[i].t in r.states[m].threads
    ensures r.states[i].nextArena in r.states[m].threads[r.events[i].t].keepAlive
    decreases m
  {
    var t := r.events[i].t;
    hide Step;
    if m == i + 1 {
      assert Enabled(r.states[i], r.events[i]);
      NewDocKept(r.states[i], r.events[i]);
    } else {
      KeptUntilExit(r, i, m - 1);
      assert Enabled(r.states[m - 1], r.events[m - 1]);
      hide Enabled;
      KeepAliveStep(r.states[m - 1], r.events[m - 1], t);
    }
  }

  lemma NewDocKept(s: State, e: Event)
    requires Enabled(s, e) && e.NewDoc?
    ensures e.t in Step(s, e).threads && s.nextArena in Step(s, e).threads[e.t].keepAlive
  {
    hide OpenDoc;
  }

  // ── every run ─────────────────────────────────────────────────────────────

  /** A thread other than `not` (or any thread) that keeps the arena. */
  ghost predicate KeptBut(s: State, not: Option<Tid>, a: Arena) {
    exists t :: t in s.threads && not != Some(t) && ThreadKeeps(s.threads[t], a)
  }

  ghost predicate Backed(s: State, not: Option<Tid>, doc: Doc, a: Arena) {
    Covered(s, doc, a) || KeptBut(s, not, a)
  }

  /** Every node reachable from a live document is backed. */
  ghost predicate Guarded(s: State) {
    forall k, n :: k in s.docs && n in s.docs[k].nodes && n in s.home ==> Backed(s, None, s.docs[k], s.home[n])
  }

  /** No live document reaches a freed arena. */
  ghost predicate Safe(s: State) {
    forall k, n :: k in s.docs && n in s.docs[k].nodes ==> n in s.home && s.home[n] in s.arcs
  }

  /** What the consumer owes before a call that may let an arena go or bring a
      node in: a keep-alive is relied on only until its thread exits, a stash is
      consumed only by the move it belongs to, and a node is linked only where
      its memory is backed. */
  ghost predicate Allowed(s: State, e: Event)
    requires Enabled(s, e)
  {
    match e
    case ThreadExit(t) =>
      forall k, n :: k in s.docs && n in s.docs[k].nodes && n in s.home ==> Backed(s, Some(t), s.docs[k], s.home[n])
    case DictLookup(t, d, name, bytes, addr) =>
      Consumes(e, t) ==> forall k, n :: k in s.docs && n in s.docs[k].nodes && n in s.home ==>
        Backed(s, Some(t), s.docs[k], s.home[n]) || s.home[n] in s.threads[t].keepAlive
        || (PinBy(s, t, d, name) == Some(s.home[n]) && OnDict(s, k, d))
    case Unlink(t, doc, nodes) =>
      forall k, n :: k in s.docs && n in s.docs[k].nodes && n in s.home ==>
        Backed(s, Some(t), s.docs[k], s.home[n]) || s.home[n] in s.threads[t].keepAlive || s.home[n] == s.docs[doc].arena
    case SwapSlot(doc, d) =>
      forall n :: n in s.docs[doc].nodes && n in s.home ==> Backed(s, None, s.docs[doc].(slot := d), s.home[n])
    case Link(doc, nodes) =>
      forall n :: n in nodes && n in s.home ==> Backed(s, None, s.docs[doc], s.home[n])
    case Graft(src, dst, nodes) =>
      forall n :: n in nodes && n in s.home ==>
        Backed(s, None, s.docs[dst], s.home[n]) || (GraftPins(s, src, dst) && s.home[n] == s.docs[src].arena)
    case _ => true
  }

  lemma GuardedSafe(s: State)
    requires Sound(s) && Guarded(s)
    ensures Safe(s)
  {
    hide Count, DictsOk, Holds, Stakes, RefsExact, ArcsExact;
    forall k, n | k in s.docs && n in s.docs[k].nodes ensures n in s.home && s.home[n] in s.arcs {
      assert s.docs[k].nodes <= s.home.Keys;
      var a := s.home[n];
      assert Backed(s, None, s.docs[k], a);
      BackedLive(s, k, a);
    }
  }

  lemma BackedLive(s: State, k: DocId, a: Arena)
    requires Sound(s) && k in s.docs && Backed(s, None, s.docs[k], a)
    ensures a in s.arcs
  {
    hide Count, DictsOk, RefsExact, HomesOk, Covered;
    if Covered(s, s.docs[k], a) {
      CoveredLive(s, k, a);
    } else {
      var t :| t in s.threads && ThreadKeeps(s.threads[t], a);
      CountSplit(s.threads, t, ThreadHolds, a);
      assert Holds(s, a) > 0;
    }
  }

  // ── one step keeps every document guarded ─────────────────────────────────

  function NextNodes(s: State, e: Event, k: DocId): set<Node>
    requires Enabled(s, e) && k in s.docs
  {
    match e
    case NewNode(doc, n) => if k == doc then s.docs[k].nodes + {n} else s.docs[k].nodes
    case Unlink(t, doc, nodes) => if k == doc then s.docs[k].nodes - nodes else s.docs[k].nodes
    case Link(doc, nodes) => if k == doc then s.docs[k].nodes + nodes else s.docs[k].nodes
    case Graft(src, dst, nodes) =>
      if k == dst then s.docs[k].nodes + nodes else if k == src then s.docs[k].nodes - nodes else s.docs[k].nodes
    case _ => s.docs[k].nodes
  }

  function NextSlot(s: State, e: Event, k: DocId): Ptr
    requires k in s.docs
  {
    if e.SwapSlot? && e.doc == k then e.d else s.docs[k].slot
  }

  /** Calls on dictionaries and threads alone leave documents and nodes as they are. */
  lemma DictOnlyStep(s: State, e: Event)
    requires Enabled(s, e)
    requires e.ThreadStart? || e.ThreadExit? || e.DictCreate? || e.DictCreateSub? || e.DictReference? || e.DictFree?
             || e.DictLookup? || e.DictQLookup? || e.DictOwns?
    ensures Step(s, e).docs == s.docs && Step(s, e).home == s.home
  {
    hide Release, Intern, AddRef, ChainOwns, Count, Lookup, Exit;
  }

  /** What one step does to a document that survives it. */
  ghost predicate DocAfter(s: State, e: Event, k: DocId, after: Doc)
    requires Enabled(s, e)
  {
    if k in s.docs then after == s.docs[k].(nodes := NextNodes(s, e, k), slot := NextSlot(s, e, k))
    else e.NewDoc? && after.nodes == {}
  }

  lemma DocStep(s: State, e: Event, k: DocId)
    requires Enabled(s, e) && k in Step(s, e).docs
    ensures DocAfter(s, e, k, Step(s, e).docs[k])
  {
    hide PinGraft, OpenDoc, Swap, Stash, CloseDoc, Lookup, Exit, Release, Intern, AddRef, ChainOwns, Count;
    if e.NewNode? || e.Unlink? || e.Link? || e.Graft? {
      NodesStep(s, e, k);
    } else if !e.NewDoc? && !e.SwapSlot? && !e.FreeDoc? {
      DictOnlyStep(s, e);
    }
  }

  lemma NodesStep(s: State, e: Event, k: DocId)
    requires Enabled(s, e) && (e.NewNode? || e.Unlink? || e.Link? || e.Graft?) && k in Step(s, e).docs
    ensures k in s.docs && DocAfter(s, e, k, Step(s, e).docs[k])
  {
    hide PinGraft, Stash;
    if e.Graft? && e.src == e.dst {
      assert s.docs[e.src].nodes - e.nodes + e.nodes == s.docs[e.src].nodes + e.nodes;
    }
  }

  function NextHome(s: State, e: Event): map<Node, Arena>
    requires Enabled(s, e)
  {
    if e.NewNode? then s.home[e.n := s.docs[e.doc].arena] else s.home
  }

  lemma HomeStep(s: State, e: Event)
    requires Enabled(s, e)
    ensures Step(s, e).home == NextHome(s, e)
  {
    hide PinGraft, OpenDoc, Swap, Stash, CloseDoc, Lookup, Exit, Release, Intern, AddRef, ChainOwns, Count;
  }

  /** Keep-alive lists only grow while their thread runs. */
  lemma KeepAliveStep(s: State, e: Event, t: Tid)
    requires Enabled(s, e) && t in s.threads
    ensures !(e.ThreadExit? && e.t == t) ==>
      t in Step(s, e).threads && forall a :: a in s.threads[t].keepAlive ==> a in Step(s, e).threads[t].keepAlive
  {
    hide ChainOwns, Lookup, OpenDoc, Exit, Stash, Count;
    if !e.ThreadStart? && !e.ThreadExit? && !e.DictLookup? && !e.DictOwns? && !e.NewDoc? && !e.Unlink? {
      Threadless(s, e);
    }
  }

  /** A document's own cover outlives every step that leaves its slots alone. */
  lemma CoverStep(s: State, e: Event, s': State, k: DocId, a: Arena)
    requires Sound(s) && Enabled(s, e) && s' == Step(s, e) && k in s.docs && k in s'.docs
    requires Covered(s, s.docs[k].(slot := NextSlot(s, e, k)), a)
    ensures Covered(s', s'.docs[k], a)
  {
    hide Inv, Step;
    DocStep(s, e, k);
    StepSound(s, e);
    StepPins(s, e);
    hide Enabled, Covered;
    DocArenaLive(s', k);
    CoveredKept(s, s', s.docs[k].(slot := NextSlot(s, e, k)), s'.docs[k], a);
  }

  /** A holder among the threads carries over, unless its thread exits or gives
      up the stash it holds. */
  lemma KeptStep(s: State, e: Event, s': State, t: Tid, a: Arena)
    requires Enabled(s, e) && s' == Step(s, e) && t in s.threads && ThreadKeeps(s.threads[t], a)
    requires !(e.ThreadExit? && e.t == t)
    requires a in s.threads[t].keepAlive || !(Consumes(e, t) || (e.Unlink? && e.t == t))
    ensures KeptBut(s', None, a)
  {
    hide Step;
    KeepAliveStep(s, e, t);
    SlotStep(s, e, t);
    hide Enabled;
    assert ThreadKeeps(s'.threads[t], a);
  }

  lemma BackedStep(s: State, e: Event, s': State, not: Option<Tid>, k: DocId, a: Arena)
    requires Sound(s) && Enabled(s, e) && s' == Step(s, e) && k in s.docs && k in s'.docs
    requires Backed(s, not, s.docs[k].(slot := NextSlot(s, e, k)), a)
    requires e.ThreadExit? || e.Unlink? || (e.DictLookup? && Consumes(e, e.t)) ==> not == Some(e.t)
    ensures Backed(s', None, s'.docs[k], a)
  {
    hide Step, Inv, Pinned;
    if Covered(s, s.docs[k].(slot := NextSlot(s, e, k)), a) {
      CoverStep(s, e, s', k, a);
    } else {
      hide Enabled;
      var t :| t in s.threads && not != Some(t) && ThreadKeeps(s.threads[t], a);
      KeptStep(s, e, s', t, a);
    }
  }

  /** From a guarded state an allowed call reaches a guarded state. */
  lemma GuardedStep(s: State, e: Event, s': State)
    requires Sound(s) && Guarded(s) && Enabled(s, e) && Allowed(s, e) && s' == Step(s, e)
    ensures Guarded(s')
  {
    hide Step, Inv, Enabled, Allowed;
    forall k, n | k in s'.docs && n in s'.docs[k].nodes && n in s'.home
      ensures Backed(s', None, s'.docs[k], s'.home[n])
    {
      NodeStaysBacked(s, e, s', k, n);
    }
  }

  lemma NodeStaysBacked(s: State, e: Event, s': State, k: DocId, n: Node)
    requires Sound(s) && Guarded(s) && Enabled(s, e) && Allowed(s, e) && s' == Step(s, e)
    requires k in s'.docs && n in s'.docs[k].nodes && n in s'.home
    ensures Backed(s', None, s'.docs[k], s'.home[n])
  {
    hide Inv, Step, Pinned, Covered, KeptBut;
    DocStep(s, e, k);
    HomeStep(s, e);
    var a := s'.home[n];
    if e.NewNode? && n == e.n {
      NewNodeBacked(s, e, s', k, n);
    } else if e.ThreadExit? {
      BackedStep(s, e, s', Some(e.t), k, a);
    } else if e.DictLookup? && Consumes(e, e.t) {
      LookupBacked(s, e, s', k, n);
    } else if e.Unlink? {
      UnlinkBacked(s, e, s', k, n);
    } else if e.Graft? && k == e.dst && n in e.nodes && !Backed(s, None, s.docs[k], a) {
      assert s' == MoveNodes(PinGraft(s, e.src, k), e.src, k, e.nodes) by { GraftStep(s, e); }
      GraftBacked(s, s', e.src, k, e.nodes);
    } else {
      BackedStep(s, e, s', None, k, a);
    }
  }

  /** A new node lies in its document's own arena, and is reachable only there. */
  lemma NewNodeBacked(s: State, e: Event, s': State, k: DocId, n: Node)
    requires Sound(s) && Enabled(s, e) && s' == Step(s, e) && e.NewNode? && e.n == n
    requires k in s'.docs && n in s'.docs[k].nodes
    ensures n in s'.home && Backed(s', None, s'.docs[k], s'.home[n])
  {
    hide Step, Inv, Pinned;
    DocStep(s, e, k);
    HomeStep(s, e);
    NodesKnown(s, k);
  }

  lemma LookupBacked(s: State, e: Event, s': State, k: DocId, n: Node)
    requires Sound(s) && Enabled(s, e) && Allowed(s, e) && s' == Step(s, e) && e.DictLookup? && Consumes(e, e.t)
    requires k in s'.docs && k in s.docs && n in s.docs[k].nodes && n in s.home
    ensures Backed(s', None, s'.docs[k], s.home[n])
  {
    hide Inv, Step, Pinned, Covered, KeptBut;
    var a := s.home[n];
    if Backed(s, Some(e.t), s.docs[k], a) {
      BackedStep(s, e, s', Some(e.t), k, a);
    } else if a in s.threads[e.t].keepAlive {
      KeptStep(s, e, s', e.t, a);
    } else {
      assert PinBy(s, e.t, e.d, e.name) == Some(a) && OnDict(s, k, e.d);
      LookedUpCovered(s, e, s', k, a);
    }
  }

  lemma LookedUpCovered(s: State, e: Event, s': State, k: DocId, a: Arena)
    requires Sound(s) && Enabled(s, e) && s' == Step(s, e) && e.DictLookup? && Consumes(e, e.t)
    requires PinBy(s, e.t, e.d, e.name) == Some(a) && OnDict(s, k, e.d)
    ensures k in s'.docs && Covered(s', s'.docs[k], a)
  {
    hide Lookup, Inv, TableOk, PinnedOnChain;
    SoundTable(s, e.d);
    LookupCovers(s, e.t, e.d, e.name, e.bytes, e.addr, s.docs[k], a);
  }

  lemma UnlinkBacked(s: State, e: Event, s': State, k: DocId, n: Node)
    requires Sound(s) && Enabled(s, e) && Allowed(s, e) && s' == Step(s, e) && e.Unlink?
    requires k in s'.docs && k in s.docs && n in s.docs[k].nodes && n in s.home
    ensures Backed(s', None, s'.docs[k], s.home[n])
  {
    hide Inv, Step, Pinned, Covered;
    var a := s.home[n];
    if Backed(s, Some(e.t), s.docs[k], a) {
      BackedStep(s, e, s', Some(e.t), k, a);
    } else if a in s.threads[e.t].keepAlive {
      KeptStep(s, e, s', e.t, a);
    } else {
      KeepAliveStep(s, e, e.t);
      SlotStep(s, e, e.t);
      assert ThreadKeeps(s'.threads[e.t], a);
    }
  }

  lemma GraftStep(s: State, e: Event)
    requires Enabled(s, e) && e.Graft?
    ensures Step(s, e) == MoveNodes(PinGraft(s, e.src, e.dst), e.src, e.dst, e.nodes)
  {
    hide PinGraft, MoveNodes;
  }

  lemma GraftBacked(s: State, s': State, src: DocId, dst: DocId, nodes: set<Node>)
    requires Sound(s) && src in s.docs && dst in s.docs && nodes <= s.home.Keys && GraftPins(s, src, dst)
    requires s' == MoveNodes(PinGraft(s, src, dst), src, dst, nodes)
    ensures Covered(s', s'.docs[dst], s.docs[src].arena)
  {
    hide PinGraft, Inv, PinnedOnChain;
    DocArenaLive(s, dst);
    GraftCovers(s, src, dst, s'.docs[dst], s.docs[src].arena);
    assert InChain(s.dicts, s.docs[dst].dict, s.docs[dst].dict);
  }

  /** Every run whose calls are all allowed keeps every node of every live document
      in live memory, whatever the interleaving. */
  lemma {:induction false} AllowedRunsGuarded(r: Run, m: nat)
    requires Valid(r) && m < |r.states|
    requires forall i :: 0 <= i < |r.events| ==> Allowed(r.states[i], r.events[i])
    ensures Sound(r.states[m]) && Guarded(r.states[m])
  {
    hide Step, Inv, Allowed, Guarded, Enabled;
    RunSound(r, m);
    if m == 0 {
      InitialGuarded();
    } else {
      AllowedRunsGuarded(r, m - 1);
      assert Enabled(r.states[m - 1], r.events[m - 1]);
      GuardedStep(r.states[m - 1], r.events[m - 1], r.states[m]);
    }
  }

  lemma InitialGuarded()
    ensures Guarded(Initial)
  {
  }

  lemma AllowedRunsSafe(r: Run, m: nat)
    requires Valid(r) && m < |r.states|
    requires forall i :: 0 <= i < |r.events| ==> Allowed(r.states[i], r.events[i])
    ensures Safe(r.states[m])
  {
    hide Step, Inv, Allowed, Guarded, Enabled;
    AllowedRunsGuarded(r, m);
    GuardedSafe(r.states[m]);
  }
}
