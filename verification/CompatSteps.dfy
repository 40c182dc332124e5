/** The calls of the compatibility layer as atomic steps of a multi-threaded
    system, and the soundness of every interleaving: counts stay exact, nothing is
    touched after it is freed (crates/compat/src/dict.rs, crates/tree/src/dict.rs,
    crates/tree/src/dom.rs, crates/compat/src/mutate.rs). */
module CompatSteps {
  import opened Sums
  import opened Basics
  import opened CompatState
  import opened CompatCounts

  /** `addr` is the address the allocator gives to a buffer or dictionary the
      step may create.  `Link` and `SwapSlot` are the consumer's direct writes. */
  datatype Event =
    | ThreadStart(t: Tid)
    | ThreadExit(t: Tid)
    | DictCreate(addr: Ptr)
    | DictCreateSub(parent: Ptr, addr: Ptr)
    | DictReference(d: Ptr)
    | DictFree(d: Ptr)
    | DictLookup(t: Tid, d: Ptr, name: Ptr, bytes: Bytes, addr: Ptr)
    | DictQLookup(d: Ptr, prefix: Bytes, local: Bytes, addr: Ptr)
    | DictOwns(t: Tid, d: Ptr, p: Ptr)
    | NewDoc(t: Tid, doc: DocId, given: Ptr, addr: Ptr)
    | FreeDoc(doc: DocId)
    | SwapSlot(doc: DocId, d: Ptr)
    | NewNode(doc: DocId, n: Node)
    | Unlink(t: Tid, doc: DocId, nodes: set<Node>)
    | Link(doc: DocId, nodes: set<Node>)
    | Graft(src: DocId, dst: DocId, nodes: set<Node>)

  predicate FreshString(s: State, p: Ptr) { p != NULL && forall d :: d in s.dicts ==> p !in s.dicts[d].owned }

  predicate FreshDict(s: State, d: Ptr) { d != NULL && d !in s.dicts }

  /** What the caller owes: live arguments, a reference of its own to give up,
      and allocator answers that are not in use. */
  predicate Enabled(s: State, e: Event) {
    match e
    case ThreadStart(t) => t !in s.threads
    case ThreadExit(t) => t in s.threads
    case DictCreate(addr) => FreshDict(s, addr)
    case DictCreateSub(parent, addr) => FreshDict(s, addr) && (parent == NULL || parent in s.dicts)
    case DictReference(d) => d == NULL || d in s.dicts
    case DictFree(d) => d == NULL || d in s.handles
    case DictLookup(t, d, name, bytes, addr) => t in s.threads && (d == NULL || d in s.dicts) && FreshString(s, addr)
    case DictQLookup(d, prefix, local, addr) => (d == NULL || d in s.dicts) && FreshString(s, addr)
    case DictOwns(t, d, p) => t in s.threads && (d == NULL || d in s.dicts)
    case NewDoc(t, doc, given, addr) =>
      t in s.threads && doc !in s.docs && (given == NULL || given in s.dicts) && FreshDict(s, addr)
    case FreeDoc(doc) => doc in s.docs
    case SwapSlot(doc, d) => doc in s.docs && d in s.handles && d != s.docs[doc].slot
    case NewNode(doc, n) => doc in s.docs && n !in s.home
    case Unlink(t, doc, nodes) => t in s.threads && doc in s.docs && nodes <= s.docs[doc].nodes
    case Link(doc, nodes) => doc in s.docs && nodes <= s.home.Keys
    case Graft(src, dst, nodes) => src in s.docs && dst in s.docs && nodes <= s.home.Keys
  }

  // ── the steps ─────────────────────────────────────────────────────────────

  function MakeDict(s: State, addr: Ptr, parent: Ptr): State {
    s.(dicts := s.dicts[addr := Dict(1, parent, NewDepth(s, parent), map[], {}, [])])
  }

  /** `thread_dict`: created on first use, at count 1 for the thread itself. */
  function ThreadDict(s: State, t: Tid, addr: Ptr): (r: State)
    requires t in s.threads
    ensures r == s.(dicts := r.dicts, threads := r.threads) && t in r.threads
    ensures r.threads == s.threads[t := s.threads[t].(dict := r.threads[t].dict)]
  {
    if s.threads[t].dict != NULL then s
    else
      var made := MakeDict(s, addr, NULL);
      made.(threads := s.threads[t := s.threads[t].(dict := addr)])
  }

  /** `new_doc_arena`: one clone for the document, one for the keep-alive list. */
  function NewArena(s: State, t: Tid): State
    requires t in s.threads
  {
    s.(arcs := s.arcs[s.nextArena := 2], nextArena := s.nextArena + 1,
       threads := s.threads[t := s.threads[t].(keepAlive := s.threads[t].keepAlive + [s.nextArena])])
  }

  /** `stash_graft_source_arena`: the clone replaces whatever was pending. */
  function Stash(s: State, t: Tid, a: Arena): (r: State)
    requires t in s.threads
    ensures r == s.(arcs := r.arcs, fault := r.fault, threads := s.threads[t := s.threads[t].(graft := Some(a))])
  {
    var cloned := CloneArc(s, a);
    DropOpt(cloned.(threads := s.threads[t := s.threads[t].(graft := Some(a))]), s.threads[t].graft)
  }

  /** Whether a lookup of `name` in `d` on thread `t` pins, and which arena. */
  function PinBy(s: State, t: Tid, d: Ptr, name: Ptr): Option<Arena>
    requires t in s.threads
  {
    var r := s.threads[t];
    if r.pendingSrc != NULL && r.pendingName == name && r.pendingSrc != d then r.graft else None
  }

  /** Both pending slots are consumed; the stash is pinned or let go. */
  function Lookup(s: State, t: Tid, d: Ptr, name: Ptr, bytes: Bytes, addr: Ptr): (r: State)
    requires t in s.threads
    ensures r == s.(dicts := r.dicts, arcs := r.arcs, fault := r.fault, threads := Disarmed(s, t))
  {
    var graft := s.threads[t].graft;
    var taken := s.(threads := Disarmed(s, t));
    if PinBy(s, t, d, name).Some? then Intern(Retain(taken, d, graft.value), d, bytes, addr)
    else DropOpt(Intern(taken, d, bytes, addr), graft)
  }

  function Disarmed(s: State, t: Tid): map<Tid, Thread>
    requires t in s.threads
  {
    s.threads[t := s.threads[t].(pendingSrc := NULL, pendingName := NULL, graft := None)]
  }

  function Exit(s: State, t: Tid): (r: State)
    requires t in s.threads
    ensures r == s.(dicts := r.dicts, arcs := r.arcs, fault := r.fault, threads := s.threads - {t})
  {
    var th := s.threads[t];
    var gone := DropOpt(DropAll(s.(threads := s.threads - {t}), th.keepAlive), th.graft);
    if th.dict == NULL then gone else Release(gone, th.dict)
  }

  function OpenDoc(s: State, t: Tid, doc: DocId, given: Ptr, addr: Ptr): (r: State)
    requires t in s.threads
    ensures r == s.(dicts := r.dicts, threads := r.threads, docs := r.docs, arcs := r.arcs,
                    nextArena := s.nextArena + 1, fault := r.fault)
    ensures doc in r.docs && r.docs == s.docs[doc := r.docs[doc]]
    ensures r.docs[doc].arena == s.nextArena && r.docs[doc].nodes == {}
    ensures t in r.threads && r.threads == s.threads[t := s.threads[t].(dict := r.threads[t].dict,
                                keepAlive := s.threads[t].keepAlive + [s.nextArena])]
  {
    var s1 := NewArena(s, t);
    var s2 := if given == NULL then ThreadDict(s1, t, addr) else s1;
    var d := if given == NULL then s2.threads[t].dict else given;
    var s3 := AddRef(AddRef(s2, d), d);
    s3.(docs := s3.docs[doc := Doc(s.nextArena, d, d, {})])
  }

  function CloseDoc(s: State, doc: DocId): (r: State)
    requires doc in s.docs
    ensures r == s.(dicts := r.dicts, arcs := r.arcs, fault := r.fault, docs := s.docs - {doc})
  {
    var rec := s.docs[doc];
    DropArc(Release(Release(s.(docs := s.docs - {doc}), rec.slot), rec.dict), rec.arena)
  }

  function Swap(s: State, doc: DocId, d: Ptr): (r: State)
    requires doc in s.docs
    ensures r == s.(dicts := r.dicts, arcs := r.arcs, fault := r.fault, docs := s.docs[doc := s.docs[doc].(slot := d)])
  {
    var s1 := AddRef(s, d);
    Release(s1.(docs := s.docs[doc := s.docs[doc].(slot := d)]), s.docs[doc].slot)
  }

  function SetNodes(s: State, doc: DocId, nodes: set<Node>): State
    requires doc in s.docs
  {
    s.(docs := s.docs[doc := s.docs[doc].(nodes := nodes)])
  }

  /** The API graft primitives pin across dictionaries (`retain_graft_arena`). */
  function PinGraft(s: State, src: DocId, dst: DocId): (r: State)
    requires src in s.docs && dst in s.docs
    ensures r == s.(dicts := r.dicts, arcs := r.arcs, fault := r.fault)
  {
    if src == dst || s.docs[src].dict == s.docs[dst].dict then s
    else Retain(CloneArc(s, s.docs[src].arena), s.docs[dst].dict, s.docs[src].arena)
  }

  function MoveNodes(s: State, src: DocId, dst: DocId, nodes: set<Node>): State
    requires src in s.docs && dst in s.docs
  {
    var s1 := SetNodes(s, src, s.docs[src].nodes - nodes);
    SetNodes(s1, dst, s1.docs[dst].nodes + nodes)
  }

  function Step(s: State, e: Event): State
    requires Enabled(s, e)
  {
    match e
    case ThreadStart(t) => s.(threads := s.threads[t := FreshThread])
    case ThreadExit(t) => Exit(s, t)
    case DictCreate(addr) =>
      MakeDict(s, addr, NULL).(handles := s.handles + multiset{addr})
    case DictCreateSub(parent, addr) =>
      var s1 := if parent == NULL then s else AddRef(s, parent);
      MakeDict(s1, addr, parent).(handles := s.handles + multiset{addr})
    case DictReference(d) =>
      if d == NULL then s else AddRef(s, d).(handles := s.handles + multiset{d})
    case DictFree(d) =>
      if d == NULL then s else Release(s.(handles := s.handles - multiset{d}), d)
    case DictLookup(t, d, name, bytes, addr) =>
      if d == NULL || name == NULL then s else Lookup(s, t, d, name, bytes, addr)
    case DictQLookup(d, prefix, local, addr) =>
      if d == NULL then s else Intern(s, d, QName(prefix, local), addr)
    case DictOwns(t, d, p) =>
      if d == NULL || p == NULL || !ChainOwns(s, d, p) then s
      else s.(threads := s.threads[t := s.threads[t].(pendingSrc := d, pendingName := p)])
    case NewDoc(t, doc, given, addr) => OpenDoc(s, t, doc, given, addr)
    case FreeDoc(doc) => CloseDoc(s, doc)
    case SwapSlot(doc, d) => Swap(s, doc, d)
    case NewNode(doc, n) =>
      SetNodes(s.(home := s.home[n := s.docs[doc].arena]), doc, s.docs[doc].nodes + {n})
    case Unlink(t, doc, nodes) =>
      SetNodes(Stash(s, t, s.docs[doc].arena), doc, s.docs[doc].nodes - nodes)
    case Link(doc, nodes) => SetNodes(s, doc, s.docs[doc].nodes + nodes)
    case Graft(src, dst, nodes) => MoveNodes(PinGraft(s, src, dst), src, dst, nodes)
  }

  // ── soundness of each step ────────────────────────────────────────────────

  lemma StashSound(s: State, t: Tid, a: Arena)
    requires Sound(s) && t in s.threads && a in s.arcs
    ensures Sound(Stash(s, t, a))
  {
    hide Inv;
    var r := s.threads[t];
    CloneArcKeeps(s, a, multiset{}, multiset{});
    var r' := r.(graft := Some(a));
    assert multiset{} + multiset{a} + ThreadHolds(r) == Opt(r.graft) + ThreadHolds(r');
    var s1 := CloneArc(s, a).(threads := s.threads[t := r']);
    PutThreadKeeps(CloneArc(s, a), t, r', multiset{}, multiset{} + multiset{a}, multiset{}, Opt(r.graft));
    assert multiset{} + Opt(r.graft) == Opt(r.graft);
    DropOptKeeps(s1, r.graft, multiset{}, multiset{});
  }

  lemma LookupSound(s: State, t: Tid, d: Ptr, name: Ptr, bytes: Bytes, addr: Ptr)
    requires Sound(s) && t in s.threads && d in s.dicts && FreshString(s, addr)
    ensures Sound(Lookup(s, t, d, name, bytes, addr))
  {
    hide Inv;
    var r := s.threads[t];
    var taken := s.(threads := Disarmed(s, t));
    var r' := taken.threads[t];
    assert multiset{} + ThreadHolds(r) == Opt(r.graft) + ThreadHolds(r');
    PutThreadKeeps(s, t, r', multiset{}, multiset{}, multiset{}, Opt(r.graft));
    assert multiset{} + Opt(r.graft) == Opt(r.graft);
    if PinBy(s, t, d, name).Some? {
      RetainKeeps(taken, d, r.graft.value, multiset{}, multiset{});
      RetainDicts(taken, d, r.graft.value);
      InternKeeps(Retain(taken, d, r.graft.value), d, bytes, addr, multiset{}, multiset{});
    } else {
      InternKeeps(taken, d, bytes, addr, multiset{}, Opt(r.graft));
      DropOptKeeps(Intern(taken, d, bytes, addr), r.graft, multiset{}, multiset{});
    }
  }

  lemma RetainDicts(s: State, d: Ptr, a: Arena)
    requires d in s.dicts
    ensures var s' := Retain(s, d, a);
            s'.dicts.Keys == s.dicts.Keys && forall e :: e in s.dicts ==> s'.dicts[e].owned == s.dicts[e].owned
  {
  }

  lemma ExitSound(s: State, t: Tid)
    requires Sound(s) && t in s.threads
    ensures Sound(Exit(s, t))
  {
    hide Inv;
    var r := s.threads[t];
    var s1 := s.(threads := s.threads - {t});
    RemoveThreadKeeps(s, t, multiset{}, multiset{});
    assert multiset{} + ThreadStakes(r) == One(r.dict);
    assert multiset{} + ThreadHolds(r) == multiset{} + Opt(r.graft) + multiset(r.keepAlive);
    DropAllKeeps(s1, r.keepAlive, One(r.dict), multiset{} + Opt(r.graft));
    var s2 := DropAll(s1, r.keepAlive);
    DropOptKeeps(s2, r.graft, One(r.dict), multiset{});
    if r.dict != NULL {
      assert One(r.dict) == multiset{} + multiset{r.dict};
      ReleaseKeeps(DropOpt(s2, r.graft), r.dict, multiset{}, multiset{});
    }
  }

  lemma MakeDictKeeps(s: State, addr: Ptr, xd: multiset<Ptr>, xa: multiset<Arena>)
    requires Inv(s, xd, xa) && FreshDict(s, addr)
    ensures Inv(MakeDict(s, addr, NULL), xd + multiset{addr}, xa)
  {
    hide Inv;
    assert xd + One(NULL) == xd;
    NewDictKeeps(s, addr, NULL, xd, xa);
  }

  lemma ThreadDictKeeps(s: State, t: Tid, addr: Ptr, xa: multiset<Arena>)
    requires Inv(s, multiset{}, xa) && t in s.threads && FreshDict(s, addr)
    ensures Inv(ThreadDict(s, t, addr), multiset{}, xa)
  {
    hide Inv;
    var r := s.threads[t];
    if r.dict == NULL {
      MakeDictKeeps(s, addr, multiset{}, xa);
      var made := MakeDict(s, addr, NULL);
      var r' := r.(dict := addr);
      PutThreadKeeps(made, t, r', multiset{} + multiset{addr}, xa, multiset{}, xa);
    }
  }

  lemma ThreadDictLive(s: State, t: Tid, xa: multiset<Arena>)
    requires Inv(s, multiset{}, xa) && t in s.threads && s.threads[t].dict != NULL
    ensures s.threads[t].dict in s.dicts
  {
    hide Count, DictsOk, HomesOk, ArcsExact;
    CountSplit(s.threads, t, ThreadStakes, s.threads[t].dict);
    assert Stakes(s, s.threads[t].dict) > 0;
  }

  lemma PushedHold(r: Thread, a: Arena)
    ensures multiset{a, a} + ThreadHolds(r)
         == multiset{} + multiset{a} + ThreadHolds(r.(keepAlive := r.keepAlive + [a]))
  {
    assert multiset(r.keepAlive + [a]) == multiset(r.keepAlive) + multiset{a};
  }

  /** A new arena at count 2, both handles in hand. */
  lemma BornKeeps(s: State)
    requires Sound(s)
    ensures Inv(s.(arcs := s.arcs[s.nextArena := 2], nextArena := s.nextArena + 1),
                multiset{}, multiset{s.nextArena, s.nextArena})
  {
    hide Count, DictsOk, RefsExact, ArcsExact;
    var a := s.nextArena;
    var s1 := s.(arcs := s.arcs[a := 2], nextArena := a + 1);
    RefsMove(s, s1, multiset{}, multiset{});
    assert forall b :: Holds(s1, b) == Holds(s, b);
    BornCount(s, s1);
  }

  lemma BornCount(s: State, s1: State)
    requires ArcsExact(s, multiset{})
    requires s1.arcs == s.arcs[s.nextArena := 2] && s1.nextArena == s.nextArena + 1
    requires forall b :: Holds(s1, b) == Holds(s, b)
    ensures ArcsExact(s1, multiset{s.nextArena, s.nextArena})
  {
    hide Holds;
    var a := s.nextArena;
    assert forall b :: multiset{a, a}[b] == if b == a then 2 else 0;
    assert Holds(s, a) + multiset{}[a] == 0;
  }

  lemma NewArenaKeeps(s: State, t: Tid)
    requires Sound(s) && t in s.threads
    ensures Inv(NewArena(s, t), multiset{}, multiset{} + multiset{s.nextArena})
  {
    hide Inv, Count, ThreadHolds;
    var a := s.nextArena;
    var s1 := s.(arcs := s.arcs[a := 2], nextArena := a + 1);
    BornKeeps(s);
    var r := s.threads[t];
    var r' := r.(keepAlive := r.keepAlive + [a]);
    PushedHold(r, a);
    PutThreadKeeps(s1, t, r', multiset{}, multiset{a, a}, multiset{}, multiset{} + multiset{a});
  }

  lemma OpenDocSound(s: State, t: Tid, doc: DocId, given: Ptr, addr: Ptr)
    requires Sound(s) && Enabled(s, NewDoc(t, doc, given, addr))
    ensures Sound(OpenDoc(s, t, doc, given, addr))
  {
    hide Inv;
    var a := s.nextArena;
    var xa := multiset{} + multiset{a};
    NewArenaKeeps(s, t);
    var s1 := NewArena(s, t);
    if given == NULL { ThreadDictKeeps(s1, t, addr, xa); }
    var s2 := if given == NULL then ThreadDict(s1, t, addr) else s1;
    var d := if given == NULL then s2.threads[t].dict else given;
    if given == NULL { ThreadDictLive(s2, t, xa); }
    AddRefKeeps(s2, d, multiset{}, xa);
    AddRefKeeps(AddRef(s2, d), d, multiset{} + multiset{d}, xa);
    var s3 := AddRef(AddRef(s2, d), d);
    PutDocKeeps(s3, doc, Doc(a, d, d, {}), multiset{} + multiset{d} + multiset{d}, xa, multiset{}, multiset{});
  }

  lemma CloseDocSound(s: State, doc: DocId)
    requires Sound(s) && doc in s.docs
    ensures Sound(CloseDoc(s, doc))
  {
    hide Inv;
    var r := s.docs[doc];
    var s1 := s.(docs := s.docs - {doc});
    RemoveDocKeeps(s, doc, multiset{}, multiset{});
    assert multiset{} + DocStakes(r) == multiset{} + multiset{r.dict} + multiset{r.slot};
    assert multiset{} + DocHolds(r) == multiset{} + multiset{r.arena};
    ReleaseKeeps(s1, r.slot, multiset{} + multiset{r.dict}, multiset{} + multiset{r.arena});
    ReleaseKeeps(Release(s1, r.slot), r.dict, multiset{}, multiset{} + multiset{r.arena});
    DropArcKeeps(Release(Release(s1, r.slot), r.dict), r.arena, multiset{}, multiset{});
  }

  lemma PutHandlesKeeps(s: State, h: multiset<Ptr>, xd: multiset<Ptr>, yd: multiset<Ptr>)
    requires Inv(s, xd, multiset{})
    requires s.handles + xd == h + yd
    ensures Inv(s.(handles := h), yd, multiset{})
  {
    hide Count, DictsOk, HomesOk, RefsExact, ArcsExact;
    var s' := s.(handles := h);
    forall p ensures Stakes(s', p) + yd[p] == Stakes(s, p) + xd[p] {
      assert (s.handles + xd)[p] == (h + yd)[p];
    }
    RefsMove(s, s', xd, yd);
    ArcsMove(s, s', multiset{}, multiset{});
  }

  lemma HandleLive(s: State, d: Ptr)
    requires Sound(s) && d in s.handles
    ensures d in s.dicts
  {
    hide Count, DictsOk, HomesOk, ArcsExact;
    assert Stakes(s, d) > 0;
  }

  lemma SwapSound(s: State, doc: DocId, d: Ptr)
    requires Sound(s) && doc in s.docs && d in s.handles
    ensures Sound(Swap(s, doc, d))
  {
    hide Inv, Count;
    HandleLive(s, d);
    var r := s.docs[doc];
    var r' := r.(slot := d);
    NodesKnown(s, doc);
    AddRefKeeps(s, d, multiset{}, multiset{});
    assert multiset{} + multiset{d} + DocStakes(r) == multiset{} + multiset{r.slot} + DocStakes(r');
    PutDocKeeps(AddRef(s, d), doc, r', multiset{} + multiset{d}, multiset{},
                multiset{} + multiset{r.slot}, multiset{});
    ReleaseKeeps(AddRef(s, d).(docs := s.docs[doc := r']), r.slot, multiset{}, multiset{});
  }

  lemma SetNodesSound(s: State, doc: DocId, nodes: set<Node>)
    requires Sound(s) && doc in s.docs && nodes <= s.home.Keys
    ensures Sound(SetNodes(s, doc, nodes))
  {
    hide Inv;
    PutDocKeeps(s, doc, s.docs[doc].(nodes := nodes), multiset{}, multiset{}, multiset{}, multiset{});
  }

  lemma DocArenaLive(s: State, doc: DocId)
    requires Sound(s) && doc in s.docs
    ensures s.docs[doc].arena in s.arcs && s.docs[doc].dict in s.dicts && s.docs[doc].slot in s.dicts
  {
    hide Count, DictsOk, HomesOk;
    var r := s.docs[doc];
    CountSplit(s.docs, doc, DocHolds, r.arena);
    CountSplit(s.docs, doc, DocStakes, r.dict);
    CountSplit(s.docs, doc, DocStakes, r.slot);
    assert Holds(s, r.arena) > 0 && Stakes(s, r.dict) > 0 && Stakes(s, r.slot) > 0;
  }

  lemma PinGraftSound(s: State, src: DocId, dst: DocId)
    requires Sound(s) && src in s.docs && dst in s.docs
    ensures Sound(PinGraft(s, src, dst))
  {
    hide Inv;
    DocArenaLive(s, src);
    DocArenaLive(s, dst);
    if src != dst && s.docs[src].dict != s.docs[dst].dict {
      CloneArcKeeps(s, s.docs[src].arena, multiset{}, multiset{});
      RetainKeeps(CloneArc(s, s.docs[src].arena), s.docs[dst].dict, s.docs[src].arena, multiset{}, multiset{});
    }
  }

  lemma NodesKnown(s: State, doc: DocId)
    requires Sound(s) && doc in s.docs
    ensures s.docs[doc].nodes <= s.home.Keys
  {
    hide Count, DictsOk, RefsExact, ArcsExact;
  }

  lemma HomeGrows(s: State, n: Node, a: Arena)
    requires Sound(s) && n !in s.home && a in s.arcs
    ensures Sound(s.(home := s.home[n := a]))
  {
    hide Count, DictsOk, RefsExact, ArcsExact, HomesOk;
    var s1 := s.(home := s.home[n := a]);
    RefsMove(s, s1, multiset{}, multiset{});
    ArcsMove(s, s1, multiset{}, multiset{});
    ArcBelow(s, a);
    HomesGrow(s.docs, s.home, s.nextArena, n, a);
  }

  lemma ArcBelow(s: State, a: Arena)
    requires ArcsExact(s, multiset{}) && a in s.arcs
    ensures a < s.nextArena
  {
  }

  lemma HomesGrow(docs: map<DocId, Doc>, home: map<Node, Arena>, nextArena: Arena, n: Node, a: Arena)
    requires HomesOk(docs, home, nextArena) && a < nextArena && n !in home
    ensures HomesOk(docs, home[n := a], nextArena)
  {
  }

  lemma NewNodeSound(s: State, doc: DocId, n: Node)
    requires Sound(s) && doc in s.docs && n !in s.home
    ensures Sound(SetNodes(s.(home := s.home[n := s.docs[doc].arena]), doc, s.docs[doc].nodes + {n}))
  {
    hide Inv;
    var s1 := s.(home := s.home[n := s.docs[doc].arena]);
    DocArenaLive(s, doc);
    HomeGrows(s, n, s.docs[doc].arena);
    NodesKnown(s1, doc);
    SetNodesSound(s1, doc, s.docs[doc].nodes + {n});
  }

  lemma InitialSound()
    ensures Sound(Initial)
  {
    assert forall d :: Stakes(Initial, d) == 0;
    assert forall a :: Holds(Initial, a) == 0;
  }

  /** Whatever one call does, from a sound state it reaches a sound state: exact
      counts, live parents, disjoint injective tables, and nothing touched after
      it was freed. */
  lemma StepSound(s: State, e: Event)
    requires Sound(s) && Enabled(s, e)
    ensures Sound(Step(s, e))
  {
    hide Inv, Count, Lookup, Exit, OpenDoc, CloseDoc, Swap, PinGraft, Stash, Intern, Release, AddRef, ChainOwns;
    match e
    case ThreadStart(t) =>
      PutThreadKeeps(s, t, FreshThread, multiset{}, multiset{}, multiset{}, multiset{});
    case ThreadExit(t) =>
      ExitSound(s, t);
    case DictCreate(addr) =>
      MakeDictKeeps(s, addr, multiset{}, multiset{});
      PutHandlesKeeps(MakeDict(s, addr, NULL), s.handles + multiset{addr}, multiset{} + multiset{addr}, multiset{});
    case DictCreateSub(parent, addr) =>
      var s1 := if parent == NULL then s else AddRef(s, parent);
      if parent != NULL { AddRefKeeps(s, parent, multiset{}, multiset{}); }
      assert multiset{} + One(parent) == if parent == NULL then multiset{} else multiset{} + multiset{parent};
      NewDictKeeps(s1, addr, parent, multiset{}, multiset{});
      PutHandlesKeeps(MakeDict(s1, addr, parent), s.handles + multiset{addr}, multiset{} + multiset{addr}, multiset{});
    case DictReference(d) =>
      if d != NULL {
        AddRefKeeps(s, d, multiset{}, multiset{});
        PutHandlesKeeps(AddRef(s, d), s.handles + multiset{d}, multiset{} + multiset{d}, multiset{});
      }
    case DictFree(d) =>
      if d != NULL {
        PutHandlesKeeps(s, s.handles - multiset{d}, multiset{}, multiset{} + multiset{d});
        ReleaseKeeps(s.(handles := s.handles - multiset{d}), d, multiset{}, multiset{});
      }
    case DictLookup(t, d, name, bytes, addr) =>
      if d != NULL && name != NULL { LookupSound(s, t, d, name, bytes, addr); }
    case DictQLookup(d, prefix, local, addr) =>
      if d != NULL { InternKeeps(s, d, QName(prefix, local), addr, multiset{}, multiset{}); }
    case DictOwns(t, d, p) =>
      if d != NULL && p != NULL && ChainOwns(s, d, p) {
        var r := s.threads[t].(pendingSrc := d, pendingName := p);
        PutThreadKeeps(s, t, r, multiset{}, multiset{}, multiset{}, multiset{});
      }
    case NewDoc(t, doc, given, addr) => OpenDocSound(s, t, doc, given, addr);
    case FreeDoc(doc) => CloseDocSound(s, doc);
    case SwapSlot(doc, d) => SwapSound(s, doc, d);
    case NewNode(doc, n) => NewNodeSound(s, doc, n);
    case Unlink(t, doc, nodes) =>
      DocArenaLive(s, doc);
      StashSound(s, t, s.docs[doc].arena);
      NodesKnown(s, doc);
      SetNodesSound(Stash(s, t, s.docs[doc].arena), doc, s.docs[doc].nodes - nodes);
    case Link(doc, nodes) =>
      NodesKnown(s, doc);
      SetNodesSound(s, doc, s.docs[doc].nodes + nodes);
    case Graft(src, dst, nodes) =>
      PinGraftSound(s, src, dst);
      var s1 := PinGraft(s, src, dst);
      NodesKnown(s1, src);
      SetNodesSound(s1, src, s1.docs[src].nodes - nodes);
      var s2 := SetNodes(s1, src, s1.docs[src].nodes - nodes);
      NodesKnown(s2, dst);
      SetNodesSound(s2, dst, s2.docs[dst].nodes + nodes);
  }
}
