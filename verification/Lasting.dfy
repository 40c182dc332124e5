/** Exactly which memory outlives every continuation of a run: what a move protocol
    that pins one arena at a time protects, and what it leaves to dangle
    (crates/compat/src/dict.rs:139-192, 246-283; crates/compat/src/mutate.rs:86-135). */
module Lasting {
  import opened Sums
  import opened Basics
  import opened CompatState
  import opened CompatCounts
  import opened CompatSteps
  import opened Lifetime
  import opened Grafts
  import opened Chains
  import opened Safety

  // ── continuations ─────────────────────────────────────────────────────────

  /** The call leaves document `k` open and its slot alone. */
  predicate Spares(e: Event, k: DocId) { !(e.FreeDoc? && e.doc == k) && !(e.SwapSlot? && e.doc == k) }

  /** Any calls of any threads that keep document `k` and its slot. */
  ghost predicate Continues(s: State, k: DocId, es: seq<Event>)
    decreases |es|
  {
    es == [] || (Enabled(s, es[0]) && Spares(es[0], k) && Continues(Step(s, es[0]), k, es[1..]))
  }

  ghost function EndOf(s: State, k: DocId, es: seq<Event>): State
    requires Continues(s, k, es)
    decreases |es|
  {
    if es == [] then s else EndOf(Step(s, es[0]), k, es[1..])
  }

  ghost predicate AlwaysLive(s: State, k: DocId, h: Arena) {
    forall es :: Continues(s, k, es) ==> h in EndOf(s, k, es).arcs
  }

  predicate Dangles(s: State, k: DocId, n: Node) {
    k in s.docs && n in s.docs[k].nodes && n in s.home && s.home[n] !in s.arcs
  }

  ghost predicate MayDangle(s: State, k: DocId, n: Node) {
    exists es :: Continues(s, k, es) && Dangles(EndOf(s, k, es), k, n)
  }

  // ── covered memory lasts ──────────────────────────────────────────────────

  lemma DocLives(s: State, e: Event, k: DocId)
    requires Enabled(s, e) && k in s.docs && Spares(e, k)
    ensures k in Step(s, e).docs
  {
    hide PinGraft, OpenDoc, Swap, Stash, CloseDoc, Lookup, Exit, Release, Intern, AddRef, ChainOwns, Count;
    if e.ThreadStart? || e.ThreadExit? || e.DictCreate? || e.DictCreateSub? || e.DictReference? || e.DictFree?
       || e.DictLookup? || e.DictQLookup? || e.DictOwns? {
      DictOnlyStep(s, e);
    }
  }

  lemma {:induction false} CoveredLasts(s: State, k: DocId, h: Arena, es: seq<Event>)
    requires Sound(s) && k in s.docs && Covered(s, s.docs[k], h) && Continues(s, k, es)
    ensures h in EndOf(s, k, es).arcs
    decreases |es|
  {
    hide Inv, Step, Enabled, Covered;
    if es == [] {
      CoveredLive(s, k, h);
    } else {
      var e, s' := es[0], Step(s, es[0]);
      assert NextSlot(s, e, k) == s.docs[k].slot;
      assert s.docs[k].(slot := NextSlot(s, e, k)) == s.docs[k];
      DocLives(s, e, k);
      CoverStep(s, e, s', k, h);
      StepSound(s, e);
      CoveredLasts(s', k, h, es[1..]);
    }
  }

  // ── winding everything else down ──────────────────────────────────────────

  /** The document is as it was and no pin or chain has been added. */
  ghost predicate Quieter(s: State, t: State, k: DocId) {
    && k in s.docs && k in t.docs && t.docs[k] == s.docs[k] && t.home == s.home && Fewer(s.dicts, t.dicts)
  }

  lemma CloseQuieter(s: State, j: DocId, k: DocId)
    requires j in s.docs && k in s.docs && j != k
    ensures Quieter(s, CloseDoc(s, j), k)
  {
    var r, s1 := s.docs[j], s.(docs := s.docs - {j});
    ReleaseFewer(s1, r.slot);
    ReleaseFewer(Release(s1, r.slot), r.dict);
    FewerTrans(s.dicts, Release(s1, r.slot).dicts, Release(Release(s1, r.slot), r.dict).dicts);
    hide Release, Fewer;
  }

  lemma ExitQuieter(s: State, t: Tid, k: DocId)
    requires t in s.threads && k in s.docs
    ensures Quieter(s, Exit(s, t), k)
  {
    var r := s.threads[t];
    var gone := DropOpt(DropAll(s.(threads := s.threads - {t}), r.keepAlive), r.graft);
    ReleaseFewer(gone, r.dict);
    hide Release, DropAll, DropOpt;
  }

  /** Nobody is left but the document. */
  predicate Bare(s: State, k: DocId) { s.docs.Keys == {k} && s.threads == map[] && s.handles == multiset{} }

  function Holders(s: State): nat { |s.docs| + |s.threads| + |s.handles| }

  lemma FreeOther(s: State, j: DocId, k: DocId, s': State)
    requires k in s.docs && j in s.docs && j != k && s' == Step(s, FreeDoc(j))
    ensures Quieter(s, s', k) && Holders(s') < Holders(s)
  {
    CloseQuieter(s, j, k);
    hide CloseDoc, Quieter;
    assert (s.docs - {j}).Keys == s.docs.Keys - {j};
  }

  lemma ExitOne(s: State, t: Tid, k: DocId, s': State)
    requires k in s.docs && t in s.threads && s' == Step(s, ThreadExit(t))
    ensures Quieter(s, s', k) && Holders(s') < Holders(s)
  {
    ExitQuieter(s, t, k);
    hide Exit, Quieter;
    assert (s.threads - {t}).Keys == s.threads.Keys - {t};
  }

  lemma HandleNotNull(s: State, d: Ptr)
    requires Sound(s) && d in s.handles
    ensures d != NULL && d in s.dicts
  {
    hide Inv;
    HandleLive(s, d);
    SoundShape(s);
  }

  lemma FreeHandle(s: State, d: Ptr, k: DocId, s': State)
    requires d in s.handles && d != NULL && k in s.docs && s' == Step(s, DictFree(d))
    ensures Quieter(s, s', k) && Holders(s') < Holders(s)
  {
    ReleaseFewer(s.(handles := s.handles - multiset{d}), d);
    hide Release, Fewer;
  }

  /** A call that frees somebody else's hold: a document's, a thread's, a handle's. */
  lemma SomeoneElse(s: State, k: DocId) returns (e: Event)
    requires Sound(s) && k in s.docs && !Bare(s, k)
    ensures Enabled(s, e) && Spares(e, k) && Quieter(s, Step(s, e), k) && Holders(Step(s, e)) < Holders(s)
  {
    hide Inv, Step, Quieter, Holders;
    if j :| j in s.docs && j != k {
      e := FreeDoc(j);
      FreeOther(s, j, k, Step(s, e));
    } else if t :| t in s.threads {
      e := ThreadExit(t);
      ExitOne(s, t, k, Step(s, e));
    } else {
      assert s.docs.Keys == {k} && s.threads == map[];
      var d :| d in s.handles;
      e := DictFree(d);
      HandleNotNull(s, d);
      FreeHandle(s, d, k, Step(s, e));
    }
  }

  /** Everyone else can go, one call at a time. */
  lemma {:induction false} WindDown(s: State, k: DocId) returns (es: seq<Event>)
    requires Sound(s) && k in s.docs
    ensures Continues(s, k, es) && Sound(EndOf(s, k, es)) && Bare(EndOf(s, k, es), k) && Quieter(s, EndOf(s, k, es), k)
    decreases Holders(s)
  {
    hide Inv, Step, Enabled;
    if Bare(s, k) {
      es := [];
      assert EndOf(s, k, es) == s;
    } else {
      var e := SomeoneElse(s, k);
      StepSound(s, e);
      var rest := WindDown(Step(s, e), k);
      es := [e] + rest;
      assert es[1..] == rest;
      FewerTrans(s.dicts, Step(s, e).dicts, EndOf(s, k, es).dicts);
    }
  }

  // ── what is live then ─────────────────────────────────────────────────────

  lemma {:induction false} InChainUp(dicts: Dicts, d: Ptr, c: Ptr)
    requires InChain(dicts, d, c) && c in dicts && dicts[c].parent in dicts && dicts[dicts[c].parent].depth < dicts[c].depth
    ensures InChain(dicts, d, dicts[c].parent)
    decreases if d in dicts then dicts[d].depth else 0
  {
    if d != c { InChainUp(dicts, dicts[d].parent, c); }
  }

  /** The stakes left name the document's slots and its dictionaries' children. */
  lemma BareStake(s: State, k: DocId, e: Ptr) returns (c: Ptr)
    requires Sound(s) && k in s.docs && Bare(s, k) && e in s.dicts
    ensures e == s.docs[k].dict || e == s.docs[k].slot || (c in s.dicts && s.dicts[c].parent == e && e != NULL)
  {
    hide Inv, Count;
    c := NULL;
    BareCounts(s, k, e);
    SoundShape(s);
    if Count(s.docs, DocStakes, e) > 0 {
      CountWitness(s.docs, DocStakes, e);
      var j :| j in s.docs && e in DocStakes(s.docs[j]);
      assert j == k;
    } else {
      CountWitness(s.dicts, ParentStake, e);
      c :| c in s.dicts && e in ParentStake(s.dicts[c]);
    }
  }

  lemma BareCounts(s: State, k: DocId, e: Ptr)
    requires Sound(s) && k in s.docs && Bare(s, k) && e in s.dicts
    ensures Count(s.docs, DocStakes, e) + Count(s.dicts, ParentStake, e) > 0
  {
    hide DictsOk, ArcsExact, HomesOk;
    assert Stakes(s, e) + multiset{}[e] > 0;
    CountNone(s.threads, ThreadStakes, e);
    hide Count;
  }

  lemma CountNone<K, V>(m: map<K, V>, f: V -> multiset<nat>, x: nat)
    requires m == map[]
    ensures Count(m, f, x) == 0
  {
  }

  function Deeper(dicts: Dicts, n: nat): set<Ptr> { set d | d in dicts && dicts[d].depth > n }

  /** So every dictionary left is on one of the document's chains. */
  lemma {:induction false} AllOnChain(s: State, k: DocId, e: Ptr)
    requires Sound(s) && k in s.docs && Bare(s, k) && e in s.dicts
    ensures OnChain(s.dicts, s.docs[k], e)
    decreases |Deeper(s.dicts, s.dicts[e].depth)|
  {
    SlotsLive(s, k);
    SoundShape(s);
    var c := BareStake(s, k, e);
    if e != s.docs[k].dict && e != s.docs[k].slot {
      assert LinkOk(s.dicts, s.dicts[c]);
      assert c in Deeper(s.dicts, s.dicts[e].depth) && c !in Deeper(s.dicts, s.dicts[c].depth);
      assert Deeper(s.dicts, s.dicts[c].depth) < Deeper(s.dicts, s.dicts[e].depth);
      SmallerSet(Deeper(s.dicts, s.dicts[c].depth), Deeper(s.dicts, s.dicts[e].depth));
      AllOnChain(s, k, c);
      hide Inv;
      if InChain(s.dicts, s.docs[k].dict, c) { InChainUp(s.dicts, s.docs[k].dict, c); }
      else { InChainUp(s.dicts, s.docs[k].slot, c); }
    }
  }

  lemma {:induction false} SmallerSet(x: set<Ptr>, y: set<Ptr>)
    requires x < y
    ensures |x| < |y|
  {
    var d :| d in y && d !in x;
    assert x <= y - {d};
    SubsetSize(x, y - {d});
  }

  lemma {:induction false} SubsetSize(x: set<Ptr>, y: set<Ptr>)
    requires x <= y
    ensures |x| <= |y|
  {
    if x != {} {
      var d :| d in x;
      SubsetSize(x - {d}, y - {d});
    }
  }

  lemma BareLive(s: State, k: DocId, h: Arena)
    requires Sound(s) && k in s.docs && Bare(s, k) && h in s.arcs
    ensures Covered(s, s.docs[k], h)
  {
    hide DictsOk, RefsExact, HomesOk, OnChain;
    assert Holds(s, h) + multiset{}[h] > 0;
    CountNone(s.threads, ThreadHolds, h);
    if Count(s.docs, DocHolds, h) > 0 {
      CountWitness(s.docs, DocHolds, h);
      var j :| j in s.docs && h in DocHolds(s.docs[j]);
      assert j == k;
    } else {
      CountWitness(s.dicts, DictHolds, h);
      var e :| e in s.dicts && h in DictHolds(s.dicts[e]);
      AllOnChain(s, k, e);
      assert OnChain(s.dicts, s.docs[k], e) && Pinned(s.dicts, e, h);
    }
  }

  lemma {:induction false} InChainBefore(before: Dicts, after: Dicts, d: Ptr, e: Ptr)
    requires Fewer(before, after) && InChain(after, d, e)
    ensures InChain(before, d, e)
    decreases if d in after then after[d].depth else 0
  {
    if e != d { InChainBefore(before, after, after[d].parent, e); }
  }

  lemma CoveredBefore(s: State, t: State, k: DocId, h: Arena)
    requires Quieter(s, t, k) && Covered(t, t.docs[k], h)
    ensures Covered(s, s.docs[k], h)
  {
    var doc := t.docs[k];
    if h != doc.arena {
      var e :| OnChain(t.dicts, doc, e) && Pinned(t.dicts, e, h);
      if InChain(t.dicts, doc.dict, e) { InChainBefore(s.dicts, t.dicts, doc.dict, e); }
      else { InChainBefore(s.dicts, t.dicts, doc.slot, e); }
      assert SamePlace(s.dicts[e], t.dicts[e]);
      assert OnChain(s.dicts, doc, e) && Pinned(s.dicts, e, h);
    }
  }

  // ── the exact condition ───────────────────────────────────────────────────

  /** Memory stays live in every continuation that keeps a document and its slot if
      and only if it is the document's own arena or is pinned on a dictionary of the
      document's chains. */
  lemma StaysLiveExactly(s: State, k: DocId, h: Arena)
    requires Sound(s) && k in s.docs
    ensures AlwaysLive(s, k, h) <==> Covered(s, s.docs[k], h)
  {
    hide Inv, Continues, EndOf, Covered, Bare, Quieter;
    if Covered(s, s.docs[k], h) {
      forall es | Continues(s, k, es) ensures h in EndOf(s, k, es).arcs { CoveredLasts(s, k, h, es); }
    }
    if AlwaysLive(s, k, h) {
      var es := WindDown(s, k);
      var t := EndOf(s, k, es);
      QuieterDoc(s, t, k);
      BareLive(t, k, h);
      CoveredBefore(s, t, k, h);
    }
  }

  lemma QuieterDoc(s: State, t: State, k: DocId)
    requires Quieter(s, t, k)
    ensures k in s.docs && k in t.docs && t.docs[k] == s.docs[k] && t.home == s.home
  {
  }

  /** A node a document reaches dangles in some continuation that keeps the document
      and its slot if and only if its memory is not covered. */
  lemma DanglesExactly(s: State, k: DocId, n: Node)
    requires Sound(s) && k in s.docs && n in s.docs[k].nodes && n in s.home
    ensures MayDangle(s, k, n) <==> !Covered(s, s.docs[k], s.home[n])
  {
    hide Inv, Continues, EndOf, Covered, Bare, Quieter;
    if Covered(s, s.docs[k], s.home[n]) {
      forall es | Continues(s, k, es) ensures !Dangles(EndOf(s, k, es), k, n) {
        CoveredLasts(s, k, s.home[n], es);
        HomeLasts(s, k, n, es);
      }
    } else {
      var es := WindDown(s, k);
      var t := EndOf(s, k, es);
      QuieterDoc(s, t, k);
      if s.home[n] in t.arcs {
        BareLive(t, k, s.home[n]);
        CoveredBefore(s, t, k, s.home[n]);
      }
      assert Dangles(t, k, n);
    }
  }

  lemma {:induction false} HomeLasts(s: State, k: DocId, n: Node, es: seq<Event>)
    requires Continues(s, k, es) && n in s.home
    ensures n in EndOf(s, k, es).home && EndOf(s, k, es).home[n] == s.home[n]
    decreases |es|
  {
    hide Step;
    if es != [] {
      HomeStep(s, es[0]);
      HomeLasts(Step(s, es[0]), k, n, es[1..]);
    }
  }

  /** In every reachable state. */
  lemma ReachableDanglesExactly(r: Run, m: nat, k: DocId, n: Node)
    requires Valid(r) && m < |r.states| && k in r.states[m].docs && n in r.states[m].docs[k].nodes
    ensures n in r.states[m].home
    ensures MayDangle(r.states[m], k, n) <==> !Covered(r.states[m], r.states[m].docs[k], r.states[m].home[n])
  {
    hide Inv, Step, Enabled, MayDangle, Covered;
    RunSound(r, m);
    NodesKnown(r.states[m], k);
    DanglesExactly(r.states[m], k, n);
  }

  // ── what the protocol's calls protect ─────────────────────────────────────

  lemma MoveCoverage(r: Run, i: nat, j: nat, c: nat, t: Tid, a: Arena, src: Ptr, dst: Ptr, name: Ptr, k: DocId, h: Arena)
    requires Valid(r) && Move(r, i, j, c, t, a, src, dst, name) && k in r.states[c].docs
    ensures r.states[c + 1].docs == r.states[c].docs && r.states[c + 1].home == r.states[c].home
    ensures Covered(r.states[c + 1], r.states[c].docs[k], h)
       <==> Covered(r.states[c], r.states[c].docs[k], h) || (h == a && OnDict(r.states[c], k, dst))
  {
    var s, e, s' := r.states[c], r.events[c], r.states[c + 1];
    assert Enabled(s, e) && s' == Step(s, e);
    PinIffMove(r, c, t, a);
    RunSound(r, c);
    LookupStep(s, e);
    hide Inv, Lookup, Covered, Move, Valid, Step, Enabled;
    SoundTable(s, dst);
    LookupCovers(s, t, dst, name, e.bytes, e.addr, s.docs[k], h);
  }

  /** A completed cross-thread move protects for good exactly the stashed arena, for
      a document with the dictionary looked up in on a chain, and what was covered
      before it. */
  lemma MoveProtectsExactly(r: Run, i: nat, j: nat, c: nat, t: Tid, a: Arena, src: Ptr, dst: Ptr, name: Ptr,
                            k: DocId, h: Arena)
    requires Valid(r) && Move(r, i, j, c, t, a, src, dst, name) && k in r.states[c].docs
    ensures AlwaysLive(r.states[c + 1], k, h)
       <==> Covered(r.states[c], r.states[c].docs[k], h) || (h == a && OnDict(r.states[c], k, dst))
  {
    hide Inv, Covered, StashedAt, ArmedAt, Step, Enabled, AlwaysLive, OnChain;
    MoveCoverage(r, i, j, c, t, a, src, dst, name, k, h);
    RunSound(r, c + 1);
    StaysLiveExactly(r.states[c + 1], k, h);
  }

  /** So a node of the document can be left dangling after the move if and only if
      its memory is neither the stashed arena, pinned for that document, nor covered
      before. */
  lemma MovedNodeDanglesExactly(r: Run, i: nat, j: nat, c: nat, t: Tid, a: Arena, src: Ptr, dst: Ptr, name: Ptr,
                                k: DocId, n: Node)
    requires Valid(r) && Move(r, i, j, c, t, a, src, dst, name) && k in r.states[c].docs
    requires n in r.states[c].docs[k].nodes && n in r.states[c].home
    ensures MayDangle(r.states[c + 1], k, n)
       <==> !Covered(r.states[c], r.states[c].docs[k], r.states[c].home[n])
            && !(r.states[c].home[n] == a && OnDict(r.states[c], k, dst))
  {
    hide Inv, Covered, StashedAt, ArmedAt, Step, Enabled, MayDangle, OnChain;
    MoveCoverage(r, i, j, c, t, a, src, dst, name, k, r.states[c].home[n]);
    RunSound(r, c + 1);
    DanglesExactly(r.states[c + 1], k, n);
  }

  lemma LookupStep(s: State, e: Event)
    requires Enabled(s, e) && e.DictLookup? && Consumes(e, e.t)
    ensures e.d in s.dicts && Step(s, e) == Lookup(s, e.t, e.d, e.name, e.bytes, e.addr) && Step(s, e).docs == s.docs
    ensures Step(s, e).home == s.home
  {
    hide Lookup;
  }

  lemma GraftAfter(s: State, src: DocId, dst: DocId, nodes: set<Node>, s': State)
    requires Enabled(s, Graft(src, dst, nodes)) && s' == Step(s, Graft(src, dst, nodes))
    ensures dst in s'.docs && s'.dicts == PinGraft(s, src, dst).dicts
    ensures s'.docs[dst] == s.docs[dst].(nodes := s'.docs[dst].nodes)
  {
    hide PinGraft;
  }

  ghost predicate StepsBy(s: State, e: Event, s': State) { Enabled(s, e) && s' == Step(s, e) }

  /** The API graft protects for good exactly the source document's arena, and that
      only across dictionaries, and what the destination covered before. */
  lemma GraftProtectsExactly(s: State, src: DocId, dst: DocId, nodes: set<Node>, h: Arena, s': State)
    requires src in s.docs && dst in s.docs && nodes <= s.home.Keys && Sound(s)
    requires StepsBy(s, Graft(src, dst, nodes), s')
    ensures dst in s'.docs
    ensures AlwaysLive(s', dst, h)
       <==> Covered(s, s.docs[dst], h) || (GraftPins(s, src, dst) && h == s.docs[src].arena)
  {
    hide Inv, PinGraft, Step, Pinned, AlwaysLive;
    assert Enabled(s, Graft(src, dst, nodes));
    GraftAfter(s, src, dst, nodes, s');
    StepSound(s, Graft(src, dst, nodes));
    SlotsLive(s, dst);
    assert InChain(s.dicts, s.docs[dst].dict, s.docs[dst].dict);
    hide InChain, Enabled;
    GraftCovers(s, src, dst, s.docs[dst], h);
    assert Covered(s', s'.docs[dst], h) <==> Covered(PinGraft(s, src, dst), s.docs[dst], h);
    StaysLiveExactly(s', dst, h);
  }

  // ── continuing a run ──────────────────────────────────────────────────────

  lemma {:induction false} Extend(r: Run, k: DocId, es: seq<Event>) returns (r': Run)
    requires Valid(r) && Continues(r.states[|r.events|], k, es)
    ensures Valid(r') && r.states <= r'.states && r.events <= r'.events
    ensures r'.states[|r'.events|] == EndOf(r.states[|r.events|], k, es)
    decreases |es|
  {
    if es == [] {
      r' := r;
    } else {
      var s := r.states[|r.events|];
      var r1 := Run(r.states + [Step(s, es[0])], r.events + [es[0]]);
      hide Step, Enabled;
      assert Valid(r1) && r1.states[|r1.events|] == Step(s, es[0]);
      r' := Extend(r1, k, es[1..]);
    }
  }
}
