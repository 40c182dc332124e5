/** The move protocol as a rule about histories: how each node came to its document,
    and that keeping to the rule keeps every run safe
    (crates/compat/src/dict.rs:139-192, 246-283; crates/compat/src/mutate.rs:86-151). */
module Discipline {
  import opened Basics
  import opened CompatState
  import opened CompatCounts
  import opened CompatSteps
  import opened Lifetime
  import opened Grafts
  import opened Chains
  import opened Safety

  /** The call puts node `n` into document `k`. */
  predicate Brings(e: Event, k: DocId, n: Node) {
    || (e.NewNode? && e.doc == k && e.n == n)
    || (e.Link? && e.doc == k && n in e.nodes)
    || (e.Graft? && e.dst == k && n in e.nodes)
  }

  /** From just after step `l` up to state `m` the document lives and reaches the node. */
  ghost predicate Stays(r: Run, l: nat, m: nat, k: DocId, n: Node) {
    l < m < |r.states| && forall x :: l < x <= m ==> Reaches(r.states[x], k, n)
  }

  predicate Reaches(s: State, k: DocId, n: Node) { k in s.docs && n in s.docs[k].nodes }

  function HomeOf(s: State, n: Node): Option<Arena> { if n in s.home then Some(s.home[n]) else None }

  // ── the rule ──────────────────────────────────────────────────────────────

  /** The memory is the document's own, or already pinned on a dictionary that stays on
      one of its chains. */
  ghost predicate AlreadyCovered(r: Run, l: nat, k: DocId, n: Node, a: Arena)
    requires l + 1 < |r.states|
  {
    || (k in r.states[l + 1].docs && r.states[l + 1].docs[k].arena == a)
    || exists d :: Pinned(r.states[l + 1].dicts, d, a) && KeptOn(r, l, k, n, d)
  }

  ghost predicate KeptOn(r: Run, l: nat, k: DocId, n: Node, d: Ptr) {
    forall m: nat :: Stays(r, l, m, k, n) ==> OnDict(r.states[m], k, d)
  }

  /** The three calls of a move, and what they name. */
  datatype MoveAt = MoveAt(unlink: nat, owns: nat, lookup: nat, t: Tid, src: Ptr, dst: Ptr, name: Ptr)

  /** The link falls within a cross-thread move that stashed this very memory, and
      the document keeps the dictionary the move looked up in on a chain. */
  ghost predicate MovedBy(r: Run, l: nat, k: DocId, n: Node, a: Arena, v: MoveAt)
    requires Valid(r)
  {
    && v.unlink < l < v.lookup
    && Move(r, v.unlink, v.owns, v.lookup, v.t, a, v.src, v.dst, v.name)
    && forall m: nat :: v.lookup < m && Stays(r, l, m, k, n) ==> OnDict(r.states[m], k, v.dst)
  }

  ghost predicate Moved(r: Run, l: nat, k: DocId, n: Node, a: Arena)
    requires Valid(r)
  {
    exists v :: MovedBy(r, l, k, n, a, v)
  }

  ghost predicate MovingSince(r: Run, l: nat, a: Arena, i: nat, t: Tid)
    requires Valid(r)
  {
    i < l && StashedAt(r, |r.events|, t, a, i)
  }

  /** The move has been begun and the run ends before its lookup. */
  ghost predicate Moving(r: Run, l: nat, a: Arena)
    requires Valid(r)
  {
    exists i: nat, t :: MovingSince(r, l, a, i, t)
  }

  /** The memory was opened by a thread that does not exit while the node is there. */
  ghost predicate OpenedAt(r: Run, l: nat, k: DocId, n: Node, a: Arena, o: nat)
    requires Valid(r)
  {
    && o < l < |r.events| && r.events[o].NewDoc? && r.states[o].nextArena == a
    && forall m: nat :: Stays(r, l, m, k, n) ==> NoExit(r, o, m, r.events[o].t)
  }

  ghost predicate NoExit(r: Run, o: nat, m: nat, t: Tid)
    requires m <= |r.events|
  {
    forall x :: o < x < m ==> r.events[x] != ThreadExit(t)
  }

  ghost predicate SameThread(r: Run, l: nat, k: DocId, n: Node, a: Arena)
    requires Valid(r)
  {
    exists o :: OpenedAt(r, l, k, n, a, o)
  }

  /** Moved through the API, from the document whose memory it lies in. */
  ghost predicate ApiGraft(r: Run, l: nat, a: Arena)
    requires Valid(r) && l < |r.events|
  {
    var e, s := r.events[l], r.states[l];
    e.Graft? && e.src in s.docs && e.dst in s.docs && GraftPins(s, e.src, e.dst) && s.docs[e.src].arena == a
  }

  ghost predicate Justified(r: Run, l: nat, k: DocId, n: Node)
    requires Valid(r) && l < |r.events|
  {
    r.events[l].NewNode? || (
      var h := HomeOf(r.states[l], n);
      h.Some? && (AlreadyCovered(r, l, k, n, h.value) || Moved(r, l, k, n, h.value) || Moving(r, l, h.value)
        || SameThread(r, l, k, n, h.value) || ApiGraft(r, l, h.value)))
  }

  ghost predicate Disciplined(r: Run)
    requires Valid(r)
  {
    forall l, k, n :: 0 <= l < |r.events| && Brings(r.events[l], k, n) ==> Justified(r, l, k, n)
  }

  // ── how a node came there ─────────────────────────────────────────────────

  lemma BringStep(s: State, e: Event, k: DocId, n: Node)
    requires Enabled(s, e) && Reaches(Step(s, e), k, n)
    ensures Brings(e, k, n) || Reaches(s, k, n)
  {
    hide Step;
    DocStep(s, e, k);
  }

  ghost predicate BroughtAt(r: Run, l: nat, m: nat, k: DocId, n: Node)
    requires Valid(r)
  {
    l < |r.events| && Brings(r.events[l], k, n) && Stays(r, l, m, k, n)
  }

  lemma {:induction false} Brought(r: Run, m: nat, k: DocId, n: Node)
    requires Valid(r) && m < |r.states| && Reaches(r.states[m], k, n)
    ensures exists l :: BroughtAt(r, l, m, k, n)
  {
    hide Step, Enabled, Brings;
    if m > 0 {
      assert Enabled(r.states[m - 1], r.events[m - 1]);
      BringStep(r.states[m - 1], r.events[m - 1], k, n);
      if Brings(r.events[m - 1], k, n) {
        assert BroughtAt(r, m - 1, m, k, n);
      } else {
        Brought(r, m - 1, k, n);
        var l: nat :| BroughtAt(r, l, m - 1, k, n);
        assert BroughtAt(r, l, m, k, n);
      }
    }
  }

  lemma {:induction false} HomeFixed(r: Run, l: nat, m: nat, n: Node)
    requires Valid(r) && l <= m < |r.states| && n in r.states[l].home
    ensures HomeOf(r.states[m], n) == HomeOf(r.states[l], n)
    decreases m - l
  {
    if l < m {
      hide Step;
      assert Enabled(r.states[l], r.events[l]);
      HomeStep(r.states[l], r.events[l]);
      HomeFixed(r, l + 1, m, n);
    }
  }

  lemma DocKeepsHome(s: State, e: Event, s': State, k: DocId)
    requires Enabled(s, e) && s' == Step(s, e) && k in s.docs && k in s'.docs
    ensures s'.docs[k].arena == s.docs[k].arena && s'.docs[k].dict == s.docs[k].dict
  {
    hide Step;
    DocStep(s, e, k);
  }

  /** A document keeps its arena and its own dictionary for life. */
  lemma {:induction false} DocFixed(r: Run, l: nat, m: nat, k: DocId, n: Node)
    requires Valid(r) && Stays(r, l, m, k, n)
    ensures r.states[m].docs[k].arena == r.states[l + 1].docs[k].arena
    ensures r.states[m].docs[k].dict == r.states[l + 1].docs[k].dict
    decreases m
  {
    hide Step, Enabled;
    if l + 1 < m {
      assert Stays(r, l, m - 1, k, n) && Reaches(r.states[m - 1], k, n) && Reaches(r.states[m], k, n);
      DocFixed(r, l, m - 1, k, n);
      assert Enabled(r.states[m - 1], r.events[m - 1]);
      DocKeepsHome(r.states[m - 1], r.events[m - 1], r.states[m], k);
    }
  }

  // ── each way of coming there keeps the memory ─────────────────────────────

  lemma StaysBetween(r: Run, l: nat, m: nat, x: nat, k: DocId, n: Node)
    requires Stays(r, l, m, k, n) && l < x <= m
    ensures Stays(r, l, x, k, n)
  {
  }

  lemma HolderLive(r: Run, m: nat, k: DocId, a: Arena)
    requires Valid(r) && m < |r.states| && k in r.states[m].docs && Backed(r.states[m], None, r.states[m].docs[k], a)
    ensures a in r.states[m].arcs
  {
    hide Step, Enabled, Inv, Backed;
    RunSound(r, m);
    BackedLive(r.states[m], k, a);
  }

  lemma CoveredStays(r: Run, l: nat, m: nat, k: DocId, n: Node, a: Arena)
    requires Valid(r) && Stays(r, l, m, k, n) && AlreadyCovered(r, l, k, n, a)
    ensures a in r.states[m].arcs
  {
    hide Step, Enabled, Inv, Pinned;
    assert Reaches(r.states[l + 1], k, n) && Reaches(r.states[m], k, n);
    if r.states[l + 1].docs[k].arena == a {
      DocFixed(r, l, m, k, n);
    } else {
      var d :| Pinned(r.states[l + 1].dicts, d, a) && KeptOn(r, l, k, n, d);
      PinStays(r, l, m, k, n, a, d);
    }
    HolderLive(r, m, k, a);
  }

  lemma PinStays(r: Run, l: nat, m: nat, k: DocId, n: Node, a: Arena, d: Ptr)
    requires Valid(r) && Stays(r, l, m, k, n) && Pinned(r.states[l + 1].dicts, d, a) && KeptOn(r, l, k, n, d)
    ensures k in r.states[m].docs && Covered(r.states[m], r.states[m].docs[k], a)
  {
    hide Step, Enabled, Pinned, OnDict;
    forall x | l + 1 <= x <= m ensures OnDict(r.states[x], k, d) { StaysBetween(r, l, m, x, k, n); }
    hide Stays;
    PinLasts(r, l + 1, m, k, d, a);
    assert Covered(r.states[m], r.states[m].docs[k], a) by { OnCovers(r.states[m], k, d, a); }
  }

  lemma OnCovers(s: State, k: DocId, d: Ptr, a: Arena)
    requires OnDict(s, k, d) && Pinned(s.dicts, d, a)
    ensures k in s.docs && Covered(s, s.docs[k], a)
  {
  }

  lemma {:induction false} StashedThread(r: Run, c: nat, t: Tid, a: Arena, i: nat, m: nat)
    requires Valid(r) && c <= |r.events| && StashedAt(r, c, t, a, i) && i < m <= c
    ensures t in r.states[m].threads
    decreases m
  {
    hide Step;
    assert Enabled(r.states[m - 1], r.events[m - 1]);
    if i < m - 1 { StashedThread(r, c, t, a, i, m - 1); }
    KeepAliveStep(r.states[m - 1], r.events[m - 1], t);
  }

  lemma MovedStays(r: Run, l: nat, m: nat, k: DocId, n: Node, a: Arena, v: MoveAt)
    requires Valid(r) && Stays(r, l, m, k, n) && MovedBy(r, l, k, n, a, v)
    ensures a in r.states[m].arcs
  {
    hide Step, Enabled, Inv;
    assert Reaches(r.states[m], k, n);
    if m <= v.lookup {
      StashedThread(r, v.lookup, v.t, a, v.unlink, m);
    } else {
      forall x | v.lookup < x <= m ensures OnDict(r.states[x], k, v.dst) { StaysBetween(r, l, m, x, k, n); }
    }
    MoveBacked(r, v.unlink, v.owns, v.lookup, v.t, a, v.src, v.dst, v.name, k, m);
  }

  lemma MovingStays(r: Run, l: nat, m: nat, k: DocId, n: Node, a: Arena)
    requires Valid(r) && Stays(r, l, m, k, n) && Moving(r, l, a)
    ensures a in r.states[m].arcs
  {
    hide Step, Enabled, Inv;
    var i: nat, t :| MovingSince(r, l, a, i, t);
    StashedThread(r, |r.events|, t, a, i, m);
    assert StashedAt(r, m, t, a, i);
    GraftSlotMeans(r, m, t, a);
    assert ThreadKeeps(r.states[m].threads[t], a);
    assert Reaches(r.states[m], k, n);
    HolderLive(r, m, k, a);
  }

  lemma OpenedStays(r: Run, l: nat, m: nat, k: DocId, n: Node, a: Arena, o: nat)
    requires Valid(r) && Stays(r, l, m, k, n) && OpenedAt(r, l, k, n, a, o)
    ensures a in r.states[m].arcs
  {
    hide Step, Enabled, Inv;
    KeptUntilExit(r, o, m);
    assert ThreadKeeps(r.states[m].threads[r.events[o].t], a);
    assert Reaches(r.states[m], k, n);
    HolderLive(r, m, k, a);
  }

  lemma ApiStays(r: Run, l: nat, m: nat, k: DocId, n: Node, a: Arena)
    requires Valid(r) && Stays(r, l, m, k, n) && l < |r.events| && ApiGraft(r, l, a) && r.events[l].dst == k
    ensures a in r.states[m].arcs
  {
    var s, e := r.states[l], r.events[l];
    assert Enabled(s, e) && r.states[l + 1] == Step(s, e);
    RunSound(r, l);
    GraftStep(s, e);
    GraftKeepsDict(s, r.states[l + 1], e.src, k, e.nodes);
    hide Step, Enabled, Inv, Pinned, OnDict;
    var d := r.states[l + 1].docs[k].dict;
    forall x: nat | Stays(r, l, x, k, n) ensures OnDict(r.states[x], k, d) { StaysOnOwn(r, l, x, k, n); }
    assert KeptOn(r, l, k, n, d);
    assert AlreadyCovered(r, l, k, n, a);
    CoveredStays(r, l, m, k, n, a);
  }

  lemma StaysOnOwn(r: Run, l: nat, m: nat, k: DocId, n: Node)
    requires Valid(r) && Stays(r, l, m, k, n)
    ensures k in r.states[l + 1].docs && OnDict(r.states[m], k, r.states[l + 1].docs[k].dict)
  {
    hide Step, Enabled, Inv;
    DocFixed(r, l, m, k, n);
    assert Reaches(r.states[m], k, n) && Reaches(r.states[l + 1], k, n);
    RunSound(r, m);
    SlotsLive(r.states[m], k);
    assert InChain(r.states[m].dicts, r.states[m].docs[k].dict, r.states[m].docs[k].dict);
  }

  lemma GraftKeepsDict(s: State, s': State, src: DocId, k: DocId, nodes: set<Node>)
    requires src in s.docs && k in s.docs && s' == MoveNodes(PinGraft(s, src, k), src, k, nodes)
    requires GraftPins(s, src, k) && Sound(s)
    ensures k in s'.docs && Pinned(s'.dicts, s'.docs[k].dict, s.docs[src].arena)
  {
    hide PinGraft, Pinned, Inv;
    DocArenaLive(s, k);
    PinGraftPins(s, src, k);
  }

  /** Every run in which each node was created where it stands, or brought there in
      one of the ways the protocol allows, keeps every node of every live document
      in live memory, whatever the threads' interleaving. */
  lemma DisciplinedRunsSafe(r: Run, m: nat)
    requires Valid(r) && Disciplined(r) && m < |r.states|
    ensures Safe(r.states[m])
  {
    hide Step, Enabled, Inv, Justified;
    forall k, n | k in r.states[m].docs && n in r.states[m].docs[k].nodes
      ensures n in r.states[m].home && r.states[m].home[n] in r.states[m].arcs
    {
      assert Reaches(r.states[m], k, n);
      Brought(r, m, k, n);
      var l: nat :| BroughtAt(r, l, m, k, n);
      assert Justified(r, l, k, n);
      NodeLive(r, l, m, k, n);
    }
  }

  lemma NodeLive(r: Run, l: nat, m: nat, k: DocId, n: Node)
    requires Valid(r) && BroughtAt(r, l, m, k, n) && Justified(r, l, k, n)
    ensures n in r.states[m].home && r.states[m].home[n] in r.states[m].arcs
  {
    hide Step, Inv, Stays;
    var s, e := r.states[l], r.events[l];
    assert Enabled(s, e) && r.states[l + 1] == Step(s, e);
    StaysRange(r, l, m, k, n);
    if e.NewNode? {
      DocAfterNew(r, l, m, k, n);
      CoveredStays(r, l, m, k, n, r.states[l + 1].home[n]);
      HomeFixed(r, l + 1, m, n);
    } else {
      hide Enabled, AlreadyCovered, Moved, Moving, SameThread, ApiGraft;
      var a := HomeOf(s, n).value;
      HomeFixed(r, l, m, n);
      ComesThrough(r, l, m, k, n, a);
    }
  }

  lemma StaysRange(r: Run, l: nat, m: nat, k: DocId, n: Node)
    requires Stays(r, l, m, k, n)
    ensures l < m < |r.states|
  {
  }

  lemma DocAfterNew(r: Run, l: nat, m: nat, k: DocId, n: Node)
    requires Valid(r) && l < |r.events| && r.events[l] == NewNode(k, n) && Stays(r, l, m, k, n)
    ensures n in r.states[l + 1].home && AlreadyCovered(r, l, k, n, r.states[l + 1].home[n])
  {
    hide Step;
    assert Reaches(r.states[l + 1], k, n);
    assert Enabled(r.states[l], r.events[l]);
    HomeStep(r.states[l], r.events[l]);
    DocStep(r.states[l], r.events[l], k);
  }

  lemma ComesThrough(r: Run, l: nat, m: nat, k: DocId, n: Node, a: Arena)
    requires Valid(r) && l < |r.events| && Stays(r, l, m, k, n) && Brings(r.events[l], k, n)
    requires AlreadyCovered(r, l, k, n, a) || Moved(r, l, k, n, a) || Moving(r, l, a)
      || SameThread(r, l, k, n, a) || ApiGraft(r, l, a)
    ensures a in r.states[m].arcs
  {
    assert |r.states| == |r.events| + 1;
    hide Step, Inv, Enabled, Valid, Stays, AlreadyCovered, Moved, Moving, SameThread, ApiGraft;
    if AlreadyCovered(r, l, k, n, a) {
      CoveredStays(r, l, m, k, n, a);
    } else if Moved(r, l, k, n, a) {
      SomeMoveStays(r, l, m, k, n, a);
    } else if Moving(r, l, a) {
      MovingStays(r, l, m, k, n, a);
    } else if SameThread(r, l, k, n, a) {
      SomeThreadStays(r, l, m, k, n, a);
    } else {
      assert r.events[l].Graft? by { ApiIsGraft(r, l, a); }
      ApiStays(r, l, m, k, n, a);
    }
  }

  lemma ApiIsGraft(r: Run, l: nat, a: Arena)
    requires Valid(r) && l < |r.events| && ApiGraft(r, l, a)
    ensures r.events[l].Graft?
  {
  }

  lemma SomeMoveStays(r: Run, l: nat, m: nat, k: DocId, n: Node, a: Arena)
    requires Valid(r) && Stays(r, l, m, k, n) && Moved(r, l, k, n, a)
    ensures a in r.states[m].arcs
  {
    hide Valid, Stays, MovedBy;
    var v :| MovedBy(r, l, k, n, a, v);
    MovedStays(r, l, m, k, n, a, v);
  }

  lemma SomeThreadStays(r: Run, l: nat, m: nat, k: DocId, n: Node, a: Arena)
    requires Valid(r) && Stays(r, l, m, k, n) && SameThread(r, l, k, n, a)
    ensures a in r.states[m].arcs
  {
    hide Valid, Stays, OpenedAt;
    var o: nat :| OpenedAt(r, l, k, n, a, o);
    OpenedStays(r, l, m, k, n, a, o);
  }
}
