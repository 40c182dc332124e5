/** Every primitive of CompatState trades references exactly: what it takes from the
    hand it stores, and what it removes from storage it puts in the hand. */
module CompatCounts {
  import opened Sums
  import opened Basics
  import opened CompatState

  // ── moving references without touching the counts ─────────────────────────

  lemma RefsMove(s: State, s': State, xd: multiset<Ptr>, yd: multiset<Ptr>)
    requires RefsExact(s, xd) && s'.dicts == s.dicts
    requires forall p :: Stakes(s', p) + yd[p] == Stakes(s, p) + xd[p]
    ensures RefsExact(s', yd)
  {
    hide Stakes;
  }

  lemma ArcsMove(s: State, s': State, xa: multiset<Arena>, ya: multiset<Arena>)
    requires ArcsExact(s, xa) && s'.arcs == s.arcs && s'.nextArena == s.nextArena
    requires forall a :: Holds(s', a) + ya[a] == Holds(s, a) + xa[a]
    ensures ArcsExact(s', ya)
  {
    hide Holds;
  }

  /** Only a count changes: `delta` is added to the references on `d`. */
  lemma RefsAdjust(s: State, s': State, d: Ptr, delta: int, xd: multiset<Ptr>, yd: multiset<Ptr>)
    requires RefsExact(s, xd) && s'.dicts.Keys == s.dicts.Keys && d in s.dicts
    requires forall e :: e in s.dicts ==> s'.dicts[e].refs == s.dicts[e].refs + (if e == d then delta else 0)
    requires s'.dicts[d].refs >= 1
    requires forall p :: Stakes(s', p) + yd[p] == Stakes(s, p) + xd[p] + (if p == d then delta else 0)
    ensures RefsExact(s', yd)
  {
    hide Stakes;
    forall p | Stakes(s', p) + yd[p] > 0 ensures p in s'.dicts {
      assert p == d || Stakes(s, p) + xd[p] > 0;
    }
  }

  /** The same for arenas; a count that reaches 0 leaves the table. */
  lemma ArcsAdjust(s: State, s': State, a: Arena, delta: int, xa: multiset<Arena>, ya: multiset<Arena>)
    requires ArcsExact(s, xa) && a in s.arcs && s'.nextArena == s.nextArena
    requires s'.arcs == if s.arcs[a] + delta == 0 then s.arcs - {a} else s.arcs[a := s.arcs[a] + delta]
    requires s.arcs[a] + delta >= 0
    requires forall b :: Holds(s', b) == Holds(s, b)
    requires ya == if delta == 1 then xa + multiset{a} else xa - multiset{a}
    requires delta == 1 || (delta == -1 && a in xa)
    ensures ArcsExact(s', ya)
  {
    hide Holds;
    forall b ensures ya[b] == xa[b] + (if b == a then delta else 0) {
      if delta == 1 { assert ya[b] == (xa + multiset{a})[b]; } else { assert ya[b] == (xa - multiset{a})[b]; }
    }
    hide ArcsExact;
    ArcsCounted(s, s', a, delta, xa, ya);
  }

  lemma ArcsCounted(s: State, s': State, a: Arena, delta: int, xa: multiset<Arena>, ya: multiset<Arena>)
    requires ArcsExact(s, xa) && a in s.arcs && s'.nextArena == s.nextArena
    requires s'.arcs == if s.arcs[a] + delta == 0 then s.arcs - {a} else s.arcs[a := s.arcs[a] + delta]
    requires s.arcs[a] + delta >= 0
    requires forall b :: Holds(s', b) == Holds(s, b)
    requires forall b :: ya[b] == xa[b] + (if b == a then delta else 0)
    ensures ArcsExact(s', ya)
  {
    hide Holds;
  }

  /** Replacing a record while keeping its place in the chain. */
  lemma PutDictOk(dicts: map<Ptr, Dict>, d: Ptr, r: Dict)
    requires DictsOk(dicts) && d in dicts
    requires r.parent == dicts[d].parent && r.depth == dicts[d].depth
    requires TableOk(r) && NoDup(r.retained)
    requires forall e :: e in dicts && e != d ==> r.owned !! dicts[e].owned
    ensures DictsOk(dicts[d := r])
  {
    hide TableOk, NoDup;
    var dicts' := dicts[d := r];
    forall e | e in dicts' ensures LinkOk(dicts', dicts'[e]) {
      assert LinkOk(dicts, dicts[e]);
    }
  }

  lemma PutSameDictOk(dicts: map<Ptr, Dict>, d: Ptr, r: Dict)
    requires DictsOk(dicts) && d in dicts
    requires r == dicts[d].(refs := r.refs)
    ensures DictsOk(dicts[d := r])
  {
    assert TableOk(dicts[d]) && NoDup(dicts[d].retained);
    PutDictOk(dicts, d, r);
  }

  lemma CloneArcKeeps(s: State, a: Arena, xd: multiset<Ptr>, xa: multiset<Arena>)
    requires Inv(s, xd, xa) && a in s.arcs
    ensures Inv(CloneArc(s, a), xd, xa + multiset{a})
  {
    hide Count, DictsOk, HomesOk, RefsExact, ArcsExact;
    var s' := CloneArc(s, a);
    RefsMove(s, s', xd, xd);
    assert forall b :: Holds(s', b) == Holds(s, b);
    assert s.arcs[a] >= 1 by { ArcPositive(s, a, xa); }
    ArcsAdjust(s, s', a, 1, xa, xa + multiset{a});
  }

  lemma ArcPositive(s: State, a: Arena, xa: multiset<Arena>)
    requires ArcsExact(s, xa) && a in s.arcs
    ensures s.arcs[a] >= 1
  {
  }

  lemma DropArcKeeps(s: State, a: Arena, xd: multiset<Ptr>, xa: multiset<Arena>)
    requires Inv(s, xd, xa + multiset{a})
    ensures Inv(DropArc(s, a), xd, xa)
  {
    hide Count, DictsOk, HomesOk, RefsExact, ArcsExact;
    var s' := DropArc(s, a);
    DropCount(s, s', a, xa);
    RefsMove(s, s', xd, xd);
  }

  lemma DropCount(s: State, s': State, a: Arena, xa: multiset<Arena>)
    requires ArcsExact(s, xa + multiset{a}) && s' == DropArc(s, a)
    ensures ArcsExact(s', xa) && a in s.arcs
  {
    hide Count, ArcsExact;
    HeldLive(s, a, xa);
    assert forall b :: Holds(s', b) == Holds(s, b);
    hide Holds;
    assert xa + multiset{a} - multiset{a} == xa;
    ArcsAdjust(s, s', a, -1, xa + multiset{a}, xa);
  }

  lemma HeldLive(s: State, a: Arena, xa: multiset<Arena>)
    requires ArcsExact(s, xa + multiset{a})
    ensures a in s.arcs && s.arcs[a] == Holds(s, a) + xa[a] + 1
  {
    hide Holds;
    assert Holds(s, a) + (xa + multiset{a})[a] > 0;
  }

  lemma DropOptKeeps(s: State, a: Option<Arena>, xd: multiset<Ptr>, xa: multiset<Arena>)
    requires Inv(s, xd, xa + Opt(a))
    ensures Inv(DropOpt(s, a), xd, xa)
  {
    hide Count, DictsOk, HomesOk;
    if a.Some? { DropArcKeeps(s, a.value, xd, xa); } else { assert xa + Opt(a) == xa; }
  }

  lemma {:induction false} DropAllKeeps(s: State, arenas: seq<Arena>, xd: multiset<Ptr>, xa: multiset<Arena>)
    requires Inv(s, xd, xa + multiset(arenas))
    ensures Inv(DropAll(s, arenas), xd, xa)
    decreases |arenas|
  {
    hide Count, Inv;
    if arenas == [] {
      assert xa + multiset(arenas) == xa;
    } else {
      assert arenas == [arenas[0]] + arenas[1..];
      assert xa + multiset(arenas) == xa + multiset(arenas[1..]) + multiset{arenas[0]};
      DropArcKeeps(s, arenas[0], xd, xa + multiset(arenas[1..]));
      DropAllKeeps(DropArc(s, arenas[0]), arenas[1..], xd, xa);
    }
  }

  /** Replacing one dictionary record in a way that keeps its parent. */
  lemma PutDictSums(s: State, d: Ptr, r: Dict)
    requires d in s.dicts && r.parent == s.dicts[d].parent
    ensures forall p :: Stakes(s.(dicts := s.dicts[d := r]), p) == Stakes(s, p)
    ensures forall a :: Holds(s.(dicts := s.dicts[d := r]), a) + DictHolds(s.dicts[d])[a] == Holds(s, a) + DictHolds(r)[a]
  {
    hide Count, DictsOk, HomesOk;
    forall p ensures Stakes(s.(dicts := s.dicts[d := r]), p) == Stakes(s, p) {
      CountPut(s.dicts, d, r, ParentStake, p);
    }
    forall a ensures Holds(s.(dicts := s.dicts[d := r]), a) + DictHolds(s.dicts[d])[a] == Holds(s, a) + DictHolds(r)[a] {
      CountPut(s.dicts, d, r, DictHolds, a);
    }
  }

  lemma AddRefKeeps(s: State, d: Ptr, xd: multiset<Ptr>, xa: multiset<Arena>)
    requires Inv(s, xd, xa) && d in s.dicts
    ensures Inv(AddRef(s, d), xd + multiset{d}, xa)
  {
    hide Count, DictsOk, HomesOk, RefsExact, ArcsExact;
    var s' := AddRef(s, d);
    PutDictSums(s, d, s'.dicts[d]);
    PutSameDictOk(s.dicts, d, s'.dicts[d]);
    assert s.dicts[d].refs >= 1 by { RefsPositive(s, d, xd); }
    RefsAdjust(s, s', d, 1, xd, xd + multiset{d});
    ArcsMove(s, s', xa, xa);
  }

  lemma RefsPositive(s: State, d: Ptr, xd: multiset<Ptr>)
    requires RefsExact(s, xd) && d in s.dicts
    ensures s.dicts[d].refs >= 1
  {
  }

  lemma InHandLive(s: State, d: Ptr, xd: multiset<Ptr>)
    requires RefsExact(s, xd + multiset{d})
    ensures d in s.dicts && d != NULL
  {
    hide Stakes;
    assert Stakes(s, d) + (xd + multiset{d})[d] > 0;
  }

  /** The cascade: the reference given up is in hand, and so, one level up, is
      the one the freed dictionary held on its parent. */
  lemma {:induction false} ReleaseKeeps(s: State, d: Ptr, xd: multiset<Ptr>, xa: multiset<Arena>)
    requires Inv(s, xd + multiset{d}, xa)
    ensures Inv(Release(s, d), xd, xa)
    decreases |s.dicts|
  {
    hide Count, DictsOk, HomesOk, RefsExact, ArcsExact;
    InHandLive(s, d, xd);
    var r := s.dicts[d];
    if r.refs != 1 {
      var s' := Release(s, d);
      PutDictSums(s, d, s'.dicts[d]);
      PutSameDictOk(s.dicts, d, s'.dicts[d]);
      RefsPositive(s, d, xd + multiset{d});
      RefsAdjust(s, s', d, -1, xd + multiset{d}, xd);
      ArcsMove(s, s', xa, xa);
    } else {
      LastReleaseKeeps(s, d, xd, xa);
      if r.parent != NULL {
        ReleaseKeeps(DropAll(s.(dicts := s.dicts - {d}), r.retained), r.parent, xd, xa);
      } else {
        assert xd + One(r.parent) == xd;
      }
    }
  }

  lemma LastReleaseKeeps(s: State, d: Ptr, xd: multiset<Ptr>, xa: multiset<Arena>)
    requires Inv(s, xd + multiset{d}, xa) && d in s.dicts && s.dicts[d].refs == 1
    ensures Inv(DropAll(s.(dicts := s.dicts - {d}), s.dicts[d].retained), xd + One(s.dicts[d].parent), xa)
  {
    hide Count, Inv;
    FreeDictKeeps(s, d, xd, xa);
    DropAllKeeps(s.(dicts := s.dicts - {d}), s.dicts[d].retained, xd + One(s.dicts[d].parent), xa);
  }

  /** Removing a dictionary whose only reference is in hand. */
  lemma FreeDictKeeps(s: State, d: Ptr, xd: multiset<Ptr>, xa: multiset<Arena>)
    requires Inv(s, xd + multiset{d}, xa) && d in s.dicts && s.dicts[d].refs == 1
    ensures Inv(s.(dicts := s.dicts - {d}), xd + One(s.dicts[d].parent), xa + multiset(s.dicts[d].retained))
  {
    hide Count, HomesOk, DictsOk, RefsExact, ArcsExact;
    var r := s.dicts[d];
    var gone := s.(dicts := s.dicts - {d});
    forall a ensures Holds(s, a) == Holds(gone, a) + multiset(r.retained)[a] {
      CountSplit(s.dicts, d, DictHolds, a);
    }
    ArcsMove(s, gone, xa, xa + multiset(r.retained));
    hide Holds;
    forall p ensures Stakes(s, p) == Stakes(gone, p) + One(r.parent)[p] {
      CountSplit(s.dicts, d, ParentStake, p);
    }
    FreedUnlinked(s, d, xd);
    FreedRefs(s, gone, d, xd);
  }

  lemma FreedRefs(s: State, gone: State, d: Ptr, xd: multiset<Ptr>)
    requires RefsExact(s, xd + multiset{d}) && d in s.dicts && s.dicts[d].refs == 1
    requires gone.dicts == s.dicts - {d}
    requires forall p :: Stakes(s, p) == Stakes(gone, p) + One(s.dicts[d].parent)[p]
    ensures RefsExact(gone, xd + One(s.dicts[d].parent))
  {
    hide Stakes, One;
    var up := One(s.dicts[d].parent);
    assert forall p :: (xd + multiset{d})[p] == xd[p] + (if p == d then 1 else 0);
    assert forall p :: (xd + up)[p] == xd[p] + up[p];
    assert Stakes(s, d) + xd[d] == 0;
  }

  /** No live record points at a dictionary whose only reference is in hand. */
  lemma FreedUnlinked(s: State, d: Ptr, xd: multiset<Ptr>)
    requires RefsExact(s, xd + multiset{d}) && DictsOk(s.dicts)
    requires d in s.dicts && s.dicts[d].refs == 1
    ensures DictsOk(s.dicts - {d})
  {
    hide Count, TableOk, NoDup;
    assert Stakes(s, d) == 0;
    forall e | e in s.dicts - {d} ensures LinkOk(s.dicts - {d}, s.dicts[e]) {
      assert LinkOk(s.dicts, s.dicts[e]);
      CountSplit(s.dicts, e, ParentStake, d);
    }
  }

  lemma NoDupPush(arenas: seq<Arena>, a: Arena)
    requires NoDup(arenas) && a !in arenas
    ensures NoDup(arenas + [a])
  {
  }

  lemma KeepsTable(dicts: map<Ptr, Dict>, d: Ptr, r: Dict)
    requires DictsOk(dicts) && d in dicts
    requires r == dicts[d].(retained := r.retained) && NoDup(r.retained)
    ensures DictsOk(dicts[d := r])
  {
    assert TableOk(dicts[d]);
    PutDictOk(dicts, d, r);
  }

  lemma RetainKeeps(s: State, d: Ptr, a: Arena, xd: multiset<Ptr>, xa: multiset<Arena>)
    requires Inv(s, xd, xa + multiset{a}) && d in s.dicts
    ensures Inv(Retain(s, d, a), xd, xa)
    ensures Pinned(Retain(s, d, a).dicts, d, a)
  {
    hide Count, Inv;
    if a in s.dicts[d].retained {
      DropArcKeeps(s, a, xd, xa);
    } else {
      PinKeeps(s, d, a, xd, xa);
    }
  }

  lemma PinKeeps(s: State, d: Ptr, a: Arena, xd: multiset<Ptr>, xa: multiset<Arena>)
    requires Inv(s, xd, xa + multiset{a}) && d in s.dicts && a !in s.dicts[d].retained
    ensures Inv(Retain(s, d, a), xd, xa)
  {
    hide Count, NoDup, HomesOk, RefsExact, ArcsExact, Tables, Chained;
    var r := s.dicts[d];
    var s' := Retain(s, d, a);
    var r' := s'.dicts[d];
    NoDupPush(r.retained, a);
    KeepsTable(s.dicts, d, r');
    PutDictSums(s, d, r');
    assert DictHolds(r') == DictHolds(r) + multiset{a};
    RefsPositive(s, d, xd);
    RefsAdjust(s, s', d, 0, xd, xd);
    ArcsMove(s, s', xa + multiset{a}, xa);
  }

  /** Storing a thread record: what it replaces comes into the hand. */
  lemma PutThreadKeeps(s: State, t: Tid, r: Thread, xd: multiset<Ptr>, xa: multiset<Arena>,
                       yd: multiset<Ptr>, ya: multiset<Arena>)
    requires Inv(s, xd, xa)
    requires xd + (if t in s.threads then ThreadStakes(s.threads[t]) else multiset{}) == yd + ThreadStakes(r)
    requires xa + (if t in s.threads then ThreadHolds(s.threads[t]) else multiset{}) == ya + ThreadHolds(r)
    ensures Inv(s.(threads := s.threads[t := r]), yd, ya)
  {
    hide Count, DictsOk, HomesOk, RefsExact, ArcsExact;
    var s' := s.(threads := s.threads[t := r]);
    forall p ensures Stakes(s', p) + yd[p] == Stakes(s, p) + xd[p] {
      CountPut(s.threads, t, r, ThreadStakes, p);
      var o := if t in s.threads then ThreadStakes(s.threads[t]) else multiset{};
      assert (xd + o)[p] == (yd + ThreadStakes(r))[p];
    }
    RefsMove(s, s', xd, yd);
    forall a ensures Holds(s', a) + ya[a] == Holds(s, a) + xa[a] {
      CountPut(s.threads, t, r, ThreadHolds, a);
      var o := if t in s.threads then ThreadHolds(s.threads[t]) else multiset{};
      assert (xa + o)[a] == (ya + ThreadHolds(r))[a];
    }
    ArcsMove(s, s', xa, ya);
  }

  lemma RemoveThreadKeeps(s: State, t: Tid, xd: multiset<Ptr>, xa: multiset<Arena>)
    requires Inv(s, xd, xa) && t in s.threads
    ensures Inv(s.(threads := s.threads - {t}), xd + ThreadStakes(s.threads[t]), xa + ThreadHolds(s.threads[t]))
  {
    hide Count, DictsOk, HomesOk, RefsExact, ArcsExact;
    var s' := s.(threads := s.threads - {t});
    forall p ensures Stakes(s', p) + ThreadStakes(s.threads[t])[p] == Stakes(s, p) {
      CountSplit(s.threads, t, ThreadStakes, p);
    }
    RefsMove(s, s', xd, xd + ThreadStakes(s.threads[t]));
    forall a ensures Holds(s', a) + ThreadHolds(s.threads[t])[a] == Holds(s, a) {
      CountSplit(s.threads, t, ThreadHolds, a);
    }
    ArcsMove(s, s', xa, xa + ThreadHolds(s.threads[t]));
  }

  lemma PutDocKeeps(s: State, k: DocId, r: Doc, xd: multiset<Ptr>, xa: multiset<Arena>,
                    yd: multiset<Ptr>, ya: multiset<Arena>)
    requires Inv(s, xd, xa) && r.nodes <= s.home.Keys
    requires xd + (if k in s.docs then DocStakes(s.docs[k]) else multiset{}) == yd + DocStakes(r)
    requires xa + (if k in s.docs then DocHolds(s.docs[k]) else multiset{}) == ya + DocHolds(r)
    ensures Inv(s.(docs := s.docs[k := r]), yd, ya)
  {
    hide Count, DictsOk, RefsExact, ArcsExact;
    var s' := s.(docs := s.docs[k := r]);
    forall p ensures Stakes(s', p) + yd[p] == Stakes(s, p) + xd[p] {
      CountPut(s.docs, k, r, DocStakes, p);
      var o := if k in s.docs then DocStakes(s.docs[k]) else multiset{};
      assert (xd + o)[p] == (yd + DocStakes(r))[p];
    }
    RefsMove(s, s', xd, yd);
    forall a ensures Holds(s', a) + ya[a] == Holds(s, a) + xa[a] {
      CountPut(s.docs, k, r, DocHolds, a);
      var o := if k in s.docs then DocHolds(s.docs[k]) else multiset{};
      assert (xa + o)[a] == (ya + DocHolds(r))[a];
    }
    ArcsMove(s, s', xa, ya);
  }

  lemma RemoveDocKeeps(s: State, k: DocId, xd: multiset<Ptr>, xa: multiset<Arena>)
    requires Inv(s, xd, xa) && k in s.docs
    ensures Inv(s.(docs := s.docs - {k}), xd + DocStakes(s.docs[k]), xa + DocHolds(s.docs[k]))
  {
    hide Count, DictsOk, RefsExact, ArcsExact;
    var s' := s.(docs := s.docs - {k});
    forall p ensures Stakes(s', p) + DocStakes(s.docs[k])[p] == Stakes(s, p) {
      CountSplit(s.docs, k, DocStakes, p);
    }
    RefsMove(s, s', xd, xd + DocStakes(s.docs[k]));
    forall a ensures Holds(s', a) + DocHolds(s.docs[k])[a] == Holds(s, a) {
      CountSplit(s.docs, k, DocHolds, a);
    }
    ArcsMove(s, s', xa, xa + DocHolds(s.docs[k]));
  }

  lemma InternKeeps(s: State, d: Ptr, bytes: Bytes, addr: Ptr, xd: multiset<Ptr>, xa: multiset<Arena>)
    requires Inv(s, xd, xa) && d in s.dicts
    requires addr != NULL && forall e :: e in s.dicts ==> addr !in s.dicts[e].owned
    ensures Inv(Intern(s, d, bytes, addr), xd, xa)
  {
    hide Count, HomesOk, RefsExact, ArcsExact;
    var r := s.dicts[d];
    if InternFind(s, d, bytes) == NULL {
      assert TableOk(r) && NoDup(r.retained);
      forall x | x in r.table ensures r.table[x] != NULL { assert r.table[x] in r.owned; }
      var r' := r.(table := r.table[bytes := addr], owned := r.owned + {addr});
      var s' := Intern(s, d, bytes, addr);
      TableGrows(r, bytes, addr);
      PutDictOk(s.dicts, d, r');
      hide DictsOk;
      PutDictSums(s, d, r');
      RefsAdjust(s, s', d, 0, xd, xd) by { RefsPositive(s, d, xd); }
      ArcsMove(s, s', xa, xa);
    }
  }

  lemma TableGrows(r: Dict, bytes: Bytes, addr: Ptr)
    requires TableOk(r) && bytes !in r.table && addr != NULL && addr !in r.owned
    ensures TableOk(r.(table := r.table[bytes := addr], owned := r.owned + {addr}))
  {
    var table := r.table[bytes := addr];
    forall p | p in r.table.Values + {addr} ensures p in table.Values {
      if p == addr {
        assert table[bytes] == p;
      } else {
        var x :| x in r.table && r.table[x] == p;
        assert table[x] == p;
      }
    }
    assert table.Values == r.owned + {addr};
    forall x, y | x in table && y in table && table[x] == table[y] ensures x == y {
      if x != bytes { assert r.table[x] in r.owned; }
      if y != bytes { assert r.table[y] in r.owned; }
    }
  }

  function NewDepth(s: State, parent: Ptr): nat { if parent == NULL then 0 else Depth(s, parent) + 1 }

  /** A new dictionary at count 1, its reference in the caller's hand; a parent
      reference, if any, moves from the hand into the new record. */
  lemma NewDictKeeps(s: State, addr: Ptr, parent: Ptr, xd: multiset<Ptr>, xa: multiset<Arena>)
    requires addr != NULL && addr !in s.dicts
    requires Inv(s, xd + One(parent), xa)
    ensures Inv(s.(dicts := s.dicts[addr := Dict(1, parent, NewDepth(s, parent), map[], {}, [])]),
                xd + multiset{addr}, xa)
  {
    hide Count, HomesOk, ArcsExact, DictsOk;
    var r := Dict(1, parent, NewDepth(s, parent), map[], {}, []);
    var s' := s.(dicts := s.dicts[addr := r]);
    forall p ensures Stakes(s', p) == Stakes(s, p) + One(parent)[p] {
      CountPut(s.dicts, addr, r, ParentStake, p);
    }
    forall a ensures Holds(s', a) == Holds(s, a) {
      CountPut(s.dicts, addr, r, DictHolds, a);
    }
    ArcsMove(s, s', xa, xa);
    hide Stakes, Holds;
    NewDictRefs(s, s', addr, parent, xd);
    hide RefsExact;
    NewDictOk(s.dicts, addr, r);
  }

  lemma NewDictRefs(s: State, s': State, addr: Ptr, parent: Ptr, xd: multiset<Ptr>)
    requires addr != NULL && addr !in s.dicts && RefsExact(s, xd + One(parent))
    requires s'.dicts.Keys == s.dicts.Keys + {addr} && s'.dicts[addr].refs == 1
    requires forall e :: e in s.dicts ==> s'.dicts[e].refs == s.dicts[e].refs
    requires forall p :: Stakes(s', p) == Stakes(s, p) + One(parent)[p]
    ensures RefsExact(s', xd + multiset{addr})
    ensures parent != NULL ==> parent in s.dicts
  {
    hide Stakes;
    assert forall p :: (xd + One(parent))[p] == xd[p] + One(parent)[p];
    assert forall p :: (xd + multiset{addr})[p] == xd[p] + (if p == addr then 1 else 0);
    assert Stakes(s, addr) + (xd + One(parent))[addr] == 0;
    if parent != NULL { assert Stakes(s, parent) + (xd + One(parent))[parent] > 0; }
  }

  lemma NewDictOk(dicts: map<Ptr, Dict>, addr: Ptr, r: Dict)
    requires DictsOk(dicts) && addr !in dicts
    requires r.table == map[] && r.owned == {} && r.retained == []
    requires LinkOk(dicts, r)
    ensures DictsOk(dicts[addr := r])
  {
    assert r.table.Values == {};
    forall e | e in dicts ensures LinkOk(dicts[addr := r], dicts[e]) {
      assert LinkOk(dicts, dicts[e]);
    }
    forall e | e in dicts ensures TableOk(dicts[e]) && NoDup(dicts[e].retained) {}
    hide TableOk, NoDup;
  }
}
