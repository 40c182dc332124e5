/** Interning is canonical on a root dictionary over any history, and exactly when
    it is so on a sub-dictionary (crates/tree/src/dict.rs:184-196, 256-339;
    crates/compat/src/dict.rs:200-220, 243-343). */
module Interning {
  import opened Basics
  import opened CompatState
  import opened CompatCounts
  import opened CompatSteps
  import opened Lifetime
  import opened Grafts

  ghost predicate Root(s: State, d: Ptr) {
    d in s.dicts && s.dicts[d].parent == NULL && NULL !in s.dicts && TableOk(s.dicts[d])
  }

  /** On a root dictionary a lookup never answers differently from an intern. */
  lemma RootFind(s: State, d: Ptr, bytes: Bytes)
    requires Root(s, d)
    ensures InternFind(s, d, bytes) == LookupFind(s, d, bytes) == OwnFind(s, d, bytes)
    ensures OwnFind(s, d, bytes) != NULL <==> bytes in s.dicts[d].table
  {
    forall x | x in s.dicts[d].table ensures s.dicts[d].table[x] != NULL {
      assert s.dicts[d].table[x] in s.dicts[d].owned;
    }
  }

  /** What interning on a root does: a known name changes nothing; a new one is
      stored at the fresh address, so the size grows by exactly one. */
  lemma RootIntern(s: State, d: Ptr, bytes: Bytes, addr: Ptr)
    requires Root(s, d) && addr != NULL
    ensures LookupFind(s, d, bytes) != NULL ==>
      Intern(s, d, bytes, addr) == s && InternPtr(s, d, bytes, addr) == LookupFind(s, d, bytes)
    ensures LookupFind(s, d, bytes) == NULL ==>
      && InternPtr(s, d, bytes, addr) == addr
      && Intern(s, d, bytes, addr).dicts[d].table == s.dicts[d].table[bytes := addr]
      && |Intern(s, d, bytes, addr).dicts[d].table| == |s.dicts[d].table| + 1
  {
    RootFind(s, d, bytes);
    hide ChainFind, TableOk;
    if LookupFind(s, d, bytes) == NULL {
      assert s.dicts[d].table[bytes := addr].Keys == s.dicts[d].table.Keys + {bytes};
    }
  }

  /** Chain searches read nothing but the dictionaries. */
  lemma SameFinds(s: State, s': State, d: Ptr, bytes: Bytes)
    requires s'.dicts == s.dicts
    ensures InternFind(s', d, bytes) == InternFind(s, d, bytes)
  {
    ChainReadsTables(s, s', Up(s, d), bytes);
  }

  lemma RetainFinds(s: State, d: Ptr, a: Arena, bytes: Bytes)
    requires d in s.dicts
    ensures InternFind(Retain(s, d, a), d, bytes) == InternFind(s, d, bytes)
  {
    hide DropArc;
    ChainReadsTables(s, Retain(s, d, a), Up(s, d), bytes);
  }

  lemma {:induction false} ChainReadsTables(s: State, s': State, d: Ptr, bytes: Bytes)
    requires s'.dicts.Keys == s.dicts.Keys
    requires forall e :: e in s.dicts ==>
      s'.dicts[e].table == s.dicts[e].table && s'.dicts[e].parent == s.dicts[e].parent && s'.dicts[e].depth == s.dicts[e].depth
    ensures ChainFind(s', d, bytes) == ChainFind(s, d, bytes)
    decreases Depth(s, d)
  {
    if Up(s, d) in s.dicts && Depth(s, Up(s, d)) < Depth(s, d) { ChainReadsTables(s, s', Up(s, d), bytes); }
  }

  // ── over any history ──────────────────────────────────────────────────────

  ghost predicate LiveBetween(r: Run, m: nat, n: nat, d: Ptr)
    requires Valid(r)
  {
    m <= n < |r.states| && forall x :: m <= x <= n ==> d in r.states[x].dicts
  }

  /** Whatever a dictionary has stored it still stores, at the same place in the
      chain, as long as it lives. */
  lemma {:induction false} DictGrows(r: Run, m: nat, n: nat, d: Ptr)
    requires Valid(r) && LiveBetween(r, m, n, d)
    ensures Grows(r.states[m].dicts[d], r.states[n].dicts[d])
    decreases n - m
  {
    hide Step, Inv, Enabled, Grows;
    if m == n {
      GrowsRefl(r.states[m].dicts[d]);
    } else {
      RunSound(r, m);
      assert Enabled(r.states[m], r.events[m]);
      StepPins(r.states[m], r.events[m]);
      DictGrows(r, m + 1, n, d);
      GrowsTrans(r.states[m].dicts[d], r.states[m + 1].dicts[d], r.states[n].dicts[d]);
    }
  }

  lemma ReachableShape(r: Run, m: nat, d: Ptr)
    requires Valid(r) && m < |r.states| && d in r.states[m].dicts
    ensures Chained(r.states[m].dicts) && Tables(r.states[m].dicts) && NULL !in r.states[m].dicts
  {
    hide Step, Stakes, Holds, Chained, Tables, HomesOk, ArcsExact, Enabled;
    RunSound(r, m);
  }

  /** Canonical over any history: once a root dictionary knows a name, interning and
      looking up give one pointer that never changes while the dictionary lives,
      and two names share a pointer only if they are equal. */
  lemma RootCanonical(r: Run, m: nat, n: nat, d: Ptr, x: Bytes, y: Bytes)
    requires Valid(r) && LiveBetween(r, m, n, d) && r.states[m].dicts[d].parent == NULL
    requires x in r.states[m].dicts[d].table && y in r.states[n].dicts[d].table
    ensures var then_, now := r.states[m], r.states[n];
      && InternFind(now, d, x) == LookupFind(now, d, x) == InternFind(then_, d, x) != NULL
      && (InternFind(now, d, x) == InternFind(now, d, y) <==> x == y)
  {
    hide Step, Inv, Enabled;
    ReachableShape(r, m, d);
    ReachableShape(r, n, d);
    DictGrows(r, m, n, d);
    var then_, now := r.states[m], r.states[n];
    assert TableOk(now.dicts[d]) && TableOk(then_.dicts[d]);
    RootFind(then_, d, x);
    RootFind(now, d, x);
    RootFind(now, d, y);
  }

  // ── sub-dictionaries ──────────────────────────────────────────────────────

  /** `e` is on or above the level of `d` and stores what the chain of `d` answers. */
  ghost predicate StoredBy(s: State, e: Ptr, d: Ptr, bytes: Bytes) {
    && e in s.dicts && Depth(s, e) <= Depth(s, d)
    && bytes in s.dicts[e].table && s.dicts[e].table[bytes] == ChainFind(s, d, bytes)
    && ChainFind(s, d, bytes) in s.dicts[e].owned
  }

  /** Whatever a chain answers is a live canonical buffer of some dictionary on it,
      stored under exactly these bytes. */
  lemma {:induction false} ChainFindOwned(s: State, d: Ptr, bytes: Bytes)
    requires Tables(s.dicts)
    ensures ChainFind(s, d, bytes) != NULL ==> exists e :: StoredBy(s, e, d, bytes)
    decreases Depth(s, d)
  {
    if d in s.dicts {
      if bytes in s.dicts[d].table {
        assert TableOk(s.dicts[d]) && s.dicts[d].table[bytes] in s.dicts[d].owned;
        assert StoredBy(s, d, d, bytes);
      } else if Up(s, d) in s.dicts && Depth(s, Up(s, d)) < Depth(s, d) {
        ChainFindOwned(s, Up(s, d), bytes);
        if ChainFind(s, d, bytes) != NULL {
          var e :| StoredBy(s, e, Up(s, d), bytes);
          assert StoredBy(s, e, d, bytes);
        }
      }
    }
  }

  /** Interning searches ancestors first and looking up searches the own table
      first, so the two agree exactly when the name is not known on both sides. */
  lemma FindsAgreeExactly(s: State, d: Ptr, bytes: Bytes)
    requires d in s.dicts && Chained(s.dicts) && Tables(s.dicts) && NULL !in s.dicts
    ensures InternFind(s, d, bytes) == LookupFind(s, d, bytes)
       <==> !(bytes in s.dicts[d].table && ChainFind(s, Up(s, d), bytes) != NULL)
  {
    assert TableOk(s.dicts[d]);
    if bytes in s.dicts[d].table {
      var own := s.dicts[d].table[bytes];
      assert own in s.dicts[d].owned;
      var up := ChainFind(s, Up(s, d), bytes);
      if up != NULL {
        ChainFindOwned(s, Up(s, d), bytes);
        UpShallower(s, d);
        var e :| StoredBy(s, e, Up(s, d), bytes);
        assert e != d;
      }
    }
  }

  lemma UpShallower(s: State, d: Ptr)
    requires d in s.dicts && Chained(s.dicts) && NULL !in s.dicts && Up(s, d) in s.dicts
    ensures Depth(s, Up(s, d)) < Depth(s, d)
  {
    assert LinkOk(s.dicts, s.dicts[d]);
  }

  /** A name the ancestors already know: the sub-dictionary hands out the ancestor's
      pointer, stores nothing, and both kinds of search agree. */
  lemma AncestorAnswers(s: State, d: Ptr, bytes: Bytes, addr: Ptr)
    requires d in s.dicts && bytes !in s.dicts[d].table && ChainFind(s, Up(s, d), bytes) != NULL
    ensures InternPtr(s, d, bytes, addr) == ChainFind(s, Up(s, d), bytes) == LookupFind(s, d, bytes)
    ensures Intern(s, d, bytes, addr) == s
  {
  }

  /** When the pointer a sub-dictionary has handed out stays the one it hands out: a
      name first interned in the child keeps its pointer, while the child lives,
      exactly until an ancestor comes to know the name too; looking it up always
      gives the first pointer. */
  lemma ChildPointerStableExactly(r: Run, m: nat, n: nat, d: Ptr, bytes: Bytes)
    requires Valid(r) && LiveBetween(r, m, n, d)
    requires bytes in r.states[m].dicts[d].table && ChainFind(r.states[m], Up(r.states[m], d), bytes) == NULL
    ensures InternFind(r.states[n], d, bytes) == InternFind(r.states[m], d, bytes)
       <==> ChainFind(r.states[n], Up(r.states[n], d), bytes) == NULL
    ensures LookupFind(r.states[n], d, bytes) == InternFind(r.states[m], d, bytes)
  {
    hide Step, Inv, Enabled;
    ReachableShape(r, m, d);
    ReachableShape(r, n, d);
    DictGrows(r, m, n, d);
    FindsAgreeExactly(r.states[n], d, bytes);
    var s' := r.states[n];
    assert TableOk(s'.dicts[d]) && s'.dicts[d].table[bytes] in s'.dicts[d].owned;
  }

  const V: Bytes := [118]

  /** A child dictionary interns a name first, then its parent does. */
  const MOVING: seq<Event> := [DictCreate(1), DictCreateSub(1, 2), DictQLookup(2, [], V, 51), DictQLookup(1, [], V, 52)]

  function Child(table: map<Bytes, Ptr>, owned: set<Ptr>): Dict { Dict(1, 1, 1, table, owned, []) }

  function M1(): State { Initial.(dicts := map[1 := Dict(1, NULL, 0, map[], {}, [])], handles := multiset{1}) }
  function M2(): State {
    Initial.(dicts := map[1 := Dict(2, NULL, 0, map[], {}, []), 2 := Child(map[], {})], handles := multiset{1, 2})
  }
  function M3(): State { M2().(dicts := M2().dicts[2 := Child(map[V := 51], {51})]) }
  function M4(): State { M3().(dicts := M3().dicts[1 := Dict(2, NULL, 0, map[V := 52], {52}, [])]) }

  function MovingRun(): Run { Run([Initial, M1(), M2(), M3(), M4()], MOVING) }

  lemma Creates()
    ensures Enabled(Initial, MOVING[0]) && Step(Initial, MOVING[0]) == M1()
    ensures Enabled(M1(), MOVING[1]) && Step(M1(), MOVING[1]) == M2()
  {
    assert multiset{} + multiset{1 as Ptr} == multiset{1};
    assert multiset{1 as Ptr} + multiset{2 as Ptr} == multiset{1, 2};
    assert Step(Initial, MOVING[0]).dicts == M1().dicts;
    assert Step(M1(), MOVING[1]).dicts == M2().dicts;
  }

  lemma ChildInterns()
    ensures Enabled(M2(), MOVING[2]) && Step(M2(), MOVING[2]) == M3() && InternPtr(M2(), 2, V, 51) == 51
  {
    assert {} + {51 as Ptr} == {51};
    assert Up(M2(), 2) == 1 && InternFind(M2(), 2, V) == NULL;
  }

  lemma ParentInterns()
    ensures Enabled(M3(), MOVING[3]) && Step(M3(), MOVING[3]) == M4()
  {
    assert {} + {52 as Ptr} == {52};
    assert InternFind(M3(), 1, V) == NULL;
  }

  lemma ChildLives() ensures 2 in M3().dicts && 2 in M4().dicts {}

  lemma MovingValid()
    ensures Valid(MovingRun()) && LiveBetween(MovingRun(), 3, 4, 2)
  {
    hide Step, Enabled, M1, M2, M3, M4;
    Creates();
    ChildInterns();
    ParentInterns();
    ChildLives();
  }

  lemma FoundAfter()
    ensures InternFind(M3(), 2, V) == 51 && InternFind(M4(), 2, V) == 52 && LookupFind(M4(), 2, V) == 51
  {
    assert Up(M3(), 2) == 1 && Up(M4(), 2) == 1;
    assert ChainFind(M3(), 1, V) == NULL && ChainFind(M4(), 1, V) == 52;
  }

  /** A whole run after whose third call the child interns the name to its own buffer,
      and after whose fourth to its parent's, while looking it up still gives the first. */
  lemma ChildPointerMoves()
    ensures var r := MovingRun();
      && Valid(r) && LiveBetween(r, 3, 4, 2)
      && InternFind(r.states[3], 2, V) == 51 && InternFind(r.states[4], 2, V) == 52
      && LookupFind(r.states[4], 2, V) == 51
  {
    MovingValid();
    FoundAfter();
    hide Valid, LiveBetween, InternFind, LookupFind, M1, M2, M3, M4;
  }
}
