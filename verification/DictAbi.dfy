/** The dictionary calls themselves, updating the process-wide tables in place
    (crates/compat/src/dict.rs, crates/tree/src/dict.rs).  Each is proved to take
    the state exactly where the corresponding step of CompatSteps takes it, and
    never to touch a dictionary or an arena that has been freed. */
module DictAbi {
  import opened Basics
  import opened CompatState
  import opened CompatCounts
  import opened CompatSteps
  import opened Lifetime
  import opened Interning

  class Process {
    var dicts: map<Ptr, Dict>
    var threads: map<Tid, Thread>
    var docs: map<DocId, Doc>
    ghost var handles: multiset<Ptr>
    var arcs: map<Arena, int>
    var nextArena: Arena
    var home: map<Node, Arena>

    ghost function Value(): State
      reads this
    {
      State(dicts, threads, docs, handles, arcs, nextArena, home, false)
    }

    constructor ()
      ensures Value() == Initial && Sound(Value())
    {
      dicts, threads, docs, handles, arcs, nextArena, home := map[], map[], map[], multiset{}, map[], 0, map[];
      new;
      InitialSound();
    }

    // ── Arc<Bump> ───────────────────────────────────────────────────────────

    /** Dropping a clone the caller holds; the last drop frees the arena. */
    method DropClone(a: Arena, ghost xd: multiset<Ptr>, ghost xa: multiset<Arena>)
      requires Inv(Value(), xd, xa + multiset{a})
      modifies this`arcs
      ensures Value() == DropArc(old(Value()), a) && Inv(Value(), xd, xa)
    {
      hide Inv;
      HeldInHand(Value(), a, xd, xa);
      DropArcKeeps(Value(), a, xd, xa);
      if arcs[a] == 1 {
        arcs := arcs - {a};
      } else {
        arcs := arcs[a := arcs[a] - 1];
      }
    }

    method DropClones(arenas: seq<Arena>, ghost xd: multiset<Ptr>, ghost xa: multiset<Arena>)
      requires Inv(Value(), xd, xa + multiset(arenas))
      modifies this`arcs
      ensures Value() == DropAll(old(Value()), arenas) && Inv(Value(), xd, xa)
    {
      hide Inv, DropArc;
      var i := 0;
      assert arenas[0..] == arenas;
      while i < |arenas|
        invariant i <= |arenas|
        invariant Inv(Value(), xd, xa + multiset(arenas[i..]))
        invariant DropAll(Value(), arenas[i..]) == DropAll(old(Value()), arenas)
      {
        assert arenas[i..] == [arenas[i]] + arenas[i + 1..];
        assert xa + multiset(arenas[i..]) == xa + multiset(arenas[i + 1..]) + multiset{arenas[i]};
        assert arenas[i..][1..] == arenas[i + 1..];
        DropClone(arenas[i], xd, xa + multiset(arenas[i + 1..]));
        i := i + 1;
      }
      assert xa + multiset(arenas[i..]) == xa;
    }

    // ── Dict ────────────────────────────────────────────────────────────────

    method AddReference(d: Ptr)
      requires d in dicts
      modifies this`dicts
      ensures Value() == AddRef(old(Value()), d)
    {
      dicts := dicts[d := dicts[d].(refs := dicts[d].refs + 1)];
    }

    /** `Dict::release` of a reference the caller holds; true if it freed. */
    method ReleaseReference(d: Ptr, ghost xd: multiset<Ptr>, ghost xa: multiset<Arena>) returns (freed: bool)
      requires Inv(Value(), xd + multiset{d}, xa)
      modifies this`dicts, this`arcs
      ensures Value() == Release(old(Value()), d) && Inv(Value(), xd, xa)
      ensures freed <==> old(dicts[d].refs) == 1
      ensures freed <==> d !in dicts
      decreases |dicts|
    {
      hide Inv;
      ghost var s := Value();
      InHand(s, d, xd, xa);
      ReleaseKeeps(s, d, xd, xa);
      var prev := dicts[d].refs;
      if prev != 1 {
        dicts := dicts[d := dicts[d].(refs := prev - 1)];
        return false;
      }
      var parent, retained := dicts[d].parent, dicts[d].retained;
      FreeDictKeeps(s, d, xd, xa);
      dicts := dicts - {d};
      DropClones(retained, xd + One(parent), xa);
      if parent != NULL {
        ghost var s1 := Value();
        var up := ReleaseReference(parent, xd, xa);
        ReleaseDomain(s1, parent);
      }
      freed := true;
    }

    /** `retain_arena`: the clone is pinned, or dropped if already pinned. */
    method RetainArena(d: Ptr, a: Arena, ghost xd: multiset<Ptr>, ghost xa: multiset<Arena>)
      requires Inv(Value(), xd, xa + multiset{a}) && d in dicts
      modifies this`dicts, this`arcs
      ensures Value() == Retain(old(Value()), d, a) && Inv(Value(), xd, xa)
    {
      RetainKeeps(Value(), d, a, xd, xa);
      if a in dicts[d].retained {
        DropClone(a, xd, xa);
      } else {
        dicts := dicts[d := dicts[d].(retained := dicts[d].retained + [a])];
      }
    }

    /** `ancestor_lookup`: the parent chain only, nearest first. */
    method AncestorLookup(d: Ptr, bytes: Bytes) returns (p: Ptr)
      requires Walkable(Value()) && d in dicts
      ensures p == ChainFind(Value(), Up(Value(), d), bytes)
    {
      var cur := dicts[d].parent;
      UpIsParent(Value(), d);
      while cur != NULL
        invariant cur == NULL || cur in dicts
        invariant ChainFind(Value(), cur, bytes) == ChainFind(Value(), Up(Value(), d), bytes)
        decreases if cur == NULL then 0 else Depth(Value(), cur) + 1
      {
        if bytes in dicts[cur].table { return dicts[cur].table[bytes]; }
        UpIsParent(Value(), cur);
        cur := dicts[cur].parent;
      }
      p := NULL;
    }

    /** `intern`: ancestors first, then the own table, then a new buffer at `addr`. */
    method InternBytes(d: Ptr, bytes: Bytes, addr: Ptr) returns (p: Ptr)
      requires Walkable(Value()) && d in dicts && FreshString(Value(), addr)
      modifies this`dicts
      ensures Value() == Intern(old(Value()), d, bytes, addr)
      ensures p == InternPtr(old(Value()), d, bytes, addr)
    {
      var up := AncestorLookup(d, bytes);
      if up != NULL { return up; }
      if bytes in dicts[d].table {
        KnownNotNull(dicts[d], bytes);
        return dicts[d].table[bytes];
      }
      var r := dicts[d];
      dicts := dicts[d := r.(table := r.table[bytes := addr], owned := r.owned + {addr})];
      p := addr;
    }

    /** `lookup`: the own table first, then the ancestors; nothing is stored. */
    method LookupBytes(d: Ptr, bytes: Bytes) returns (p: Ptr)
      requires Walkable(Value()) && d in dicts
      ensures p == LookupFind(Value(), d, bytes)
    {
      if bytes in dicts[d].table {
        KnownNotNull(dicts[d], bytes);
        p := dicts[d].table[bytes];
      } else {
        p := AncestorLookup(d, bytes);
      }
    }

    /** `owns`: walks the whole chain. */
    method OwnsPointer(d: Ptr, p: Ptr) returns (b: bool)
      requires Walkable(Value()) && d in dicts
      ensures b == ChainOwns(Value(), d, p)
    {
      if p in dicts[d].owned { return true; }
      UpIsParent(Value(), d);
      var cur := dicts[d].parent;
      while cur != NULL
        invariant cur == NULL || cur in dicts
        invariant ChainOwns(Value(), d, p) == ChainOwns(Value(), cur, p)
        decreases if cur == NULL then 0 else Depth(Value(), cur) + 1
      {
        if p in dicts[cur].owned { return true; }
        UpIsParent(Value(), cur);
        cur := dicts[cur].parent;
      }
      b := false;
    }

    // ── thread-locals ───────────────────────────────────────────────────────

    /** `thread_dict`: the same dictionary on every call of one thread. */
    method SharedDict(t: Tid, addr: Ptr) returns (d: Ptr)
      requires t in threads && FreshDict(Value(), addr)
      modifies this`dicts, this`threads
      ensures Value() == ThreadDict(old(Value()), t, addr) && d == threads[t].dict != NULL
      ensures old(threads[t].dict) != NULL ==> d == old(threads[t].dict)
    {
      if threads[t].dict != NULL { return threads[t].dict; }
      dicts := dicts[addr := Dict(1, NULL, 0, map[], {}, [])];
      threads := threads[t := threads[t].(dict := addr)];
      d := addr;
    }

    /** `new_doc_arena`: the caller's clone and the keep-alive's. */
    method NewDocArena(t: Tid) returns (a: Arena)
      requires t in threads
      modifies this`arcs, this`nextArena, this`threads
      ensures Value() == NewArena(old(Value()), t) && a == old(nextArena)
    {
      a := nextArena;
      arcs := arcs[a := 1];
      nextArena := nextArena + 1;
      arcs := arcs[a := arcs[a] + 1];
      threads := threads[t := threads[t].(keepAlive := threads[t].keepAlive + [a])];
      assert arcs == old(arcs)[a := 2];
    }

    /** `stash_graft_source_arena`: only the most recent unlink stays pending. */
    method StashGraftSource(t: Tid, a: Arena)
      requires Sound(Value()) && t in threads && a in arcs
      modifies this`arcs, this`threads
      ensures Value() == Stash(old(Value()), t, a) && Sound(Value())
    {
      hide Inv;
      ghost var s := Value();
      StashSound(s, t, a);
      CloneArcKeeps(s, a, multiset{}, multiset{});
      arcs := arcs[a := arcs[a] + 1];
      var previous := threads[t].graft;
      ghost var r := threads[t];
      threads := threads[t := threads[t].(graft := Some(a))];
      assert multiset{} + multiset{a} + ThreadHolds(r) == Opt(r.graft) + ThreadHolds(threads[t]);
      PutThreadKeeps(CloneArc(s, a), t, threads[t], multiset{}, multiset{} + multiset{a}, multiset{}, Opt(r.graft));
      if previous.Some? {
        assert Opt(r.graft) == multiset{} + multiset{previous.value};
        DropClone(previous.value, multiset{}, multiset{});
      }
    }

    // ── xmlDict* ────────────────────────────────────────────────────────────

    method XmlDictCreate(addr: Ptr) returns (d: Ptr)
      requires Sound(Value()) && Enabled(Value(), DictCreate(addr))
      modifies this`dicts, this`handles
      ensures Value() == Step(old(Value()), DictCreate(addr)) && Sound(Value()) && d == addr
    {
      StepSound(Value(), DictCreate(addr));
      dicts := dicts[addr := Dict(1, NULL, 0, map[], {}, [])];
      handles := handles + multiset{addr};
      d := addr;
    }

    method XmlDictCreateSub(parent: Ptr, addr: Ptr) returns (d: Ptr)
      requires Sound(Value()) && Enabled(Value(), DictCreateSub(parent, addr))
      modifies this`dicts, this`handles
      ensures Value() == Step(old(Value()), DictCreateSub(parent, addr)) && Sound(Value()) && d == addr
    {
      hide Inv, Lookup, Exit, OpenDoc, CloseDoc, Swap, PinGraft, Stash, Intern, Release, ChainOwns, ChainFind;
      StepSound(Value(), DictCreateSub(parent, addr));
      var depth := if parent == NULL then 0 else dicts[parent].depth + 1;
      if parent != NULL { AddReference(parent); }
      dicts := dicts[addr := Dict(1, parent, depth, map[], {}, [])];
      handles := handles + multiset{addr};
      d := addr;
    }

    method XmlDictReference(d: Ptr) returns (rc: int)
      requires Sound(Value()) && Enabled(Value(), DictReference(d))
      modifies this`dicts, this`handles
      ensures Value() == Step(old(Value()), DictReference(d)) && Sound(Value())
      ensures rc == if d == NULL then -1 else 0
    {
      if d == NULL { return -1; }
      StepSound(Value(), DictReference(d));
      AddReference(d);
      handles := handles + multiset{d};
      rc := 0;
    }

    method XmlDictFree(d: Ptr)
      requires Sound(Value()) && Enabled(Value(), DictFree(d))
      modifies this`dicts, this`arcs, this`handles
      ensures Value() == Step(old(Value()), DictFree(d)) && Sound(Value())
    {
      hide Inv;
      if d == NULL { return; }
      PutHandlesKeeps(Value(), handles - multiset{d}, multiset{}, multiset{} + multiset{d});
      handles := handles - multiset{d};
      var _ := ReleaseReference(d, multiset{}, multiset{});
    }

    /** Both pending slots are consumed whatever they hold. */
    method XmlDictLookup(t: Tid, d: Ptr, name: Ptr, bytes: Bytes, addr: Ptr) returns (p: Ptr)
      requires Sound(Value()) && Enabled(Value(), DictLookup(t, d, name, bytes, addr))
      modifies this`dicts, this`arcs, this`threads
      ensures Value() == Step(old(Value()), DictLookup(t, d, name, bytes, addr)) && Sound(Value())
      ensures p == if d == NULL || name == NULL then NULL else InternPtr(old(Value()), d, bytes, addr)
    {
      hide Inv, ChainFind;
      if d == NULL || name == NULL { return NULL; }
      ghost var s := Value();
      LookupSound(s, t, d, name, bytes, addr);
      var pendingSrc, pendingName := threads[t].pendingSrc, threads[t].pendingName;
      var graft := threads[t].graft;
      ghost var r := threads[t];
      threads := threads[t := threads[t].(pendingSrc := NULL, pendingName := NULL, graft := None)];
      assert multiset{} + ThreadHolds(r) == Opt(graft) + ThreadHolds(threads[t]);
      PutThreadKeeps(s, t, threads[t], multiset{}, multiset{}, multiset{}, Opt(graft));
      ghost var taken := Value();
      SameFinds(s, taken, d, bytes);
      var pinned := false;
      if pendingSrc != NULL && pendingName == name && pendingSrc != d {
        if graft.Some? {
          assert Opt(graft) == multiset{} + multiset{graft.value};
          RetainArena(d, graft.value, multiset{}, multiset{});
          RetainDicts(taken, d, graft.value);
          RetainFinds(taken, d, graft.value, bytes);
          pinned := true;
        }
      }
      InvWalkable(Value(), multiset{}, if pinned then multiset{} else Opt(graft));
      InternKeeps(Value(), d, bytes, addr, multiset{}, if pinned then multiset{} else Opt(graft));
      p := InternBytes(d, bytes, addr);
      if !pinned && graft.Some? {
        assert Opt(graft) == multiset{} + multiset{graft.value};
        DropClone(graft.value, multiset{}, multiset{});
      }
    }

    /** `name` is the pointer whose bytes are `local`; the pending slots stay as they are. */
    method XmlDictQLookup(d: Ptr, prefix: Bytes, name: Ptr, local: Bytes, addr: Ptr) returns (p: Ptr)
      requires Sound(Value()) && Enabled(Value(), DictQLookup(d, prefix, local, addr))
      modifies this`dicts
      ensures Sound(Value()) && (name != NULL ==> Value() == Step(old(Value()), DictQLookup(d, prefix, local, addr)))
      ensures d == NULL || name == NULL ==> p == NULL && Value() == old(Value())
      ensures forall b :: d != NULL && name != NULL && Joins(prefix, local, b) ==>
        Value() == Intern(old(Value()), d, b, addr) && p == InternPtr(old(Value()), d, b, addr)
    {
      hide Inv, ChainFind;
      forall b | Joins(prefix, local, b) ensures b == QName(prefix, local) { QNameJoins(prefix, local, b); }
      if d == NULL || name == NULL { return NULL; }
      StepSound(Value(), DictQLookup(d, prefix, local, addr));
      InvWalkable(Value(), multiset{}, multiset{});
      if prefix == [] {
        p := InternBytes(d, local, addr);
      } else {
        var combined := prefix;
        combined := combined + [58];
        combined := combined + local;
        p := InternBytes(d, combined, addr);
      }
    }

    /** Never stores anything. */
    method XmlDictExists(d: Ptr, name: Ptr, bytes: Bytes) returns (p: Ptr)
      requires Sound(Value()) && (d == NULL || d in dicts)
      ensures p == if d == NULL || name == NULL then NULL else LookupFind(Value(), d, bytes)
    {
      if d == NULL || name == NULL { return NULL; }
      InvWalkable(Value(), multiset{}, multiset{});
      p := LookupBytes(d, bytes);
    }

    method XmlDictSize(d: Ptr) returns (n: nat)
      requires Sound(Value()) && (d == NULL || d in dicts)
      ensures n == if d == NULL then 0 else |dicts[d].owned|
    {
      if d == NULL { return 0; }
      n := |dicts[d].table|;
      InvWalkable(Value(), multiset{}, multiset{});
      assert TableOk(dicts[d]);
      TableSize(dicts[d].table);
    }

    method XmlDictOwns(t: Tid, d: Ptr, p: Ptr) returns (rc: int)
      requires Sound(Value()) && Enabled(Value(), DictOwns(t, d, p))
      modifies this`threads
      ensures Value() == Step(old(Value()), DictOwns(t, d, p)) && Sound(Value())
      ensures rc == if d != NULL && p != NULL && ChainOwns(old(Value()), d, p) then 1 else 0
    {
      hide Inv, ChainOwns;
      StepSound(Value(), DictOwns(t, d, p));
      if d == NULL || p == NULL { return 0; }
      InvWalkable(Value(), multiset{}, multiset{});
      var owned := OwnsPointer(d, p);
      if owned {
        threads := threads[t := threads[t].(pendingSrc := d, pendingName := p)];
        rc := 1;
      } else {
        rc := 0;
      }
    }

    /** The destructors of the thread's slots: keep-alive list, pending arena, and
        last the thread's own reference on its dictionary. */
    method ThreadDrop(t: Tid)
      requires Sound(Value()) && t in threads
      modifies this`threads, this`arcs, this`dicts
      ensures Value() == Step(old(Value()), Event.ThreadExit(t)) && Sound(Value())
    {
      hide Inv;
      var r := threads[t];
      RemoveThreadKeeps(Value(), t, multiset{}, multiset{});
      threads := threads - {t};
      assert multiset{} + ThreadStakes(r) == One(r.dict);
      assert multiset{} + ThreadHolds(r) == multiset{} + Opt(r.graft) + multiset(r.keepAlive);
      DropClones(r.keepAlive, One(r.dict), multiset{} + Opt(r.graft));
      assert r.graft.None? ==> multiset{} + Opt(r.graft) == multiset{};
      if r.graft.Some? {
        DropClone(r.graft.value, One(r.dict), multiset{});
      }
      if r.dict != NULL {
        assert One(r.dict) == multiset{} + multiset{r.dict};
        var _ := ReleaseReference(r.dict, multiset{}, multiset{});
      }
    }
  }

  // ── lemmas ────────────────────────────────────────────────────────────────

  /** What the chain walks rely on. */
  ghost predicate Walkable(s: State) {
    NULL !in s.dicts && Chained(s.dicts) && Tables(s.dicts)
  }

  lemma InvWalkable(s: State, xd: multiset<Ptr>, xa: multiset<Arena>)
    requires Inv(s, xd, xa)
    ensures Walkable(s)
  {
    hide Stakes, Holds, Chained, Tables, HomesOk, ArcsExact;
  }

  lemma HeldInHand(s: State, a: Arena, xd: multiset<Ptr>, xa: multiset<Arena>)
    requires Inv(s, xd, xa + multiset{a})
    ensures a in s.arcs
  {
    hide Stakes, Holds, DictsOk, HomesOk, ArcsExact, RefsExact;
    HeldLive(s, a, xa);
  }

  lemma InHand(s: State, d: Ptr, xd: multiset<Ptr>, xa: multiset<Arena>)
    requires Inv(s, xd + multiset{d}, xa)
    ensures d in s.dicts
  {
    hide Stakes, Holds, DictsOk, HomesOk, ArcsExact, RefsExact;
    InHandLive(s, d, xd);
  }

  lemma UpIsParent(s: State, d: Ptr)
    requires Walkable(s) && d in s.dicts
    ensures Up(s, d) == s.dicts[d].parent
    ensures Up(s, d) != NULL ==> Up(s, d) in s.dicts && Depth(s, Up(s, d)) < Depth(s, d)
  {
    assert LinkOk(s.dicts, s.dicts[d]);
  }

  lemma KnownNotNull(r: Dict, bytes: Bytes)
    requires TableOk(r) && bytes in r.table
    ensures r.table[bytes] != NULL
  {
    assert r.table[bytes] in r.owned;
  }

  lemma {:induction false} ReleaseDomain(s: State, d: Ptr)
    ensures Release(s, d).dicts.Keys <= s.dicts.Keys
    decreases |s.dicts|
  {
    if d in s.dicts && s.dicts[d].refs == 1 && s.dicts[d].parent != NULL {
      var freed := DropAll(s.(dicts := s.dicts - {d}), s.dicts[d].retained);
      ReleaseDomain(freed, s.dicts[d].parent);
      assert Release(s, d) == Release(freed, s.dicts[d].parent);
    }
  }

  /** An injective table has as many pointers as names. */
  lemma {:induction false} TableSize(m: map<Bytes, Ptr>)
    requires forall x, y :: x in m && y in m && m[x] == m[y] ==> x == y
    ensures |m| == |m.Values|
    decreases |m|
  {
    if m != map[] {
      var k :| k in m;
      var rest := m - {k};
      TableSize(rest);
      assert m.Values == rest.Values + {m[k]} by {
        forall p | p in m.Values ensures p in rest.Values + {m[k]} {
          var x :| x in m && m[x] == p;
          if x != k { assert x in rest && rest[x] == p; }
        }
      }
      assert m[k] !in rest.Values;
    }
  }
}
