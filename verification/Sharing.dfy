/** What a chain of dictionaries promises over a whole history: an answer never
    changes while the dictionary lives, so a child goes on giving its parent's
    pointers, and a dictionary owns exactly the pointers handed out on its chain
    (crates/compat/src/dict.rs:10-18, 200-220, 345-365; crates/tree/src/dict.rs:184-335). */
module Sharing {
  import opened Basics
  import opened CompatState
  import opened CompatCounts
  import opened CompatSteps
  import opened Lifetime
  import opened Grafts
  import opened Chains
  import opened Interning

  // ── what one call may add to a table ──────────────────────────────────────

  /** The call interns a name in `d` and answers `p`. */
  predicate HandsOut(s: State, e: Event, d: Ptr, p: Ptr) {
    || (e.DictLookup? && e.d == d && d != NULL && e.name != NULL && InternPtr(s, d, e.bytes, e.addr) == p)
    || (e.DictQLookup? && e.d == d && d != NULL && InternPtr(s, d, QName(e.prefix, e.local), e.addr) == p)
  }

  /** The call interns the name `b` in `d`. */
  predicate Interns(e: Event, d: Ptr, b: Bytes) {
    || (e.DictLookup? && e.d == d && d != NULL && e.name != NULL && e.bytes == b)
    || (e.DictQLookup? && e.d == d && d != NULL && Joins(e.prefix, e.local, b))
  }

  lemma InternsHandsOut(s: State, e: Event, d: Ptr, b: Bytes)
    requires Interns(e, d, b)
    ensures HandsOut(s, e, d, InternPtr(s, d, b, e.addr))
  {
    hide InternFind;
    if e.DictQLookup? { QNameJoins(e.prefix, e.local, b); }
  }

  /** Whatever is new in a table is a name the call interns that was unknown to its
      whole chain, at the address given to the call. */
  ghost predicate Adds(s: State, e: Event, after: Dicts) {
    forall d, b :: d in s.dicts && d in after && b in after[d].table && b !in s.dicts[d].table ==>
      InternFind(s, d, b) == NULL && Interns(e, d, b) && after[d].table[b] == e.addr
  }

  ghost predicate SameTables(before: Dicts, after: Dicts) {
    forall d :: d in before && d in after ==> after[d].table == before[d].table
  }

  /** The tables and the pins. */
  ghost predicate SamePages(before: Dicts, after: Dicts) {
    forall d :: d in before && d in after ==>
      after[d].table == before[d].table && after[d].retained == before[d].retained
  }

  /** A dictionary with nothing in it. */
  predicate Blank(r: Dict, parent: Ptr) { r.parent == parent && r.table == map[] && r.retained == [] }

  lemma ThreadDictPages(s: State, t: Tid, addr: Ptr)
    requires t in s.threads && FreshDict(s, addr)
    ensures SamePages(s.dicts, ThreadDict(s, t, addr).dicts)
    ensures forall d :: d in ThreadDict(s, t, addr).dicts && d !in s.dicts ==>
      s.threads[t].dict == NULL && d == addr && Blank(ThreadDict(s, t, addr).dicts[d], NULL)
  {
  }

  lemma OpenDocPages(s: State, t: Tid, doc: DocId, given: Ptr, addr: Ptr)
    requires Enabled(s, NewDoc(t, doc, given, addr))
    ensures SamePages(s.dicts, OpenDoc(s, t, doc, given, addr).dicts)
    ensures forall d :: d in OpenDoc(s, t, doc, given, addr).dicts && d !in s.dicts ==>
      given == NULL && s.threads[t].dict == NULL && d == addr && Blank(OpenDoc(s, t, doc, given, addr).dicts[d], NULL)
  {
    var s1 := NewArena(s, t);
    SamePagesRefl(s.dicts);
    if given == NULL { ThreadDictPages(s1, t, addr); }
    var s2 := if given == NULL then ThreadDict(s1, t, addr) else s1;
    var d := if given == NULL then s2.threads[t].dict else given;
    hide AddRef, ThreadDict, SamePages, Blank;
    AddRefPages(s2, d);
    AddRefPages(AddRef(s2, d), d);
    PagesTrans(s.dicts, s2.dicts, AddRef(s2, d).dicts);
    PagesTrans(s.dicts, AddRef(s2, d).dicts, AddRef(AddRef(s2, d), d).dicts);
  }

  lemma AddRefPages(s: State, d: Ptr)
    ensures SamePages(s.dicts, AddRef(s, d).dicts)
    ensures forall e, p :: e in s.dicts && Blank(s.dicts[e], p) ==> Blank(AddRef(s, d).dicts[e], p)
  {
  }

  lemma CloseDocPages(s: State, doc: DocId)
    requires doc in s.docs
    ensures SamePages(s.dicts, CloseDoc(s, doc).dicts)
  {
    var s1 := s.(docs := s.docs - {doc});
    ReleaseFewer(s1, s.docs[doc].slot);
    ReleaseFewer(Release(s1, s.docs[doc].slot), s.docs[doc].dict);
    hide Release;
  }

  lemma SwapPages(s: State, doc: DocId, d: Ptr)
    requires doc in s.docs
    ensures SamePages(s.dicts, Swap(s, doc, d).dicts)
  {
    ReleaseFewer(AddRef(s, d).(docs := s.docs[doc := s.docs[doc].(slot := d)]), s.docs[doc].slot);
    hide Release;
  }

  lemma ExitPages(s: State, t: Tid)
    requires t in s.threads
    ensures SamePages(s.dicts, Exit(s, t).dicts)
  {
    var r := s.threads[t];
    ReleaseFewer(DropOpt(DropAll(s.(threads := s.threads - {t}), r.keepAlive), r.graft), r.dict);
    hide Release, DropAll, DropOpt;
  }

  lemma FreePages(s: State, d: Ptr)
    ensures SamePages(s.dicts, Release(s, d).dicts)
  {
    ReleaseFewer(s, d);
    hide Release;
  }

  lemma GraftTables(s: State, src: DocId, dst: DocId)
    requires src in s.docs && dst in s.docs
    ensures SameTables(s.dicts, PinGraft(s, src, dst).dicts)
  {
  }

  lemma MakeDictPages(s: State, addr: Ptr, parent: Ptr)
    requires addr !in s.dicts
    ensures SamePages(s.dicts, MakeDict(s, addr, parent).dicts)
  {
  }

  lemma PagesTrans(x: Dicts, y: Dicts, z: Dicts)
    requires SamePages(x, y) && SamePages(y, z) && x.Keys <= y.Keys
    ensures SamePages(x, z)
  {
  }

  /** Calls on dictionaries alone, interning apart. */
  lemma MakingPages(s: State, e: Event)
    requires Enabled(s, e) && (e.DictCreate? || e.DictCreateSub? || e.DictReference? || e.DictFree?)
    ensures SamePages(s.dicts, Step(s, e).dicts)
  {
    hide Release, AddRef, SamePages, MakeDict;
    SamePagesRefl(s.dicts);
    match e
    case DictCreate(addr) => MakeDictPages(s, addr, NULL);
    case DictCreateSub(parent, addr) =>
      var s1 := if parent == NULL then s else AddRef(s, parent);
      if parent != NULL { AddRefPages(s, parent); }
      MakeDictPages(s1, addr, parent);
      PagesTrans(s.dicts, s1.dicts, MakeDict(s1, addr, parent).dicts);
    case DictReference(d) => AddRefPages(s, d);
    case DictFree(d) => FreePages(s.(handles := s.handles - multiset{d}), d);
  }

  lemma SamePagesRefl(dicts: Dicts)
    ensures SamePages(dicts, dicts)
  {
  }

  /** Calls that neither intern nor graft leave every table and every pin alone. */
  lemma OtherPages(s: State, e: Event)
    requires Enabled(s, e) && !e.DictLookup? && !e.DictQLookup? && !e.Graft?
    ensures SamePages(s.dicts, Step(s, e).dicts)
  {
    SamePagesRefl(s.dicts);
    hide SamePages, ChainOwns, OpenDoc, CloseDoc, Swap, Exit, Stash;
    if e.DictCreate? || e.DictCreateSub? || e.DictReference? || e.DictFree? {
      hide Step;
      MakingPages(s, e);
    } else {
      match e
      case ThreadExit(t) => ExitPages(s, t);
      case NewDoc(t, doc, given, addr) => OpenDocPages(s, t, doc, given, addr);
      case FreeDoc(doc) => CloseDocPages(s, doc);
      case SwapSlot(doc, d) => SwapPages(s, doc, d);
      case _ =>
    }
  }

  /** Calls that intern nothing leave every table alone. */
  lemma OtherTables(s: State, e: Event)
    requires Enabled(s, e) && !e.DictLookup? && !e.DictQLookup?
    ensures SameTables(s.dicts, Step(s, e).dicts)
  {
    hide PinGraft;
    if e.Graft? {
      GraftTables(s, e.src, e.dst);
    } else {
      OtherPages(s, e);
      hide Step;
    }
  }

  /** A call that interns in `d`. */
  lemma InternAdds(s: State, taken: State, d: Ptr, bytes: Bytes, addr: Ptr, e: Event)
    requires d in s.dicts && SameTables(s.dicts, taken.dicts) && taken.dicts.Keys == s.dicts.Keys
    requires InternFind(taken, d, bytes) == InternFind(s, d, bytes)
    requires Interns(e, d, bytes) && e.addr == addr
    ensures Adds(s, e, Intern(taken, d, bytes, addr).dicts)
  {
    hide InternFind, Interns;
  }

  lemma LookupAdds(s: State, e: Event)
    requires Enabled(s, e) && e.DictLookup? && e.d != NULL && e.name != NULL
    ensures Adds(s, e, Lookup(s, e.t, e.d, e.name, e.bytes, e.addr).dicts)
  {
    var taken := s.(threads := Disarmed(s, e.t));
    SameFinds(s, taken, e.d, e.bytes);
    if PinBy(s, e.t, e.d, e.name).Some? {
      var a := s.threads[e.t].graft.value;
      RetainFinds(taken, e.d, a, e.bytes);
      RetainKeys(taken, e.d, a);
      RetainTables(taken, e.d, a);
      InternAdds(s, Retain(taken, e.d, a), e.d, e.bytes, e.addr, e);
    } else {
      InternAdds(s, taken, e.d, e.bytes, e.addr, e);
    }
    hide Intern, Retain, InternFind, Adds;
  }

  lemma RetainTables(s: State, d: Ptr, a: Arena)
    ensures SameTables(s.dicts, Retain(s, d, a).dicts)
  {
    hide DropArc;
  }

  lemma QLookupAdds(s: State, e: Event)
    requires Enabled(s, e) && e.DictQLookup? && e.d != NULL
    ensures Adds(s, e, Intern(s, e.d, QName(e.prefix, e.local), e.addr).dicts)
  {
    QInterns(e);
    hide Interns, QName;
    InternAdds(s, s, e.d, QName(e.prefix, e.local), e.addr, e);
  }

  lemma NothingAdded(s: State, e: Event, after: Dicts)
    requires SameTables(s.dicts, after)
    ensures Adds(s, e, after)
  {
  }

  lemma StepAdds(s: State, e: Event, s': State)
    requires Enabled(s, e) && s' == Step(s, e)
    ensures Adds(s, e, s'.dicts)
  {
    hide Lookup, Intern, Adds, QName;
    if e.DictLookup? && e.d != NULL && e.name != NULL {
      LookupAdds(s, e);
    } else if e.DictQLookup? && e.d != NULL {
      QLookupAdds(s, e);
    } else {
      if !e.DictLookup? && !e.DictQLookup? { hide Step; OtherTables(s, e); }
      NothingAdded(s, e, s'.dicts);
    }
  }

  lemma QInterns(e: Event)
    requires e.DictQLookup? && e.d != NULL
    ensures Interns(e, e.d, QName(e.prefix, e.local))
  {
    QNameJoins(e.prefix, e.local, QName(e.prefix, e.local));
  }

  // ── an answer never changes ───────────────────────────────────────────────

  lemma UpIs(s: State, d: Ptr)
    requires Chained(s.dicts) && NULL !in s.dicts && d in s.dicts
    ensures Up(s, d) == s.dicts[d].parent
    ensures Up(s, d) != NULL ==> Up(s, d) in s.dicts && Depth(s, Up(s, d)) < Depth(s, d)
  {
    assert LinkOk(s.dicts, s.dicts[d]);
  }

  lemma {:induction false} ChainKept(s: State, e: Event, s': State, d: Ptr, bytes: Bytes)
    requires Chained(s.dicts) && Chained(s'.dicts) && NULL !in s.dicts && NULL !in s'.dicts
    requires Keeps(s.dicts, s'.dicts) && Adds(s, e, s'.dicts)
    requires d in s.dicts && d in s'.dicts && ChainFind(s, d, bytes) != NULL
    ensures ChainFind(s', d, bytes) == ChainFind(s, d, bytes)
    decreases Depth(s, d)
  {
    assert Grows(s.dicts[d], s'.dicts[d]);
    if bytes !in s.dicts[d].table {
      UpIs(s, d);
      UpIs(s', d);
      ChainKept(s, e, s', Up(s, d), bytes);
      assert InternFind(s, d, bytes) == ChainFind(s, Up(s, d), bytes);
    }
  }

  /** On any chain and in any history, an answer lasts as long as the dictionary. */
  lemma {:induction false} ChainAnswerLasts(r: Run, m: nat, n: nat, d: Ptr, bytes: Bytes)
    requires Valid(r) && LiveBetween(r, m, n, d) && ChainFind(r.states[m], d, bytes) != NULL
    ensures ChainFind(r.states[n], d, bytes) == ChainFind(r.states[m], d, bytes)
    decreases n - m
  {
    if m < n {
      hide Step, Inv, Enabled, ChainFind, Chained, Tables;
      assert d in r.states[m].dicts && d in r.states[m + 1].dicts;
      ReachableShape(r, m, d);
      ReachableShape(r, m + 1, d);
      RunSound(r, m);
      assert Enabled(r.states[m], r.events[m]);
      StepPins(r.states[m], r.events[m]);
      StepAdds(r.states[m], r.events[m], r.states[m + 1]);
      ChainKept(r.states[m], r.events[m], r.states[m + 1], d, bytes);
      ChainAnswerLasts(r, m + 1, n, d, bytes);
    }
  }

  /** A child keeps its parent live, and the same one. */
  lemma ParentLives(r: Run, m: nat, n: nat, d: Ptr)
    requires Valid(r) && LiveBetween(r, m, n, d) && Up(r.states[m], d) != NULL
    ensures Up(r.states[n], d) == Up(r.states[m], d) && LiveBetween(r, m, n, Up(r.states[m], d))
  {
    hide Step, Inv, Enabled, Chained, Tables;
    forall x | m <= x <= n ensures Up(r.states[x], d) == Up(r.states[m], d) && Up(r.states[m], d) in r.states[x].dicts {
      assert d in r.states[x].dicts && d in r.states[m].dicts;
      ReachableShape(r, m, d);
      ReachableShape(r, x, d);
      DictGrows(r, m, x, d);
      UpIs(r.states[m], d);
      UpIs(r.states[x], d);
    }
  }

  lemma LookupIsChain(s: State, d: Ptr, bytes: Bytes)
    requires d in s.dicts && Chained(s.dicts) && Tables(s.dicts) && NULL !in s.dicts
    ensures LookupFind(s, d, bytes) == ChainFind(s, d, bytes)
  {
    UpIs(s, d);
    assert TableOk(s.dicts[d]);
    if bytes in s.dicts[d].table { assert s.dicts[d].table[bytes] in s.dicts[d].owned; }
  }

  /** A name the parent's chain knew before the child did: for the child's whole life
      interning it, looking it up and asking the parent all give the parent's pointer. */
  lemma ParentPointerLasts(r: Run, m: nat, n: nat, d: Ptr, bytes: Bytes)
    requires Valid(r) && LiveBetween(r, m, n, d) && bytes !in r.states[m].dicts[d].table
    requires ChainFind(r.states[m], Up(r.states[m], d), bytes) != NULL
    ensures var q, now := ChainFind(r.states[m], Up(r.states[m], d), bytes), r.states[n];
      InternFind(now, d, bytes) == LookupFind(now, d, bytes) == ChainFind(now, Up(now, d), bytes) == q
  {
    var s, now := r.states[m], r.states[n];
    assert Up(s, d) != NULL by { NoNull(r, m, d, bytes); }
    ReachableShape(r, m, d);
    ReachableShape(r, n, d);
    ParentLives(r, m, n, d);
    LookupIsChain(s, d, bytes);
    LookupIsChain(now, d, bytes);
    hide Step, Inv, Enabled, Tables, Chained, ChainFind, Up;
    ChainAnswerLasts(r, m, n, Up(s, d), bytes);
    assert LookupFind(s, d, bytes) == ChainFind(s, Up(s, d), bytes);
    ChainAnswerLasts(r, m, n, d, bytes);
  }

  lemma NoNull(r: Run, m: nat, d: Ptr, bytes: Bytes)
    requires Valid(r) && m < |r.states| && d in r.states[m].dicts
    ensures ChainFind(r.states[m], NULL, bytes) == NULL
  {
    ReachableShape(r, m, d);
  }

  /** So interning such a name in the child never stores it again. */
  lemma ParentPointerShared(r: Run, m: nat, n: nat, d: Ptr, bytes: Bytes, addr: Ptr)
    requires Valid(r) && LiveBetween(r, m, n, d) && bytes !in r.states[m].dicts[d].table
    requires ChainFind(r.states[m], Up(r.states[m], d), bytes) != NULL
    ensures InternPtr(r.states[n], d, bytes, addr) == ChainFind(r.states[m], Up(r.states[m], d), bytes)
    ensures Intern(r.states[n], d, bytes, addr) == r.states[n]
  {
    hide Step, Inv, Enabled, ChainFind, Up;
    ParentPointerLasts(r, m, n, d, bytes);
    assert d in r.states[n].dicts;
  }

  // ── ownership ─────────────────────────────────────────────────────────────

  /** A dictionary owns what some dictionary of its chain stores. */
  lemma {:induction false} OwnsOnChain(s: State, d: Ptr, p: Ptr)
    requires Chained(s.dicts) && NULL !in s.dicts
    ensures ChainOwns(s, d, p) <==> exists e :: InChain(s.dicts, d, e) && e in s.dicts && p in s.dicts[e].owned
    decreases Depth(s, d)
  {
    if d in s.dicts {
      UpIs(s, d);
      assert InChain(s.dicts, d, d);
      if Up(s, d) != NULL { OwnsOnChain(s, Up(s, d), p); }
    }
  }

  /** Whatever a chain answers, it owns. */
  lemma AnswerOwned(s: State, d: Ptr, bytes: Bytes)
    requires Chained(s.dicts) && Tables(s.dicts) && NULL !in s.dicts && ChainFind(s, d, bytes) != NULL
    ensures ChainOwns(s, d, ChainFind(s, d, bytes))
    decreases Depth(s, d)
  {
    assert TableOk(s.dicts[d]);
    if bytes in s.dicts[d].table {
      assert s.dicts[d].table[bytes] in s.dicts[d].owned;
    } else {
      UpIs(s, d);
      AnswerOwned(s, Up(s, d), bytes);
    }
  }

  lemma {:induction false} OwnsKept(s: State, s': State, d: Ptr, p: Ptr)
    requires Chained(s.dicts) && Chained(s'.dicts) && Tables(s.dicts) && Tables(s'.dicts)
    requires NULL !in s.dicts && NULL !in s'.dicts
    requires Keeps(s.dicts, s'.dicts) && d in s.dicts && d in s'.dicts && ChainOwns(s, d, p)
    ensures ChainOwns(s', d, p)
    decreases Depth(s, d)
  {
    assert Grows(s.dicts[d], s'.dicts[d]) && TableOk(s.dicts[d]) && TableOk(s'.dicts[d]);
    if p in s.dicts[d].owned {
      var b :| b in s.dicts[d].table && s.dicts[d].table[b] == p;
      assert s'.dicts[d].table[b] in s'.dicts[d].owned;
    } else {
      UpIs(s, d);
      UpIs(s', d);
      OwnsKept(s, s', Up(s, d), p);
    }
  }

  lemma {:induction false} OwnedLasts(r: Run, m: nat, n: nat, d: Ptr, p: Ptr)
    requires Valid(r) && LiveBetween(r, m, n, d) && ChainOwns(r.states[m], d, p)
    ensures ChainOwns(r.states[n], d, p)
    decreases n - m
  {
    if m < n {
      hide Step, Inv, Enabled, ChainOwns, Chained, Tables;
      assert d in r.states[m].dicts && d in r.states[m + 1].dicts;
      ReachableShape(r, m, d);
      ReachableShape(r, m + 1, d);
      RunSound(r, m);
      assert Enabled(r.states[m], r.events[m]);
      StepPins(r.states[m], r.events[m]);
      OwnsKept(r.states[m], r.states[m + 1], d, p);
      OwnedLasts(r, m + 1, n, d, p);
    }
  }

  /** Interning in `d` leaves what it answers owned by `d`. */
  lemma InternOwned(s: State, d: Ptr, bytes: Bytes, addr: Ptr)
    requires d in s.dicts && Chained(s.dicts) && Tables(s.dicts) && NULL !in s.dicts
    ensures InternFind(s, d, bytes) != NULL ==> ChainOwns(s, d, InternPtr(s, d, bytes, addr))
  {
    UpIs(s, d);
    if ChainFind(s, Up(s, d), bytes) != NULL {
      AnswerOwned(s, Up(s, d), bytes);
    } else if bytes in s.dicts[d].table {
      assert TableOk(s.dicts[d]) && s.dicts[d].table[bytes] in s.dicts[d].owned;
    }
  }

  /** A name unknown to the chain is stored by the call that interns it. */
  lemma InternStores(s: State, d: Ptr, bytes: Bytes, addr: Ptr)
    requires d in s.dicts && InternFind(s, d, bytes) == NULL
    ensures d in Intern(s, d, bytes, addr).dicts && addr in Intern(s, d, bytes, addr).dicts[d].owned
    ensures InternPtr(s, d, bytes, addr) == addr
  {
    hide InternFind;
  }

  lemma LookupStores(s: State, e: Event)
    requires Enabled(s, e) && e.DictLookup? && e.d != NULL && e.name != NULL && InternFind(s, e.d, e.bytes) == NULL
    ensures var after := Lookup(s, e.t, e.d, e.name, e.bytes, e.addr).dicts; e.d in after && e.addr in after[e.d].owned
  {
    var taken := s.(threads := Disarmed(s, e.t));
    SameFinds(s, taken, e.d, e.bytes);
    if PinBy(s, e.t, e.d, e.name).Some? {
      var a := s.threads[e.t].graft.value;
      RetainFinds(taken, e.d, a, e.bytes);
      RetainKeys(taken, e.d, a);
      InternStores(Retain(taken, e.d, a), e.d, e.bytes, e.addr);
    } else {
      InternStores(taken, e.d, e.bytes, e.addr);
    }
    hide Intern, Retain, InternFind;
  }

  lemma HandedOutNow(s: State, e: Event, s': State, d: Ptr, p: Ptr)
    requires Enabled(s, e) && s' == Step(s, e) && HandsOut(s, e, d, p)
    requires Chained(s.dicts) && Tables(s.dicts) && NULL !in s.dicts
    ensures d in s.dicts
    ensures ChainOwns(s, d, p) || (d in s'.dicts && p in s'.dicts[d].owned)
  {
    hide Lookup, Intern, InternFind, ChainOwns, Chained, Tables;
    if e.DictLookup? {
      InternOwned(s, d, e.bytes, e.addr);
      if InternFind(s, d, e.bytes) == NULL { LookupStores(s, e); }
    } else {
      var bytes := QName(e.prefix, e.local);
      InternOwned(s, d, bytes, e.addr);
      if InternFind(s, d, bytes) == NULL { InternStores(s, d, bytes, e.addr); }
    }
  }

  /** A pointer handed out by interning in a dictionary is owned by it for as long as
      it lives. */
  lemma HandedOutOwned(r: Run, i: nat, n: nat, d: Ptr, p: Ptr)
    requires Valid(r) && i < n && LiveBetween(r, i, n, d) && HandsOut(r.states[i], r.events[i], d, p)
    ensures ChainOwns(r.states[n], d, p)
  {
    hide Step, Inv, Enabled, Chained, Tables, HandsOut, ChainOwns;
    assert d in r.states[i].dicts && d in r.states[i + 1].dicts;
    ReachableShape(r, i, d);
    assert Enabled(r.states[i], r.events[i]);
    HandedOutNow(r.states[i], r.events[i], r.states[i + 1], d, p);
    if ChainOwns(r.states[i], d, p) {
      OwnedLasts(r, i, n, d, p);
    } else {
      assert ChainOwns(r.states[i + 1], d, p) by { OwnsOwn(r.states[i + 1], d, p); }
      OwnedLasts(r, i + 1, n, d, p);
    }
  }

  lemma OwnsOwn(s: State, d: Ptr, p: Ptr)
    requires d in s.dicts && p in s.dicts[d].owned
    ensures ChainOwns(s, d, p)
  {
  }

  /** The call makes dictionary `d` under `parent`. */
  predicate Bears(s: State, e: Event, d: Ptr, parent: Ptr) {
    || (e == DictCreate(d) && parent == NULL)
    || e == DictCreateSub(parent, d)
    || (e.NewDoc? && e.given == NULL && e.addr == d && e.t in s.threads && s.threads[e.t].dict == NULL && parent == NULL)
  }

  /** A dictionary starts empty, under the parent named when it was made. */
  lemma NewIsBlank(s: State, e: Event, s': State, d: Ptr)
    requires Enabled(s, e) && s' == Step(s, e) && d !in s.dicts && d in s'.dicts
    ensures Bears(s, e, d, s'.dicts[d].parent) && Blank(s'.dicts[d], s'.dicts[d].parent)
  {
    hide Release, Retain, Intern, DropArc, CloneArc, DropAll, ChainOwns, Lookup, OpenDoc, CloseDoc, Swap, PinGraft, Exit;
    match e
    case ThreadExit(t) => FewerKeys(s, e, s');
    case DictFree(h) => FewerKeys(s, e, s');
    case FreeDoc(doc) => FewerKeys(s, e, s');
    case SwapSlot(doc, h) => FewerKeys(s, e, s');
    case NewDoc(t, doc, given, addr) => OpenDocPages(s, t, doc, given, addr);
    case DictLookup(t, h, name, bytes, addr) => LookupKeys(s, t, h, name, bytes, addr);
    case DictQLookup(h, prefix, local, addr) => InternKeys(s, h, QName(prefix, local), addr);
    case Graft(src, dst, _) => GraftKeys(s, src, dst);
    case _ =>
  }

  lemma FewerKeys(s: State, e: Event, s': State)
    requires Enabled(s, e) && s' == Step(s, e) && (e.ThreadExit? || e.DictFree? || e.FreeDoc? || e.SwapSlot?)
    ensures s'.dicts.Keys <= s.dicts.Keys
  {
    hide Release, DropAll, DropOpt;
    match e
    case ThreadExit(t) =>
      var r := s.threads[t];
      ReleaseFewer(DropOpt(DropAll(s.(threads := s.threads - {t}), r.keepAlive), r.graft), r.dict);
    case DictFree(d) => ReleaseFewer(s.(handles := s.handles - multiset{d}), d);
    case FreeDoc(doc) =>
      var s1 := s.(docs := s.docs - {doc});
      ReleaseFewer(s1, s.docs[doc].slot);
      ReleaseFewer(Release(s1, s.docs[doc].slot), s.docs[doc].dict);
    case SwapSlot(doc, d) =>
      ReleaseFewer(AddRef(s, d).(docs := s.docs[doc := s.docs[doc].(slot := d)]), s.docs[doc].slot);
  }

  /** Step `i` interned in `e`, answering `p`, and `e` lives from then to state `n`. */
  ghost predicate HandedOutAt(r: Run, i: nat, n: nat, e: Ptr, p: Ptr)
    requires Valid(r)
  {
    i < n && LiveBetween(r, i, n, e) && HandsOut(r.states[i], r.events[i], e, p)
  }

  ghost predicate HandedOut(r: Run, n: nat, e: Ptr, p: Ptr)
    requires Valid(r)
  {
    exists i :: HandedOutAt(r, i, n, e, p)
  }

  /** Only what was handed out is stored. */
  lemma {:induction false} StoredWasHandedOut(r: Run, n: nat, d: Ptr, b: Bytes)
    requires Valid(r) && n < |r.states| && d in r.states[n].dicts && b in r.states[n].dicts[d].table
    ensures HandedOut(r, n, d, r.states[n].dicts[d].table[b])
  {
    hide Step, Inv, Enabled, HandsOut;
    if n > 0 {
      var s, e, s' := r.states[n - 1], r.events[n - 1], r.states[n];
      assert Enabled(s, e) && s' == Step(s, e);
      if d !in s.dicts {
        NewIsBlank(s, e, s', d);
      } else if b in s.dicts[d].table {
        StoredWasHandedOut(r, n - 1, d, b);
        RunSound(r, n - 1);
        StepPins(s, e);
        assert Grows(s.dicts[d], s'.dicts[d]);
        var i: nat :| HandedOutAt(r, i, n - 1, d, s.dicts[d].table[b]);
        assert HandedOutAt(r, i, n, d, s.dicts[d].table[b]);
      } else {
        StepAdds(s, e, s');
        InternsHandsOut(s, e, d, b);
        assert HandedOutAt(r, n - 1, n, d, s'.dicts[d].table[b]);
      }
    }
  }

  /** In every reachable state a dictionary owns exactly the pointers handed out, since
      they came to live, by the dictionaries of its chain. */
  lemma OwnsExactly(r: Run, n: nat, d: Ptr, p: Ptr)
    requires Valid(r) && n < |r.states| && d in r.states[n].dicts
    ensures ChainOwns(r.states[n], d, p) <==>
      exists e :: InChain(r.states[n].dicts, d, e) && HandedOut(r, n, e, p)
  {
    var s := r.states[n];
    ReachableShape(r, n, d);
    OwnsOnChain(s, d, p);
    hide Step, Inv, Enabled, InChain, HandsOut;
    if ChainOwns(s, d, p) {
      var e :| InChain(s.dicts, d, e) && e in s.dicts && p in s.dicts[e].owned;
      InChainLive(s.dicts, d, e);
      assert TableOk(s.dicts[e]);
      var b :| b in s.dicts[e].table && s.dicts[e].table[b] == p;
      StoredWasHandedOut(r, n, e, b);
    }
    if e :| InChain(s.dicts, d, e) && HandedOut(r, n, e, p) {
      var i: nat :| HandedOutAt(r, i, n, e, p);
      HandedOutOwned(r, i, n, e, p);
      OwnsUp(s, d, e, p);
    }
  }

  lemma {:induction false} OwnsUp(s: State, d: Ptr, e: Ptr, p: Ptr)
    requires Chained(s.dicts) && NULL !in s.dicts && InChain(s.dicts, d, e) && ChainOwns(s, e, p)
    ensures ChainOwns(s, d, p)
    decreases Depth(s, d)
  {
    if e != d {
      UpIs(s, d);
      OwnsUp(s, Up(s, d), e, p);
    }
  }
}
