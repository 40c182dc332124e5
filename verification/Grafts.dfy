/** Moving nodes between documents: how an origin arena gets pinned, how long a
    pin lasts, and which discipline keeps every live document out of freed memory
    (crates/compat/src/dict.rs:76-192, 246-283; crates/compat/src/mutate.rs:86-151). */
module Grafts {
  import opened Sums
  import opened Basics
  import opened CompatState
  import opened CompatCounts
  import opened CompatSteps
  import opened Lifetime

  type Dicts = map<Ptr, Dict>

  // ── a dictionary that stays live only grows ───────────────────────────────

  /** Same place in the chain, every name at its pointer, every pin. */
  ghost predicate Grows(r: Dict, r': Dict) {
    && r'.parent == r.parent && r'.depth == r.depth
    && (forall b :: b in r.table ==> b in r'.table && r'.table[b] == r.table[b])
    && (forall a :: a in r.retained ==> a in r'.retained)
  }

  ghost predicate Keeps(before: Dicts, after: Dicts) {
    forall d :: d in before && d in after ==> Grows(before[d], after[d])
  }

  ghost predicate Shrinks(before: Dicts, after: Dicts) {
    after.Keys <= before.Keys && Keeps(before, after)
  }

  lemma GrowsTrans(r: Dict, r': Dict, r'': Dict)
    requires Grows(r, r') && Grows(r', r'')
    ensures Grows(r, r'')
  {
  }

  lemma ShrinksTrans(x: Dicts, y: Dicts, z: Dicts)
    requires Keeps(x, y) && Shrinks(y, z)
    ensures Keeps(x, z)
  {
    hide Grows;
    forall d | d in x && d in z ensures Grows(x[d], z[d]) { GrowsTrans(x[d], y[d], z[d]); }
  }

  /** Only freeing happened to the dictionaries. */
  ghost predicate Fewer(before: Dicts, after: Dicts) {
    forall d :: d in after ==> d in before && SamePlace(before[d], after[d])
  }

  predicate SamePlace(r: Dict, r': Dict) { r' == r.(refs := r'.refs) }

  lemma FewerTrans(x: Dicts, y: Dicts, z: Dicts)
    requires Fewer(x, y) && Fewer(y, z)
    ensures Fewer(x, z)
  {
  }

  lemma {:induction false} ReleaseFewer(s: State, d: Ptr)
    ensures Fewer(s.dicts, Release(s, d).dicts)
    decreases |s.dicts|
  {
    if d in s.dicts && s.dicts[d].refs == 1 && s.dicts[d].parent != NULL {
      var freed := DropAll(s.(dicts := s.dicts - {d}), s.dicts[d].retained);
      ReleaseFewer(freed, s.dicts[d].parent);
      assert Release(s, d) == Release(freed, s.dicts[d].parent);
      assert Fewer(s.dicts, freed.dicts);
      hide Release, Fewer;
      FewerTrans(s.dicts, freed.dicts, Release(freed, s.dicts[d].parent).dicts);
    }
  }

  lemma ReleaseShrinks(s: State, d: Ptr)
    ensures Shrinks(s.dicts, Release(s, d).dicts)
  {
    ReleaseFewer(s, d);
    hide Release;
  }

  lemma KeepsAll(dicts: Dicts)
    ensures Keeps(dicts, dicts)
  {
  }

  lemma GrowsRefl(r: Dict)
    ensures Grows(r, r)
  {
  }

  lemma RetainPins(s: State, d: Ptr, a: Arena)
    requires d in s.dicts
    ensures forall e, b :: Pinned(Retain(s, d, a).dicts, e, b) <==> Pinned(s.dicts, e, b) || (e == d && b == a)
    ensures Shrinks(s.dicts, Retain(s, d, a).dicts)
    ensures TableOk(s.dicts[d]) ==> TableOk(Retain(s, d, a).dicts[d])
  {
    hide DropArc;
  }

  lemma InternPins(s: State, d: Ptr, bytes: Bytes, addr: Ptr)
    requires d in s.dicts ==> TableOk(s.dicts[d])
    ensures forall e, b :: Pinned(Intern(s, d, bytes, addr).dicts, e, b) <==> Pinned(s.dicts, e, b)
    ensures Shrinks(s.dicts, Intern(s, d, bytes, addr).dicts)
  {
    hide ChainFind;
    if d in s.dicts {
      forall x | x in s.dicts[d].table ensures s.dicts[d].table[x] != NULL { assert s.dicts[d].table[x] in s.dicts[d].owned; }
    }
  }

  lemma AddRefPins(s: State, d: Ptr)
    ensures forall e, b :: Pinned(AddRef(s, d).dicts, e, b) <==> Pinned(s.dicts, e, b)
    ensures Shrinks(s.dicts, AddRef(s, d).dicts)
  {
  }

  lemma MakeDictPins(s: State, addr: Ptr, parent: Ptr)
    requires addr !in s.dicts
    ensures Keeps(s.dicts, MakeDict(s, addr, parent).dicts)
  {
  }

  lemma SubPins(s: State, parent: Ptr, addr: Ptr)
    requires addr !in s.dicts
    ensures Keeps(s.dicts, MakeDict(if parent == NULL then s else AddRef(s, parent), addr, parent).dicts)
  {
  }

  /** A lookup changes the pins by exactly the arena it pins, if any. */
  lemma LookupPins(s: State, t: Tid, d: Ptr, name: Ptr, bytes: Bytes, addr: Ptr)
    requires t in s.threads && d in s.dicts && TableOk(s.dicts[d])
    ensures Shrinks(s.dicts, Lookup(s, t, d, name, bytes, addr).dicts)
    ensures forall e, b: Arena :: (Pinned(Lookup(s, t, d, name, bytes, addr).dicts, e, b)
                                   <==> Pinned(s.dicts, e, b) || (e == d && PinBy(s, t, d, name) == Some(b)))
  {
    hide Retain, Intern, DropOpt, Pinned, Grows, TableOk;
    var r := s.threads[t];
    var taken := s.(threads := Disarmed(s, t));
    if PinBy(s, t, d, name).Some? {
      RetainPins(taken, d, r.graft.value);
      var pinned := Retain(taken, d, r.graft.value);
      InternPins(pinned, d, bytes, addr);
      ShrinksTrans(s.dicts, pinned.dicts, Intern(pinned, d, bytes, addr).dicts);
    } else {
      InternPins(taken, d, bytes, addr);
    }
  }

  lemma OpenDocPins(s: State, t: Tid, doc: DocId, given: Ptr, addr: Ptr)
    requires Enabled(s, NewDoc(t, doc, given, addr))
    ensures Keeps(s.dicts, OpenDoc(s, t, doc, given, addr).dicts)
  {
    hide Pinned, AddRef, MakeDict;
    var s1 := NewArena(s, t);
    if given == NULL { MakeDictPins(s1, addr, NULL); }
    var s2 := if given == NULL then ThreadDict(s1, t, addr) else s1;
    var d := if given == NULL then s2.threads[t].dict else given;
    assert Keeps(s.dicts, s2.dicts);
    AddRefPins(s2, d);
    AddRefPins(AddRef(s2, d), d);
  }

  lemma CloseDocPins(s: State, doc: DocId)
    requires doc in s.docs
    ensures Shrinks(s.dicts, CloseDoc(s, doc).dicts)
  {
    hide Pinned, Release, DropArc;
    var s1 := s.(docs := s.docs - {doc});
    ReleaseShrinks(s1, s.docs[doc].slot);
    ReleaseShrinks(Release(s1, s.docs[doc].slot), s.docs[doc].dict);
  }

  lemma SwapPins(s: State, doc: DocId, d: Ptr)
    requires doc in s.docs
    ensures Keeps(s.dicts, Swap(s, doc, d).dicts)
  {
    hide Pinned, Release, AddRef;
    AddRefPins(s, d);
    ReleaseShrinks(AddRef(s, d).(docs := s.docs[doc := s.docs[doc].(slot := d)]), s.docs[doc].slot);
  }

  /** The API graft primitives pin when both documents and both dictionaries differ. */
  predicate GraftPins(s: State, src: DocId, dst: DocId)
    requires src in s.docs && dst in s.docs
  {
    src != dst && s.docs[src].dict != s.docs[dst].dict
  }

  lemma PinGraftPins(s: State, src: DocId, dst: DocId)
    requires src in s.docs && dst in s.docs && s.docs[dst].dict in s.dicts
    ensures Shrinks(s.dicts, PinGraft(s, src, dst).dicts)
    ensures forall e, b: Arena :: (Pinned(PinGraft(s, src, dst).dicts, e, b)
                                   <==> Pinned(s.dicts, e, b)
                                        || (GraftPins(s, src, dst) && e == s.docs[dst].dict && b == s.docs[src].arena))
  {
    hide Pinned, Retain, CloneArc;
    if GraftPins(s, src, dst) {
      RetainPins(CloneArc(s, s.docs[src].arena), s.docs[dst].dict, s.docs[src].arena);
    }
  }

  lemma SoundTable(s: State, d: Ptr)
    requires Sound(s) && d in s.dicts
    ensures TableOk(s.dicts[d])
  {
    hide Count, Stakes, Holds, Chained, PinsOk, HomesOk, RefsExact, ArcsExact;
  }

  /** No call takes a name or a pin off a dictionary that survives it, or moves it
      in its chain. */
  lemma StepPins(s: State, e: Event)
    requires Sound(s) && Enabled(s, e)
    ensures Keeps(s.dicts, Step(s, e).dicts)
  {
    hide Release, Retain, Intern, AddRef, DropArc, CloneArc, DropAll, ChainOwns, Count, Inv,
         Lookup, OpenDoc, CloseDoc, Swap, PinGraft, MakeDict, Pinned, TableOk;
    KeepsAll(s.dicts);
    hide Grows;
    match e
    case ThreadExit(t) =>
      var r := s.threads[t];
      ReleaseShrinks(DropOpt(DropAll(s.(threads := s.threads - {t}), r.keepAlive), r.graft), r.dict);
    case DictCreate(addr) => MakeDictPins(s, addr, NULL);
    case DictCreateSub(parent, addr) => SubPins(s, parent, addr);
    case DictReference(d) => AddRefPins(s, d);
    case DictFree(d) => ReleaseShrinks(s.(handles := s.handles - multiset{d}), d);
    case DictLookup(t, d, name, bytes, addr) =>
      if d != NULL && name != NULL { SoundTable(s, d); LookupPins(s, t, d, name, bytes, addr); }
    case DictQLookup(d, prefix, local, addr) =>
      if d != NULL { SoundTable(s, d); InternPins(s, d, QName(prefix, local), addr); }
    case NewDoc(t, doc, given, addr) => OpenDocPins(s, t, doc, given, addr);
    case FreeDoc(doc) => CloseDocPins(s, doc);
    case SwapSlot(doc, d) => SwapPins(s, doc, d);
    case Graft(src, dst, nodes) => DocArenaLive(s, dst); PinGraftPins(s, src, dst);
    case _ =>
  }
}
