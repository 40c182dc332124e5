/** Chains of dictionaries, and the memory a document keeps alive by itself: its own
    arena, and whatever is pinned on a dictionary of its chains, since a child holds
    a reference on its parent (crates/tree/src/dict.rs:160-179, 204-249). */
module Chains {
  import opened Sums
  import opened Basics
  import opened CompatState
  import opened CompatCounts
  import opened CompatSteps
  import opened Lifetime
  import opened Grafts

  /** `e` is `d` or one of its ancestors. */
  predicate InChain(dicts: Dicts, d: Ptr, e: Ptr)
    decreases if d in dicts then dicts[d].depth else 0
  {
    && d in dicts
    && (e == d || (var p := dicts[d].parent; p in dicts && dicts[p].depth < dicts[d].depth && InChain(dicts, p, e)))
  }

  /** `e` is on a chain of the document's own dictionary or of its C-visible slot. */
  predicate OnChain(dicts: Dicts, doc: Doc, e: Ptr) { InChain(dicts, doc.dict, e) || InChain(dicts, doc.slot, e) }

  ghost predicate PinnedOnChain(dicts: Dicts, doc: Doc, a: Arena) {
    exists e :: OnChain(dicts, doc, e) && Pinned(dicts, e, a)
  }

  /** Memory a document keeps alive by itself. */
  ghost predicate Covered(s: State, doc: Doc, a: Arena) { a == doc.arena || PinnedOnChain(s.dicts, doc, a) }

  ghost predicate OnDict(s: State, k: DocId, d: Ptr) { k in s.docs && OnChain(s.dicts, s.docs[k], d) }

  lemma {:induction false} InChainLive(dicts: Dicts, d: Ptr, e: Ptr)
    requires InChain(dicts, d, e)
    ensures e in dicts
    decreases if d in dicts then dicts[d].depth else 0
  {
    if e != d { InChainLive(dicts, dicts[d].parent, e); }
  }

  /** While `d` lives, no call takes anything off its chain. */
  lemma {:induction false} InChainKept(before: Dicts, after: Dicts, d: Ptr, e: Ptr)
    requires InChain(before, d, e) && Keeps(before, after) && Chained(after) && NULL !in before && d in after
    ensures InChain(after, d, e)
    decreases if d in before then before[d].depth else 0
  {
    if e != d {
      var p := before[d].parent;
      assert Grows(before[d], after[d]) && LinkOk(after, after[d]);
      InChainKept(before, after, p, e);
    }
  }

  lemma SoundShape(s: State)
    requires Sound(s)
    ensures Chained(s.dicts) && NULL !in s.dicts
  {
    hide Count, Stakes, Holds, Tables, PinsOk, HomesOk, ArcsExact;
  }

  lemma SlotsLive(s: State, k: DocId)
    requires Sound(s) && k in s.docs
    ensures s.docs[k].dict in s.dicts && s.docs[k].slot in s.dicts
  {
    hide Inv;
    DocArenaLive(s, k);
  }

  /** What covers a document goes on covering it for as long as it keeps its slots. */
  lemma CoveredKept(s: State, s': State, doc: Doc, doc': Doc, a: Arena)
    requires Sound(s) && Sound(s') && Keeps(s.dicts, s'.dicts) && Covered(s, doc, a)
    requires doc'.arena == doc.arena && doc'.dict == doc.dict && doc'.slot == doc.slot
    requires doc.dict in s'.dicts && doc.slot in s'.dicts
    ensures Covered(s', doc', a)
  {
    SoundShape(s);
    SoundShape(s');
    hide Inv, Chained, Grows;
    if a != doc.arena {
      var e :| OnChain(s.dicts, doc, e) && Pinned(s.dicts, e, a);
      if InChain(s.dicts, doc.dict, e) { InChainKept(s.dicts, s'.dicts, doc.dict, e); }
      else { InChainKept(s.dicts, s'.dicts, doc.slot, e); }
      OnChainLive(s'.dicts, doc', e);
      PinKept(s.dicts, s'.dicts, e, a);
    }
  }

  lemma OnChainLive(dicts: Dicts, doc: Doc, e: Ptr)
    requires OnChain(dicts, doc, e)
    ensures e in dicts
  {
    if InChain(dicts, doc.dict, e) { InChainLive(dicts, doc.dict, e); } else { InChainLive(dicts, doc.slot, e); }
  }

  lemma PinKept(before: Dicts, after: Dicts, e: Ptr, a: Arena)
    requires Keeps(before, after) && Pinned(before, e, a) && e in after
    ensures Pinned(after, e, a)
  {
    assert Grows(before[e], after[e]);
  }

  /** Covered memory is live. */
  lemma CoveredLive(s: State, k: DocId, a: Arena)
    requires Sound(s) && k in s.docs && Covered(s, s.docs[k], a)
    ensures a in s.arcs
  {
    hide Count, DictsOk, RefsExact, HomesOk, OnChain;
    if a == s.docs[k].arena {
      CountSplit(s.docs, k, DocHolds, a);
    } else {
      var e :| OnChain(s.dicts, s.docs[k], e) && Pinned(s.dicts, e, a);
      CountSplit(s.dicts, e, DictHolds, a);
    }
    assert Holds(s, a) > 0;
  }

  // ── what a pin adds ───────────────────────────────────────────────────────

  lemma {:induction false} InChainSame(before: Dicts, after: Dicts, d: Ptr, e: Ptr)
    requires before.Keys == after.Keys && Keeps(before, after)
    ensures InChain(before, d, e) <==> InChain(after, d, e)
    decreases if d in before then before[d].depth else 0
  {
    if d in before && e != d {
      var p := before[d].parent;
      assert Grows(before[d], after[d]);
      if p in before && before[p].depth < before[d].depth {
        assert Grows(before[p], after[p]);
        InChainSame(before, after, p, e);
      } else {
        assert p in after ==> Grows(before[p], after[p]);
      }
    }
  }

  lemma OnChainSame(before: Dicts, after: Dicts, doc: Doc, e: Ptr)
    requires before.Keys == after.Keys && Keeps(before, after)
    ensures OnChain(before, doc, e) <==> OnChain(after, doc, e)
  {
    InChainSame(before, after, doc.dict, e);
    InChainSame(before, after, doc.slot, e);
  }

  lemma RetainKeys(s: State, d: Ptr, a: Arena)
    ensures Retain(s, d, a).dicts.Keys == s.dicts.Keys
  {
    hide DropArc;
  }

  lemma InternKeys(s: State, d: Ptr, bytes: Bytes, addr: Ptr)
    ensures Intern(s, d, bytes, addr).dicts.Keys == s.dicts.Keys
  {
    hide InternFind;
  }

  lemma LookupKeys(s: State, t: Tid, d: Ptr, name: Ptr, bytes: Bytes, addr: Ptr)
    requires t in s.threads
    ensures Lookup(s, t, d, name, bytes, addr).dicts.Keys == s.dicts.Keys
  {
    hide Retain, Intern;
    var taken := s.(threads := Disarmed(s, t));
    InternKeys(taken, d, bytes, addr);
    if PinBy(s, t, d, name).Some? {
      RetainKeys(taken, d, s.threads[t].graft.value);
      InternKeys(Retain(taken, d, s.threads[t].graft.value), d, bytes, addr);
    }
  }

  /** A lookup covers exactly one more arena, that which it pins, for exactly the
      documents with that dictionary on a chain. */
  lemma LookupCovers(s: State, t: Tid, d: Ptr, name: Ptr, bytes: Bytes, addr: Ptr, doc: Doc, h: Arena)
    requires t in s.threads && d in s.dicts && TableOk(s.dicts[d])
    ensures Covered(Lookup(s, t, d, name, bytes, addr), doc, h)
       <==> Covered(s, doc, h) || (PinBy(s, t, d, name) == Some(h) && OnChain(s.dicts, doc, d))
  {
    LookupPins(s, t, d, name, bytes, addr);
    LookupKeys(s, t, d, name, bytes, addr);
    PinAdds(s.dicts, Lookup(s, t, d, name, bytes, addr).dicts, doc, d, h, PinBy(s, t, d, name) == Some(h));
    hide Lookup, Pinned, OnChain;
  }

  lemma PinAdds(before: Dicts, after: Dicts, doc: Doc, d: Ptr, h: Arena, pins: bool)
    requires before.Keys == after.Keys && Keeps(before, after)
    requires forall e :: Pinned(after, e, h) <==> Pinned(before, e, h) || (e == d && pins)
    ensures PinnedOnChain(after, doc, h) <==> PinnedOnChain(before, doc, h) || (pins && OnChain(before, doc, d))
  {
    hide Pinned, OnChain, Keeps;
    forall e ensures OnChain(before, doc, e) <==> OnChain(after, doc, e) { OnChainSame(before, after, doc, e); }
    if PinnedOnChain(before, doc, h) {
      var e :| OnChain(before, doc, e) && Pinned(before, e, h);
      assert OnChain(after, doc, e) && Pinned(after, e, h);
    }
    if pins && OnChain(before, doc, d) { assert OnChain(after, doc, d) && Pinned(after, d, h); }
  }

  lemma GraftKeys(s: State, src: DocId, dst: DocId)
    requires src in s.docs && dst in s.docs
    ensures PinGraft(s, src, dst).dicts.Keys == s.dicts.Keys
  {
  }

  /** The API graft covers exactly one more arena, the source document's, and only
      when documents and dictionaries differ. */
  lemma GraftCovers(s: State, src: DocId, dst: DocId, doc: Doc, h: Arena)
    requires src in s.docs && dst in s.docs && s.docs[dst].dict in s.dicts
    ensures Covered(PinGraft(s, src, dst), doc, h)
       <==> Covered(s, doc, h)
            || (GraftPins(s, src, dst) && h == s.docs[src].arena && OnChain(s.dicts, doc, s.docs[dst].dict))
  {
    PinGraftPins(s, src, dst);
    GraftKeys(s, src, dst);
    PinAdds(s.dicts, PinGraft(s, src, dst).dicts, doc, s.docs[dst].dict, h,
            GraftPins(s, src, dst) && h == s.docs[src].arena);
    hide PinGraft, Pinned, OnChain;
  }
}
