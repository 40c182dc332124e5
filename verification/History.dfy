/** What each part of a reachable state says about the calls made so far: who was
    given a reference and gave it up, which document was opened where and on which
    dictionary, what a dictionary stores and pins, which nodes a document reaches
    (crates/compat/src/dict.rs:94-283, crates/tree/src/dict.rs:184-283). */
module History {
  import opened Sums
  import opened Basics
  import opened CompatState
  import opened CompatCounts
  import opened CompatSteps
  import opened Lifetime
  import opened Grafts
  import opened Chains
  import opened Safety
  import opened Interning
  import opened Sharing

  // ── references held by callers ────────────────────────────────────────────

  /** The call gives its caller a reference to `d`, or takes one back. */
  predicate Takes(e: Event, d: Ptr) {
    (e.DictCreate? && e.addr == d) || (e.DictCreateSub? && e.addr == d) || e == DictReference(d)
  }

  function Taken(es: seq<Event>, d: Ptr): nat {
    if es == [] then 0 else Taken(es[..|es| - 1], d) + (if Takes(es[|es| - 1], d) then 1 else 0)
  }

  function Freed(es: seq<Event>, d: Ptr): nat {
    if es == [] then 0 else Freed(es[..|es| - 1], d) + (if es[|es| - 1] == DictFree(d) then 1 else 0)
  }

  lemma HandleStep(s: State, e: Event, d: Ptr)
    requires Enabled(s, e) && d != NULL
    ensures Step(s, e).handles[d] + (if e == DictFree(d) then 1 else 0) == s.handles[d] + (if Takes(e, d) then 1 else 0)
  {
    hide Release, AddRef, Intern, ChainOwns, Lookup, OpenDoc, CloseDoc, Swap, PinGraft, Exit, Stash;
  }

  /** Over any stretch of a run, what the callers hold of a dictionary grows by the
      creations and references and shrinks by the frees. */
  lemma {:induction false} HandlesBetween(r: Run, m: nat, n: nat, d: Ptr)
    requires Valid(r) && m <= n < |r.states| && d != NULL
    ensures r.states[n].handles[d] + Freed(r.events[m..n], d) == r.states[m].handles[d] + Taken(r.events[m..n], d)
    decreases n
  {
    hide Step, Enabled;
    if m < n {
      HandlesBetween(r, m, n - 1, d);
      assert r.events[m..n][..n - 1 - m] == r.events[m..n - 1] && r.events[m..n][n - 1 - m] == r.events[n - 1];
      assert Enabled(r.states[n - 1], r.events[n - 1]);
      HandleStep(r.states[n - 1], r.events[n - 1], d);
    }
  }

  /** The references callers hold are exactly those they were given and have not given
      up, and a dictionary of which any are left is live, its count no smaller. */
  lemma HandlesExactly(r: Run, m: nat, d: Ptr)
    requires Valid(r) && m < |r.states| && d != NULL
    ensures r.states[m].handles[d] == Taken(r.events[..m], d) - Freed(r.events[..m], d)
    ensures Taken(r.events[..m], d) > Freed(r.events[..m], d) ==>
      d in r.states[m].dicts && r.states[m].dicts[d].refs >= Taken(r.events[..m], d) - Freed(r.events[..m], d)
  {
    hide Step, Enabled;
    HandlesBetween(r, 0, m, d);
    assert r.events[0..m] == r.events[..m];
    LiveIffHeld(r, m);
    hide Count;
  }

  /** A dictionary created once and referenced `k` times lives through `k` frees. */
  lemma ReferencesKeepLive(r: Run, i: nat, m: nat, d: Ptr)
    requires Valid(r) && i < m < |r.states| && d != NULL && Takes(r.events[i], d)
    requires Freed(r.events[i + 1..m], d) <= Taken(r.events[i + 1..m], d)
    ensures d in r.states[m].dicts
  {
    hide Step, Enabled;
    assert Enabled(r.states[i], r.events[i]);
    HandleStep(r.states[i], r.events[i], d);
    HandlesBetween(r, i + 1, m, d);
    LiveIffHeld(r, m);
    hide Count;
  }

  // ── documents and their arenas ────────────────────────────────────────────

  function Opens(es: seq<Event>): nat {
    if es == [] then 0 else Opens(es[..|es| - 1]) + (if es[|es| - 1].NewDoc? then 1 else 0)
  }

  /** The dictionary shared by the documents a thread opens without naming one. */
  function Shared(es: seq<Event>, t: Tid): Ptr {
    if es == [] then NULL
    else
      var before, e := Shared(es[..|es| - 1], t), es[|es| - 1];
      if Boundary(e, t) then NULL
      else if e.NewDoc? && e.t == t && e.given == NULL && before == NULL then e.addr
      else before
  }

  /** What the last direct write to the slot of `doc` put there, `first` if none. */
  function Slot(es: seq<Event>, doc: DocId, first: Ptr): Ptr {
    if es == [] then first
    else if es[|es| - 1].SwapSlot? && es[|es| - 1].doc == doc then es[|es| - 1].d
    else Slot(es[..|es| - 1], doc, first)
  }

  /** Step `i` opened `doc`, which has not been freed since. */
  ghost predicate Opened(r: Run, i: nat, m: nat, doc: DocId)
    requires m <= |r.events|
  {
    i < m && r.events[i].NewDoc? && r.events[i].doc == doc
    && forall j :: i < j < m ==> r.events[j] != FreeDoc(doc)
  }

  lemma DocKeys(s: State, e: Event)
    requires Enabled(s, e)
    ensures Step(s, e).docs.Keys ==
      if e.NewDoc? then s.docs.Keys + {e.doc} else if e.FreeDoc? then s.docs.Keys - {e.doc} else s.docs.Keys
    ensures Step(s, e).nextArena == s.nextArena + (if e.NewDoc? then 1 else 0)
  {
    hide Release, AddRef, Intern, ChainOwns, Lookup, OpenDoc, CloseDoc, Swap, PinGraft, Exit, Stash;
  }

  lemma {:induction false} ArenasNumbered(r: Run, m: nat)
    requires Valid(r) && m < |r.states|
    ensures r.states[m].nextArena == Opens(r.events[..m])
  {
    hide Step, Enabled;
    if m > 0 {
      ArenasNumbered(r, m - 1);
      assert r.events[..m][..m - 1] == r.events[..m - 1];
      assert Enabled(r.states[m - 1], r.events[m - 1]);
      DocKeys(r.states[m - 1], r.events[m - 1]);
    }
  }

  lemma SharedStep(s: State, e: Event, t: Tid)
    requires Enabled(s, e)
    ensures t in Step(s, e).threads <==> (t in s.threads || e == ThreadStart(t)) && e != ThreadExit(t)
    ensures t in Step(s, e).threads ==>
      var needed := e.NewDoc? && e.t == t && e.given == NULL;
      Step(s, e).threads[t].dict ==
        (if t !in s.threads then NULL else if needed && s.threads[t].dict == NULL then e.addr else s.threads[t].dict)
  {
    hide ChainOwns, Lookup, Exit, Stash, Count;
    if e.NewDoc? {
      NewDocShared(s, e);
    } else if !e.ThreadStart? && !e.ThreadExit? && !e.DictLookup? && !e.DictOwns? && !e.Unlink? {
      Threadless(s, e);
      hide Step;
    }
  }

  /** A new document takes the dictionary it is given, or its thread's. */
  lemma NewDocShared(s: State, e: Event)
    requires Enabled(s, e) && e.NewDoc?
    ensures var s' := Step(s, e);
      && e.t in s'.threads && e.doc in s'.docs && s'.threads.Keys == s.threads.Keys
      && (forall u :: u in s.threads && u != e.t ==> s'.threads[u] == s.threads[u])
      && s'.threads[e.t].dict == (if e.given == NULL && s.threads[e.t].dict == NULL then e.addr else s.threads[e.t].dict)
      && s'.threads[e.t].keepAlive == s.threads[e.t].keepAlive + [s.nextArena]
      && var d := if e.given == NULL then s'.threads[e.t].dict else e.given;
         s'.docs[e.doc] == Doc(s.nextArena, d, d, {})
  {
    hide AddRef;
  }

  /** A thread's dictionary is the one made by the first call that needed it. */
  lemma {:induction false} SharedMeans(r: Run, m: nat, t: Tid)
    requires Valid(r) && m < |r.states| && t in r.states[m].threads
    ensures r.states[m].threads[t].dict == Shared(r.events[..m], t)
  {
    hide Step, Enabled;
    if m > 0 {
      assert r.events[..m][..m - 1] == r.events[..m - 1];
      assert Enabled(r.states[m - 1], r.events[m - 1]);
      SharedStep(r.states[m - 1], r.events[m - 1], t);
      if t in r.states[m - 1].threads { SharedMeans(r, m - 1, t); StartsOnce(r.states[m - 1], r.events[m - 1], t); }
    }
  }

  lemma StartsOnce(s: State, e: Event, t: Tid)
    requires Enabled(s, e) && t in s.threads
    ensures e != ThreadStart(t)
  {
  }

  lemma DocStart(s: State, e: Event)
    requires Enabled(s, e)
    ensures e.NewDoc? ==> e.doc !in s.docs
  {
  }

  /** What an open document holds: the arena numbered by its opening, the dictionary
      it was given or else its thread's shared one, and in the slot whatever was last
      written there. */
  lemma {:induction false} DocMeans(r: Run, i: nat, m: nat, doc: DocId)
    requires Valid(r) && m < |r.states| && Opened(r, i, m, doc)
    ensures doc in r.states[m].docs
    ensures var rec, open := r.states[m].docs[doc], r.events[i];
      && rec.arena == Opens(r.events[..i])
      && rec.dict == (if open.given != NULL then open.given else Shared(r.events[..i + 1], open.t))
      && rec.slot == Slot(r.events[i + 1..m], doc, rec.dict)
    decreases m
  {
    hide Step, Enabled;
    var s, e := r.states[m - 1], r.events[m - 1];
    assert Enabled(s, e);
    DocKeys(s, e);
    if m == i + 1 {
      NewDocShared(s, e);
      SharedMeans(r, m, e.t);
      ArenasNumbered(r, i);
      assert r.events[i + 1..m] == [];
    } else {
      assert Opened(r, i, m - 1, doc);
      DocMeans(r, i, m - 1, doc);
      DocStart(s, e);
      DocStep(s, e, doc);
      assert r.events[i + 1..m][..m - i - 2] == r.events[i + 1..m - 1] && r.events[i + 1..m][m - i - 2] == e;
    }
  }

  /** A document is live exactly when some call opened it and none has freed it since. */
  lemma {:induction false} DocLiveExactly(r: Run, m: nat, doc: DocId)
    requires Valid(r) && m < |r.states|
    ensures doc in r.states[m].docs <==> exists i :: Opened(r, i, m, doc)
  {
    hide Step, Enabled;
    if i: nat :| Opened(r, i, m, doc) { DocMeans(r, i, m, doc); }
    if m > 0 && doc in r.states[m].docs {
      var s, e := r.states[m - 1], r.events[m - 1];
      assert Enabled(s, e);
      DocKeys(s, e);
      if doc in s.docs {
        DocLiveExactly(r, m - 1, doc);
        var i: nat :| Opened(r, i, m - 1, doc);
        DocFrees(s, e, doc);
        assert Opened(r, i, m, doc);
      } else {
        assert Opened(r, m - 1, m, doc);
      }
    }
  }

  lemma DocFrees(s: State, e: Event, doc: DocId)
    requires Enabled(s, e) && doc in s.docs && doc in Step(s, e).docs
    ensures e != FreeDoc(doc)
  {
    hide Release, AddRef, Intern, ChainOwns, Lookup, OpenDoc, Swap, PinGraft, Exit, Stash;
  }

  /** So the documents one thread opens without naming a dictionary share one, whatever
      happens in between. */
  lemma OneDictPerThread(r: Run, i: nat, j: nat, m: nat, doc: DocId, other: DocId)
    requires Valid(r) && m < |r.states| && Opened(r, i, m, doc) && Opened(r, j, m, other) && i < j
    requires r.events[i].t == r.events[j].t && r.events[i].given == NULL && r.events[j].given == NULL
    requires forall x :: i < x < j ==> !Boundary(r.events[x], r.events[i].t)
    ensures doc in r.states[m].docs && other in r.states[m].docs
    ensures r.states[m].docs[doc].dict == r.states[m].docs[other].dict != NULL
  {
    hide Step, Enabled;
    DocMeans(r, i, m, doc);
    DocMeans(r, j, m, other);
    var t := r.events[i].t;
    SharedGiven(r, i);
    SharedLasts(r, i + 1, j + 1, t);
  }

  lemma SharedGiven(r: Run, i: nat)
    requires Valid(r) && i < |r.events| && r.events[i].NewDoc? && r.events[i].given == NULL
    ensures Shared(r.events[..i + 1], r.events[i].t) != NULL
  {
    assert r.events[..i + 1][..i] == r.events[..i];
    assert Enabled(r.states[i], r.events[i]);
    hide Step;
  }

  lemma {:induction false} SharedLasts(r: Run, m: nat, n: nat, t: Tid)
    requires m <= n <= |r.events| && Shared(r.events[..m], t) != NULL
    requires forall x :: m <= x < n ==> !Boundary(r.events[x], t)
    ensures Shared(r.events[..n], t) == Shared(r.events[..m], t)
  {
    if m < n {
      SharedLasts(r, m, n - 1, t);
      assert r.events[..n][..n - 1] == r.events[..n - 1];
    }
  }

  // ── keep-alive lists ──────────────────────────────────────────────────────

  ghost predicate OpenedBy(r: Run, i: nat, m: nat, t: Tid, a: Arena)
    requires m <= |r.events|
  {
    i < m && r.events[i].NewDoc? && r.events[i].t == t && Opens(r.events[..i]) == a
    && forall j :: i < j < m ==> !Boundary(r.events[j], t)
  }

  ghost predicate EverOpened(r: Run, m: nat, t: Tid, a: Arena)
    requires m <= |r.events|
  {
    exists i :: OpenedBy(r, i, m, t, a)
  }

  lemma KeptStep(s: State, e: Event, t: Tid)
    requires Enabled(s, e) && t in s.threads && t in Step(s, e).threads
    ensures Step(s, e).threads[t].keepAlive ==
      if e.NewDoc? && e.t == t then s.threads[t].keepAlive + [s.nextArena] else s.threads[t].keepAlive
  {
    hide ChainOwns, Lookup, Exit, Stash, Count, OpenDoc;
    if !e.ThreadStart? && !e.ThreadExit? && !e.DictLookup? && !e.DictOwns? && !e.Unlink? && !e.NewDoc? {
      Threadless(s, e);
      hide Step;
    }
  }

  lemma StartsEmpty(s: State, e: Event, t: Tid)
    requires Enabled(s, e) && t !in s.threads && t in Step(s, e).threads
    ensures e == ThreadStart(t) && Step(s, e).threads[t] == FreshThread
  {
    SharedStep(s, e, t);
  }

  /** A thread keeps alive exactly the arenas of the documents it has opened since it
      started, freed or not. */
  lemma {:induction false} KeptExactly(r: Run, m: nat, t: Tid, a: Arena)
    requires Valid(r) && m < |r.states| && t in r.states[m].threads
    ensures a in r.states[m].threads[t].keepAlive <==> EverOpened(r, m, t, a)
  {
    hide Step, Enabled;
    if m > 0 {
      var s, e := r.states[m - 1], r.events[m - 1];
      assert Enabled(s, e);
      KeptCarries(r, m, t, a);
      ArenasNumbered(r, m - 1);
      if t in s.threads {
        KeptExactly(r, m - 1, t, a);
        KeptStep(s, e, t);
        SharedStep(s, e, t);
        StartsOnce(s, e, t);
      } else {
        StartsEmpty(s, e, t);
      }
    }
  }

  lemma KeptCarries(r: Run, m: nat, t: Tid, a: Arena)
    requires 0 < m <= |r.events|
    ensures var e := r.events[m - 1];
      EverOpened(r, m, t, a) <==>
        (e.NewDoc? && e.t == t && Opens(r.events[..m - 1]) == a)
        || (!Boundary(e, t) && EverOpened(r, m - 1, t, a))
  {
    var e := r.events[m - 1];
    if EverOpened(r, m, t, a) {
      var i: nat :| OpenedBy(r, i, m, t, a);
      if i < m - 1 { assert OpenedBy(r, i, m - 1, t, a); }
    }
    if e.NewDoc? && e.t == t && Opens(r.events[..m - 1]) == a { assert OpenedBy(r, m - 1, m, t, a); }
    if EverOpened(r, m - 1, t, a) {
      var i: nat :| OpenedBy(r, i, m - 1, t, a);
      if !Boundary(e, t) { assert OpenedBy(r, i, m, t, a); }
    }
  }

  // ── nodes ─────────────────────────────────────────────────────────────────

  predicate Brings(e: Event, doc: DocId, n: Node) {
    || e == NewNode(doc, n)
    || (e.Link? && e.doc == doc && n in e.nodes)
    || (e.Graft? && e.dst == doc && n in e.nodes)
  }

  predicate Removes(e: Event, doc: DocId, n: Node) {
    || (e.Unlink? && e.doc == doc && n in e.nodes)
    || (e.Graft? && e.src == doc != e.dst && n in e.nodes)
    || (e.NewDoc? && e.doc == doc)
  }

  ghost predicate BroughtAt(r: Run, i: nat, m: nat, doc: DocId, n: Node)
    requires m <= |r.events|
  {
    i < m && Brings(r.events[i], doc, n) && forall j :: i < j < m ==> !Removes(r.events[j], doc, n)
  }

  ghost predicate Brought(r: Run, m: nat, doc: DocId, n: Node)
    requires m <= |r.events|
  {
    exists i :: BroughtAt(r, i, m, doc, n)
  }

  lemma NodeStep(s: State, e: Event, doc: DocId, n: Node)
    requires Enabled(s, e) && doc in Step(s, e).docs
    ensures n in Step(s, e).docs[doc].nodes <==>
      Brings(e, doc, n) || (doc in s.docs && n in s.docs[doc].nodes && !Removes(e, doc, n))
    ensures doc !in s.docs ==> e.NewDoc? && e.doc == doc
  {
    hide Step, Enabled;
    DocKeys(s, e);
    DocStep(s, e, doc);
    DocStart(s, e);
  }

  /** A document reaches exactly the nodes that were created in it, linked or grafted
      into it, and not taken out since. */
  lemma {:induction false} NodesExactly(r: Run, m: nat, doc: DocId, n: Node)
    requires Valid(r) && m < |r.states| && doc in r.states[m].docs
    ensures n in r.states[m].docs[doc].nodes <==> Brought(r, m, doc, n)
  {
    hide Step, Enabled;
    if m > 0 {
      var s, e := r.states[m - 1], r.events[m - 1];
      assert Enabled(s, e);
      NodeStep(s, e, doc, n);
      BroughtCarries(r, m, doc, n);
      if doc in s.docs { NodesExactly(r, m - 1, doc, n); }
    }
  }

  lemma BroughtCarries(r: Run, m: nat, doc: DocId, n: Node)
    requires 0 < m <= |r.events|
    ensures var e := r.events[m - 1];
      Brought(r, m, doc, n) <==>
        Brings(e, doc, n) || (!Removes(e, doc, n) && Brought(r, m - 1, doc, n))
  {
    var e := r.events[m - 1];
    if Brought(r, m, doc, n) {
      var i: nat :| BroughtAt(r, i, m, doc, n);
      if i < m - 1 { assert BroughtAt(r, i, m - 1, doc, n); }
    }
    if Brings(e, doc, n) { assert BroughtAt(r, m - 1, m, doc, n); }
    if Brought(r, m - 1, doc, n) {
      var i: nat :| BroughtAt(r, i, m - 1, doc, n);
      if !Removes(e, doc, n) { assert BroughtAt(r, i, m, doc, n); }
    }
  }

  /** Step `i` created the node in a document that step `j` had opened as number `a`. */
  ghost predicate MadeAt(r: Run, i: nat, j: nat, m: nat, n: Node, a: Arena)
    requires m <= |r.events|
  {
    && i < m && r.events[i].NewNode? && r.events[i].n == n
    && Opened(r, j, i, r.events[i].doc) && Opens(r.events[..j]) == a
  }

  ghost predicate MadeIn(r: Run, m: nat, n: Node, a: Arena)
    requires m <= |r.events|
  {
    exists i, j :: MadeAt(r, i, j, m, n, a)
  }

  /** A node lies for good in the arena of the document it was created in. */
  lemma {:induction false} HomeExactly(r: Run, m: nat, n: Node, a: Arena)
    requires Valid(r) && m < |r.states|
    ensures n in r.states[m].home && r.states[m].home[n] == a <==> MadeIn(r, m, n, a)
  {
    hide Step, Enabled, Opened;
    if m > 0 {
      var s, e := r.states[m - 1], r.events[m - 1];
      assert Enabled(s, e);
      HomeStep(s, e);
      HomeExactly(r, m - 1, n, a);
      if e.NewNode? && e.n == n {
        NewNodeFresh(s, e);
        MadeNow(r, m, n, a);
      } else {
        MadeCarries(r, m, n, a);
      }
    }
  }

  lemma MadeCarries(r: Run, m: nat, n: Node, a: Arena)
    requires 0 < m <= |r.events| && !(r.events[m - 1].NewNode? && r.events[m - 1].n == n)
    ensures MadeIn(r, m, n, a) <==> MadeIn(r, m - 1, n, a)
  {
    hide Opened;
    if MadeIn(r, m, n, a) {
      var i: nat, j: nat :| MadeAt(r, i, j, m, n, a);
      assert MadeAt(r, i, j, m - 1, n, a);
    }
    if MadeIn(r, m - 1, n, a) {
      var i: nat, j: nat :| MadeAt(r, i, j, m - 1, n, a);
      assert MadeAt(r, i, j, m, n, a);
    }
  }

  lemma MadeNow(r: Run, m: nat, n: Node, a: Arena)
    requires Valid(r) && 0 < m < |r.states| && r.events[m - 1].NewNode? && r.events[m - 1].n == n
    requires n !in r.states[m - 1].home && r.events[m - 1].doc in r.states[m - 1].docs
    ensures MadeIn(r, m, n, a) <==> r.states[m - 1].docs[r.events[m - 1].doc].arena == a
  {
    hide Step, Enabled, Opened;
    var doc := r.events[m - 1].doc;
    DocLiveExactly(r, m - 1, doc);
    var j: nat :| Opened(r, j, m - 1, doc);
    DocMeans(r, j, m - 1, doc);
    if r.states[m - 1].docs[doc].arena == a { assert j < m - 1 by { OpenedBefore(r, j, m - 1, doc); } assert MadeAt(r, m - 1, j, m, n, a); }
    if MadeIn(r, m, n, a) {
      var i: nat, k: nat :| MadeAt(r, i, k, m, n, a);
      if i < m - 1 { HomeStays(r, i, m - 1, n); }
      DocMeans(r, k, m - 1, doc);
    }
  }

  lemma OpenedBefore(r: Run, i: nat, m: nat, doc: DocId)
    requires m <= |r.events| && Opened(r, i, m, doc)
    ensures i < m
  {
  }

  lemma NewNodeFresh(s: State, e: Event)
    requires Enabled(s, e) && e.NewNode?
    ensures e.n !in s.home && e.doc in s.docs
  {
  }

  lemma {:induction false} HomeStays(r: Run, i: nat, m: nat, n: Node)
    requires Valid(r) && i < m < |r.states| && r.events[i].NewNode? && r.events[i].n == n
    ensures n in r.states[m].home
    decreases m
  {
    hide Step, Enabled;
    assert Enabled(r.states[m - 1], r.events[m - 1]);
    HomeStep(r.states[m - 1], r.events[m - 1]);
    if i < m - 1 { HomeStays(r, i, m - 1, n); }
  }

  // ── dictionaries ──────────────────────────────────────────────────────────

  /** Step `i` made dictionary `d` under `parent`, and it lives from then to state `m`. */
  ghost predicate BornAt(r: Run, i: nat, m: nat, d: Ptr, parent: Ptr)
    requires Valid(r)
  {
    i < m < |r.states| && d !in r.states[i].dicts && LiveBetween(r, i + 1, m, d) && Bears(r.states[i], r.events[i], d, parent)
  }

  /** Every live dictionary has, for good, the parent named when it was made. */
  lemma {:induction false} ParentMeans(r: Run, m: nat, d: Ptr)
    requires Valid(r) && m < |r.states| && d in r.states[m].dicts
    ensures exists i :: BornAt(r, i, m, d, r.states[m].dicts[d].parent)
  {
    hide Step, Enabled, Bears, Inv;
    if m > 0 {
      var s, e := r.states[m - 1], r.events[m - 1];
      assert Enabled(s, e);
      if d in s.dicts {
        ParentMeans(r, m - 1, d);
        assert LiveBetween(r, m - 1, m, d);
        DictGrows(r, m - 1, m, d);
        var i: nat :| BornAt(r, i, m - 1, d, s.dicts[d].parent);
        assert BornAt(r, i, m, d, s.dicts[d].parent);
      } else {
        NewIsBlank(s, e, r.states[m], d);
        assert BornAt(r, m - 1, m, d, r.states[m].dicts[d].parent);
      }
    }
  }

  /** Step `i` interned the name `b` in `d`, unknown to the chain, at address `p`. */
  ghost predicate StoredAt(r: Run, i: nat, m: nat, d: Ptr, b: Bytes, p: Ptr)
    requires Valid(r)
  {
    && i < m && LiveBetween(r, i, m, d) && Interns(r.events[i], d, b)
    && InternFind(r.states[i], d, b) == NULL && r.events[i].addr == p
  }

  /** A name interned and unknown to the chain is stored, under exactly its bytes. */
  lemma InternedNow(s: State, e: Event, s': State, d: Ptr, b: Bytes)
    requires Enabled(s, e) && s' == Step(s, e) && Interns(e, d, b) && InternFind(s, d, b) == NULL
    ensures d in s'.dicts && b in s'.dicts[d].table && s'.dicts[d].table[b] == e.addr
  {
    hide InternFind;
    if e.DictLookup? {
      hide Lookup;
      LookupInterned(s, e);
    } else {
      QNameJoins(e.prefix, e.local, b);
    }
  }

  lemma LookupInterned(s: State, e: Event)
    requires Enabled(s, e) && e.DictLookup? && e.d != NULL && InternFind(s, e.d, e.bytes) == NULL
    ensures var after := Lookup(s, e.t, e.d, e.name, e.bytes, e.addr).dicts;
      e.d in after && e.bytes in after[e.d].table && after[e.d].table[e.bytes] == e.addr
  {
    var taken := s.(threads := Disarmed(s, e.t));
    SameFinds(s, taken, e.d, e.bytes);
    if PinBy(s, e.t, e.d, e.name).Some? {
      var a := s.threads[e.t].graft.value;
      RetainFinds(taken, e.d, a, e.bytes);
      RetainKeys(taken, e.d, a);
    }
    hide Retain, InternFind;
  }

  /** A dictionary stores a name at a pointer exactly when some call interned that name
      in it, unknown to its chain until then, at that address. */
  lemma {:induction false} StoresExactly(r: Run, m: nat, d: Ptr, b: Bytes, p: Ptr)
    requires Valid(r) && m < |r.states| && d in r.states[m].dicts
    ensures b in r.states[m].dicts[d].table && r.states[m].dicts[d].table[b] == p <==>
      exists i :: StoredAt(r, i, m, d, b, p)
  {
    hide Step, Inv, Enabled, Interns, InternFind;
    if i: nat :| StoredAt(r, i, m, d, b, p) {
      assert Enabled(r.states[i], r.events[i]);
      InternedNow(r.states[i], r.events[i], r.states[i + 1], d, b);
      assert LiveBetween(r, i + 1, m, d);
      DictGrows(r, i + 1, m, d);
    }
    if b in r.states[m].dicts[d].table && r.states[m].dicts[d].table[b] == p { StoredBefore(r, m, d, b); }
  }

  lemma {:induction false} StoredBefore(r: Run, m: nat, d: Ptr, b: Bytes)
    requires Valid(r) && m < |r.states| && d in r.states[m].dicts && b in r.states[m].dicts[d].table
    ensures exists i :: StoredAt(r, i, m, d, b, r.states[m].dicts[d].table[b])
  {
    hide Step, Inv, Enabled, Interns, InternFind;
    if m > 0 {
      var s, e, s' := r.states[m - 1], r.events[m - 1], r.states[m];
      assert Enabled(s, e) && s' == Step(s, e);
      if d !in s.dicts {
        NewIsBlank(s, e, s', d);
      } else if b in s.dicts[d].table {
        StoredBefore(r, m - 1, d, b);
        RunSound(r, m - 1);
        StepPins(s, e);
        assert Grows(s.dicts[d], s'.dicts[d]);
        var i: nat :| StoredAt(r, i, m - 1, d, b, s.dicts[d].table[b]);
        assert StoredAt(r, i, m, d, b, s.dicts[d].table[b]);
      } else {
        StepAdds(s, e, s');
        assert StoredAt(r, m - 1, m, d, b, s'.dicts[d].table[b]);
      }
    }
  }

  // ── pins ──────────────────────────────────────────────────────────────────

  /** Step `i` completed a cross-thread move of `a` into `d`. */
  ghost predicate MovedIn(r: Run, i: nat, d: Ptr, a: Arena)
    requires Valid(r) && i < |r.events|
  {
    && r.events[i].DictLookup? && Consumes(r.events[i], r.events[i].t) && r.events[i].d == d
    && exists h, j, src :: Move(r, h, j, i, r.events[i].t, a, src, d, r.events[i].name)
  }

  /** Step `i` grafted, through the API, from a document of arena `a` to one of
      dictionary `d`, their dictionaries being different. */
  ghost predicate GraftedIn(s: State, e: Event, d: Ptr, a: Arena) {
    && e.Graft? && e.src in s.docs && e.dst in s.docs
    && s.docs[e.src].arena == a && s.docs[e.dst].dict == d && s.docs[e.src].dict != d
  }

  ghost predicate PinnedAt(r: Run, i: nat, m: nat, d: Ptr, a: Arena)
    requires Valid(r)
  {
    i < m && LiveBetween(r, i, m, d) && (MovedIn(r, i, d, a) || GraftedIn(r.states[i], r.events[i], d, a))
  }

  ghost predicate PinnedIn(r: Run, m: nat, d: Ptr, a: Arena)
    requires Valid(r)
  {
    exists i :: PinnedAt(r, i, m, d, a)
  }

  lemma GraftStepPins(s: State, e: Event, s': State, d: Ptr, a: Arena)
    requires Sound(s) && Enabled(s, e) && s' == Step(s, e) && e.Graft?
    ensures Pinned(s'.dicts, d, a) <==> Pinned(s.dicts, d, a) || GraftedIn(s, e, d, a)
  {
    hide PinGraft, Pinned, Inv, Step;
    assert e.src in s.docs && e.dst in s.docs;
    GraftStep(s, e);
    hide Enabled;
    DocArenaLive(s, e.dst);
    PinGraftPins(s, e.src, e.dst);
  }

  lemma QLookupPins(s: State, e: Event, s': State, d: Ptr, a: Arena)
    requires Sound(s) && Enabled(s, e) && s' == Step(s, e) && (e.DictQLookup? || (e.DictLookup? && !Consumes(e, e.t)))
    ensures Pinned(s'.dicts, d, a) <==> Pinned(s.dicts, d, a)
  {
    hide Inv, Intern, Pinned, Lookup;
    if e.DictQLookup? && e.d != NULL {
      SoundTable(s, e.d);
      InternPins(s, e.d, QName(e.prefix, e.local), e.addr);
    }
  }

  /** One call, for a dictionary live before and after it. */
  lemma PinStep(r: Run, m: nat, d: Ptr, a: Arena)
    requires Valid(r) && m < |r.events| && d in r.states[m].dicts && d in r.states[m + 1].dicts
    ensures Pinned(r.states[m + 1].dicts, d, a) <==>
      Pinned(r.states[m].dicts, d, a) || MovedIn(r, m, d, a) || GraftedIn(r.states[m], r.events[m], d, a)
  {
    hide Step, Inv, Enabled, Consumes, Move;
    var s, e, s' := r.states[m], r.events[m], r.states[m + 1];
    assert Enabled(s, e) && s' == Step(s, e);
    RunSound(r, m);
    if e.Graft? {
      GraftStepPins(s, e, s', d, a);
    } else if e.DictLookup? && Consumes(e, e.t) {
      PinIffMove(r, m, e.t, a);
      hide Pinned;
    } else if e.DictLookup? || e.DictQLookup? {
      QLookupPins(s, e, s', d, a);
    } else {
      OtherPages(s, e);
    }
  }

  /** A dictionary pins exactly the arenas moved or grafted into it in its lifetime. */
  lemma {:induction false} PinsExactly(r: Run, m: nat, d: Ptr, a: Arena)
    requires Valid(r) && m < |r.states| && d in r.states[m].dicts
    ensures Pinned(r.states[m].dicts, d, a) <==> PinnedIn(r, m, d, a)
  {
    hide Step, Inv, Enabled, MovedIn, GraftedIn;
    if m > 0 {
      var s, e, s' := r.states[m - 1], r.events[m - 1], r.states[m];
      assert Enabled(s, e) && s' == Step(s, e);
      PinCarries(r, m, d, a);
      if d in s.dicts {
        PinsExactly(r, m - 1, d, a);
        PinStep(r, m - 1, d, a);
      } else {
        NewIsBlank(s, e, s', d);
      }
    }
  }

  lemma PinCarries(r: Run, m: nat, d: Ptr, a: Arena)
    requires Valid(r) && 0 < m < |r.states| && d in r.states[m].dicts
    ensures PinnedIn(r, m, d, a) <==>
      d in r.states[m - 1].dicts && (
        MovedIn(r, m - 1, d, a) || GraftedIn(r.states[m - 1], r.events[m - 1], d, a) || PinnedIn(r, m - 1, d, a))
  {
    hide Step, Enabled, MovedIn, GraftedIn;
    if PinnedIn(r, m, d, a) {
      var i: nat :| PinnedAt(r, i, m, d, a);
      assert d in r.states[m - 1].dicts;
      if i < m - 1 { assert PinnedAt(r, i, m - 1, d, a); }
    }
    if d in r.states[m - 1].dicts && (MovedIn(r, m - 1, d, a) || GraftedIn(r.states[m - 1], r.events[m - 1], d, a)) {
      assert PinnedAt(r, m - 1, m, d, a);
    }
    if d in r.states[m - 1].dicts && PinnedIn(r, m - 1, d, a) {
      var i: nat :| PinnedAt(r, i, m - 1, d, a);
      assert PinnedAt(r, i, m, d, a);
    }
  }
}
