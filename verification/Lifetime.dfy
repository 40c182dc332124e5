/** Whole runs of the compatibility layer: what the pending slots mean, when a
    moved node's memory is kept, and when no live document reaches freed memory
    (crates/compat/src/dict.rs:76-192, 246-283, 349-365). */
module Lifetime {
  import opened Sums
  import opened Basics
  import opened CompatState
  import opened CompatCounts
  import opened CompatSteps

  datatype Run = Run(states: seq<State>, events: seq<Event>)

  /** A run of any number of threads, interleaved call by call. */
  ghost predicate Valid(r: Run) {
    && |r.states| == |r.events| + 1
    && r.states[0] == Initial
    && forall i :: 0 <= i < |r.events| ==> Enabled(r.states[i], r.events[i]) && r.states[i + 1] == Step(r.states[i], r.events[i])
  }

  lemma {:induction false} RunSound(r: Run, m: nat)
    requires Valid(r) && m < |r.states|
    ensures Sound(r.states[m])
  {
    hide Inv, Step, Enabled;
    if m == 0 {
      InitialSound();
    } else {
      RunSound(r, m - 1);
      assert Enabled(r.states[m - 1], r.events[m - 1]);
      StepSound(r.states[m - 1], r.events[m - 1]);
    }
  }

  /** In every reachable state a dictionary is live exactly while some handle,
      document, thread or sub-dictionary holds it, and an arena exactly while
      some document, keep-alive list, pending slot or dictionary holds it. */
  lemma LiveIffHeld(r: Run, m: nat)
    requires Valid(r) && m < |r.states|
    ensures !r.states[m].fault
    ensures forall d :: d in r.states[m].dicts <==> Stakes(r.states[m], d) > 0
    ensures forall d :: d in r.states[m].dicts ==> r.states[m].dicts[d].refs == Stakes(r.states[m], d)
    ensures forall a :: a in r.states[m].arcs <==> Holds(r.states[m], a) > 0
  {
    RunSound(r, m);
    hide Stakes, Holds, DictsOk, HomesOk, Count;
    var s := r.states[m];
    forall d ensures d in s.dicts <==> Stakes(s, d) > 0 {
      assert Stakes(s, d) + multiset{}[d] == Stakes(s, d);
    }
    forall a ensures a in s.arcs <==> Holds(s, a) > 0 {
      assert Holds(s, a) + multiset{}[a] == Holds(s, a);
    }
  }

  // ── which events touch which slot ─────────────────────────────────────────

  predicate Consumes(e: Event, t: Tid) {
    e.DictLookup? && e.t == t && e.d != NULL && e.name != NULL
  }

  predicate Boundary(e: Event, t: Tid) {
    (e.ThreadExit? || e.ThreadStart?) && e.t == t
  }

  predicate Stashes(s: State, e: Event, t: Tid, a: Arena) {
    e.Unlink? && e.t == t && e.doc in s.docs && s.docs[e.doc].arena == a
  }

  predicate Arms(s: State, e: Event, t: Tid) {
    e.DictOwns? && e.t == t && e.d != NULL && e.p != NULL && ChainOwns(s, e.d, e.p)
  }

  /** Calls that belong to no thread leave every thread alone. */
  lemma Threadless(s: State, e: Event)
    requires Enabled(s, e)
    requires !e.ThreadStart? && !e.ThreadExit? && !e.DictLookup? && !e.DictOwns? && !e.NewDoc? && !e.Unlink?
    ensures Step(s, e).threads == s.threads
  {
    hide Intern, AddRef, Release, CloseDoc, Swap, PinGraft, Count;
  }

  /** The graft slot of a thread after one step. */
  function NextGraft(s: State, e: Event, t: Tid): Option<Arena>
    requires Enabled(s, e) && t in s.threads
  {
    if e.Unlink? && e.t == t then Some(s.docs[e.doc].arena)
    else if Consumes(e, t) then None
    else s.threads[t].graft
  }

  /** What one step does to the slots of a thread. */
  lemma SlotStep(s: State, e: Event, t: Tid)
    requires Enabled(s, e) && t in Step(s, e).threads
    ensures t in s.threads <==> e != ThreadStart(t)
    ensures e == ThreadStart(t) ==> Step(s, e).threads[t] == FreshThread
    ensures t in s.threads ==> Step(s, e).threads[t].graft == NextGraft(s, e, t)
    ensures t in s.threads && Arms(s, e, t) ==>
      Step(s, e).threads[t].pendingSrc == e.d && Step(s, e).threads[t].pendingName == e.p
    ensures t in s.threads && Consumes(e, t) ==> Step(s, e).threads[t].pendingSrc == NULL
    ensures t in s.threads && !Arms(s, e, t) && !Consumes(e, t) ==>
      Step(s, e).threads[t].pendingSrc == s.threads[t].pendingSrc && Step(s, e).threads[t].pendingName == s.threads[t].pendingName
    ensures !(e.ThreadExit? && e.t == t) && (e.Unlink? ==> e.doc in s.docs)
  {
    hide ChainOwns, Lookup, OpenDoc, Exit, Stash, Count;
    if !e.ThreadStart? && !e.ThreadExit? && !e.DictLookup? && !e.DictOwns? && !e.NewDoc? && !e.Unlink? {
      Threadless(s, e);
    }
  }

  /** The last stash on `t` before step `m` was made at step `i`, of arena `a`,
      and no lookup or unlink of that thread came in between. */
  ghost predicate StashedAt(r: Run, m: nat, t: Tid, a: Arena, i: nat)
    requires |r.states| == |r.events| + 1 && m <= |r.events|
  {
    i < m && Stashes(r.states[i], r.events[i], t, a)
    && forall j :: i < j < m ==>
      !Consumes(r.events[j], t) && !Boundary(r.events[j], t) && !(r.events[j].Unlink? && r.events[j].t == t)
  }

  /** The last owning `xmlDictOwns` on `t` before step `m` was step `i`, naming
      `p` in dictionary `d`, with no lookup of that thread in between. */
  ghost predicate ArmedAt(r: Run, m: nat, t: Tid, d: Ptr, p: Ptr, i: nat)
    requires |r.states| == |r.events| + 1 && m <= |r.events|
  {
    i < m && Arms(r.states[i], r.events[i], t) && r.events[i].d == d && r.events[i].p == p
    && forall j :: i < j < m ==> !Consumes(r.events[j], t) && !Boundary(r.events[j], t) && !Arms(r.states[j], r.events[j], t)
  }

  /** A stash of `a` by `t` is outstanding at step `m`. */
  ghost predicate Stashed(r: Run, m: nat, t: Tid, a: Arena)
    requires |r.states| == |r.events| + 1 && m <= |r.events|
  {
    exists i :: StashedAt(r, m, t, a, i)
  }

  ghost predicate Armed(r: Run, m: nat, t: Tid, d: Ptr, p: Ptr)
    requires |r.states| == |r.events| + 1 && m <= |r.events|
  {
    exists i :: ArmedAt(r, m, t, d, p, i)
  }

  /** The graft slot holds an arena exactly when a stash of it is outstanding. */
  lemma {:induction false} GraftSlotMeans(r: Run, m: nat, t: Tid, a: Arena)
    requires Valid(r) && m <= |r.events| && t in r.states[m].threads
    ensures r.states[m].threads[t].graft == Some(a) <==> Stashed(r, m, t, a)
  {
    hide Step, Enabled;
    if m > 0 {
      var s, e := r.states[m - 1], r.events[m - 1];
      assert Enabled(s, e) && r.states[m] == Step(s, e);
      SlotStep(s, e, t);
      StashCarries(r, m, t, a);
      if t in s.threads {
        GraftSlotMeans(r, m - 1, t, a);
      }
    }
  }

  lemma StashCarries(r: Run, m: nat, t: Tid, a: Arena)
    requires Valid(r) && 0 < m <= |r.events|
    ensures var e := r.events[m - 1];
      Stashed(r, m, t, a) <==>
        if e.Unlink? && e.t == t then Stashes(r.states[m - 1], e, t, a)
        else !Boundary(e, t) && !Consumes(e, t) && Stashed(r, m - 1, t, a)
  {
    hide Step, Enabled;
    if Stashed(r, m, t, a) {
      var i: nat :| StashedAt(r, m, t, a, i);
      if i < m - 1 { assert StashedAt(r, m - 1, t, a, i); }
    }
    if Stashed(r, m - 1, t, a) {
      var i: nat :| StashedAt(r, m - 1, t, a, i);
      var e := r.events[m - 1];
      if !Boundary(e, t) && !Consumes(e, t) && !(e.Unlink? && e.t == t) { assert StashedAt(r, m, t, a, i); }
    }
    if Stashes(r.states[m - 1], r.events[m - 1], t, a) { assert StashedAt(r, m, t, a, m - 1); }
  }

  /** The re-intern slot holds a pair exactly when that `xmlDictOwns` is outstanding. */
  lemma {:induction false} ReinternSlotMeans(r: Run, m: nat, t: Tid, d: Ptr, p: Ptr)
    requires Valid(r) && m <= |r.events| && t in r.states[m].threads && d != NULL
    ensures r.states[m].threads[t].pendingSrc == d && r.states[m].threads[t].pendingName == p
       <==> Armed(r, m, t, d, p)
  {
    hide Step, Enabled;
    if m > 0 {
      var s, e := r.states[m - 1], r.events[m - 1];
      assert Enabled(s, e) && r.states[m] == Step(s, e);
      SlotStep(s, e, t);
      ArmCarries(r, m, t, d, p);
      if t in s.threads {
        ReinternSlotMeans(r, m - 1, t, d, p);
      }
    }
  }

  lemma ArmCarries(r: Run, m: nat, t: Tid, d: Ptr, p: Ptr)
    requires Valid(r) && 0 < m <= |r.events|
    ensures var e := r.events[m - 1];
      Armed(r, m, t, d, p) <==>
        if Arms(r.states[m - 1], e, t) then e.d == d && e.p == p
        else !Boundary(e, t) && !Consumes(e, t) && Armed(r, m - 1, t, d, p)
  {
    hide Step, Enabled, ChainOwns;
    var e := r.events[m - 1];
    if Armed(r, m, t, d, p) {
      var i: nat :| ArmedAt(r, m, t, d, p, i);
      if i < m - 1 { assert ArmedAt(r, m - 1, t, d, p, i); }
    }
    if Armed(r, m - 1, t, d, p) {
      var i: nat :| ArmedAt(r, m - 1, t, d, p, i);
      if !Boundary(e, t) && !Consumes(e, t) && !Arms(r.states[m - 1], e, t) { assert ArmedAt(r, m, t, d, p, i); }
    }
    if Arms(r.states[m - 1], e, t) && e.d == d && e.p == p { assert ArmedAt(r, m, t, d, p, m - 1); }
  }
}
