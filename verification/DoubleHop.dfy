/** What the move protocol does not cover: a node moved on from a document that had
    itself received it.  The second move stashes the arena of the document the node
    sat in, not the one its memory lies in.  The first move alone keeps to the rule. */
module DoubleHop {
  import opened Basics
  import opened CompatState
  import opened CompatSteps
  import opened Lifetime
  import opened Chains
  import opened Safety
  import opened Lasting
  import opened Discipline

  const NM: Bytes := [112]
  const EMPTY := Dict(3, NULL, 0, map[], {}, [])

  // ── one whole move, in closed form ────────────────────────────────────────

  /** Thread `t` moves node `n` from document `src` to document `dst`: its name is
      `name` in dictionary `d` before and `name'` in dictionary `d'` after. */
  datatype Hop = Hop(t: Tid, src: DocId, dst: DocId, n: Node, d: Ptr, name: Ptr, d': Ptr, name': Ptr)

  function HopEvents(h: Hop): seq<Event> {
    [Unlink(h.t, h.src, {h.n}), Link(h.dst, {h.n}), DictOwns(h.t, h.d, h.name), DictLookup(h.t, h.d', h.name, NM, h.name')]
  }

  /** Nothing pending; the node alone in its document; a fresh destination dictionary. */
  ghost predicate CanHop(s: State, h: Hop) {
    && h.t in s.threads && s.threads[h.t].graft == None
    && h.src in s.docs && h.dst in s.docs && h.src != h.dst && s.docs[h.src].nodes == {h.n} && h.n in s.home
    && s.docs[h.src].arena in s.arcs
    && h.d in s.dicts && h.name in s.dicts[h.d].owned && h.name != NULL
    && h.d' in s.dicts && s.dicts[h.d'] == EMPTY && h.d' != h.d && NULL !in s.dicts && FreshString(s, h.name')
  }

  function Unlinked(s: State, h: Hop): State
    requires CanHop(s, h)
  {
    var a := s.docs[h.src].arena;
    s.(threads := s.threads[h.t := s.threads[h.t].(graft := Some(a))],
       docs := s.docs[h.src := s.docs[h.src].(nodes := {})], arcs := s.arcs[a := s.arcs[a] + 1])
  }

  function Linked(s: State, h: Hop): State
    requires CanHop(s, h)
  {
    var u := Unlinked(s, h);
    u.(docs := u.docs[h.dst := u.docs[h.dst].(nodes := u.docs[h.dst].nodes + {h.n})])
  }

  function Probed(s: State, h: Hop): State
    requires CanHop(s, h)
  {
    var u := Linked(s, h);
    u.(threads := u.threads[h.t := u.threads[h.t].(pendingSrc := h.d, pendingName := h.name)])
  }

  function Hopped(s: State, h: Hop): State
    requires CanHop(s, h)
  {
    var u := Probed(s, h);
    u.(threads := Disarmed(u, h.t),
       dicts := u.dicts[h.d' := Dict(3, NULL, 0, map[NM := h.name'], {h.name'}, [s.docs[h.src].arena])])
  }

  lemma UnlinkStep(s: State, h: Hop)
    requires CanHop(s, h)
    ensures StepsBy(s, HopEvents(h)[0], Unlinked(s, h))
  {
    assert {h.n} - {h.n} == {};
  }

  lemma LinkStep(s: State, h: Hop)
    requires CanHop(s, h)
    ensures StepsBy(Unlinked(s, h), HopEvents(h)[1], Linked(s, h))
  {
  }

  lemma ProbeStep(s: State, h: Hop)
    requires CanHop(s, h)
    ensures StepsBy(Linked(s, h), HopEvents(h)[2], Probed(s, h)) && ChainOwns(Linked(s, h), h.d, h.name)
  {
  }

  lemma PinStep(s: State, h: Hop)
    requires CanHop(s, h)
    ensures StepsBy(Probed(s, h), HopEvents(h)[3], Hopped(s, h))
  {
    var u, a := Probed(s, h), s.docs[h.src].arena;
    var taken := u.(threads := Disarmed(u, h.t));
    var pinned := taken.(dicts := u.dicts[h.d' := EMPTY.(retained := [a])]);
    assert PinBy(u, h.t, h.d', h.name) == Some(a);
    assert Retain(taken, h.d', a) == pinned by { assert [] + [a] == [a]; }
    assert InternFind(pinned, h.d', NM) == NULL;
    assert Intern(pinned, h.d', NM, h.name').dicts == Hopped(s, h).dicts by { assert {} + {h.name'} == {h.name'}; }
  }

  /** A run with the four calls of a hop added. */
  function AddHop(r: Run, h: Hop): Run
    requires r.states != [] && CanHop(r.states[|r.states| - 1], h)
  {
    var s := r.states[|r.states| - 1];
    Run(r.states + [Unlinked(s, h), Linked(s, h), Probed(s, h), Hopped(s, h)], r.events + HopEvents(h))
  }

  lemma AddOne(r: Run, e: Event, s': State)
    requires Valid(r) && StepsBy(r.states[|r.events|], e, s')
    ensures Valid(Run(r.states + [s'], r.events + [e]))
  {
    hide Step, Enabled;
  }

  lemma AddHopValid(r: Run, h: Hop)
    requires Valid(r) && CanHop(r.states[|r.events|], h)
    ensures Valid(AddHop(r, h))
  {
    var s := r.states[|r.events|];
    UnlinkStep(s, h);
    LinkStep(s, h);
    ProbeStep(s, h);
    PinStep(s, h);
    hide Valid, StepsBy, CanHop, Unlinked, Linked, Probed, Hopped;
    var e := HopEvents(h);
    assert |r.states| == |r.events| + 1 by { RunLengths(r); }
    var r1 := Run(r.states + [Unlinked(s, h)], r.events + [e[0]]);
    AddOne(r, e[0], Unlinked(s, h));
    var r2 := Run(r1.states + [Linked(s, h)], r1.events + [e[1]]);
    AddOne(r1, e[1], Linked(s, h));
    var r3 := Run(r2.states + [Probed(s, h)], r2.events + [e[2]]);
    AddOne(r2, e[2], Probed(s, h));
    AddOne(r3, e[3], Hopped(s, h));
    assert AddHop(r, h) == Run(r3.states + [Hopped(s, h)], r3.events + [e[3]]);
  }

  lemma RunLengths(r: Run)
    requires Valid(r)
    ensures |r.states| == |r.events| + 1
  {
  }

  /** What a hop shows of a move: it stashes the arena, and arms the slot. */
  lemma HopShows(s: State, h: Hop)
    requires CanHop(s, h)
    ensures Stashes(s, HopEvents(h)[0], h.t, s.docs[h.src].arena) && Arms(Linked(s, h), HopEvents(h)[2], h.t)
  {
    ProbeStep(s, h);
    hide Step, Enabled;
  }

  /** The added hop is a whole move. */
  lemma HopMoves(r: Run, h: Hop)
    requires Valid(r) && CanHop(r.states[|r.events|], h) && Valid(AddHop(r, h))
    ensures var i, a := |r.events|, r.states[|r.events|].docs[h.src].arena;
      Move(AddHop(r, h), i, i + 2, i + 3, h.t, a, h.d, h.d', h.name)
  {
    var i, s, r' := |r.events|, r.states[|r.events|], AddHop(r, h);
    HopShows(s, h);
    RunLengths(r);
    assert h.d' != h.d && h.name != NULL && h.d' != NULL;
    assert r'.states[i] == s && r'.states[i + 2] == Linked(s, h) && r'.events == r.events + HopEvents(h);
    hide Valid, Step, Enabled, CanHop, Linked, ChainOwns, AddHop, Stashes, Arms;
    assert r'.events[i] == HopEvents(h)[0] && r'.events[i + 1] == HopEvents(h)[1];
    assert r'.events[i + 2] == HopEvents(h)[2] && r'.events[i + 3] == HopEvents(h)[3];
    assert StashedAt(r', i + 3, h.t, s.docs[h.src].arena, i);
    assert ArmedAt(r', i + 3, h.t, h.d, h.name, i + 2);
  }

  /** A move of a run is a move of every longer run. */
  lemma MoveExtends(r: Run, r': Run, i: nat, j: nat, c: nat, t: Tid, a: Arena, src: Ptr, dst: Ptr, name: Ptr)
    requires Valid(r) && Valid(r') && r.states <= r'.states && r.events <= r'.events
    requires Move(r, i, j, c, t, a, src, dst, name)
    ensures Move(r', i, j, c, t, a, src, dst, name)
  {
    hide Step, Enabled, ChainOwns;
  }

  // ── the run ───────────────────────────────────────────────────────────────

  /** Three threads parse documents 1, 2 and 3 into arenas 0, 1 and 2 (threads 1, 2,
      3; dictionaries 11, 12, 13); node 7 belongs to document 1 and is named there. */
  const SETUP: seq<Event> := [
    ThreadStart(1), ThreadStart(2), ThreadStart(3),
    NewDoc(1, 1, NULL, 11), NewDoc(2, 2, NULL, 12), NewDoc(3, 3, NULL, 13),
    NewNode(1, 7), DictQLookup(11, [], NM, 101)]

  /** Thread 2 moves it to document 2, thread 3 moves it on to document 3. */
  const FIRST := Hop(2, 1, 2, 7, 11, 101, 12, 102)
  const SECOND := Hop(3, 2, 3, 7, 12, 102, 13, 103)

  const IDLE := FreshThread
  const T1 := Thread(11, NULL, NULL, None, [0])
  const T2 := Thread(12, NULL, NULL, None, [1])
  const T3 := Thread(13, NULL, NULL, None, [2])

  function S1(): State { Initial.(threads := map[1 := IDLE]) }
  function S2(): State { Initial.(threads := map[1 := IDLE, 2 := IDLE]) }
  function S3(): State { Initial.(threads := map[1 := IDLE, 2 := IDLE, 3 := IDLE]) }
  function S4(): State {
    Initial.(dicts := map[11 := EMPTY], threads := map[1 := T1, 2 := IDLE, 3 := IDLE],
             docs := map[1 := Doc(0, 11, 11, {})], arcs := map[0 := 2], nextArena := 1)
  }
  function S5(): State {
    Initial.(dicts := map[11 := EMPTY, 12 := EMPTY], threads := map[1 := T1, 2 := T2, 3 := IDLE],
             docs := map[1 := Doc(0, 11, 11, {}), 2 := Doc(1, 12, 12, {})], arcs := map[0 := 2, 1 := 2], nextArena := 2)
  }
  function S6(): State {
    Initial.(dicts := map[11 := EMPTY, 12 := EMPTY, 13 := EMPTY], threads := map[1 := T1, 2 := T2, 3 := T3],
             docs := map[1 := Doc(0, 11, 11, {}), 2 := Doc(1, 12, 12, {}), 3 := Doc(2, 13, 13, {})],
             arcs := map[0 := 2, 1 := 2, 2 := 2], nextArena := 3)
  }
  function S7(): State { S6().(docs := S6().docs[1 := Doc(0, 11, 11, {7})], home := map[7 := 0]) }
  function S8(): State { S7().(dicts := S7().dicts[11 := EMPTY.(table := map[NM := 101], owned := {101})]) }

  /** The first call on a thread that needs a document, in closed form. */
  lemma OpenFirst(s: State, t: Tid, doc: DocId, addr: Ptr)
    requires Enabled(s, NewDoc(t, doc, NULL, addr)) && s.threads[t].dict == NULL
    ensures Step(s, NewDoc(t, doc, NULL, addr)) == s.(
      dicts := s.dicts[addr := EMPTY],
      threads := s.threads[t := s.threads[t].(dict := addr, keepAlive := s.threads[t].keepAlive + [s.nextArena])],
      docs := s.docs[doc := Doc(s.nextArena, addr, addr, {})],
      arcs := s.arcs[s.nextArena := 2], nextArena := s.nextArena + 1)
  {
  }

  lemma Starts()
    ensures StepsBy(Initial, SETUP[0], S1()) && StepsBy(S1(), SETUP[1], S2()) && StepsBy(S2(), SETUP[2], S3())
  {
  }

  lemma Open1()
    ensures StepsBy(S3(), SETUP[3], S4())
  {
    OpenFirst(S3(), 1, 1, 11);
    hide Step;
    assert [0] == [] + [0];
  }

  lemma Open2()
    ensures StepsBy(S4(), SETUP[4], S5())
  {
    OpenFirst(S4(), 2, 2, 12);
    hide Step;
    assert [1] == [] + [1];
  }

  lemma Open3()
    ensures StepsBy(S5(), SETUP[5], S6())
  {
    OpenFirst(S5(), 3, 3, 13);
    hide Step;
    assert [2] == [] + [2];
  }

  lemma Named()
    ensures StepsBy(S6(), SETUP[6], S7()) && StepsBy(S7(), SETUP[7], S8())
  {
    assert S6().docs[1].nodes + {7} == {7};
    assert {} + {101 as Ptr} == {101};
  }

  lemma FirstCan()
    ensures CanHop(S8(), FIRST)
  {
  }

  function S12(): State { FirstCan(); Hopped(S8(), FIRST) }

  lemma SecondCan()
    ensures CanHop(S12(), SECOND)
  {
    FirstCan();
  }

  function S16(): State { SecondCan(); Hopped(S12(), SECOND) }

  function BEFORE(): Run { Run([Initial, S1(), S2(), S3(), S4(), S5(), S6(), S7(), S8()], SETUP) }

  lemma BeforeValid()
    ensures Valid(BEFORE())
  {
    Starts(); Open1(); Open2(); Open3(); Named();
    hide Step, Enabled, S1, S2, S3, S4, S5, S6, S7, S8;
  }

  /** One hop, and both. */
  function ONE(): Run { FirstCan(); AddHop(BEFORE(), FIRST) }

  function TWO(): Run { FirstCan(); SecondCan(); AddHop(ONE(), SECOND) }

  lemma OneMove()
    ensures Valid(ONE()) && Move(ONE(), 8, 10, 11, 2, 0, 11, 12, 101)
  {
    FirstCan();
    BeforeValid();
    Sources();
    hide Valid, CanHop, Move, S8;
    AddHopValid(BEFORE(), FIRST);
    HopMoves(BEFORE(), FIRST);
  }

  lemma OneShape()
    ensures |ONE().events| == 12 && |ONE().states| == 13 && ONE().states[12] == S12()
  {
  }

  lemma TwoMoves()
    ensures Valid(TWO()) && |TWO().events| == 16 && TWO().states[16] == S16()
    ensures Move(TWO(), 8, 10, 11, 2, 0, 11, 12, 101) && Move(TWO(), 12, 14, 15, 3, 1, 12, 13, 102)
  {
    SecondCan();
    OneMove();
    OneShape();
    Sources();
    hide Valid, CanHop, Move, S8, S12, ONE;
    AddHopValid(ONE(), SECOND);
    HopMoves(ONE(), SECOND);
    MoveExtends(ONE(), TWO(), 8, 10, 11, 2, 0, 11, 12, 101);
  }

  lemma Sources()
    ensures 1 in S8().docs && S8().docs[1].arena == 0 && 2 in S12().docs && S12().docs[2].arena == 1
  {
    FirstCan();
  }

  /** After the second move the node's memory, in arena 0, is not covered. */
  lemma SecondUncovered()
    ensures 3 in S16().docs && 7 in S16().docs[3].nodes && 7 in S16().home && S16().home[7] == 0
    ensures !Covered(S16(), S16().docs[3], 0)
  {
    FirstCan();
    SecondCan();
    var s := S16();
    assert s.docs[3].arena == 2 && s.docs[3].dict == 13 && s.docs[3].slot == 13;
    assert s.dicts[13].retained == [1] && s.dicts[13].parent == NULL && NULL !in s.dicts;
    forall e ensures OnChain(s.dicts, s.docs[3], e) ==> e == 13 { }
  }

  /** Both moves keep to the protocol, yet the run goes on to a state in which
      document 3 reaches a node whose arena has been freed. */
  lemma DoubleHopDangles() returns (r: Run)
    ensures Valid(r) && TWO().events <= r.events
    ensures Move(r, 8, 10, 11, 2, 0, 11, 12, 101) && Move(r, 12, 14, 15, 3, 1, 12, 13, 102)
    ensures Dangles(r.states[|r.events|], 3, 7) && !Safe(r.states[|r.events|])
  {
    TwoMoves();
    SecondUncovered();
    hide TWO, Valid, Move, Covered, S16, Dangles, Safe, Inv, Continues, EndOf;
    RunLengths(TWO());
    RunSound(TWO(), 16);
    DanglesExactly(S16(), 3, 7);
    var es :| Continues(S16(), 3, es) && Dangles(EndOf(S16(), 3, es), 3, 7);
    r := Extend(TWO(), 3, es);
    RunLengths(r);
    MoveExtends(TWO(), r, 8, 10, 11, 2, 0, 11, 12, 101);
    MoveExtends(TWO(), r, 12, 14, 15, 3, 1, 12, 13, 102);
    DanglingUnsafe(r.states[|r.events|], 3, 7);
  }

  lemma DanglingUnsafe(s: State, k: DocId, n: Node)
    requires Dangles(s, k, n)
    ensures !Safe(s)
  {
  }

  /** The API graft in place of the second move: the same gap. */
  lemma GraftLeavesGap() returns (s': State)
    ensures Sound(S12()) && StepsBy(S12(), Graft(2, 3, {7}), s')
    ensures 3 in s'.docs && 7 in s'.docs[3].nodes && 7 in s'.home && s'.home[7] == 0
    ensures !AlwaysLive(s', 3, 0)
  {
    hide Inv, S12, ONE, Valid, Covered, Move, AlwaysLive, StepsBy, Step, Enabled;
    OneMove();
    OneShape();
    RunSound(ONE(), 12);
    BeforeUncovered();
    s' := GraftHere();
    GraftedNode(s');
    GraftProtectsExactly(S12(), 2, 3, {7}, 0, s');
  }

  lemma GraftHere() returns (s': State)
    ensures StepsBy(S12(), Graft(2, 3, {7}), s')
  {
    FirstCan();
    hide Step;
    s' := Step(S12(), Graft(2, 3, {7}));
  }

  lemma GraftedNode(s': State)
    requires StepsBy(S12(), Graft(2, 3, {7}), s')
    ensures 3 in s'.docs && 7 in s'.docs[3].nodes && 7 in s'.home && s'.home[7] == 0
  {
    FirstCan();
    hide PinGraft;
  }

  lemma BeforeUncovered()
    ensures 2 in S12().docs && 3 in S12().docs && S12().docs[2].arena == 1 && {7} <= S12().home.Keys
    ensures !Covered(S12(), S12().docs[3], 0)
  {
    FirstCan();
    var s := S12();
    assert s.docs[3].arena == 2 && s.docs[3].dict == 13 && s.docs[3].slot == 13;
    assert s.dicts[13] == EMPTY && NULL !in s.dicts;
    forall e ensures OnChain(s.dicts, s.docs[3], e) ==> e == 13 { }
  }

  // ── the first move alone ──────────────────────────────────────────────────

  /** The link of the first move is the only way a node comes to another document. */
  lemma OneBrings(l: nat, k: DocId, n: Node)
    requires |ONE().events| == 12 && l < 12 && Brings(ONE().events[l], k, n) && !ONE().events[l].NewNode?
    ensures l == 9 && k == 2 && n == 7
  {
    assert ONE().events == SETUP + HopEvents(FIRST);
    hide ONE;
  }

  lemma OneEnd()
    ensures |ONE().states| == 13 && HomeOf(ONE().states[9], 7) == Some(0) && OnDict(ONE().states[12], 2, 12)
  {
    FirstCan();
    assert ONE().states[9] == Unlinked(S8(), FIRST) && ONE().states[12] == S12();
    hide ONE;
    assert InChain(S12().dicts, 12, 12) && S12().docs[2].dict == 12;
  }

  /** One move alone keeps to the rule, so every state of that run is safe. */
  lemma OneMoveDisciplined(m: nat)
    requires m <= 12
    ensures Valid(ONE()) && |ONE().states| == 13 && Disciplined(ONE()) && Safe(ONE().states[m])
  {
    OneMove();
    OneEnd();
    OneShape();
    hide ONE, Valid, Move, Safe, OnDict, Step, Enabled;
    var r := ONE();
    var v := MoveAt(8, 10, 11, 2, 11, 12, 101);
    forall l: nat, k, n | l < |r.events| && Brings(r.events[l], k, n) ensures Justified(r, l, k, n) {
      if !r.events[l].NewNode? {
        OneBrings(l, k, n);
        assert MovedBy(r, 9, 2, 7, 0, v);
        assert Moved(r, 9, 2, 7, 0);
      }
    }
    DisciplinedRunsSafe(r, m);
  }
}
