/** Which names share a pointer, call by call, and what a qualified lookup interns
    (crates/compat/src/dict.rs:243-313, crates/tree/src/dict.rs:258-283). */
module QNames {
  import opened Basics
  import opened CompatState
  import opened CompatCounts
  import opened CompatSteps
  import opened Lifetime
  import opened Grafts
  import opened Interning
  import opened Sharing
  import opened History

  /** A qualified lookup interns the prefix, a colon and the name, or the name alone. */
  lemma QLookupInterns(s: State, d: Ptr, prefix: Bytes, local: Bytes, addr: Ptr, b: Bytes)
    requires Enabled(s, DictQLookup(d, prefix, local, addr)) && d != NULL && Joins(prefix, local, b)
    ensures Step(s, DictQLookup(d, prefix, local, addr)) == Intern(s, d, b, addr)
  {
    QNameJoins(prefix, local, b);
    hide Intern;
  }

  // ── one name, one pointer ─────────────────────────────────────────────────

  lemma RootStays(r: Run, m: nat, n: nat, d: Ptr)
    requires Valid(r) && LiveBetween(r, m, n, d) && r.states[m].dicts[d].parent == NULL
    ensures Root(r.states[n], d)
  {
    hide Step, Enabled, Inv;
    DictGrows(r, m, n, d);
    ReachableShape(r, n, d);
  }

  /** After a call on a live root the name it interned is stored where it answered. */
  lemma AnswerStored(r: Run, i: nat, d: Ptr, b: Bytes)
    requires Valid(r) && i < |r.events| && Interns(r.events[i], d, b)
    requires d in r.states[i].dicts && r.states[i].dicts[d].parent == NULL && d in r.states[i + 1].dicts
    ensures b in r.states[i + 1].dicts[d].table
    ensures r.states[i + 1].dicts[d].table[b] == InternPtr(r.states[i], d, b, r.events[i].addr)
  {
    hide Step, Enabled, Inv, Interns, InternFind, LookupFind;
    var s, e, s' := r.states[i], r.events[i], r.states[i + 1];
    assert Enabled(s, e) && s' == Step(s, e);
    assert LiveBetween(r, i, i + 1, d);
    RootStays(r, i, i, d);
    RootFind(s, d, b);
    if InternFind(s, d, b) == NULL {
      InternedNow(s, e, s', d, b);
    } else {
      DictGrows(r, i, i + 1, d);
    }
  }

  /** On a live root dictionary two interning calls, however far apart and whatever
      happens between them, answer one pointer if and only if they intern one name. */
  lemma NamesApart(r: Run, i: nat, j: nat, d: Ptr, x: Bytes, y: Bytes)
    requires Valid(r) && i < j < |r.events| && LiveBetween(r, i, j + 1, d) && r.states[i].dicts[d].parent == NULL
    requires Interns(r.events[i], d, x) && Interns(r.events[j], d, y)
    ensures InternPtr(r.states[i], d, x, r.events[i].addr) == InternPtr(r.states[j], d, y, r.events[j].addr) <==> x == y
  {
    hide Step, Enabled, Inv, Interns, InternPtr;
    assert d in r.states[i].dicts && d in r.states[i + 1].dicts && d in r.states[j].dicts && d in r.states[j + 1].dicts;
    AnswerStored(r, i, d, x);
    RootStays(r, i, j, d) by { assert LiveBetween(r, i, j, d); }
    AnswerStored(r, j, d, y);
    assert LiveBetween(r, i + 1, j + 1, d);
    DictGrows(r, i + 1, j + 1, d);
    ReachableShape(r, j + 1, d);
    assert TableOk(r.states[j + 1].dicts[d]);
  }

  // ── qualified names ───────────────────────────────────────────────────────

  const COLON: Byte := 58

  /** No colon before the one that joins. */
  predicate Plain(prefix: Bytes, local: Bytes) { COLON !in prefix && (prefix == [] ==> COLON !in local) }

  lemma SplitOnce(p: Bytes, n: Bytes, q: Bytes, m: Bytes, b: Bytes)
    requires Plain(p, n) && Plain(q, m) && Joins(p, n, b) && Joins(q, m, b)
    ensures p == q && n == m
  {
    if p == [] || q == [] {
      assert p != [] ==> COLON in b;
      assert q != [] ==> COLON in b;
    } else {
      forall k | 0 <= k < |p| ensures b[k] != COLON { assert b[..|p|][k] in p; }
      forall k | 0 <= k < |q| ensures b[k] != COLON { assert b[..|q|][k] in q; }
      assert |p| == |q|;
    }
  }

  /** Two qualified lookups on a live root dictionary answer one pointer if and only if
      both parts agree. */
  lemma QNamesApart(r: Run, i: nat, j: nat, d: Ptr, x: Bytes, y: Bytes)
    requires Valid(r) && i < j < |r.events| && LiveBetween(r, i, j + 1, d) && r.states[i].dicts[d].parent == NULL
    requires r.events[i].DictQLookup? && r.events[j].DictQLookup? && r.events[i].d == r.events[j].d == d != NULL
    requires Plain(r.events[i].prefix, r.events[i].local) && Plain(r.events[j].prefix, r.events[j].local)
    requires Joins(r.events[i].prefix, r.events[i].local, x) && Joins(r.events[j].prefix, r.events[j].local, y)
    ensures InternPtr(r.states[i], d, x, r.events[i].addr) == InternPtr(r.states[j], d, y, r.events[j].addr) <==>
      r.events[i].prefix == r.events[j].prefix && r.events[i].local == r.events[j].local
  {
    hide Step, Enabled, Inv, InternPtr;
    var e, f := r.events[i], r.events[j];
    NamesApart(r, i, j, d, x, y);
    if x == y {
      SplitOnce(e.prefix, e.local, f.prefix, f.local, x);
    } else if e.prefix == f.prefix && e.local == f.local {
      QNameJoins(e.prefix, e.local, x);
      QNameJoins(e.prefix, e.local, y);
    }
  }

  /** With a colon in a prefix two different pairs join to one name. */
  lemma QNamesCollide(a: Byte, b: Byte, c: Byte)
    ensures Joins([a, COLON, b], [c], [a, COLON, b, COLON, c]) && Joins([a], [b, COLON, c], [a, COLON, b, COLON, c])
  {
  }
}
