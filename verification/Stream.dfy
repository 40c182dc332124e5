/** The two streaming runners over parser events, against the tree the events were
    written from (crates/bench/benches/stream.rs:44-199). */
module Stream {
  import opened Basics

  datatype Attr = Attr(name: string, value: string)

  /** `terse` says that an element without children is written as one empty tag. */
  datatype Tree =
    | Element(name: string, attrs: seq<Attr>, kids: seq<Tree>, terse: bool)
    | Text(text: string)
    | CData(text: string)
    | Aside

  datatype Event = Start(name: string, attrs: seq<Attr>) | Empty(name: string, attrs: seq<Attr>) | End
                 | Chars(text: string) | CDataChars(text: string) | Misc

  function Written(t: Tree): seq<Event>
    decreases t
  {
    match t
    case Element(name, attrs, kids, terse) =>
      if kids == [] && terse then [Empty(name, attrs)]
      else [Start(name, attrs)] + AllWritten(t, |kids|) + [End]
    case Text(s) => [Chars(s)]
    case CData(s) => [CDataChars(s)]
    case Aside => [Misc]
  }

  /** The first `n` children of an element. */
  function AllWritten(t: Tree, n: nat): seq<Event>
    requires t.Element? && n <= |t.kids|
    decreases t, n
  {
    if n == 0 then [] else AllWritten(t, n - 1) + Written(t.kids[n - 1])
  }

  /** Before and after the root there are no elements. */
  predicate Outside(e: Event) { e.Chars? || e.CDataChars? || e.Misc? }

  ghost predicate Outsides(es: seq<Event>) { forall e :: e in es ==> Outside(e) }

  function Document(before: seq<Event>, root: Tree, after: seq<Event>): seq<Event> { before + Written(root) + after }

  predicate IsEntry(t: Tree) { t.Element? && t.name == "Entry" }

  // ── counting ──────────────────────────────────────────────────────────────

  datatype Counter = Counter(n: nat, depth: nat, path: seq<string>)

  function CountEvent(s: Counter, e: Event): Counter {
    match e
    case Start(name, _) =>
      var path := s.path + [name];
      var hit := s.depth + 1 == 2 && |path| > 1 && path[0] == "root" && path[1] == "Entry";
      Counter(if hit then s.n + 1 else s.n, s.depth + 1, path)
    case Empty(name, _) =>
      if s.depth == 1 && s.path != [] && s.path[0] == "root" && name == "Entry" then s.(n := s.n + 1) else s
    case End =>
      Counter(s.n, if s.depth == 0 then 0 else s.depth - 1, if s.path == [] then [] else s.path[..|s.path| - 1])
    case _ => s
  }

  function CountEvents(s: Counter, es: seq<Event>): Counter
    decreases |es|
  {
    if es == [] then s else CountEvents(CountEvent(s, es[0]), es[1..])
  }

  /** The reference: the `Entry` children of a root named `root`. */
  function Entries(kids: seq<Tree>): nat {
    if kids == [] then 0 else Entries(kids[..|kids| - 1]) + (if IsEntry(kids[|kids| - 1]) then 1 else 0)
  }

  function EntriesOfRoot(root: Tree): nat { if root.Element? && root.name == "root" then Entries(root.kids) else 0 }

  lemma {:induction false} CountJoins(s: Counter, a: seq<Event>, b: seq<Event>)
    ensures CountEvents(s, a + b) == CountEvents(CountEvents(s, a), b)
    decreases |a|
  {
    if a == [] {
      assert a + b == b;
    } else {
      assert (a + b)[0] == a[0] && (a + b)[1..] == a[1..] + b;
      CountJoins(CountEvent(s, a[0]), a[1..], b);
    }
  }

  /** On any events at all, balanced or not, `depth` is the length of `path`. */
  lemma {:induction false} DepthIsPathLength(s: Counter, es: seq<Event>)
    requires s.depth == |s.path|
    ensures CountEvents(s, es).depth == |CountEvents(s, es).path|
    decreases |es|
  {
    if es != [] { DepthIsPathLength(CountEvent(s, es[0]), es[1..]); }
  }

  /** What a subtree standing under `path` adds to the count. */
  function Hits(path: seq<string>, t: Tree): nat
    decreases t
  {
    if !t.Element? then 0
    else
      (if |path| == 1 && path[0] == "root" && t.name == "Entry" then 1 else 0) + HitsBelow(path, t, |t.kids|)
  }

  function HitsBelow(path: seq<string>, t: Tree, n: nat): nat
    requires t.Element? && n <= |t.kids|
    decreases t, n
  {
    if n == 0 then 0 else HitsBelow(path, t, n - 1) + Hits(path + [t.name], t.kids[n - 1])
  }

  lemma {:induction false} CountTree(s: Counter, t: Tree)
    requires s.depth == |s.path|
    ensures CountEvents(s, Written(t)) == s.(n := s.n + Hits(s.path, t))
    decreases t
  {
    hide CountEvents, AllWritten, HitsBelow;
    if t.Element? && !(t.kids == [] && t.terse) {
      var start := Start(t.name, t.attrs);
      var s1 := CountEvent(s, start);
      assert s1.path[..|s1.path| - 1] == s.path;
      CountJoins(s, [start] + AllWritten(t, |t.kids|), [End]);
      CountJoins(s, [start], AllWritten(t, |t.kids|));
      One(s, start);
      CountKids(s1, t, |t.kids|);
      One(CountEvents(s1, AllWritten(t, |t.kids|)), End);
    } else {
      NoKids(s.path, t);
      One(s, Written(t)[0]);
    }
  }

  lemma NoKids(path: seq<string>, t: Tree)
    ensures t.Element? && t.kids == [] ==> HitsBelow(path, t, |t.kids|) == 0
  {
  }

  lemma One(s: Counter, e: Event)
    ensures CountEvents(s, [e]) == CountEvent(s, e)
  {
    assert [e][1..] == [];
  }

  lemma {:induction false} CountKids(s: Counter, t: Tree, n: nat)
    requires t.Element? && n <= |t.kids| && s.path != [] && s.path[|s.path| - 1] == t.name && s.depth == |s.path|
    ensures CountEvents(s, AllWritten(t, n)) == s.(n := s.n + HitsBelow(s.path[..|s.path| - 1], t, n))
    decreases t, n
  {
    if n > 0 {
      CountJoins(s, AllWritten(t, n - 1), Written(t.kids[n - 1]));
      CountKids(s, t, n - 1);
      CountTree(CountEvents(s, AllWritten(t, n - 1)), t.kids[n - 1]);
      assert s.path[..|s.path| - 1] + [t.name] == s.path;
    }
  }

  lemma {:induction false} DeepMisses(path: seq<string>, t: Tree)
    requires |path| >= 2
    ensures Hits(path, t) == 0
    decreases t
  {
    if t.Element? { DeepMissesBelow(path, t, |t.kids|); }
  }

  lemma {:induction false} DeepMissesBelow(path: seq<string>, t: Tree, n: nat)
    requires |path| >= 1 && t.Element? && n <= |t.kids|
    ensures HitsBelow(path, t, n) == 0
    decreases t, n
  {
    if n > 0 {
      DeepMissesBelow(path, t, n - 1);
      DeepMisses(path + [t.name], t.kids[n - 1]);
    }
  }

  lemma {:induction false} RootHits(root: Tree, n: nat)
    requires root.Element? && n <= |root.kids|
    ensures HitsBelow([], root, n) == if root.name == "root" then Entries(root.kids[..n]) else 0
  {
    if n > 0 {
      RootHits(root, n - 1);
      var kid := root.kids[n - 1];
      assert [] + [root.name] == [root.name];
      if kid.Element? { DeepMissesBelow([root.name], kid, |kid.kids|); }
      assert root.kids[..n][..n - 1] == root.kids[..n - 1];
    }
  }

  lemma {:induction false} OutsideCounts(s: Counter, es: seq<Event>)
    requires Outsides(es)
    ensures CountEvents(s, es) == s
    decreases |es|
  {
    if es != [] {
      assert Outside(es[0]);
      OutsideCounts(CountEvent(s, es[0]), es[1..]);
    }
  }

  /** On the events of any document, however its childless elements are written, the
      counter ends at the number of `Entry` children of a root named `root`. */
  lemma CountsEntries(before: seq<Event>, root: Tree, after: seq<Event>)
    requires Outsides(before) && root.Element? && Outsides(after)
    ensures CountEvents(Counter(0, 0, []), Document(before, root, after)) == Counter(EntriesOfRoot(root), 0, [])
  {
    var s := Counter(0, 0, []);
    CountJoins(s, before + Written(root), after);
    CountJoins(s, before, Written(root));
    OutsideCounts(s, before);
    CountTree(s, root);
    RootHits(root, |root.kids|);
    assert root.kids[..|root.kids|] == root.kids;
    OutsideCounts(CountEvents(s, Written(root)), after);
  }

  method RunCount(es: seq<Event>) returns (n: nat)
    ensures n == CountEvents(Counter(0, 0, []), es).n
  {
    n := 0;
    var depth: nat, path: seq<string> := 0, [];
    var i := 0;
    assert es[0..] == es;
    while i < |es|
      invariant i <= |es| && depth == |path|
      invariant CountEvents(Counter(n, depth, path), es[i..]) == CountEvents(Counter(0, 0, []), es)
    {
      assert es[i..][1..] == es[i + 1..];
      match es[i] {
        case Start(name, _) =>
          depth := depth + 1;
          path := path + [name];
          if depth == 2 && path[0] == "root" && path[1] == "Entry" { n := n + 1; }
        case Empty(name, _) =>
          if depth == 1 && path[0] == "root" && name == "Entry" { n := n + 1; }
        case End =>
          if path != [] { path := path[..|path| - 1]; }
          if depth > 0 { depth := depth - 1; }
        case _ =>
      }
      i := i + 1;
    }
    assert es[i..] == [];
  }
}
