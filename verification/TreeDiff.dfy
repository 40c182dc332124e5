/** The structural diff of two parsed documents (crates/cli/src/main.rs:1615-1737):
    what it reports, as a function of the two trees.  Lines are structured records;
    their wording is not modelled. */
module TreeDiff {
  import opened Basics

  datatype Attr = Attr(name: string, value: string)

  /** `Other` stands for every kind the diff's last arm takes together. */
  datatype Node =
    | Element(name: string, attrs: seq<Attr>, children: seq<Node>)
    | Text(content: string)
    | CData(content: string)
    | Comment(content: string)
    | Pi(target: string, content: string)
    | Other(code: nat, text: string)

  datatype Kind = ElementKind | TextKind | CDataKind | CommentKind | PiKind | OtherKind(code: nat)

  /** One step of a reported path; the first element of a name has index 1. */
  datatype Label = Elem(name: string, index: nat) | TextStep | CommentStep | PiStep(target: string) | AnyStep

  type Path = seq<Label>

  datatype Line =
    | KindChange(path: Path, was: Kind, now: Kind)
    | NameChange(path: Path, wasName: string, nowName: string)
    | AttrChange(path: Path, attr: string, wasValue: string, nowValue: string)
    | AttrRemoved(path: Path, attr: string, wasValue: string)
    | AttrAdded(path: Path, attr: string, nowValue: string)
    | TextChange(path: Path, wasText: string, nowText: string)
    | CommentChange(path: Path, wasText: string, nowText: string)
    | PiChange(path: Path, wasName: string, wasText: string, nowName: string, nowText: string)
    | Removed(path: Path)
    | Added(path: Path)

  function KindOf(n: Node): Kind {
    match n
    case Element(_, _, _) => ElementKind
    case Text(_) => TextKind
    case CData(_) => CDataKind
    case Comment(_) => CommentKind
    case Pi(_, _) => PiKind
    case Other(c, _) => OtherKind(c)
  }

  // ── attributes ────────────────────────────────────────────────────────────

  /** Lexicographic order of names. */
  predicate Leq(a: string, b: string) {
    a == "" || (b != "" && (a[0] < b[0] || (a[0] == b[0] && Leq(a[1..], b[1..]))))
  }

  /** After every attribute whose name is not greater. */
  function Insert(x: Attr, s: seq<Attr>): seq<Attr> {
    if s == [] || Leq(s[|s| - 1].name, x.name) then s + [x] else Insert(x, s[..|s| - 1]) + [s[|s| - 1]]
  }

  /** The stable sort by name. */
  function Sort(s: seq<Attr>): seq<Attr> { if s == [] then [] else Insert(s[|s| - 1], Sort(s[..|s| - 1])) }

  /** The value of the first attribute of that name. */
  function Find(s: seq<Attr>, name: string): Option<string> {
    if s == [] then None else if s[0].name == name then Some(s[0].value) else Find(s[1..], name)
  }

  function LeftLine(path: Path, a: Attr, rs: seq<Attr>): seq<Line> {
    match Find(rs, a.name)
    case Some(rv) => if rv != a.value then [AttrChange(path, a.name, a.value, rv)] else []
    case None => [AttrRemoved(path, a.name, a.value)]
  }

  function RightLine(path: Path, b: Attr, ls: seq<Attr>): seq<Line> {
    if Find(ls, b.name).None? then [AttrAdded(path, b.name, b.value)] else []
  }

  function LeftLines(path: Path, ls: seq<Attr>, rs: seq<Attr>): seq<Line> {
    if ls == [] then [] else LeftLines(path, ls[..|ls| - 1], rs) + LeftLine(path, ls[|ls| - 1], rs)
  }

  function RightLines(path: Path, rs: seq<Attr>, ls: seq<Attr>): seq<Line> {
    if rs == [] then [] else RightLines(path, rs[..|rs| - 1], ls) + RightLine(path, rs[|rs| - 1], ls)
  }

  function AttrLines(path: Path, l: seq<Attr>, r: seq<Attr>): seq<Line> {
    LeftLines(path, Sort(l), Sort(r)) + RightLines(path, Sort(r), Sort(l))
  }

  // ── children ──────────────────────────────────────────────────────────────

  /** The nodes labels are counted over: the left children, then what the right has more. */
  function Merged(l: seq<Node>, r: seq<Node>): (m: seq<Node>)
    ensures |m| == (if |l| >= |r| then |l| else |r|)
    ensures forall i :: 0 <= i < |m| ==> m[i] == if i < |l| then l[i] else r[i]
  {
    if |l| >= |r| then l else l + r[|l|..]
  }

  /** Elements named `name`. */
  function CountName(s: seq<Node>, name: string): nat {
    if s == [] then 0
    else CountName(s[..|s| - 1], name) + (if s[|s| - 1].Element? && s[|s| - 1].name == name then 1 else 0)
  }

  function LabelOf(n: Node, earlier: seq<Node>): Label {
    match n
    case Element(name, _, _) => Elem(name, CountName(earlier, name) + 1)
    case Text(_) => TextStep
    case CData(_) => TextStep
    case Comment(_) => CommentStep
    case Pi(target, _) => PiStep(target)
    case Other(_, _) => AnyStep
  }

  function LabelAt(s: seq<Node>, i: nat): Label
    requires i < |s|
  {
    LabelOf(s[i], s[..i])
  }

  function ContentLines(l: Node, r: Node, path: Path): seq<Line>
    requires KindOf(l) == KindOf(r) && !l.Element?
  {
    match l
    case Text(x) => if x != r.content then [TextChange(path, x, r.content)] else []
    case CData(x) => if x != r.content then [TextChange(path, x, r.content)] else []
    case Comment(x) => if x != r.content then [CommentChange(path, x, r.content)] else []
    case Pi(t, x) => if t != r.target || x != r.content then [PiChange(path, t, x, r.target, r.content)] else []
    case Other(_, _) => []
  }

  /** Everything `diff_node` reports. */
  function Diff(l: Node, r: Node, path: Path): seq<Line>
    decreases l
  {
    if KindOf(l) != KindOf(r) then [KindChange(path, KindOf(l), KindOf(r))]
    else if !l.Element? then ContentLines(l, r, path)
    else if l.name != r.name then [NameChange(path, l.name, r.name)]
    else AttrLines(path, l.attrs, r.attrs) + KidLines(l, r, |Merged(l.children, r.children)|, path)
  }

  /** What the first `n` child positions contribute. */
  function KidLines(l: Node, r: Node, n: nat, path: Path): seq<Line>
    requires l.Element? && r.Element? && n <= |Merged(l.children, r.children)|
    decreases l, n
  {
    if n == 0 then [] else KidLines(l, r, n - 1, path) + KidLine(l, r, n - 1, path)
  }

  function KidLine(l: Node, r: Node, i: nat, path: Path): seq<Line>
    requires l.Element? && r.Element? && i < |Merged(l.children, r.children)|
    decreases l, i
  {
    var at := path + [LabelAt(Merged(l.children, r.children), i)];
    if i < |l.children| && i < |r.children| then Diff(l.children[i], r.children[i], at)
    else if i < |l.children| then [Removed(at)]
    else [Added(at)]
  }

  // ── what it means ─────────────────────────────────────────────────────────

  /** Equal up to the order of attributes; nodes of the catch-all kinds by kind only. */
  ghost predicate Same(l: Node, r: Node)
    decreases l
  {
    match l
    case Element(name, attrs, children) =>
      && r.Element? && r.name == name && multiset(attrs) == multiset(r.attrs)
      && |children| == |r.children|
      && forall i :: 0 <= i < |children| ==> Same(children[i], r.children[i])
    case Other(c, _) => r.Other? && r.code == c
    case _ => r == l
  }

  ghost predicate NamesDistinct(s: seq<Attr>) { forall i, j :: 0 <= i < j < |s| ==> s[i].name != s[j].name }

  /** No element has two attributes of one name. */
  ghost predicate WellNamed(n: Node)
    decreases n
  {
    n.Element? ==> NamesDistinct(n.attrs) && forall i :: 0 <= i < |n.children| ==> WellNamed(n.children[i])
  }

  // ── attributes: exactness and symmetry ────────────────────────────────────

  function Names(s: seq<Attr>): set<string> { set a | a in s :: a.name }

  lemma Snoc(s: seq<Attr>, x: Attr)
    ensures Names(s + [x]) == Names(s) + {x.name}
    ensures NamesDistinct(s + [x]) <==> NamesDistinct(s) && x.name !in Names(s)
  {
    var t := s + [x];
    assert forall i :: 0 <= i < |s| ==> t[i] == s[i];
    assert t[|s|] == x;
    assert forall n :: n in Names(s) <==> exists i :: 0 <= i < |s| && s[i].name == n;
    assert forall n :: n in Names(t) <==> exists i :: 0 <= i < |t| && t[i].name == n;
  }

  lemma {:induction false} InsertKeeps(x: Attr, s: seq<Attr>)
    requires NamesDistinct(s) && x.name !in Names(s)
    ensures multiset(Insert(x, s)) == multiset(s) + multiset{x}
    ensures NamesDistinct(Insert(x, s)) && Names(Insert(x, s)) == Names(s) + {x.name}
  {
    hide NamesDistinct, Names;
    if s == [] || Leq(s[|s| - 1].name, x.name) {
      Snoc(s, x);
    } else {
      var init, last := s[..|s| - 1], s[|s| - 1];
      assert s == init + [last];
      Snoc(init, last);
      InsertKeeps(x, init);
      Snoc(Insert(x, init), last);
    }
  }

  /** Sorting permutes the attributes and keeps their names distinct. */
  lemma {:induction false} SortKeeps(s: seq<Attr>)
    requires NamesDistinct(s)
    ensures multiset(Sort(s)) == multiset(s) && NamesDistinct(Sort(s)) && Names(Sort(s)) == Names(s)
  {
    hide NamesDistinct, Names;
    if s == [] {
    } else {
      var init, last := s[..|s| - 1], s[|s| - 1];
      assert s == init + [last];
      Snoc(init, last);
      SortKeeps(init);
      InsertKeeps(last, Sort(init));
    }
  }

  predicate Ordered(s: seq<Attr>) { forall i :: 0 < i < |s| ==> Leq(s[i - 1].name, s[i].name) }

  lemma {:induction false} LeqTotal(a: string, b: string)
    ensures Leq(a, b) || Leq(b, a)
  {
    if a != "" && b != "" { LeqTotal(a[1..], b[1..]); }
  }

  lemma {:induction false} InsertOrdered(x: Attr, s: seq<Attr>)
    requires Ordered(s)
    ensures Ordered(Insert(x, s)) && Insert(x, s) != []
    ensures Insert(x, s)[|Insert(x, s)| - 1] == x || (s != [] && Insert(x, s)[|Insert(x, s)| - 1] == s[|s| - 1])
  {
    if s != [] && !Leq(s[|s| - 1].name, x.name) {
      InsertOrdered(x, s[..|s| - 1]);
      LeqTotal(s[|s| - 1].name, x.name);
    }
  }

  lemma {:induction false} SortOrdered(s: seq<Attr>)
    ensures Ordered(Sort(s))
  {
    if s != [] {
      SortOrdered(s[..|s| - 1]);
      InsertOrdered(s[|s| - 1], Sort(s[..|s| - 1]));
    }
  }

  function Named(s: seq<Attr>, name: string): seq<Attr> {
    if s == [] then []
    else Named(s[..|s| - 1], name) + (if s[|s| - 1].name == name then [s[|s| - 1]] else [])
  }

  lemma {:induction false} LeqReflexive(a: string)
    ensures Leq(a, a)
  {
    if a != "" { LeqReflexive(a[1..]); }
  }

  lemma {:induction false} InsertStable(x: Attr, s: seq<Attr>, name: string)
    ensures Named(Insert(x, s), name) == Named(s + [x], name)
  {
    assert (s + [x])[..|s|] == s;
    if s != [] && !Leq(s[|s| - 1].name, x.name) {
      var init, last := s[..|s| - 1], s[|s| - 1];
      InsertStable(x, init, name);
      LeqReflexive(x.name);
      assert Insert(x, s)[..|Insert(x, s)| - 1] == Insert(x, init);
      assert (init + [x])[..|init|] == init;
    }
  }

  /** Attributes of one name keep their order. */
  lemma {:induction false} SortStable(s: seq<Attr>, name: string)
    ensures Named(Sort(s), name) == Named(s, name)
  {
    if s != [] {
      var init, last := s[..|s| - 1], s[|s| - 1];
      SortStable(init, name);
      InsertStable(last, Sort(init), name);
      assert (Sort(init) + [last])[..|Sort(init)|] == Sort(init);
    }
  }

  lemma {:induction false} FindIs(s: seq<Attr>, name: string)
    requires NamesDistinct(s)
    ensures forall v :: Find(s, name) == Some(v) <==> Attr(name, v) in s
    ensures Find(s, name).None? <==> forall a :: a in s ==> a.name != name
  {
    if s != [] {
      FindIs(s[1..], name);
      assert s == [s[0]] + s[1..];
    }
  }

  lemma SameFinds(l: seq<Attr>, r: seq<Attr>, n: string)
    requires NamesDistinct(l) && NamesDistinct(r) && multiset(l) == multiset(r)
    ensures Find(l, n) == Find(r, n)
  {
    FindIs(l, n);
    FindIs(r, n);
    forall a ensures a in l <==> a in r { assert multiset(l)[a] == multiset(r)[a]; }
    if Find(l, n).Some? { assert Attr(n, Find(l, n).value) in r; }
    if Find(r, n).Some? { assert Attr(n, Find(r, n).value) in l; }
  }

  lemma FoundNames(s: seq<Attr>, n: string)
    requires NamesDistinct(s)
    ensures n in Names(s) <==> Find(s, n).Some?
  {
    FindIs(s, n);
  }

  /** The names on which two attribute lists disagree. */
  function Differing(among: set<string>, l: seq<Attr>, r: seq<Attr>): set<string> {
    set n | n in among && Find(l, n) != Find(r, n)
  }

  lemma DifferingGrows(among: set<string>, n: string, l: seq<Attr>, r: seq<Attr>)
    requires n !in among
    ensures |Differing(among + {n}, l, r)| == |Differing(among, l, r)| + (if Find(l, n) != Find(r, n) then 1 else 0)
  {
    var before := Differing(among, l, r);
    assert Differing(among + {n}, l, r) == if Find(l, n) != Find(r, n) then before + {n} else before;
  }

  lemma {:induction false} LeftCount(path: Path, part: seq<Attr>, ls: seq<Attr>, rs: seq<Attr>)
    requires NamesDistinct(part) && NamesDistinct(ls) && forall a :: a in part ==> a in ls
    ensures |LeftLines(path, part, rs)| == |Differing(Names(part), ls, rs)|
  {
    if part == [] {
      assert Differing(Names(part), ls, rs) == {};
    } else {
      var init, a := part[..|part| - 1], part[|part| - 1];
      assert part == init + [a];
      Snoc(init, a);
      LeftCount(path, init, ls, rs);
      FindIs(ls, a.name);
      assert a in ls && Attr(a.name, a.value) == a;
      hide Find, Names, NamesDistinct, Differing;
      DifferingGrows(Names(init), a.name, ls, rs);
    }
  }

  lemma {:induction false} RightCount(path: Path, rs: seq<Attr>, ls: seq<Attr>)
    requires NamesDistinct(rs) && NamesDistinct(ls)
    ensures |RightLines(path, rs, ls)| == |Names(rs) - Names(ls)|
  {
    if rs == [] {
      assert Names(rs) - Names(ls) == {};
    } else {
      var init, b := rs[..|rs| - 1], rs[|rs| - 1];
      assert rs == init + [b];
      Snoc(init, b);
      RightCount(path, init, ls);
      FoundNames(ls, b.name);
      hide Find, Names, NamesDistinct;
      MinusGrows(Names(init), b.name, Names(ls));
    }
  }

  lemma MinusGrows(among: set<string>, n: string, known: set<string>)
    requires n !in among
    ensures |(among + {n}) - known| == |among - known| + (if n in known then 0 else 1)
  {
    assert (among + {n}) - known == if n in known then among - known else (among - known) + {n};
  }

  /** One line for each name on which the two lists disagree. */
  lemma AttrCount(path: Path, l: seq<Attr>, r: seq<Attr>)
    requires NamesDistinct(l) && NamesDistinct(r)
    ensures |AttrLines(path, l, r)| == |Differing(Names(l) + Names(r), l, r)|
  {
    SortKeeps(l);
    SortKeeps(r);
    var ls, rs := Sort(l), Sort(r);
    LeftCount(path, ls, ls, rs);
    RightCount(path, rs, ls);
    hide LeftLines, RightLines, NamesDistinct, Names, Find, Sort, Differing;
    DifferingSorted(Names(l), l, r);
    DifferingSplits(l, r);
  }

  lemma DifferingSorted(among: set<string>, l: seq<Attr>, r: seq<Attr>)
    requires NamesDistinct(l) && NamesDistinct(r)
    ensures Differing(among, Sort(l), Sort(r)) == Differing(among, l, r)
  {
    SortKeeps(l);
    SortKeeps(r);
    hide Sort, Find, NamesDistinct;
    forall n ensures Find(Sort(l), n) == Find(l, n) && Find(Sort(r), n) == Find(r, n) {
      SameFinds(l, Sort(l), n);
      SameFinds(r, Sort(r), n);
    }
  }

  lemma DifferingSplits(l: seq<Attr>, r: seq<Attr>)
    requires NamesDistinct(l) && NamesDistinct(r)
    ensures |Differing(Names(l) + Names(r), l, r)| == |Differing(Names(l), l, r)| + |Names(r) - Names(l)|
  {
    forall n ensures n in Names(l) <==> Find(l, n).Some? { FoundNames(l, n); }
    forall n ensures n in Names(r) <==> Find(r, n).Some? { FoundNames(r, n); }
    hide Names, NamesDistinct, Find;
    var left, right := Differing(Names(l), l, r), Names(r) - Names(l);
    assert Differing(Names(l) + Names(r), l, r) == left + right && left !! right;
  }

  /** No attribute line exactly when both lists hold the same attributes. */
  lemma AttrExact(path: Path, l: seq<Attr>, r: seq<Attr>)
    requires NamesDistinct(l) && NamesDistinct(r)
    ensures AttrLines(path, l, r) == [] <==> multiset(l) == multiset(r)
  {
    AttrCount(path, l, r);
    hide AttrLines, NamesDistinct, Find, Names;
    var d := Differing(Names(l) + Names(r), l, r);
    if multiset(l) == multiset(r) {
      forall n ensures Find(l, n) == Find(r, n) { SameFinds(l, r, n); }
      assert d == {};
    }
    if d == {} {
      forall n ensures Find(l, n) == Find(r, n) {
        FoundNames(l, n);
        FoundNames(r, n);
        assert n !in d;
      }
      forall a: Attr ensures a in l <==> a in r {
        FindIs(l, a.name);
        FindIs(r, a.name);
        assert a == Attr(a.name, a.value);
      }
      SameBag(l, r);
    }
  }

  lemma {:induction false} OnceEach(s: seq<Attr>, a: Attr)
    requires NamesDistinct(s)
    ensures multiset(s)[a] == if a in s then 1 else 0
  {
    if s != [] {
      var n := |s| - 1;
      assert s == s[..n] + [s[n]];
      OnceEach(s[..n], a);
    }
  }

  lemma SameBag(l: seq<Attr>, r: seq<Attr>)
    requires NamesDistinct(l) && NamesDistinct(r) && forall a :: a in l <==> a in r
    ensures multiset(l) == multiset(r)
  {
    forall a ensures multiset(l)[a] == multiset(r)[a] {
      OnceEach(l, a);
      OnceEach(r, a);
    }
  }

  // ── the whole tree ────────────────────────────────────────────────────────

  /** The diff is empty exactly for trees equal up to attribute order. */
  lemma {:induction false} DiffExact(l: Node, r: Node, path: Path)
    requires WellNamed(l) && WellNamed(r)
    ensures Diff(l, r, path) == [] <==> Same(l, r)
    decreases l
  {
    hide AttrLines, Merged, NamesDistinct, LabelAt;
    if l.Element? && r.Element? && l.name == r.name {
      AttrExact(path, l.attrs, r.attrs);
      KidsExact(l, r, |Merged(l.children, r.children)|, path);
      KidsSame(l, r);
    }
  }

  lemma KidsSame(l: Node, r: Node)
    requires l.Element? && r.Element?
    ensures (forall i :: 0 <= i < |Merged(l.children, r.children)| ==> SameAt(l, r, i)) <==>
      |l.children| == |r.children| && forall i :: 0 <= i < |l.children| ==> Same(l.children[i], r.children[i])
  {
    hide Same;
    var n := |Merged(l.children, r.children)|;
    assert |l.children| < n ==> !SameAt(l, r, n - 1);
    assert |r.children| < n ==> !SameAt(l, r, n - 1);
    assert forall i :: 0 <= i < |l.children| && i < |r.children| ==> (SameAt(l, r, i) <==> Same(l.children[i], r.children[i]));
  }

  ghost predicate SameAt(l: Node, r: Node, i: nat)
    requires l.Element? && r.Element?
  {
    i < |l.children| && i < |r.children| && Same(l.children[i], r.children[i])
  }

  lemma {:induction false} KidsExact(l: Node, r: Node, n: nat, path: Path)
    requires WellNamed(l) && WellNamed(r) && l.Element? && r.Element? && n <= |Merged(l.children, r.children)|
    ensures KidLines(l, r, n, path) == [] <==> forall i :: 0 <= i < n ==> SameAt(l, r, i)
    decreases l, n
  {
    if n > 0 {
      KidsExact(l, r, n - 1, path);
      var i := n - 1;
      if i < |l.children| && i < |r.children| {
        DiffExact(l.children[i], r.children[i], path + [LabelAt(Merged(l.children, r.children), i)]);
      }
      assert KidLine(l, r, i, path) == [] <==> SameAt(l, r, i);
    }
  }

  // ── an equivalence, and as long both ways ─────────────────────────────────

  lemma {:induction false} SameReflexive(l: Node)
    ensures Same(l, l)
    decreases l
  {
    if l.Element? {
      forall i | 0 <= i < |l.children| ensures Same(l.children[i], l.children[i]) { SameReflexive(l.children[i]); }
    }
  }

  lemma {:induction false} SameSymmetric(l: Node, r: Node)
    requires Same(l, r)
    ensures Same(r, l)
    decreases l
  {
    if l.Element? {
      forall i | 0 <= i < |r.children| ensures Same(r.children[i], l.children[i]) {
        SameSymmetric(l.children[i], r.children[i]);
      }
    }
  }

  lemma {:induction false} SameTransitive(a: Node, b: Node, c: Node)
    requires Same(a, b) && Same(b, c)
    ensures Same(a, c)
    decreases a
  {
    if a.Element? {
      forall i | 0 <= i < |a.children| ensures Same(a.children[i], c.children[i]) {
        SameTransitive(a.children[i], b.children[i], c.children[i]);
      }
    }
  }

  /** Having an empty diff is an equivalence relation. */
  lemma EmptyDiffEquivalence(a: Node, b: Node, c: Node, path: Path)
    requires WellNamed(a) && WellNamed(b) && WellNamed(c)
    ensures Diff(a, a, path) == []
    ensures Diff(a, b, path) == [] ==> Diff(b, a, path) == []
    ensures Diff(a, b, path) == [] && Diff(b, c, path) == [] ==> Diff(a, c, path) == []
  {
    hide Diff, Same, WellNamed;
    DiffExact(a, a, path);
    DiffExact(a, b, path);
    DiffExact(b, a, path);
    DiffExact(b, c, path);
    DiffExact(a, c, path);
    SameReflexive(a);
    if Same(a, b) { SameSymmetric(a, b); }
    if Same(a, b) && Same(b, c) { SameTransitive(a, b, c); }
  }

  /** Swapping the two files never changes the number of differences. */
  lemma {:induction false} DiffCountSymmetric(l: Node, r: Node, p: Path, q: Path)
    requires WellNamed(l) && WellNamed(r)
    ensures |Diff(l, r, p)| == |Diff(r, l, q)|
    decreases l
  {
    hide AttrLines, Merged, NamesDistinct, LabelAt;
    if l.Element? && r.Element? && l.name == r.name {
      AttrCountSymmetric(l.attrs, r.attrs, p, q);
      KidCountSymmetric(l, r, |Merged(l.children, r.children)|, p, q);
    }
  }

  lemma AttrCountSymmetric(l: seq<Attr>, r: seq<Attr>, p: Path, q: Path)
    requires NamesDistinct(l) && NamesDistinct(r)
    ensures |AttrLines(p, l, r)| == |AttrLines(q, r, l)|
  {
    AttrCount(p, l, r);
    AttrCount(q, r, l);
    hide AttrLines, Find, Names;
    assert Differing(Names(l) + Names(r), l, r) == Differing(Names(r) + Names(l), r, l);
  }

  lemma {:induction false} KidCountSymmetric(l: Node, r: Node, n: nat, p: Path, q: Path)
    requires WellNamed(l) && WellNamed(r) && l.Element? && r.Element? && n <= |Merged(l.children, r.children)|
    ensures |KidLines(l, r, n, p)| == |KidLines(r, l, n, q)|
    decreases l, n
  {
    if n > 0 {
      KidCountSymmetric(l, r, n - 1, p, q);
      var i := n - 1;
      if i < |l.children| && i < |r.children| {
        DiffCountSymmetric(l.children[i], r.children[i], p + [LabelAt(Merged(l.children, r.children), i)],
                           q + [LabelAt(Merged(r.children, l.children), i)]);
      }
    }
  }
}
