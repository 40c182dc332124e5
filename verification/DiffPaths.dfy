/** What the paths of the structural diff say about the two trees
    (crates/cli/src/main.rs:1660-1737). */
module DiffPaths {
  import opened Basics
  import opened TreeDiff

  // ── labels ────────────────────────────────────────────────────────────────

  lemma {:induction false} CountGrows(s: seq<Node>, i: nat, j: nat, name: string)
    requires i <= j <= |s|
    ensures CountName(s[..i], name) <= CountName(s[..j], name)
    ensures i < j && s[i].Element? && s[i].name == name ==> CountName(s[..i], name) < CountName(s[..j], name)
  {
    if i < j {
      CountGrows(s, i, j - 1, name);
      assert s[..j][..j - 1] == s[..j - 1];
    }
  }

  /** No two element siblings get the same label. */
  lemma LabelsDistinct(s: seq<Node>, i: nat, j: nat)
    requires i < j < |s| && s[i].Element?
    ensures LabelAt(s, i) != LabelAt(s, j)
  {
    CountGrows(s, i, j, s[i].name);
  }

  // ── reading a path back ───────────────────────────────────────────────────

  /** The position of the `index`-th element named `name`. */
  function NthElement(s: seq<Node>, name: string, index: nat): Option<nat> {
    if s == [] then None
    else
      var here := s[|s| - 1].Element? && s[|s| - 1].name == name;
      if here && CountName(s[..|s| - 1], name) + 1 == index then Some(|s| - 1)
      else NthElement(s[..|s| - 1], name, index)
  }

  /** Follow the element steps of a path from `n`; the child positions passed. */
  function Locate(n: Node, path: Path): Option<seq<nat>>
    decreases |path|
  {
    if path == [] then Some([])
    else if !path[0].Elem? then Locate(n, path[1..])
    else if !n.Element? then None
    else
      var i := NthElement(n.children, path[0].name, path[0].index);
      if i.None? || i.value >= |n.children| then None
      else
        var rest := Locate(n.children[i.value], path[1..]);
        if rest.None? then None else Some([i.value] + rest.value)
  }

  /** A position is found by its label, and by no other. */
  lemma {:induction false} NthElementIs(s: seq<Node>, i: nat, name: string, index: nat)
    requires i < |s| && s[i].Element? && s[i].name == name
    ensures NthElement(s, name, index) == Some(i) <==> index == CountName(s[..i], name) + 1
    decreases |s|
  {
    var init := s[..|s| - 1];
    if i < |s| - 1 {
      NthElementIs(init, i, name, index);
      CountGrows(s, i, |s| - 1, name);
      assert init[..i] == s[..i];
    } else {
      NthBelow(init, name, index);
    }
  }

  lemma {:induction false} NthBelow(s: seq<Node>, name: string, index: nat)
    ensures var r := NthElement(s, name, index);
      r.Some? ==> r.value < |s|
  {
    if s != [] { NthBelow(s[..|s| - 1], name, index); }
  }

  // ── what each line reports ────────────────────────────────────────────────

  /** The line is true of two nodes standing at the same position. */
  predicate Shows(l: Node, r: Node, line: Line) {
    && (line.AttrChange? || line.AttrRemoved? || line.AttrAdded? ==> l.Element? && r.Element? && l.name == r.name)
    && match line
       case KindChange(_, was, now) => KindOf(l) == was != now == KindOf(r)
       case NameChange(_, was, now) => l.Element? && r.Element? && l.name == was != now == r.name
       case AttrChange(_, n, was, now) => Attr(n, was) in l.attrs && Attr(n, now) in r.attrs && was != now
       case AttrRemoved(_, n, was) => Attr(n, was) in l.attrs && n !in Names(r.attrs)
       case AttrAdded(_, n, now) => Attr(n, now) in r.attrs && n !in Names(l.attrs)
       case TextChange(_, was, now) =>
         KindOf(l) == KindOf(r) && (l.Text? || l.CData?) && l.content == was != now == r.content
       case CommentChange(_, was, now) => l.Comment? && r.Comment? && l.content == was != now == r.content
       case PiChange(_, wt, w, nt, n) => l == Pi(wt, w) && r == Pi(nt, n) && l != r
       case Removed(_) => false
       case Added(_) => false
  }

  /** The line is true of the nodes at position `at` of the two trees. */
  predicate Explains(l: Node, r: Node, at: seq<nat>, line: Line)
    decreases |at|
  {
    if at == [] then Shows(l, r, line)
    else
      && l.Element? && r.Element? && l.name == r.name
      && var i := at[0];
         if i < |l.children| && i < |r.children| then Explains(l.children[i], r.children[i], at[1..], line)
         else if i < |l.children| then |at| == 1 && line.Removed?
         else i < |r.children| && |at| == 1 && line.Added?
  }

  function LabelsAlong(l: Node, r: Node, at: seq<nat>): Path
    decreases |at|
  {
    if at == [] || !l.Element? || !r.Element? || at[0] >= |Merged(l.children, r.children)| then []
    else
      var i := at[0];
      [LabelAt(Merged(l.children, r.children), i)] +
      (if i < |l.children| && i < |r.children| then LabelsAlong(l.children[i], r.children[i], at[1..]) else [])
  }

  ghost predicate Explained(l: Node, r: Node, base: Path, line: Line) {
    exists at :: Explains(l, r, at, line) && line.path == base + LabelsAlong(l, r, at)
  }

  lemma Here(l: Node, r: Node, base: Path, line: Line)
    requires Shows(l, r, line) && line.path == base
    ensures Explained(l, r, base, line)
  {
    assert Explains(l, r, [], line) && line.path == base + LabelsAlong(l, r, []);
  }

  /** Every line reports a real difference at a position both trees walk to, and its
      path is the labels passed on the way there. */
  lemma {:induction false} LineExplained(l: Node, r: Node, base: Path, line: Line)
    requires WellNamed(l) && WellNamed(r) && line in Diff(l, r, base)
    ensures Explained(l, r, base, line)
    decreases l
  {
    if l.Element? && r.Element? && l.name == r.name {
      if line in AttrLines(base, l.attrs, r.attrs) {
        AttrLineShows(l, r, base, line);
        Here(l, r, base, line);
      } else {
        KidLineExplained(l, r, |Merged(l.children, r.children)|, base, line);
      }
    } else {
      Here(l, r, base, line);
    }
  }

  lemma {:induction false} LeftLineOf(path: Path, ls: seq<Attr>, rs: seq<Attr>, line: Line) returns (a: Attr)
    requires line in LeftLines(path, ls, rs)
    ensures a in ls && line in LeftLine(path, a, rs)
  {
    a := ls[|ls| - 1];
    if line !in LeftLine(path, a, rs) { a := LeftLineOf(path, ls[..|ls| - 1], rs, line); }
  }

  lemma {:induction false} RightLineOf(path: Path, rs: seq<Attr>, ls: seq<Attr>, line: Line) returns (b: Attr)
    requires line in RightLines(path, rs, ls)
    ensures b in rs && line in RightLine(path, b, ls)
  {
    b := rs[|rs| - 1];
    if line !in RightLine(path, b, ls) { b := RightLineOf(path, rs[..|rs| - 1], ls, line); }
  }

  lemma SortedHolds(s: seq<Attr>, a: Attr)
    requires NamesDistinct(s)
    ensures a in Sort(s) <==> a in s
  {
    SortKeeps(s);
    assert multiset(Sort(s))[a] == multiset(s)[a];
  }

  lemma AttrLineShows(l: Node, r: Node, base: Path, line: Line)
    requires l.Element? && r.Element? && l.name == r.name && NamesDistinct(l.attrs) && NamesDistinct(r.attrs)
    requires line in AttrLines(base, l.attrs, r.attrs)
    ensures Shows(l, r, line) && line.path == base
  {
    var ls, rs := Sort(l.attrs), Sort(r.attrs);
    SortKeeps(l.attrs);
    SortKeeps(r.attrs);
    hide Sort, LeftLines, RightLines, NamesDistinct, Names;
    if line in LeftLines(base, ls, rs) {
      var a := LeftLineOf(base, ls, rs, line);
      SortedHolds(l.attrs, a);
      FindIs(rs, a.name);
      FoundNames(rs, a.name);
      if Find(rs, a.name).Some? { SortedHolds(r.attrs, Attr(a.name, Find(rs, a.name).value)); }
      assert a == Attr(a.name, a.value);
    } else {
      var b := RightLineOf(base, rs, ls, line);
      SortedHolds(r.attrs, b);
      FoundNames(ls, b.name);
      assert b == Attr(b.name, b.value);
    }
  }

  lemma {:induction false} KidLineExplained(l: Node, r: Node, n: nat, base: Path, line: Line)
    requires l.Element? && r.Element? && l.name == r.name && WellNamed(l) && WellNamed(r)
    requires n <= |Merged(l.children, r.children)| && line in KidLines(l, r, n, base)
    ensures Explained(l, r, base, line)
    decreases l, n
  {
    var i := n - 1;
    if line in KidLine(l, r, i, base) {
      var step := LabelAt(Merged(l.children, r.children), i);
      if i < |l.children| && i < |r.children| {
        LineExplained(l.children[i], r.children[i], base + [step], line);
        hide Shows, Diff, Explains, LabelAt, Merged;
        var at :| Explains(l.children[i], r.children[i], at, line)
          && line.path == base + [step] + LabelsAlong(l.children[i], r.children[i], at);
        Deeper(l, r, i, at, base, line);
      } else {
        assert Explains(l, r, [i], line);
        assert line.path == base + LabelsAlong(l, r, [i]);
      }
    } else {
      KidLineExplained(l, r, n - 1, base, line);
    }
  }

  lemma Deeper(l: Node, r: Node, i: nat, at: seq<nat>, base: Path, line: Line)
    requires l.Element? && r.Element? && l.name == r.name && i < |l.children| && i < |r.children|
    requires Explains(l.children[i], r.children[i], at, line)
    requires line.path == base + [LabelAt(Merged(l.children, r.children), i)] + LabelsAlong(l.children[i], r.children[i], at)
    ensures Explained(l, r, base, line)
  {
    hide Shows, LabelAt;
    assert ([i] + at)[1..] == at;
    assert Explains(l, r, [i] + at, line);
    assert line.path == base + LabelsAlong(l, r, [i] + at);
  }

  // ── every difference has its line ─────────────────────────────────────────

  lemma {:induction false} LeftLineIn(path: Path, ls: seq<Attr>, rs: seq<Attr>, a: Attr)
    requires a in ls
    ensures forall x :: x in LeftLine(path, a, rs) ==> x in LeftLines(path, ls, rs)
  {
    if a != ls[|ls| - 1] { LeftLineIn(path, ls[..|ls| - 1], rs, a); }
  }

  lemma {:induction false} RightLineIn(path: Path, rs: seq<Attr>, ls: seq<Attr>, b: Attr)
    requires b in rs
    ensures forall x :: x in RightLine(path, b, ls) ==> x in RightLines(path, rs, ls)
  {
    if b != rs[|rs| - 1] { RightLineIn(path, rs[..|rs| - 1], ls, b); }
  }

  lemma AttrShownListed(l: Node, r: Node, base: Path, line: Line)
    requires l.Element? && r.Element? && NamesDistinct(l.attrs) && NamesDistinct(r.attrs)
    requires line.AttrChange? || line.AttrRemoved? || line.AttrAdded?
    requires Shows(l, r, line) && line.path == base
    ensures line in AttrLines(base, l.attrs, r.attrs)
  {
    var ls, rs := Sort(l.attrs), Sort(r.attrs);
    SortKeeps(l.attrs);
    SortKeeps(r.attrs);
    hide Sort, LeftLines, RightLines, NamesDistinct, Names;
    match line
    case AttrChange(_, n, was, now) =>
      SortedHolds(l.attrs, Attr(n, was));
      SortedHolds(r.attrs, Attr(n, now));
      FindIs(rs, n);
      assert Find(rs, n) == Some(now);
      LeftLineIn(base, ls, rs, Attr(n, was));
    case AttrRemoved(_, n, was) =>
      SortedHolds(l.attrs, Attr(n, was));
      FoundNames(rs, n);
      LeftLineIn(base, ls, rs, Attr(n, was));
    case AttrAdded(_, n, now) =>
      SortedHolds(r.attrs, Attr(n, now));
      FoundNames(ls, n);
      RightLineIn(base, rs, ls, Attr(n, now));
  }

  lemma {:induction false} KidLineIn(l: Node, r: Node, n: nat, i: nat, base: Path, line: Line)
    requires l.Element? && r.Element? && i < n <= |Merged(l.children, r.children)| && line in KidLine(l, r, i, base)
    ensures line in KidLines(l, r, n, base)
    decreases n
  {
    if i < n - 1 { KidLineIn(l, r, n - 1, i, base, line); }
  }

  /** Every difference at a position both trees walk to has its line in the diff. */
  lemma {:induction false} DifferenceListed(l: Node, r: Node, base: Path, at: seq<nat>, line: Line)
    requires WellNamed(l) && WellNamed(r) && Explains(l, r, at, line) && line.path == base + LabelsAlong(l, r, at)
    ensures line in Diff(l, r, base)
    decreases |at|
  {
    if at == [] {
      assert line.path == base;
      if line.AttrChange? || line.AttrRemoved? || line.AttrAdded? { AttrShownListed(l, r, base, line); }
      hide AttrLines;
    } else {
      var i, all := at[0], Merged(l.children, r.children);
      var step := LabelAt(all, i);
      if i < |l.children| && i < |r.children| {
        assert line.path == base + [step] + LabelsAlong(l.children[i], r.children[i], at[1..]);
        DifferenceListed(l.children[i], r.children[i], base + [step], at[1..], line);
      } else {
        assert LabelsAlong(l, r, at) == [step];
      }
      hide AttrLines, Explains;
      KidLineIn(l, r, |all|, i, base, line);
    }
  }

  /** The lines of a diff are exactly the differences of the two trees. */
  lemma DiffListsExactly(l: Node, r: Node, base: Path, line: Line)
    requires WellNamed(l) && WellNamed(r)
    ensures line in Diff(l, r, base) <==> Explained(l, r, base, line)
  {
    hide Diff, Explains, LabelsAlong, WellNamed;
    if line in Diff(l, r, base) { LineExplained(l, r, base, line); }
    if Explained(l, r, base, line) {
      var at :| Explains(l, r, at, line) && line.path == base + LabelsAlong(l, r, at);
      DifferenceListed(l, r, base, at, line);
    }
  }

  // ── resolving the path ────────────────────────────────────────────────────

  function NodeAt(n: Node, at: seq<nat>): Option<Node>
    decreases |at|
  {
    if at == [] then Some(n)
    else if n.Element? && at[0] < |n.children| then NodeAt(n.children[at[0]], at[1..])
    else None
  }

  /** Where the element steps of a path lead: the node, or its parent if the node is
      no element. */
  function ElementPart(n: Node, at: seq<nat>): seq<nat> {
    var x := NodeAt(n, at);
    if at != [] && x.Some? && !x.value.Element? then at[..|at| - 1] else at
  }

  lemma PrefixLabel(l: seq<Node>, r: seq<Node>, i: nat)
    requires i < |l|
    ensures LabelAt(Merged(l, r), i) == LabelAt(l, i)
  {
    assert Merged(l, r)[..i] == l[..i];
  }

  /** Unless it reports an addition, the path of a line resolves in the left tree to
      the very position the line is about. */
  lemma {:induction false} PathResolves(l: Node, r: Node, at: seq<nat>, line: Line)
    requires Explains(l, r, at, line) && !line.Added?
    ensures NodeAt(l, at).Some? && Locate(l, LabelsAlong(l, r, at)) == Some(ElementPart(l, at))
    decreases |at|
  {
    if at != [] {
      var i := at[0];
      PrefixLabel(l.children, r.children, i);
      var step := LabelAt(l.children, i);
      var c := l.children[i];
      var rest := if i < |r.children| then LabelsAlong(c, r.children[i], at[1..]) else [];
      if i < |r.children| { PathResolves(c, r.children[i], at[1..], line); }
      assert ([step] + rest)[1..] == rest;
      if c.Element? {
        NthElementIs(l.children, i, c.name, step.index);
        StepInto(l, at);
      } else {
        assert at[1..] == [] && at[..|at| - 1] == [];
      }
    }
  }

  lemma StepInto(n: Node, at: seq<nat>)
    requires at != [] && n.Element? && at[0] < |n.children| && NodeAt(n, at).Some? && n.children[at[0]].Element?
    ensures ElementPart(n, at) == [at[0]] + ElementPart(n.children[at[0]], at[1..])
  {
    if at[1..] == [] { assert at == [at[0]]; }
    else { assert at[..|at| - 1] == [at[0]] + at[1..][..|at[1..]| - 1]; }
  }

  /** Every reported difference but an addition: its path, read in the left tree,
      leads to the node it is about, or to the parent of a node that is no element. */
  lemma LinesResolve(l: Node, r: Node, line: Line)
    requires WellNamed(l) && WellNamed(r) && line in Diff(l, r, []) && !line.Added?
    ensures exists at ::
      Explains(l, r, at, line) && NodeAt(l, at).Some? && Locate(l, line.path) == Some(ElementPart(l, at))
  {
    LineExplained(l, r, [], line);
    var at :| Explains(l, r, at, line) && line.path == [] + LabelsAlong(l, r, at);
    PathResolves(l, r, at, line);
    assert line.path == LabelsAlong(l, r, at);
  }

  // ── additions ─────────────────────────────────────────────────────────────

  lemma {:induction false} CountJoins(a: seq<Node>, b: seq<Node>, name: string)
    ensures CountName(a + b, name) == CountName(a, name) + CountName(b, name)
  {
    if b == [] {
      assert a + b == a;
    } else {
      CountJoins(a, b[..|b| - 1], name);
      assert (a + b)[..|a + b| - 1] == a + b[..|b| - 1];
    }
  }

  /** An added element is labelled by counting over the left siblings, so its label
      finds it among the right siblings exactly when both sides have as many elements
      of its name in the positions they share. */
  lemma AddedLabelExactly(l: seq<Node>, r: seq<Node>, i: nat)
    requires |l| <= i < |r| && r[i].Element?
    ensures NthElement(r, r[i].name, LabelAt(Merged(l, r), i).index) == Some(i) <==>
      CountName(l, r[i].name) == CountName(r[..|l|], r[i].name)
  {
    var name := r[i].name;
    assert Merged(l, r)[..i] == l + r[|l|..i];
    assert r[..i] == r[..|l|] + r[|l|..i];
    CountJoins(l, r[|l|..i], name);
    CountJoins(r[..|l|], r[|l|..i], name);
    NthElementIs(r, i, name, LabelAt(Merged(l, r), i).index);
  }

  /** Every element step down to `at` has as many elements of its name before it, among
      the positions both sides have, on the left as on the right. */
  predicate SameCounts(l: Node, r: Node, at: seq<nat>)
    decreases |at|
  {
    at == [] || !l.Element? || !r.Element? || at[0] >= |r.children| || (
      var i, c := at[0], r.children[at[0]];
      var k := Min(i, |l.children|);
      && (c.Element? ==> CountName(l.children[..k], c.name) == CountName(r.children[..k], c.name))
      && (i < |l.children| ==> SameCounts(l.children[i], c, at[1..])))
  }

  lemma {:induction false} AddedAt(l: Node, r: Node, at: seq<nat>, line: Line)
    requires Explains(l, r, at, line) && line.Added?
    ensures at != [] && NodeAt(r, at).Some? && |LabelsAlong(l, r, at)| == |at|
    decreases |at|
  {
    var i := at[0];
    if i < |l.children| { AddedAt(l.children[i], r.children[i], at[1..], line); } else { assert at[1..] == []; }
  }

  lemma LocateThrough(n: Node, step: Label, rest: Path, i: nat, tail: seq<nat>)
    requires n.Element? && i < |n.children| && step.Elem?
    ensures Locate(n, [step] + rest) == Some([i] + tail) <==>
      NthElement(n.children, step.name, step.index) == Some(i) && Locate(n.children[i], rest) == Some(tail)
  {
    assert ([step] + rest)[1..] == rest;
    assert ([i] + tail)[1..] == tail;
    var j := NthElement(n.children, step.name, step.index);
    if j.Some? && j.value < |n.children| {
      var below := Locate(n.children[j.value], rest);
      if below.Some? { assert ([j.value] + below.value)[1..] == below.value; }
    }
  }

  /** An addition's whole path leads, in the right tree, to the added node, or to its
      parent if it is no element, if and only if the counts agree at every step. */
  lemma {:induction false} AddedPathExactly(l: Node, r: Node, at: seq<nat>, line: Line)
    requires Explains(l, r, at, line) && line.Added?
    ensures Locate(r, LabelsAlong(l, r, at)) == Some(ElementPart(r, at)) <==> SameCounts(l, r, at)
    decreases |at|
  {
    AddedAt(l, r, at, line);
    var i := at[0];
    if i < |l.children| {
      AddedPathExactly(l.children[i], r.children[i], at[1..], line);
      AddedBelow(l, r, at, line);
    } else {
      AddedHere(l, r, i);
      assert at == [i];
    }
  }

  lemma AddedBelow(l: Node, r: Node, at: seq<nat>, line: Line)
    requires Explains(l, r, at, line) && line.Added? && at != [] && at[0] < |l.children|
    requires var c, d := l.children[at[0]], r.children[at[0]];
      Locate(d, LabelsAlong(c, d, at[1..])) == Some(ElementPart(d, at[1..])) <==> SameCounts(c, d, at[1..])
    ensures Locate(r, LabelsAlong(l, r, at)) == Some(ElementPart(r, at)) <==> SameCounts(l, r, at)
  {
    var i := at[0];
    var c, d := l.children[i], r.children[i];
    AddedAt(l, r, at, line);
    AddedAt(c, d, at[1..], line);
    PrefixLabel(l.children, r.children, i);
    var step, rest := LabelAt(l.children, i), LabelsAlong(c, d, at[1..]);
    StepInto(r, at);
    NthElementIs(r.children, i, d.name, step.index);
    LocateThrough(r, step, rest, i, ElementPart(d, at[1..]));
    hide Locate, ElementPart, Explains, NthElement;
  }

  lemma AddedHere(l: Node, r: Node, i: nat)
    requires l.Element? && r.Element? && |l.children| <= i < |r.children|
    ensures Locate(r, LabelsAlong(l, r, [i])) == Some(ElementPart(r, [i])) <==> SameCounts(l, r, [i])
  {
    var c, step := r.children[i], LabelAt(Merged(l.children, r.children), i);
    assert LabelsAlong(l, r, [i]) == [step];
    assert l.children[..|l.children|] == l.children && Min(i, |l.children|) == |l.children|;
    assert NodeAt(r, [i]) == Some(c) by { assert [i][1..] == []; }
    if c.Element? {
      AddedLabelExactly(l.children, r.children, i);
      LocateThrough(r, step, [], i, []);
      assert [step] + [] == [step] && [i] + [] == [i];
      hide Locate, NodeAt, LabelsAlong, Merged, NthElement;
    } else {
      assert Locate(r, [step]) == Some([]) by { assert [step][1..] == []; }
      assert ElementPart(r, [i]) == [] by { assert [i][..0] == []; }
    }
  }

  /** Its path without the last step leads, in the left tree, to the node that lacks it. */
  lemma {:induction false} AddedParentResolves(l: Node, r: Node, at: seq<nat>, line: Line)
    requires Explains(l, r, at, line) && line.Added?
    ensures at != [] && |LabelsAlong(l, r, at)| == |at|
    ensures Locate(l, LabelsAlong(l, r, at)[..|at| - 1]) == Some(at[..|at| - 1])
    decreases |at|
  {
    AddedAt(l, r, at, line);
    var i := at[0];
    if i < |l.children| {
      var c, step := l.children[i], LabelAt(Merged(l.children, r.children), i);
      var rest := LabelsAlong(c, r.children[i], at[1..]);
      AddedAt(c, r.children[i], at[1..], line);
      AddedParentResolves(c, r.children[i], at[1..], line);
      PrefixLabel(l.children, r.children, i);
      NthElementIs(l.children, i, c.name, step.index);
      var up := ([step] + rest)[..|at| - 1];
      assert up == [step] + rest[..|rest| - 1] && up[1..] == rest[..|rest| - 1];
      assert at[..|at| - 1] == [i] + at[1..][..|at[1..]| - 1];
    }
  }

  /** Every reported addition, read in both trees. */
  lemma AddedLinesResolve(l: Node, r: Node, line: Line) returns (at: seq<nat>)
    requires WellNamed(l) && WellNamed(r) && line in Diff(l, r, []) && line.Added?
    ensures Explains(l, r, at, line) && at != [] && line.path != []
    ensures Locate(r, line.path) == Some(ElementPart(r, at)) <==> SameCounts(l, r, at)
    ensures Locate(l, line.path[..|line.path| - 1]) == Some(at[..|at| - 1])
  {
    LineExplained(l, r, [], line);
    at :| Explains(l, r, at, line) && line.path == [] + LabelsAlong(l, r, at);
    assert line.path == LabelsAlong(l, r, at);
    AddedPathExactly(l, r, at, line);
    AddedParentResolves(l, r, at, line);
  }

  /** So an added element may be reported under a label the right tree does not have, */
  lemma AddedLabelMisleads()
    ensures var a, b := Element("a", [], []), Element("b", [], []);
      LabelAt(Merged([a], [b, a]), 1) == Elem("a", 2) && NthElement([b, a], "a", 2) == None
  {
    var a, b := Element("a", [], []), Element("b", [], []);
    assert Merged([a], [b, a])[..1] == [a] && [a][..0] == [] && [b, a][..1] == [b] && [b][..0] == [];
    assert NthElement([b], "a", 2) == None;
    assert CountName([b], "a") == 0;
  }

  const A := Element("a", [], [])
  const C := Element("c", [], [])
  const LEFT := Element("r", [], [Element("b", [], []), A])
  const RIGHT := Element("r", [], [A, Element("a", [], [C])])

  /** or under a path that goes astray above its last step. */
  lemma AddedPathMisleads()
    ensures Added([Elem("a", 1), Elem("c", 1)]) in Diff(LEFT, RIGHT, [])
    ensures Locate(RIGHT, [Elem("a", 1), Elem("c", 1)]) == None
  {
    var line, deep := Added([Elem("a", 1), Elem("c", 1)]), RIGHT.children[1];
    assert Merged(LEFT.children, RIGHT.children)[..1] == [Element("b", [], [])] && [Element("b", [], [])][..0] == [];
    assert LabelAt(Merged(LEFT.children, RIGHT.children), 1) == Elem("a", 1);
    assert LabelAt(Merged([], [C]), 0) == Elem("c", 1);
    assert [1, 0][1..] == [0] && [0][1..] == [];
    assert Explains(A, deep, [0], line) && Explains(LEFT, RIGHT, [1, 0], line);
    assert LabelsAlong(A, deep, [0]) == [Elem("c", 1)];
    assert line.path == [] + LabelsAlong(LEFT, RIGHT, [1, 0]);
    assert WellNamed(C) && WellNamed(A) && WellNamed(deep) && WellNamed(LEFT.children[0]);
    assert WellNamed(LEFT) && WellNamed(RIGHT);
    DifferenceListed(LEFT, RIGHT, [], [1, 0], line);
    assert RIGHT.children[..1] == [A] && [A][..0] == [];
    assert NthElement([A], "a", 1) == Some(0) && NthElement(RIGHT.children, "a", 1) == Some(0);
    assert NthElement([], "c", 1) == None;
    assert line.path[1..] == [Elem("c", 1)];
  }
}
