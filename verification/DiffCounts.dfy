/** How often each line occurs in the structural diff: once for every position that
    explains it (crates/cli/src/main.rs:1619-1714). */
module DiffCounts {
  import opened Basics
  import opened TreeDiff
  import opened DiffPaths

  // ── the positions that explain a line ─────────────────────────────────────

  function Positions(l: Node, r: Node, base: Path, line: Line): set<seq<nat>>
    decreases l
  {
    (if Shows(l, r, line) && line.path == base then {[]} else {}) +
    (if l.Element? && r.Element? && l.name == r.name then KidPositions(l, r, |Merged(l.children, r.children)|, base, line) else {})
  }

  /** Those in the first `n` child positions. */
  function KidPositions(l: Node, r: Node, n: nat, base: Path, line: Line): set<seq<nat>>
    requires l.Element? && r.Element? && n <= |Merged(l.children, r.children)|
    decreases l, n
  {
    if n == 0 then {} else KidPositions(l, r, n - 1, base, line) + Under(n - 1, PositionsAt(l, r, n - 1, base, line))
  }

  function PositionsAt(l: Node, r: Node, i: nat, base: Path, line: Line): set<seq<nat>>
    requires l.Element? && r.Element? && i < |Merged(l.children, r.children)|
    decreases l, i
  {
    var at := base + [LabelAt(Merged(l.children, r.children), i)];
    if i < |l.children| && i < |r.children| then Positions(l.children[i], r.children[i], at, line)
    else if line == (if i < |l.children| then Removed(at) else Added(at)) then {[]}
    else {}
  }

  function Under(i: nat, ps: set<seq<nat>>): set<seq<nat>> { set at | at in ps :: [i] + at }

  ghost predicate ExplainsAt(l: Node, r: Node, base: Path, line: Line, at: seq<nat>) {
    Explains(l, r, at, line) && line.path == base + LabelsAlong(l, r, at)
  }

  lemma HereExplains(l: Node, r: Node, base: Path, line: Line)
    ensures [] in Positions(l, r, base, line) <==> ExplainsAt(l, r, base, line, [])
  {
    hide Shows, KidPositions, Merged;
    if l.Element? && r.Element? { NoneHere(l, r, |Merged(l.children, r.children)|, base, line); }
    assert LabelsAlong(l, r, []) == [] && base + [] == base;
  }

  lemma BelowIsKids(l: Node, r: Node, base: Path, line: Line, at: seq<nat>)
    requires at != []
    ensures at in Positions(l, r, base, line) <==>
      (l.Element? && r.Element? && l.name == r.name && at in KidPositions(l, r, |Merged(l.children, r.children)|, base, line))
  {
    hide Shows, KidPositions, Merged;
  }

  lemma OnlyElements(l: Node, r: Node, base: Path, line: Line, at: seq<nat>)
    requires at != [] && ExplainsAt(l, r, base, line, at)
    ensures l.Element? && r.Element? && l.name == r.name && at[0] < |Merged(l.children, r.children)|
  {
    hide Shows;
  }

  lemma {:induction false} PositionsExplain(l: Node, r: Node, base: Path, line: Line, at: seq<nat>)
    ensures at in Positions(l, r, base, line) <==> ExplainsAt(l, r, base, line, at)
    decreases l
  {
    hide Positions, KidPositions, ExplainsAt;
    if at == [] {
      HereExplains(l, r, base, line);
    } else {
      BelowIsKids(l, r, base, line, at);
      if ExplainsAt(l, r, base, line, at) { OnlyElements(l, r, base, line, at); }
      if l.Element? && r.Element? && l.name == r.name {
        KidPositionsExplain(l, r, |Merged(l.children, r.children)|, base, line, at);
      }
    }
  }

  lemma {:induction false} KidsNotHere(l: Node, r: Node, n: nat, base: Path, line: Line)
    requires l.Element? && r.Element? && n <= |Merged(l.children, r.children)|
    ensures forall at :: at in KidPositions(l, r, n, base, line) ==> at != [] && at[0] < n
    decreases n
  {
    if n > 0 { KidsNotHere(l, r, n - 1, base, line); }
  }

  lemma {:induction false} KidPositionsExplain(l: Node, r: Node, n: nat, base: Path, line: Line, at: seq<nat>)
    requires l.Element? && r.Element? && l.name == r.name && n <= |Merged(l.children, r.children)| && at != []
    ensures at in KidPositions(l, r, n, base, line) <==> at[0] < n && ExplainsAt(l, r, base, line, at)
    decreases l, n
  {
    if n > 0 {
      var i := n - 1;
      KidPositionsExplain(l, r, i, base, line, at);
      assert at == [at[0]] + at[1..];
      assert at in Under(i, PositionsAt(l, r, i, base, line)) <==> at[0] == i && at[1..] in PositionsAt(l, r, i, base, line) by {
        UnderIs(i, PositionsAt(l, r, i, base, line), at);
      }
      if at[0] == i {
        var step := LabelAt(Merged(l.children, r.children), i);
        if i < |l.children| && i < |r.children| {
          PositionsExplain(l.children[i], r.children[i], base + [step], line, at[1..]);
          assert base + LabelsAlong(l, r, at) == base + [step] + LabelsAlong(l.children[i], r.children[i], at[1..]);
        } else {
          assert LabelsAlong(l, r, at) == [step];
        }
      }
    }
  }

  lemma NoneHere(l: Node, r: Node, n: nat, base: Path, line: Line)
    requires l.Element? && r.Element? && n <= |Merged(l.children, r.children)|
    ensures [] !in KidPositions(l, r, n, base, line)
  {
    KidsNotHere(l, r, n, base, line);
  }

  lemma KidsApart(l: Node, r: Node, i: nat, base: Path, line: Line, ps: set<seq<nat>>)
    requires l.Element? && r.Element? && i <= |Merged(l.children, r.children)|
    ensures KidPositions(l, r, i, base, line) !! Under(i, ps)
  {
    KidsNotHere(l, r, i, base, line);
    hide KidPositions;
  }

  lemma UnderIs(i: nat, ps: set<seq<nat>>, at: seq<nat>)
    requires at != []
    ensures at in Under(i, ps) <==> at[0] == i && at[1..] in ps
  {
    forall p | p in ps ensures ([i] + p)[1..] == p && ([i] + p)[0] == i { }
    assert at == [at[0]] + at[1..];
  }

  lemma {:induction false} UnderSize(i: nat, ps: set<seq<nat>>)
    ensures |Under(i, ps)| == |ps|
    decreases |ps|
  {
    if ps != {} {
      var p :| p in ps;
      UnderSize(i, ps - {p});
      assert Under(i, ps) == Under(i, ps - {p}) + {[i] + p};
      assert ([i] + p)[1..] == p;
      UnderIs(i, ps - {p}, [i] + p);
    } else {
      assert Under(i, ps) == {};
    }
  }

  // ── attribute lines occur once ────────────────────────────────────────────

  lemma LineOnce(path: Path, a: Attr, other: seq<Attr>, line: Line)
    ensures multiset(LeftLine(path, a, other))[line] <= 1 && multiset(RightLine(path, a, other))[line] <= 1
    ensures line in LeftLine(path, a, other) ==> (line.AttrChange? || line.AttrRemoved?) && line.attr == a.name
    ensures line in RightLine(path, a, other) ==> line.AttrAdded? && line.attr == a.name
  {
    hide Find;
    AtMostOne(LeftLine(path, a, other), line);
    AtMostOne(RightLine(path, a, other), line);
  }

  lemma {:induction false} LeftOnce(path: Path, part: seq<Attr>, rs: seq<Attr>, line: Line)
    requires NamesDistinct(part)
    ensures multiset(LeftLines(path, part, rs))[line] <= 1
    ensures line in LeftLines(path, part, rs) ==> (line.AttrChange? || line.AttrRemoved?) && line.attr in Names(part)
  {
    hide NamesDistinct, Names, LeftLine;
    if part != [] {
      var init, a := part[..|part| - 1], part[|part| - 1];
      assert part == init + [a];
      Snoc(init, a);
      LeftOnce(path, init, rs, line);
      LineOnce(path, a, rs, line);
      Joined(LeftLines(path, init, rs), LeftLine(path, a, rs), line);
    }
  }

  lemma {:induction false} RightOnce(path: Path, rs: seq<Attr>, ls: seq<Attr>, line: Line)
    requires NamesDistinct(rs)
    ensures multiset(RightLines(path, rs, ls))[line] <= 1
    ensures line in RightLines(path, rs, ls) ==> line.AttrAdded? && line.attr in Names(rs)
  {
    hide NamesDistinct, Names, RightLine;
    if rs != [] {
      var init, b := rs[..|rs| - 1], rs[|rs| - 1];
      assert rs == init + [b];
      Snoc(init, b);
      RightOnce(path, init, ls, line);
      LineOnce(path, b, ls, line);
      Joined(RightLines(path, init, ls), RightLine(path, b, ls), line);
    }
  }

  lemma AttrListed(l: Node, r: Node, base: Path, line: Line)
    requires l.Element? && r.Element? && l.name == r.name && NamesDistinct(l.attrs) && NamesDistinct(r.attrs)
    ensures line in AttrLines(base, l.attrs, r.attrs) <==> Shows(l, r, line) && line.path == base
  {
    hide NamesDistinct, Names, AttrLines;
    if line in AttrLines(base, l.attrs, r.attrs) { AttrLineShows(l, r, base, line); }
    if Shows(l, r, line) && line.path == base { AttrShownListed(l, r, base, line); }
  }

  lemma AttrCounted(l: Node, r: Node, base: Path, line: Line)
    requires l.Element? && r.Element? && l.name == r.name && NamesDistinct(l.attrs) && NamesDistinct(r.attrs)
    ensures multiset(AttrLines(base, l.attrs, r.attrs))[line] == if Shows(l, r, line) && line.path == base then 1 else 0
  {
    hide Sort, LeftLines, RightLines, NamesDistinct, Names, Shows;
    var ls, rs := Sort(l.attrs), Sort(r.attrs);
    SortKeeps(l.attrs);
    SortKeeps(r.attrs);
    LeftOnce(base, ls, rs, line);
    RightOnce(base, rs, ls, line);
    Joined(LeftLines(base, ls, rs), RightLines(base, rs, ls), line);
    AttrListed(l, r, base, line);
  }

  // ── every line ────────────────────────────────────────────────────────────

  lemma Joined(a: seq<Line>, b: seq<Line>, line: Line)
    ensures multiset(a + b)[line] == multiset(a)[line] + multiset(b)[line]
  {
    assert multiset(a + b) == multiset(a) + multiset(b);
  }

  lemma Apart(x: set<seq<nat>>, y: set<seq<nat>>)
    requires x !! y
    ensures |x + y| == |x| + |y|
  {
  }

  lemma AtMostOne(lines: seq<Line>, line: Line)
    requires |lines| <= 1
    ensures multiset(lines)[line] == if lines == [line] then 1 else 0
  {
    if lines != [] { assert lines == [lines[0]]; }
  }

  lemma ContentShown(l: Node, r: Node, base: Path, line: Line)
    requires KindOf(l) == KindOf(r) && !l.Element?
    ensures |ContentLines(l, r, base)| <= 1
    ensures ContentLines(l, r, base) == [line] <==> Shows(l, r, line) && line.path == base
  {
  }

  lemma MismatchShown(l: Node, r: Node, base: Path, line: Line)
    requires KindOf(l) != KindOf(r) || (l.Element? && r.Element? && l.name != r.name)
    ensures |Diff(l, r, base)| == 1
    ensures Diff(l, r, base)[0] == line <==> Shows(l, r, line) && line.path == base
  {
  }

  /** Two nodes whose diff stops at themselves. */
  lemma LeafCounted(l: Node, r: Node, base: Path, line: Line)
    requires !(l.Element? && r.Element? && l.name == r.name)
    ensures multiset(Diff(l, r, base))[line] == |Positions(l, r, base, line)|
  {
    hide Shows, ContentLines;
    if KindOf(l) == KindOf(r) && !l.Element? {
      ContentShown(l, r, base, line);
      assert Diff(l, r, base) == ContentLines(l, r, base);
    } else {
      MismatchShown(l, r, base, line);
    }
    AtMostOne(Diff(l, r, base), line);
    hide Diff;
  }

  /** A line occurs once for each position explaining it. */
  lemma {:induction false} LinesCounted(l: Node, r: Node, base: Path, line: Line)
    requires WellNamed(l) && WellNamed(r)
    ensures multiset(Diff(l, r, base))[line] == |Positions(l, r, base, line)|
    decreases l
  {
    if l.Element? && r.Element? && l.name == r.name {
      var n := |Merged(l.children, r.children)|;
      var here: set<seq<nat>> := if Shows(l, r, line) && line.path == base then {[]} else {};
      AttrCounted(l, r, base, line);
      KidLinesCounted(l, r, n, base, line);
      NoneHere(l, r, n, base, line);
      hide AttrLines, KidLines, KidPositions, Shows, Merged, NamesDistinct;
      Joined(AttrLines(base, l.attrs, r.attrs), KidLines(l, r, n, base), line);
      Apart(here, KidPositions(l, r, n, base, line));
    } else {
      LeafCounted(l, r, base, line);
    }
  }

  lemma KidCounted(l: Node, r: Node, i: nat, base: Path, line: Line)
    requires l.Element? && r.Element? && i < |Merged(l.children, r.children)|
    requires !(i < |l.children| && i < |r.children|)
    ensures multiset(KidLine(l, r, i, base))[line] == |PositionsAt(l, r, i, base, line)|
  {
    hide LabelAt;
  }

  lemma {:induction false} KidLinesCounted(l: Node, r: Node, n: nat, base: Path, line: Line)
    requires WellNamed(l) && WellNamed(r) && l.Element? && r.Element? && n <= |Merged(l.children, r.children)|
    ensures multiset(KidLines(l, r, n, base))[line] == |KidPositions(l, r, n, base, line)|
    decreases l, n
  {
    if n > 0 {
      var i, ps := n - 1, PositionsAt(l, r, n - 1, base, line);
      KidLinesCounted(l, r, i, base, line);
      if i < |l.children| && i < |r.children| {
        var at := base + [LabelAt(Merged(l.children, r.children), i)];
        LinesCounted(l.children[i], r.children[i], at, line);
        assert KidLine(l, r, i, base) == Diff(l.children[i], r.children[i], at);
      } else {
        KidCounted(l, r, i, base, line);
      }
      KidJoins(l, r, i, base, line);
    }
  }

  lemma KidJoins(l: Node, r: Node, i: nat, base: Path, line: Line)
    requires l.Element? && r.Element? && i < |Merged(l.children, r.children)|
    requires multiset(KidLines(l, r, i, base))[line] == |KidPositions(l, r, i, base, line)|
    requires multiset(KidLine(l, r, i, base))[line] == |PositionsAt(l, r, i, base, line)|
    ensures multiset(KidLines(l, r, i + 1, base))[line] == |KidPositions(l, r, i + 1, base, line)|
  {
    var ps, before := PositionsAt(l, r, i, base, line), KidPositions(l, r, i, base, line);
    hide Shows, Diff, Positions, LabelAt;
    assert KidPositions(l, r, i + 1, base, line) == before + Under(i, ps);
    assert KidLines(l, r, i + 1, base) == KidLines(l, r, i, base) + KidLine(l, r, i, base);
    hide KidLine, KidLines, PositionsAt, KidPositions, Merged, Under;
    KidsApart(l, r, i, base, line, ps);
    UnderSize(i, ps);
    Joined(KidLines(l, r, i, base), KidLine(l, r, i, base), line);
    Apart(before, Under(i, ps));
  }

  /** The diff as a bag: each line occurs as often as there are positions at which the
      two trees differ in what it says, under the labels it reports. */
  lemma DiffCountsExactly(l: Node, r: Node, base: Path, line: Line)
    requires WellNamed(l) && WellNamed(r)
    ensures multiset(Diff(l, r, base))[line] == |Positions(l, r, base, line)|
    ensures forall at :: at in Positions(l, r, base, line) <==> ExplainsAt(l, r, base, line, at)
  {
    LinesCounted(l, r, base, line);
    forall at ensures at in Positions(l, r, base, line) <==> ExplainsAt(l, r, base, line, at) {
      PositionsExplain(l, r, base, line, at);
    }
  }
}
