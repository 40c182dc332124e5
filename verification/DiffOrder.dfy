/** The order in which the lines of the structural diff come
    (crates/cli/src/main.rs:1641-1688). */
module DiffOrder {
  import opened Basics
  import opened TreeDiff
  import opened DiffPaths
  import opened DiffCounts

  /** Document order: a node before its children, and those from left to right. */
  predicate Precedes(a: seq<nat>, b: seq<nat>) {
    b != [] && (a == [] || a[0] < b[0] || (a[0] == b[0] && Precedes(a[1..], b[1..])))
  }

  predicate FromLeft(x: Line) { x.AttrChange? || x.AttrRemoved? }

  /** At one node: changed and removed attributes by name, then added ones by name. */
  predicate AttrBefore(x: Line, y: Line) {
    || (FromLeft(x) && y.AttrAdded?)
    || (FromLeft(x) && FromLeft(y) && Leq(x.attr, y.attr))
    || (x.AttrAdded? && y.AttrAdded? && Leq(x.attr, y.attr))
  }

  /** The lines are about these positions, the positions in document order and the lines
      of one position in the order of its attributes. */
  ghost predicate ListedAt(l: Node, r: Node, base: Path, lines: seq<Line>, ats: seq<seq<nat>>) {
    && |ats| == |lines|
    && (forall k :: 0 <= k < |lines| ==> ExplainsAt(l, r, base, lines[k], ats[k]))
    && (forall j, k :: 0 <= j < k < |lines| ==> InOrder(lines[j], ats[j], lines[k], ats[k]))
  }

  predicate InOrder(x: Line, a: seq<nat>, y: Line, b: seq<nat>) { Precedes(a, b) || (a == b && AttrBefore(x, y)) }

  // ── attributes ────────────────────────────────────────────────────────────

  /** At place `k` the first difference of the two strings is for `a`. */
  predicate FirstDiffers(a: string, b: string, k: nat) {
    k < |a| && k < |b| && a[..k] == b[..k] && a[k] < b[k]
  }

  /** Names are compared character by character, a prefix coming first. */
  lemma {:induction false} LeqLexicographic(a: string, b: string)
    ensures Leq(a, b) <==> a <= b || exists k :: FirstDiffers(a, b, k)
  {
    if a != "" && b != "" {
      LeqLexicographic(a[1..], b[1..]);
      if a[0] == b[0] {
        if k: nat :| FirstDiffers(a[1..], b[1..], k) {
          assert a[..k + 1] == [a[0]] + a[1..][..k] && b[..k + 1] == [b[0]] + b[1..][..k];
          assert FirstDiffers(a, b, k + 1);
        }
        if k: nat :| FirstDiffers(a, b, k) {
          if k > 0 {
            assert a[1..][..k - 1] == a[..k][1..] && b[1..][..k - 1] == b[..k][1..];
            assert FirstDiffers(a[1..], b[1..], k - 1);
          }
        }
        assert a <= b <==> a[1..] <= b[1..] by {
          assert a == [a[0]] + a[1..] && b == [b[0]] + b[1..];
          if a <= b { assert a[1..] == b[1..][..|a| - 1] by { assert a == b[..|a|]; } }
          if a[1..] <= b[1..] { assert a == b[..|a|] by { assert a[1..] == b[1..][..|a| - 1]; } }
        }
      } else {
        if a[0] < b[0] { assert FirstDiffers(a, b, 0); }
        if k: nat :| FirstDiffers(a, b, k) { assert k > 0 ==> a[..k][0] == b[..k][0]; }
      }
    }
  }

  lemma {:induction false} LeqTrans(a: string, b: string, c: string)
    requires Leq(a, b) && Leq(b, c)
    ensures Leq(a, c)
  {
    if a != "" && a[0] == b[0] == c[0] { LeqTrans(a[1..], b[1..], c[1..]); }
  }

  lemma {:induction false} AllLeq(s: seq<Attr>, i: nat)
    requires Ordered(s) && i < |s|
    ensures Leq(s[i].name, s[|s| - 1].name)
    decreases |s|
  {
    if i == |s| - 1 {
      LeqReflexive(s[i].name);
    } else {
      AllLeq(s[..|s| - 1], i);
      LeqTrans(s[i].name, s[|s| - 2].name, s[|s| - 1].name);
    }
  }

  ghost predicate Ascending(lines: seq<Line>) { forall j, k :: 0 <= j < k < |lines| ==> AttrBefore(lines[j], lines[k]) }

  lemma {:induction false} LeftAscend(path: Path, ls: seq<Attr>, rs: seq<Attr>)
    requires Ordered(ls)
    ensures Ascending(LeftLines(path, ls, rs))
    ensures forall x :: x in LeftLines(path, ls, rs) ==> FromLeft(x) && Leq(x.attr, ls[|ls| - 1].name)
  {
    if ls != [] {
      var init, a := ls[..|ls| - 1], ls[|ls| - 1];
      LeftAscend(path, init, rs);
      LeqReflexive(a.name);
      forall x | x in LeftLines(path, init, rs) ensures Leq(x.attr, a.name) {
        AllLeq(ls, |ls| - 2);
        LeqTrans(x.attr, init[|init| - 1].name, a.name);
      }
      hide Leq, Find, Ordered;
    }
  }

  lemma {:induction false} RightAscend(path: Path, rs: seq<Attr>, ls: seq<Attr>)
    requires Ordered(rs)
    ensures Ascending(RightLines(path, rs, ls))
    ensures forall x :: x in RightLines(path, rs, ls) ==> x.AttrAdded? && Leq(x.attr, rs[|rs| - 1].name)
  {
    if rs != [] {
      var init, b := rs[..|rs| - 1], rs[|rs| - 1];
      RightAscend(path, init, ls);
      LeqReflexive(b.name);
      forall x | x in RightLines(path, init, ls) ensures Leq(x.attr, b.name) {
        AllLeq(rs, |rs| - 2);
        LeqTrans(x.attr, init[|init| - 1].name, b.name);
      }
      hide Leq, Find, Ordered;
    }
  }

  lemma AttrsAscend(path: Path, l: seq<Attr>, r: seq<Attr>)
    ensures Ascending(AttrLines(path, l, r))
  {
    SortOrdered(l);
    SortOrdered(r);
    LeftAscend(path, Sort(l), Sort(r));
    RightAscend(path, Sort(r), Sort(l));
    hide Sort, LeftLines, RightLines, Leq;
    var left, right := LeftLines(path, Sort(l), Sort(r)), RightLines(path, Sort(r), Sort(l));
    forall j, k | 0 <= j < k < |left + right| ensures AttrBefore((left + right)[j], (left + right)[k]) {
      assert j < |left| ==> left[j] in left;
      assert k >= |left| ==> right[k - |left|] in right;
    }
  }

  // ── the whole tree ────────────────────────────────────────────────────────

  lemma AttrsListed(l: Node, r: Node, base: Path) returns (ats: seq<seq<nat>>)
    requires l.Element? && r.Element? && l.name == r.name && NamesDistinct(l.attrs) && NamesDistinct(r.attrs)
    ensures ListedAt(l, r, base, AttrLines(base, l.attrs, r.attrs), ats)
    ensures forall k :: 0 <= k < |ats| ==> ats[k] == []
  {
    var lines := AttrLines(base, l.attrs, r.attrs);
    ats := seq(|lines|, _ => []);
    AttrsAscend(base, l.attrs, r.attrs);
    hide AttrLines, AttrBefore, Shows, NamesDistinct;
    forall k | 0 <= k < |lines| ensures ExplainsAt(l, r, base, lines[k], ats[k]) {
      AttrLineShows(l, r, base, lines[k]);
      assert LabelsAlong(l, r, []) == [];
    }
  }

  lemma LeafListed(l: Node, r: Node, base: Path) returns (ats: seq<seq<nat>>)
    requires !(l.Element? && r.Element? && l.name == r.name)
    ensures ListedAt(l, r, base, Diff(l, r, base), ats)
  {
    var lines := Diff(l, r, base);
    ats := seq(|lines|, _ => []);
    if lines != [] {
      if KindOf(l) == KindOf(r) && !l.Element? {
        ContentShown(l, r, base, lines[0]);
        assert lines == [lines[0]];
      } else {
        MismatchShown(l, r, base, lines[0]);
      }
      assert LabelsAlong(l, r, []) == [];
    }
    hide Diff, Shows;
  }

  /** The positions of a child's lines, seen from its parent. */
  function Lifted(i: nat, ats: seq<seq<nat>>): (r: seq<seq<nat>>)
    ensures |r| == |ats| && forall k :: 0 <= k < |ats| ==> r[k] == [i] + ats[k]
  {
    seq(|ats|, k requires 0 <= k < |ats| => [i] + ats[k])
  }

  lemma LiftOrder(i: nat, x: Line, a: seq<nat>, y: Line, b: seq<nat>)
    requires InOrder(x, a, y, b)
    ensures InOrder(x, [i] + a, y, [i] + b)
  {
    assert ([i] + a)[1..] == a && ([i] + b)[1..] == b;
  }

  lemma LiftExplains(l: Node, r: Node, i: nat, base: Path, line: Line, at: seq<nat>)
    requires l.Element? && r.Element? && l.name == r.name && i < |l.children| && i < |r.children|
    requires ExplainsAt(l.children[i], r.children[i], base + [LabelAt(Merged(l.children, r.children), i)], line, at)
    ensures ExplainsAt(l, r, base, line, [i] + at)
  {
    hide Shows, LabelAt;
    assert ([i] + at)[1..] == at;
    var step := LabelAt(Merged(l.children, r.children), i);
    assert base + LabelsAlong(l, r, [i] + at) == base + [step] + LabelsAlong(l.children[i], r.children[i], at);
  }

  lemma OneKidListed(l: Node, r: Node, i: nat, base: Path) returns (ats: seq<seq<nat>>)
    requires l.Element? && r.Element? && l.name == r.name && WellNamed(l) && WellNamed(r)
    requires i < |Merged(l.children, r.children)|
    ensures ListedAt(l, r, base, KidLine(l, r, i, base), ats)
    ensures forall k :: 0 <= k < |ats| ==> ats[k] != [] && ats[k][0] == i
    decreases l, i
  {
    var step := LabelAt(Merged(l.children, r.children), i);
    if i < |l.children| && i < |r.children| {
      var below := DiffListed(l.children[i], r.children[i], base + [step]);
      var lines := Diff(l.children[i], r.children[i], base + [step]);
      ats := Lifted(i, below);
      hide Diff, Merged, LabelAt, WellNamed;
      forall k | 0 <= k < |lines| ensures ExplainsAt(l, r, base, lines[k], ats[k]) {
        LiftExplains(l, r, i, base, lines[k], below[k]);
      }
      forall j, k | 0 <= j < k < |lines| ensures InOrder(lines[j], ats[j], lines[k], ats[k]) {
        LiftOrder(i, lines[j], below[j], lines[k], below[k]);
      }
      assert KidLine(l, r, i, base) == lines;
    } else {
      ats := [[i]];
      assert LabelsAlong(l, r, [i]) == [step];
    }
  }

  lemma {:induction false} KidsListed(l: Node, r: Node, n: nat, base: Path) returns (ats: seq<seq<nat>>)
    requires l.Element? && r.Element? && l.name == r.name && WellNamed(l) && WellNamed(r)
    requires n <= |Merged(l.children, r.children)|
    ensures ListedAt(l, r, base, KidLines(l, r, n, base), ats)
    ensures forall k :: 0 <= k < |ats| ==> ats[k] != [] && ats[k][0] < n
    decreases l, n
  {
    ats := [];
    if n > 0 {
      var before := KidsListed(l, r, n - 1, base);
      var here := OneKidListed(l, r, n - 1, base);
      ats := before + here;
      var x, y := KidLines(l, r, n - 1, base), KidLine(l, r, n - 1, base);
      assert KidLines(l, r, n, base) == x + y;
      hide KidLines, KidLine, ExplainsAt, Merged, WellNamed;
      ListedJoin(l, r, base, x, before, y, here);
    }
  }

  lemma ListedJoin(l: Node, r: Node, base: Path, x: seq<Line>, a: seq<seq<nat>>, y: seq<Line>, b: seq<seq<nat>>)
    requires ListedAt(l, r, base, x, a) && ListedAt(l, r, base, y, b)
    requires forall j, k :: 0 <= j < |a| && 0 <= k < |b| ==> Precedes(a[j], b[k])
    ensures ListedAt(l, r, base, x + y, a + b)
  {
    hide ExplainsAt, Precedes, AttrBefore;
  }

  /** The lines of a diff come in document order of what they are about, and those of one
      element in the order of its attributes' names. */
  lemma {:induction false} DiffListed(l: Node, r: Node, base: Path) returns (ats: seq<seq<nat>>)
    requires WellNamed(l) && WellNamed(r)
    ensures ListedAt(l, r, base, Diff(l, r, base), ats)
    decreases l
  {
    if l.Element? && r.Element? && l.name == r.name {
      var n := |Merged(l.children, r.children)|;
      var here := AttrsListed(l, r, base);
      var below := KidsListed(l, r, n, base);
      ats := here + below;
      assert Diff(l, r, base) == AttrLines(base, l.attrs, r.attrs) + KidLines(l, r, n, base);
      hide Diff, AttrLines, KidLines, ExplainsAt, Merged;
      ListedJoin(l, r, base, AttrLines(base, l.attrs, r.attrs), here, KidLines(l, r, n, base), below);
    } else {
      ats := LeafListed(l, r, base);
    }
  }
}
