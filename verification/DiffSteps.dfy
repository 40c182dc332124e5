/** What the steps of a reported path select, read as the XPath they look like
    (crates/cli/src/main.rs:1660-1737). */
module DiffSteps {
  import opened Basics
  import opened TreeDiff
  import opened DiffPaths

  // ── what a step selects ───────────────────────────────────────────────────

  /** The elements of a name among the first `i` siblings. */
  function Earlier(s: seq<Node>, i: nat, name: string): set<nat> {
    set k | 0 <= k < i && k < |s| && s[k].Element? && s[k].name == name
  }

  /** The step, taken among the siblings `s`, selects `s[i]`: the element of that name
      and number, text of either kind, comments, or processing instructions of that
      target. */
  predicate Selects(step: Label, s: seq<Node>, i: nat)
    requires i < |s|
  {
    match step
    case Elem(name, index) => s[i].Element? && s[i].name == name && |Earlier(s, i, name)| + 1 == index
    case TextStep => s[i].Text? || s[i].CData?
    case CommentStep => s[i].Comment?
    case PiStep(target) => s[i].Pi? && s[i].target == target
    case AnyStep => s[i].Other?
  }

  lemma {:induction false} CountIsEarlier(s: seq<Node>, i: nat, name: string)
    requires i <= |s|
    ensures CountName(s[..i], name) == |Earlier(s, i, name)|
  {
    if i > 0 {
      CountIsEarlier(s, i - 1, name);
      assert s[..i][..i - 1] == s[..i - 1];
      var here := s[i - 1].Element? && s[i - 1].name == name;
      assert Earlier(s, i, name) == Earlier(s, i - 1, name) + (if here then {i - 1} else {});
    }
  }

  /** A node's label selects it. */
  lemma LabelSelects(s: seq<Node>, i: nat)
    requires i < |s|
    ensures Selects(LabelAt(s, i), s, i)
  {
    if s[i].Element? { CountIsEarlier(s, i, s[i].name); }
  }

  /** Two nodes a path does not tell apart: no elements, of one class and target. */
  predicate Alike(a: Node, b: Node) {
    || ((a.Text? || a.CData?) && (b.Text? || b.CData?))
    || (a.Comment? && b.Comment?)
    || (a.Pi? && b.Pi? && a.target == b.target)
    || (a.Other? && b.Other?)
  }

  /** An element's label selects it alone; any other node's selects exactly the nodes of
      its class and target. */
  lemma LabelSelectsExactly(s: seq<Node>, i: nat, j: nat)
    requires i < |s| && j < |s|
    ensures Selects(LabelAt(s, i), s, j) <==> if s[i].Element? then i == j else Alike(s[i], s[j])
  {
    LabelSelects(s, i);
    if s[i].Element? && s[j].Element? && s[j].name == s[i].name {
      CountIsEarlier(s, i, s[i].name);
      CountIsEarlier(s, j, s[i].name);
      if i < j { CountGrows(s, i, j, s[i].name); }
      if j < i { CountGrows(s, j, i, s[i].name); }
    }
  }

  // ── along a path ──────────────────────────────────────────────────────────

  /** Step by step the path selects the nodes on the way to `at`. */
  predicate SelectsAlong(n: Node, at: seq<nat>, path: Path)
    decreases |at|
  {
    if at == [] || path == [] then at == [] && path == []
    else
      && n.Element? && at[0] < |n.children| && Selects(path[0], n.children, at[0])
      && SelectsAlong(n.children[at[0]], at[1..], path[1..])
  }

  lemma {:induction false} AlongSelects(l: Node, r: Node, at: seq<nat>, line: Line)
    requires Explains(l, r, at, line) && !line.Added?
    ensures SelectsAlong(l, at, LabelsAlong(l, r, at))
    decreases |at|
  {
    if at != [] {
      var i := at[0];
      var c := l.children[i];
      var step := LabelAt(l.children, i);
      var rest := if i < |r.children| then LabelsAlong(c, r.children[i], at[1..]) else [];
      PrefixLabel(l.children, r.children, i);
      LabelSelects(l.children, i);
      if i < |r.children| { AlongSelects(c, r.children[i], at[1..], line); }
      assert ([step] + rest)[1..] == rest;
    }
  }

  /** Every line but an addition: each step of its path, taken in the left tree, selects
      the next node on the way to the one the line is about, that one included. */
  lemma StepsSelect(l: Node, r: Node, line: Line)
    requires WellNamed(l) && WellNamed(r) && line in Diff(l, r, []) && !line.Added?
    ensures exists at :: Explains(l, r, at, line) && SelectsAlong(l, at, line.path)
  {
    hide Diff, Explains, LabelsAlong, WellNamed, SelectsAlong;
    LineExplained(l, r, [], line);
    var at :| Explains(l, r, at, line) && line.path == [] + LabelsAlong(l, r, at);
    assert line.path == LabelsAlong(l, r, at);
    AlongSelects(l, r, at, line);
  }

  /** Such a path has a node of the left tree at its end. */
  lemma {:induction false} AlongEnds(n: Node, at: seq<nat>, path: Path)
    requires SelectsAlong(n, at, path)
    ensures NodeAt(n, at).Some? && |path| == |at|
    decreases |at|
  {
    if at != [] { AlongEnds(n.children[at[0]], at[1..], path[1..]); }
  }

  /** The step names the element at `at`, or selects the node there if it is none. */
  predicate NamesLast(n: Node, at: seq<nat>, step: Label)
    requires at != []
  {
    var up, i := NodeAt(n, at[..|at| - 1]), at[|at| - 1];
    && up.Some? && up.value.Element? && i < |up.value.children|
    && var x := up.value.children[i];
       if x.Element? then step.Elem? && step.name == x.name else Selects(step, up.value.children, i)
  }

  lemma NamesBelow(n: Node, i: nat, at: seq<nat>, step: Label)
    requires n.Element? && i < |n.children| && at != [] && NamesLast(n.children[i], at, step)
    ensures NamesLast(n, [i] + at, step)
  {
    var all := [i] + at;
    assert all[..|all| - 1] == [i] + at[..|at| - 1];
    assert all[..|all| - 1][1..] == at[..|at| - 1];
  }

  lemma {:induction false} AddedSteps(l: Node, r: Node, at: seq<nat>, line: Line)
    requires Explains(l, r, at, line) && line.Added?
    ensures at != [] && |LabelsAlong(l, r, at)| == |at|
    ensures SelectsAlong(l, at[..|at| - 1], LabelsAlong(l, r, at)[..|at| - 1])
    ensures NamesLast(r, at, LabelsAlong(l, r, at)[|at| - 1])
    decreases |at|
  {
    AddedAt(l, r, at, line);
    var i := at[0];
    var path := LabelsAlong(l, r, at);
    if i < |l.children| {
      var c, d := l.children[i], r.children[i];
      AddedAt(c, d, at[1..], line);
      AddedSteps(c, d, at[1..], line);
      PrefixLabel(l.children, r.children, i);
      LabelSelects(l.children, i);
      var rest := LabelsAlong(c, d, at[1..]);
      assert path == [LabelAt(l.children, i)] + rest;
      assert path[..|at| - 1][1..] == rest[..|rest| - 1] && at[..|at| - 1][1..] == at[1..][..|at[1..]| - 1];
      assert at == [i] + at[1..];
      NamesBelow(r, i, at[1..], path[|at| - 1]);
      hide NamesLast, Explains, LabelsAlong, Merged, LabelAt;
    } else {
      assert at == [i] && at[..0] == [] && path == [LabelAt(Merged(l.children, r.children), i)];
      LabelSelects(r.children, i);
    }
  }

  /** An addition: all steps but the last select, in the left tree, the way to the node
      that lacks it; the last step selects it among its right siblings if it is no
      element, and names it if it is one. */
  lemma AddedStepsSelect(l: Node, r: Node, line: Line) returns (at: seq<nat>)
    requires WellNamed(l) && WellNamed(r) && line in Diff(l, r, []) && line.Added?
    ensures Explains(l, r, at, line) && at != [] && |line.path| == |at|
    ensures SelectsAlong(l, at[..|at| - 1], line.path[..|at| - 1])
    ensures NamesLast(r, at, line.path[|at| - 1])
  {
    hide Diff, Explains, LabelsAlong, WellNamed, SelectsAlong, NamesLast;
    LineExplained(l, r, [], line);
    at :| Explains(l, r, at, line) && line.path == [] + LabelsAlong(l, r, at);
    assert line.path == LabelsAlong(l, r, at);
    AddedSteps(l, r, at, line);
  }

  // ── what a change of kind says ────────────────────────────────────────────

  predicate IsOf(n: Node, kind: Kind) {
    match kind
    case ElementKind => n.Element?
    case TextKind => n.Text?
    case CDataKind => n.CData?
    case CommentKind => n.Comment?
    case PiKind => n.Pi?
    case OtherKind(code) => n.Other? && n.code == code
  }

  lemma {:induction false} BothThere(l: Node, r: Node, at: seq<nat>, line: Line)
    requires Explains(l, r, at, line) && !line.Removed? && !line.Added?
    ensures NodeAt(l, at).Some? && NodeAt(r, at).Some? && Shows(NodeAt(l, at).value, NodeAt(r, at).value, line)
    decreases |at|
  {
    hide Shows;
    if at != [] { BothThere(l.children[at[0]], r.children[at[0]], at[1..], line); }
  }

  /** A reported change of kind names the kinds of the two nodes at its position, which
      differ; and no two nodes of different kinds are compared any further. */
  lemma KindChangesTell(l: Node, r: Node, line: Line) returns (at: seq<nat>)
    requires WellNamed(l) && WellNamed(r) && line in Diff(l, r, []) && !line.Removed? && !line.Added?
    ensures line.path == LabelsAlong(l, r, at) && NodeAt(l, at).Some? && NodeAt(r, at).Some?
    ensures var x, y := NodeAt(l, at).value, NodeAt(r, at).value;
      if line.KindChange? then IsOf(x, line.was) && IsOf(y, line.now) && !IsOf(y, line.was)
      else forall kind :: IsOf(x, kind) <==> IsOf(y, kind)
  {
    hide Diff, Explains, LabelsAlong, WellNamed, NodeAt;
    LineExplained(l, r, [], line);
    at :| Explains(l, r, at, line) && line.path == [] + LabelsAlong(l, r, at);
    BothThere(l, r, at, line);
  }
}
