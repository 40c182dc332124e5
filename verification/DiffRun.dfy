/** `diff_node` as it runs: one path buffer pushed and truncated on the way, one
    growing list of lines, and a sibling counter per element
    (crates/cli/src/main.rs:1619-1737). */
module DiffRun {
  import opened Basics
  import opened TreeDiff

  class PathBuffer {
    var steps: Path

    constructor ()
      ensures steps == []
    {
      steps := [];
    }
  }

  class Report {
    var lines: seq<Line>

    constructor ()
      ensures lines == []
    {
      lines := [];
    }
  }

  function Get(counters: map<string, nat>, name: string): nat { if name in counters then counters[name] else 0 }

  /** The counters hold how many elements of each name have been labelled. */
  ghost predicate Counts(counters: map<string, nat>, labelled: seq<Node>) {
    forall name :: Get(counters, name) == CountName(labelled, name)
  }

  method StepLabel(node: Node, counters: map<string, nat>, ghost labelled: seq<Node>)
    returns (seg: Label, counters': map<string, nat>)
    requires Counts(counters, labelled)
    ensures seg == LabelOf(node, labelled) && Counts(counters', labelled + [node])
  {
    counters' := counters;
    assert (labelled + [node])[..|labelled|] == labelled;
    match node
    case Element(name, _, _) =>
      var c := Get(counters, name) + 1;
      counters' := counters[name := c];
      seg := Elem(name, c);
    case Text(_) => seg := TextStep;
    case CData(_) => seg := TextStep;
    case Comment(_) => seg := CommentStep;
    case Pi(target, _) => seg := PiStep(target);
    case Other(_, _) => seg := AnyStep;
  }

  lemma NextLine(s: seq<Attr>, i: nat)
    requires i < |s|
    ensures s[..i + 1] != [] && s[..i + 1][..|s[..i + 1]| - 1] == s[..i] && s[..i + 1][|s[..i + 1]| - 1] == s[i]
  {
  }

  /** Attributes changed or removed. */
  method DiffLeft(path: PathBuffer, out: Report, ls: seq<Attr>, rs: seq<Attr>)
    modifies out
    ensures out.lines == old(out.lines) + LeftLines(path.steps, ls, rs)
  {
    var i := 0;
    while i < |ls|
      invariant i <= |ls| && out.lines == old(out.lines) + LeftLines(path.steps, ls[..i], rs)
    {
      hide Find;
      NextLine(ls, i);
      var a := ls[i];
      match Find(rs, a.name) {
        case Some(rv) =>
          if rv != a.value { out.lines := out.lines + [AttrChange(path.steps, a.name, a.value, rv)]; }
        case None =>
          out.lines := out.lines + [AttrRemoved(path.steps, a.name, a.value)];
      }
      i := i + 1;
    }
    assert ls[..i] == ls;
  }

  /** Attributes added. */
  method DiffRight(path: PathBuffer, out: Report, ls: seq<Attr>, rs: seq<Attr>)
    modifies out
    ensures out.lines == old(out.lines) + RightLines(path.steps, rs, ls)
  {
    var i := 0;
    while i < |rs|
      invariant i <= |rs| && out.lines == old(out.lines) + RightLines(path.steps, rs[..i], ls)
    {
      hide Find;
      NextLine(rs, i);
      var b := rs[i];
      if Find(ls, b.name).None? { out.lines := out.lines + [AttrAdded(path.steps, b.name, b.value)]; }
      i := i + 1;
    }
    assert rs[..i] == rs;
  }

  /** Compares two nodes and everything below.  The path buffer comes back as it was. */
  method DiffNode(l: Node, r: Node, path: PathBuffer, out: Report)
    modifies path, out
    ensures path.steps == old(path.steps)
    ensures out.lines == old(out.lines) + Diff(l, r, path.steps)
    decreases l, 1
  {
    if KindOf(l) != KindOf(r) {
      out.lines := out.lines + [KindChange(path.steps, KindOf(l), KindOf(r))];
      return;
    }
    if !l.Element? {
      DiffContent(l, r, path, out);
      return;
    }
    if l.name != r.name {
      out.lines := out.lines + [NameChange(path.steps, l.name, r.name)];
      return;
    }
    hide AttrLines, KidLines, Sort, LeftLines, RightLines;
    DiffAttributes(l.attrs, r.attrs, path, out);
    DiffChildren(l, r, path, out);
  }

  method DiffAttributes(l: seq<Attr>, r: seq<Attr>, path: PathBuffer, out: Report)
    modifies out
    ensures out.lines == old(out.lines) + AttrLines(path.steps, l, r)
  {
    hide Sort, LeftLines, RightLines;
    var ls, rs := Sort(l), Sort(r);
    DiffLeft(path, out, ls, rs);
    DiffRight(path, out, ls, rs);
  }

  method DiffContent(l: Node, r: Node, path: PathBuffer, out: Report)
    requires KindOf(l) == KindOf(r) && !l.Element?
    modifies out
    ensures out.lines == old(out.lines) + ContentLines(l, r, path.steps)
  {
    match l
    case Text(lc) =>
      if lc != r.content { out.lines := out.lines + [TextChange(path.steps, lc, r.content)]; }
    case CData(lc) =>
      if lc != r.content { out.lines := out.lines + [TextChange(path.steps, lc, r.content)]; }
    case Comment(lc) =>
      if lc != r.content { out.lines := out.lines + [CommentChange(path.steps, lc, r.content)]; }
    case Pi(lt, lc) =>
      if lt != r.target || lc != r.content { out.lines := out.lines + [PiChange(path.steps, lt, lc, r.target, r.content)]; }
    case Other(_, _) =>
  }

  method DiffChildren(l: Node, r: Node, path: PathBuffer, out: Report)
    requires l.Element? && r.Element?
    modifies path, out
    ensures path.steps == old(path.steps)
    ensures out.lines == old(out.lines) + KidLines(l, r, |Merged(l.children, r.children)|, path.steps)
    decreases l, 0
  {
    hide Diff, Counts, LabelOf;
    var ls, rs := l.children, r.children;
    ghost var all := Merged(ls, rs);
    var max := if |ls| >= |rs| then |ls| else |rs|;
    var counters: map<string, nat> := map[];
    NoneCounted();
    var i := 0;
    while i < max
      invariant i <= max && path.steps == old(path.steps) && Counts(counters, all[..i])
      invariant out.lines == old(out.lines) + KidLines(l, r, i, path.steps)
    {
      assert all[..i + 1] == all[..i] + [all[i]];
      var seg;
      if i < |ls| && i < |rs| {
        seg, counters := StepLabel(ls[i], counters, all[..i]);
        var base := |path.steps|;
        path.steps := path.steps + [seg];
        DiffNode(ls[i], rs[i], path, out);
        path.steps := path.steps[..base];
      } else if i < |ls| {
        seg, counters := StepLabel(ls[i], counters, all[..i]);
        out.lines := out.lines + [Removed(path.steps + [seg])];
      } else {
        seg, counters := StepLabel(rs[i], counters, all[..i]);
        out.lines := out.lines + [Added(path.steps + [seg])];
      }
      i := i + 1;
    }
  }

  lemma NoneCounted()
    ensures Counts(map[], [])
  {
  }

  /** `run_diff`: the lines of two whole documents, and whether the check failed. */
  method RunDiff(left: Node, right: Node) returns (lines: seq<Line>, failed: bool)
    ensures lines == Diff(left, right, [])
    ensures WellNamed(left) && WellNamed(right) ==> (failed <==> !Same(left, right))
  {
    hide Diff, Same, WellNamed;
    var path := new PathBuffer();
    var out := new Report();
    DiffNode(left, right, path, out);
    lines := out.lines;
    failed := lines != [];
    if WellNamed(left) && WellNamed(right) { DiffExact(left, right, []); }
  }
}
