/** The streaming extraction runner: items, `id` lengths and the text of the first
    `AC` child (crates/bench/benches/stream.rs:97-199).  Text is the bytes the reader
    hands over. */
module StreamExtract {
  import opened Basics
  import opened Stream

  datatype Extract = Extract(n: nat, idLen: nat, acLen: nat, depth: nat, inEntry: bool, acSeen: bool,
                             want: bool, buf: string)

  const Fresh := Extract(0, 0, 0, 0, false, false, false, "")

  /** The lengths of all attributes named `id`. */
  function IdLen(attrs: seq<Attr>): nat {
    if attrs == [] then 0
    else IdLen(attrs[..|attrs| - 1]) + (if attrs[|attrs| - 1].name == "id" then |attrs[|attrs| - 1].value| else 0)
  }

  function ExtractEvent(s: Extract, e: Event): Extract {
    match e
    case Start(name, attrs) =>
      var d := s.(depth := s.depth + 1);
      if d.depth == 2 && name == "Entry" then d.(inEntry := true, acSeen := false, idLen := s.idLen + IdLen(attrs))
      else if s.inEntry && d.depth == 3 && name == "AC" && !s.acSeen then d.(want := true, buf := "")
      else d
    case Empty(name, attrs) =>
      if s.depth == 1 && name == "Entry" then s.(idLen := s.idLen + IdLen(attrs), n := s.n + 1) else s
    case Chars(t) => if s.want then s.(buf := s.buf + t) else s
    case End =>
      var c := if s.want then s.(acLen := s.acLen + |s.buf|, want := false, acSeen := true) else s;
      var d := if c.inEntry && c.depth == 2 then c.(inEntry := false, n := c.n + 1) else c;
      d.(depth := if d.depth == 0 then 0 else d.depth - 1)
    case _ => s
  }

  function ExtractEvents(s: Extract, es: seq<Event>): Extract
    decreases |es|
  {
    if es == [] then s else ExtractEvents(ExtractEvent(s, es[0]), es[1..])
  }

  lemma {:induction false} ExtractJoins(s: Extract, a: seq<Event>, b: seq<Event>)
    ensures ExtractEvents(s, a + b) == ExtractEvents(ExtractEvents(s, a), b)
    decreases |a|
  {
    if a == [] {
      assert a + b == b;
    } else {
      assert (a + b)[0] == a[0] && (a + b)[1..] == a[1..] + b;
      ExtractJoins(ExtractEvent(s, a[0]), a[1..], b);
    }
  }

  predicate Terse(t: Tree) { t.Element? && t.kids == [] && t.terse }

  /** The events of an element, one piece after the other. */
  lemma Unfold(s: Extract, t: Tree)
    ensures ExtractEvents(s, Written(t)) ==
      if t.Element? && !Terse(t)
      then ExtractEvent(ExtractEvents(ExtractEvent(s, Start(t.name, t.attrs)), AllWritten(t, |t.kids|)), End)
      else ExtractEvent(s, Written(t)[0])
  {
    if t.Element? && !Terse(t) {
      var start, kids := Start(t.name, t.attrs), AllWritten(t, |t.kids|);
      ExtractJoins(s, [start] + kids, [End]);
      ExtractJoins(s, [start], kids);
      assert [start][1..] == [] && [End][1..] == [];
    } else {
      assert Written(t)[1..] == [];
    }
  }

  // ── parts of the tree the automaton passes over ───────────────────────────

  predicate Inert(s: Extract) { !s.want && s.depth >= (if s.inEntry then 3 else 2) }

  lemma {:induction false} InertTree(s: Extract, t: Tree)
    requires Inert(s)
    ensures ExtractEvents(s, Written(t)) == s
    decreases t
  {
    hide ExtractEvents, AllWritten;
    Unfold(s, t);
    if t.Element? && !Terse(t) { InertKids(ExtractEvent(s, Start(t.name, t.attrs)), t, |t.kids|); }
  }

  lemma {:induction false} InertKids(s: Extract, t: Tree, n: nat)
    requires Inert(s) && t.Element? && n <= |t.kids|
    ensures ExtractEvents(s, AllWritten(t, n)) == s
    decreases t, n
  {
    if n > 0 {
      ExtractJoins(s, AllWritten(t, n - 1), Written(t.kids[n - 1]));
      InertKids(s, t, n - 1);
      InertTree(s, t.kids[n - 1]);
    }
  }

  // ── what is captured inside `AC` ──────────────────────────────────────────

  /** Text up to the first end tag, and whether that tag was met. */
  datatype Span = Span(text: string, closed: bool)

  function SpanOf(t: Tree): Span
    decreases t
  {
    if t.Text? then Span(t.text, false)
    else if t.Element? && !Terse(t) then Span(SpanBelow(t, |t.kids|).text, true)
    else Span("", false)
  }

  function SpanBelow(t: Tree, n: nat): Span
    requires t.Element? && n <= |t.kids|
    decreases t, n
  {
    if n == 0 then Span("", false)
    else
      var before := SpanBelow(t, n - 1);
      if before.closed then before
      else Span(before.text + SpanOf(t.kids[n - 1]).text, SpanOf(t.kids[n - 1]).closed)
  }

  function Captured(s: Extract, span: Span): Extract {
    var t := s.(buf := s.buf + span.text);
    if span.closed then t.(acLen := s.acLen + |t.buf|, want := false, acSeen := true) else t
  }

  lemma {:induction false} CaptureTree(s: Extract, t: Tree)
    requires s.want && s.inEntry && s.depth >= 3
    ensures ExtractEvents(s, Written(t)) == Captured(s, SpanOf(t))
    decreases t
  {
    hide ExtractEvents, AllWritten;
    Unfold(s, t);
    if t.Element? && !Terse(t) { CaptureKids(ExtractEvent(s, Start(t.name, t.attrs)), t, |t.kids|); }
  }

  lemma {:induction false} CaptureKids(s: Extract, t: Tree, n: nat)
    requires s.want && s.inEntry && s.depth >= 3 && t.Element? && n <= |t.kids|
    ensures ExtractEvents(s, AllWritten(t, n)) == Captured(s, SpanBelow(t, n))
    decreases t, n
  {
    if n > 0 {
      ExtractJoins(s, AllWritten(t, n - 1), Written(t.kids[n - 1]));
      CaptureKids(s, t, n - 1);
      var mid := Captured(s, SpanBelow(t, n - 1));
      hide ExtractEvents, Written, AllWritten;
      if SpanBelow(t, n - 1).closed { InertTree(mid, t.kids[n - 1]); } else { CaptureTree(mid, t.kids[n - 1]); }
      assert s.buf + (SpanBelow(t, n - 1).text + SpanOf(t.kids[n - 1]).text) == mid.buf + SpanOf(t.kids[n - 1]).text;
    }
  }

  // ── one entry ─────────────────────────────────────────────────────────────

  /** The text captured among the first `n` children of an entry: that of the first
      `AC` written with a start tag. */
  function AcBelow(t: Tree, n: nat): Option<string>
    requires t.Element? && n <= |t.kids|
  {
    if n == 0 then None
    else if AcBelow(t, n - 1).Some? then AcBelow(t, n - 1)
    else
      var kid := t.kids[n - 1];
      if kid.Element? && kid.name == "AC" && !Terse(kid) then Some(SpanBelow(kid, |kid.kids|).text) else None
  }

  function Len(o: Option<string>): nat { if o.Some? then |o.value| else 0 }

  lemma AcCaptured(s: Extract, kid: Tree)
    requires s.inEntry && s.depth == 2 && !s.want && !s.acSeen && kid.Element? && kid.name == "AC" && !Terse(kid)
    ensures var text := SpanBelow(kid, |kid.kids|).text;
      ExtractEvents(s, Written(kid)) == s.(acSeen := true, acLen := s.acLen + |text|, buf := text)
  {
    Unfold(s, kid);
    CaptureKids(ExtractEvent(s, Start(kid.name, kid.attrs)), kid, |kid.kids|);
    hide ExtractEvents, SpanBelow;
    assert "" + SpanBelow(kid, |kid.kids|).text == SpanBelow(kid, |kid.kids|).text;
  }

  lemma OtherKid(s: Extract, kid: Tree)
    requires s.inEntry && s.depth == 2 && !s.want
    requires s.acSeen || !(kid.Element? && kid.name == "AC" && !Terse(kid))
    ensures ExtractEvents(s, Written(kid)) == s
  {
    Unfold(s, kid);
    if kid.Element? && !Terse(kid) { InertKids(ExtractEvent(s, Start(kid.name, kid.attrs)), kid, |kid.kids|); }
    hide ExtractEvents, AllWritten;
  }

  lemma {:induction false} EntryKids(s: Extract, t: Tree, n: nat)
    requires s.inEntry && s.depth == 2 && !s.want && !s.acSeen && t.Element? && n <= |t.kids|
    ensures var r := ExtractEvents(s, AllWritten(t, n));
      r == s.(acSeen := AcBelow(t, n).Some?, acLen := s.acLen + Len(AcBelow(t, n)), buf := r.buf)
    decreases n
  {
    if n > 0 {
      ExtractJoins(s, AllWritten(t, n - 1), Written(t.kids[n - 1]));
      EntryKids(s, t, n - 1);
      var mid, kid := ExtractEvents(s, AllWritten(t, n - 1)), t.kids[n - 1];
      hide ExtractEvents, SpanBelow;
      if !mid.acSeen && kid.Element? && kid.name == "AC" && !Terse(kid) { AcCaptured(mid, kid); } else { OtherKid(mid, kid); }
    }
  }

  /** What one child of the root adds. */
  function KidId(t: Tree): nat { if IsEntry(t) then IdLen(t.attrs) else 0 }
  function KidAc(t: Tree): nat { if IsEntry(t) then Len(AcBelow(t, |t.kids|)) else 0 }

  lemma RootKid(s: Extract, t: Tree)
    requires s.depth == 1 && !s.inEntry && !s.want
    ensures var r := ExtractEvents(s, Written(t));
      r == s.(n := s.n + (if IsEntry(t) then 1 else 0), idLen := s.idLen + KidId(t), acLen := s.acLen + KidAc(t),
              acSeen := r.acSeen, buf := r.buf)
  {
    Unfold(s, t);
    if t.Element? && !Terse(t) {
      var s1 := ExtractEvent(s, Start(t.name, t.attrs));
      if t.name == "Entry" { EntryKids(s1, t, |t.kids|); } else { InertKids(s1, t, |t.kids|); }
    }
    hide ExtractEvents, SpanBelow, AllWritten, IdLen;
  }

  // ── whole documents ───────────────────────────────────────────────────────

  function IdTotal(kids: seq<Tree>): nat { if kids == [] then 0 else IdTotal(kids[..|kids| - 1]) + KidId(kids[|kids| - 1]) }
  function AcTotal(kids: seq<Tree>): nat { if kids == [] then 0 else AcTotal(kids[..|kids| - 1]) + KidAc(kids[|kids| - 1]) }

  lemma {:induction false} RootKids(s: Extract, root: Tree, n: nat)
    requires s.depth == 1 && !s.inEntry && !s.want && root.Element? && n <= |root.kids|
    ensures var r, kids := ExtractEvents(s, AllWritten(root, n)), root.kids[..n];
      r == s.(n := s.n + Entries(kids), idLen := s.idLen + IdTotal(kids), acLen := s.acLen + AcTotal(kids),
              acSeen := r.acSeen, buf := r.buf)
    decreases n
  {
    if n > 0 {
      ExtractJoins(s, AllWritten(root, n - 1), Written(root.kids[n - 1]));
      RootKids(s, root, n - 1);
      assert root.kids[..n][..n - 1] == root.kids[..n - 1];
      hide ExtractEvents, Written, KidId, KidAc;
      RootKid(ExtractEvents(s, AllWritten(root, n - 1)), root.kids[n - 1]);
    }
  }

  lemma {:induction false} OutsideExtracts(s: Extract, es: seq<Event>)
    requires Outsides(es) && !s.want
    ensures ExtractEvents(s, es) == s
    decreases |es|
  {
    if es != [] {
      assert Outside(es[0]);
      OutsideExtracts(ExtractEvent(s, es[0]), es[1..]);
    }
  }

  /** On the events of any document: the items are the `Entry` children of the root,
      whatever its name, with the lengths of their `id` attributes and, of each, the
      text of the first `AC` that is not an empty tag up to the first end tag in it. */
  lemma ExtractsEntries(before: seq<Event>, root: Tree, after: seq<Event>)
    requires Outsides(before) && root.Element? && !Terse(root) && Outsides(after)
    ensures var r := ExtractEvents(Fresh, Document(before, root, after));
      r.n == Entries(root.kids) && r.idLen == IdTotal(root.kids) && r.acLen == AcTotal(root.kids) && r.depth == 0
  {
    ExtractJoins(Fresh, before + Written(root), after);
    ExtractJoins(Fresh, before, Written(root));
    OutsideExtracts(Fresh, before);
    Unfold(Fresh, root);
    RootKids(ExtractEvent(Fresh, Start(root.name, root.attrs)), root, |root.kids|);
    assert root.kids[..|root.kids|] == root.kids;
    OutsideExtracts(ExtractEvents(Fresh, Written(root)), after);
  }

  lemma TerseRoot(before: seq<Event>, root: Tree, after: seq<Event>)
    requires Outsides(before) && Terse(root) && Outsides(after)
    ensures ExtractEvents(Fresh, Document(before, root, after)) == Fresh
  {
    ExtractJoins(Fresh, before + Written(root), after);
    ExtractJoins(Fresh, before, Written(root));
    OutsideExtracts(Fresh, before);
    Unfold(Fresh, root);
    OutsideExtracts(Fresh, after);
  }

  /** The two runners agree on the number of items exactly when the root is named
      `root` or has no `Entry` child: only the counter looks at that name. */
  lemma RunnersAgreeExactly(before: seq<Event>, root: Tree, after: seq<Event>)
    requires Outsides(before) && root.Element? && Outsides(after)
    ensures var es := Document(before, root, after);
      CountEvents(Counter(0, 0, []), es).n == ExtractEvents(Fresh, es).n <==> root.name == "root" || Entries(root.kids) == 0
  {
    CountsEntries(before, root, after);
    if Terse(root) { TerseRoot(before, root, after); } else { ExtractsEntries(before, root, after); }
  }

  /** One item for the extractor, none for the counter. */
  lemma RunnersDiffer()
    ensures var root := Element("doc", [], [Element("Entry", [], [], true)], false);
      var es := Document([], root, []);
      CountEvents(Counter(0, 0, []), es).n == 0 && ExtractEvents(Fresh, es).n == 1
  {
    var entry := Element("Entry", [], [], true);
    var root := Element("doc", [], [entry], false);
    assert Entries([entry]) == 1 by { assert [entry][..0] == []; }
    CountsEntries([], root, []);
    ExtractsEntries([], root, []);
  }

  // ── the text of `AC`, streamed and from the tree ──────────────────────────

  /** The text content of the tree. */
  function TextOf(t: Tree): string
    decreases t
  {
    if t.Text? || t.CData? then t.text else if t.Element? then TextBelow(t, |t.kids|) else ""
  }

  function TextBelow(t: Tree, n: nat): string
    requires t.Element? && n <= |t.kids|
    decreases t, n
  {
    if n == 0 then "" else TextBelow(t, n - 1) + TextOf(t.kids[n - 1])
  }

  /** How much text below an element the capture misses: CDATA before the first end
      tag, and everything after it. */
  function Skipped(t: Tree): nat
    decreases t
  {
    if t.CData? then |t.text| else if t.Element? then SkippedBelow(t, |t.kids|) else 0
  }

  function SkippedBelow(t: Tree, n: nat): nat
    requires t.Element? && n <= |t.kids|
    decreases t, n
  {
    if n == 0 then 0
    else
      var kid := t.kids[n - 1];
      SkippedBelow(t, n - 1) + (if SpanBelow(t, n - 1).closed then |TextOf(kid)| else Skipped(kid))
  }

  lemma {:induction false} SpanMeasure(t: Tree)
    ensures |SpanOf(t).text| + Skipped(t) == |TextOf(t)|
    ensures Skipped(t) == 0 ==> SpanOf(t).text == TextOf(t)
    decreases t
  {
    if t.Element? {
      SpanBelowMeasure(t, |t.kids|);
    }
  }

  lemma {:induction false} SpanBelowMeasure(t: Tree, n: nat)
    requires t.Element? && n <= |t.kids|
    ensures |SpanBelow(t, n).text| + SkippedBelow(t, n) == |TextBelow(t, n)|
    ensures SkippedBelow(t, n) == 0 ==> SpanBelow(t, n).text == TextBelow(t, n)
    decreases t, n
  {
    if n > 0 {
      SpanBelowMeasure(t, n - 1);
      SpanMeasure(t.kids[n - 1]);
    }
  }

  /** The text captured from an `AC` is its whole text if and only if no CDATA stands
      before the first end tag in it and no text after. */
  lemma CapturedExactly(ac: Tree)
    requires ac.Element?
    ensures SpanBelow(ac, |ac.kids|).text == TextOf(ac) <==> Skipped(ac) == 0
  {
    SpanBelowMeasure(ac, |ac.kids|);
  }

  /** The text of an entry's first `AC` child, read from the tree. */
  function FirstAc(t: Tree, n: nat): Option<Tree>
    requires t.Element? && n <= |t.kids|
  {
    if n == 0 then None
    else if FirstAc(t, n - 1).Some? then FirstAc(t, n - 1)
    else if t.kids[n - 1].Element? && t.kids[n - 1].name == "AC" then Some(t.kids[n - 1])
    else None
  }

  function TextOr(o: Option<string>): string { if o.Some? then o.value else "" }

  lemma {:induction false} FirstAcCaptured(t: Tree, n: nat)
    requires t.Element? && n <= |t.kids|
    ensures FirstAc(t, n).None? ==> AcBelow(t, n).None?
    ensures FirstAc(t, n).Some? ==> FirstAc(t, n).value.Element?
    ensures FirstAc(t, n).Some? && !Terse(FirstAc(t, n).value) ==>
      AcBelow(t, n) == Some(SpanBelow(FirstAc(t, n).value, |FirstAc(t, n).value.kids|).text)
  {
    if n > 0 { FirstAcCaptured(t, n - 1); }
  }

  /** The first `AC` child that is not written as an empty tag. */
  function OpenAc(t: Tree, n: nat): Option<Tree>
    requires t.Element? && n <= |t.kids|
  {
    if n == 0 then None
    else if OpenAc(t, n - 1).Some? then OpenAc(t, n - 1)
    else if t.kids[n - 1].Element? && t.kids[n - 1].name == "AC" && !Terse(t.kids[n - 1]) then Some(t.kids[n - 1])
    else None
  }

  lemma {:induction false} OpenAcCaptured(t: Tree, n: nat)
    requires t.Element? && n <= |t.kids|
    ensures OpenAc(t, n).Some? ==> OpenAc(t, n).value.Element?
    ensures AcBelow(t, n) ==
      if OpenAc(t, n).Some? then Some(SpanBelow(OpenAc(t, n).value, |OpenAc(t, n).value.kids|).text) else None
  {
    if n > 0 { OpenAcCaptured(t, n - 1); }
  }

  /** An entry's captured text is that of its first `AC` in the tree if and only if
      that `AC` skips nothing or, when it is written as an empty tag, the first `AC`
      that is not skips all it has. */
  lemma EntryTextExactly(entry: Tree)
    requires entry.Element?
    ensures var first, open := FirstAc(entry, |entry.kids|), OpenAc(entry, |entry.kids|);
      TextOr(AcBelow(entry, |entry.kids|)) == (if first.Some? then TextOf(first.value) else "") <==>
        || first.None?
        || (!Terse(first.value) && Skipped(first.value) == 0)
        || (Terse(first.value) && (open.None? || Skipped(open.value) == |TextOf(open.value)|))
  {
    FirstAcCaptured(entry, |entry.kids|);
    OpenAcCaptured(entry, |entry.kids|);
    var first, open := FirstAc(entry, |entry.kids|), OpenAc(entry, |entry.kids|);
    if first.Some? {
      CapturedExactly(first.value);
      assert Terse(first.value) ==> TextBelow(first.value, |first.value.kids|) == "";
    }
    if open.Some? { SpanBelowMeasure(open.value, |open.value.kids|); }
  }

  /** After an empty `AC` the text of a later one is taken for the first one's. */
  lemma LaterAcTaken()
    ensures var entry := Element("Entry", [], [Element("AC", [], [], true), Element("AC", [], [Text("x")], false)], false);
      AcBelow(entry, 2) == Some("x") && FirstAc(entry, 2) == Some(entry.kids[0]) && TextOf(entry.kids[0]) == ""
  {
    var empty, later := Element("AC", [], [], true), Element("AC", [], [Text("x")], false);
    var entry := Element("Entry", [], [empty, later], false);
    assert AcBelow(entry, 1) == None && FirstAc(entry, 1) == Some(empty);
    assert SpanBelow(later, 1).text == "x";
  }

  /** Nothing in it ends early or carries text the stream skips. */
  predicate Flat(t: Tree) { t.Text? || t.Aside? || Terse(t) }

  lemma {:induction false} FlatSkipsNone(t: Tree, n: nat)
    requires t.Element? && n <= |t.kids| && forall i :: 0 <= i < n ==> Flat(t.kids[i])
    ensures SkippedBelow(t, n) == 0 && !SpanBelow(t, n).closed
  {
    if n > 0 {
      FlatSkipsNone(t, n - 1);
      var kid := t.kids[n - 1];
      assert Terse(kid) ==> SkippedBelow(kid, |kid.kids|) == 0;
    }
  }

  /** In particular, streaming captures an `AC` without child elements or CDATA. */
  lemma FlatCaptured(ac: Tree)
    requires ac.Element? && forall i :: 0 <= i < |ac.kids| ==> Flat(ac.kids[i])
    ensures SpanBelow(ac, |ac.kids|).text == TextOf(ac)
  {
    FlatSkipsNone(ac, |ac.kids|);
    CapturedExactly(ac);
  }

  /** With text after a child element it stops at that element's end tag. */
  lemma NestedCutShort()
    ensures var ac := Element("AC", [], [Text("ab"), Element("x", [], [Text("cd")], false), Text("ef")], false);
      SpanBelow(ac, 3).text == "abcd" && TextOf(ac) == "abcdef"
  {
    var x := Element("x", [], [Text("cd")], false);
    var ac := Element("AC", [], [Text("ab"), x, Text("ef")], false);
    assert SpanBelow(x, 1).text == "cd" && SpanBelow(ac, 1) == Span("ab", false);
    assert SpanBelow(ac, 2) == Span("abcd", true);
    assert TextBelow(x, 1) == "cd" && TextBelow(ac, 1) == "ab" && TextBelow(ac, 2) == "abcd";
  }

  // ── the loop itself ───────────────────────────────────────────────────────

  method AddIds(attrs: seq<Attr>, total: nat) returns (sum: nat)
    ensures sum == total + IdLen(attrs)
  {
    sum := total;
    for k := 0 to |attrs|
      invariant sum == total + IdLen(attrs[..k])
    {
      assert attrs[..k + 1][..k] == attrs[..k];
      if attrs[k].name == "id" { sum := sum + |attrs[k].value|; }
    }
    assert attrs[..|attrs|] == attrs;
  }

  lemma ExtractNext(s: Extract, es: seq<Event>, i: nat)
    requires i < |es|
    ensures ExtractEvents(s, es[i..]) == ExtractEvents(ExtractEvent(s, es[i]), es[i + 1..])
  {
    assert es[i..][1..] == es[i + 1..];
  }

  method RunExtract(es: seq<Event>) returns (n: nat, idLen: nat, acLen: nat)
    ensures var r := ExtractEvents(Fresh, es);
      n == r.n && idLen == r.idLen && acLen == r.acLen
  {
    n, idLen, acLen := 0, 0, 0;
    var depth: nat := 0;
    var inEntry, acSeen, want, buf := false, false, false, "";
    var i := 0;
    assert es[0..] == es;
    while i < |es|
      invariant i <= |es|
      invariant ExtractEvents(Extract(n, idLen, acLen, depth, inEntry, acSeen, want, buf), es[i..]) == ExtractEvents(Fresh, es)
    {
      hide IdLen, ExtractEvents;
      ghost var before := Extract(n, idLen, acLen, depth, inEntry, acSeen, want, buf);
      ExtractNext(before, es, i);
      match es[i] {
        case Start(name, attrs) =>
          depth := depth + 1;
          if depth == 2 && name == "Entry" {
            inEntry, acSeen := true, false;
            idLen := AddIds(attrs, idLen);
          } else if inEntry && depth == 3 && name == "AC" && !acSeen {
            want, buf := true, "";
          }
        case Empty(name, attrs) =>
          if depth == 1 && name == "Entry" {
            idLen := AddIds(attrs, idLen);
            n := n + 1;
          }
        case Chars(t) =>
          if want { buf := buf + t; }
        case End =>
          if want {
            acLen := acLen + |buf|;
            want, acSeen := false, true;
          }
          if inEntry && depth == 2 {
            inEntry := false;
            n := n + 1;
          }
          if depth > 0 { depth := depth - 1; }
        case _ =>
      }
      assert Extract(n, idLen, acLen, depth, inEntry, acSeen, want, buf) == ExtractEvent(before, es[i]);
      i := i + 1;
    }
    assert es[i..] == [];
  }
}
