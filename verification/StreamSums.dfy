/** What the streaming runners' totals add up, counted character by character
    (crates/bench/benches/stream.rs:97-199). */
module StreamSums {
  import opened Basics
  import opened Stream
  import opened StreamExtract

  /** Character `k` of attribute or child `i`. */
  datatype Spot = Spot(i: nat, k: nat)

  function Row(i: nat, width: nat): set<Spot> { set k: nat | k < width :: Spot(i, k) }

  lemma {:induction false} RowSize(i: nat, width: nat)
    ensures |Row(i, width)| == width
  {
    if width > 0 {
      RowSize(i, width - 1);
      assert Row(i, width) == Row(i, width - 1) + {Spot(i, width - 1)};
    }
  }

  /** The characters of the attributes named `id`. */
  ghost function IdChars(attrs: seq<Attr>): set<Spot> {
    set i: nat, k: nat | i < |attrs| && attrs[i].name == "id" && k < |attrs[i].value| :: Spot(i, k)
  }

  lemma {:induction false} IdLenExactly(attrs: seq<Attr>)
    ensures IdLen(attrs) == |IdChars(attrs)|
  {
    if attrs != [] {
      var n := |attrs| - 1;
      var more := if attrs[n].name == "id" then Row(n, |attrs[n].value|) else {};
      IdLenExactly(attrs[..n]);
      RowSize(n, |attrs[n].value|);
      assert IdChars(attrs) == IdChars(attrs[..n]) + more;
      assert IdChars(attrs[..n]) !! more;
    }
  }

  ghost function EntryKids(kids: seq<Tree>): set<nat> { set j | 0 <= j < |kids| && IsEntry(kids[j]) }

  /** An entry's `id` characters, and the text captured for it. */
  ghost function Ids(t: Tree): nat { if IsEntry(t) then |IdChars(t.attrs)| else 0 }

  function Text(t: Tree): string {
    if IsEntry(t) && AcBelow(t, |t.kids|).Some? then AcBelow(t, |t.kids|).value else ""
  }

  ghost function EntryIds(kids: seq<Tree>): set<Spot> {
    set j: nat, k: nat | j < |kids| && k < Ids(kids[j]) :: Spot(j, k)
  }

  ghost function EntryTexts(kids: seq<Tree>): set<Spot> {
    set j: nat, k: nat | j < |kids| && k < |Text(kids[j])| :: Spot(j, k)
  }

  lemma {:induction false} EntriesExactly(kids: seq<Tree>)
    ensures Entries(kids) == |EntryKids(kids)|
  {
    if kids != [] {
      var n := |kids| - 1;
      EntriesExactly(kids[..n]);
      assert EntryKids(kids) == EntryKids(kids[..n]) + (if IsEntry(kids[n]) then {n} else {});
    }
  }

  lemma IdsGrow(kids: seq<Tree>)
    requires kids != []
    ensures |EntryIds(kids)| == |EntryIds(kids[..|kids| - 1])| + Ids(kids[|kids| - 1])
  {
    hide Ids;
    var n := |kids| - 1;
    RowSize(n, Ids(kids[n]));
    assert EntryIds(kids) == EntryIds(kids[..n]) + Row(n, Ids(kids[n]));
    assert EntryIds(kids[..n]) !! Row(n, Ids(kids[n]));
  }

  lemma TextsGrow(kids: seq<Tree>)
    requires kids != []
    ensures |EntryTexts(kids)| == |EntryTexts(kids[..|kids| - 1])| + |Text(kids[|kids| - 1])|
  {
    hide Text;
    var n := |kids| - 1;
    RowSize(n, |Text(kids[n])|);
    assert EntryTexts(kids) == EntryTexts(kids[..n]) + Row(n, |Text(kids[n])|);
    assert EntryTexts(kids[..n]) !! Row(n, |Text(kids[n])|);
  }

  lemma {:induction false} IdTotalExactly(kids: seq<Tree>)
    ensures IdTotal(kids) == |EntryIds(kids)|
  {
    if kids != [] {
      var last := kids[|kids| - 1];
      IdTotalExactly(kids[..|kids| - 1]);
      if IsEntry(last) { IdLenExactly(last.attrs); }
      IdsGrow(kids);
      hide IdLen, IdChars, EntryIds;
    }
  }

  lemma {:induction false} AcTotalExactly(kids: seq<Tree>)
    ensures AcTotal(kids) == |EntryTexts(kids)|
  {
    if kids != [] {
      AcTotalExactly(kids[..|kids| - 1]);
      TextsGrow(kids);
      hide AcBelow, EntryTexts;
    }
  }

  /** On the events of any document the extractor reports as many items as the root has
      `Entry` children, as many `id` characters as those have in attributes of that
      name, and as many text characters as are captured for them. */
  lemma TotalsExactly(before: seq<Event>, root: Tree, after: seq<Event>)
    requires Outsides(before) && root.Element? && !Terse(root) && Outsides(after)
    ensures var r := ExtractEvents(Fresh, Document(before, root, after));
      r.n == |EntryKids(root.kids)| && r.idLen == |EntryIds(root.kids)| && r.acLen == |EntryTexts(root.kids)|
  {
    ExtractsEntries(before, root, after);
    EntriesExactly(root.kids);
    IdTotalExactly(root.kids);
    AcTotalExactly(root.kids);
  }
}
