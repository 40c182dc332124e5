/** Shared state of the libxml2 compatibility layer: intern dictionaries,
    per-thread slots, documents, and the reference counts that tie them
    together (crates/tree/src/dict.rs, crates/compat/src/dict.rs).

    Pointers are addresses; 0 is NULL.  A freed dictionary or arena is simply
    absent from its table, and its address may be handed out again.  The flag
    `fault` is raised when an operation touches a dictionary or an arena count
    that is not live, so "the flag is never raised" says there is no use after
    free and no double free. */
module CompatState {
  import opened Basics
  import opened Sums

  type Ptr = nat
  const NULL: Ptr := 0
  type Arena = nat
  type Node = nat
  type Tid = nat
  type DocId = nat

  /** `depth` is the length of the parent chain; it exists only here, to
      justify walking that chain. */
  datatype Dict = Dict(refs: int, parent: Ptr, depth: nat,
                       table: map<Bytes, Ptr>, owned: set<Ptr>, retained: seq<Arena>)

  /** The four thread-locals: THREAD_DICT, PENDING_REINTERN,
      PENDING_GRAFT_ARENA and THREAD_ARENAS. */
  datatype Thread = Thread(dict: Ptr, pendingSrc: Ptr, pendingName: Ptr,
                           graft: Option<Arena>, keepAlive: seq<Arena>)

  /** A document holds its arena, a reference to its own dictionary, and a
      second one in the C-visible `dict` slot.  `nodes` are the nodes reachable
      from it; their memory may lie in any arena. */
  datatype Doc = Doc(arena: Arena, dict: Ptr, slot: Ptr, nodes: set<Node>)

  /** `handles` are the references held by C callers; `arcs` the strong counts
      of the live arenas; `home` the arena each node was allocated in. */
  datatype State = State(dicts: map<Ptr, Dict>, threads: map<Tid, Thread>, docs: map<DocId, Doc>,
                         handles: multiset<Ptr>, arcs: map<Arena, int>, nextArena: Arena,
                         home: map<Node, Arena>, fault: bool)

  const Initial := State(map[], map[], map[], multiset{}, map[], 0, map[], false)
  const FreshThread := Thread(NULL, NULL, NULL, None, [])

  // ── who holds what ────────────────────────────────────────────────────────

  ghost function One(p: Ptr): multiset<Ptr> { if p == NULL then multiset{} else multiset{p} }

  ghost function Opt(a: Option<Arena>): multiset<Arena> { if a.None? then multiset{} else multiset{a.value} }

  ghost function DocStakes(d: Doc): multiset<Ptr> { multiset{d.dict, d.slot} }
  ghost function ThreadStakes(t: Thread): multiset<Ptr> { One(t.dict) }
  ghost function ParentStake(d: Dict): multiset<Ptr> { One(d.parent) }

  ghost function DocHolds(d: Doc): multiset<Arena> { multiset{d.arena} }
  ghost function ThreadHolds(t: Thread): multiset<Arena> { multiset(t.keepAlive) + Opt(t.graft) }
  ghost function DictHolds(d: Dict): multiset<Arena> { multiset(d.retained) }

  /** The references to dictionary `d` recorded anywhere. */
  ghost function Stakes(s: State, d: Ptr): nat {
    s.handles[d] + Count(s.docs, DocStakes, d) + Count(s.threads, ThreadStakes, d) + Count(s.dicts, ParentStake, d)
  }

  /** The handles on arena `a` recorded anywhere. */
  ghost function Holds(s: State, a: Arena): nat {
    Count(s.docs, DocHolds, a) + Count(s.threads, ThreadHolds, a) + Count(s.dicts, DictHolds, a)
  }

  // ── arena counts (Arc<Bump>) ──────────────────────────────────────────────

  function CloneArc(s: State, a: Arena): (r: State)
    ensures r == s.(arcs := r.arcs, fault := r.fault)
  {
    if a in s.arcs then s.(arcs := s.arcs[a := s.arcs[a] + 1]) else s.(fault := true)
  }

  function DropArc(s: State, a: Arena): (r: State)
    ensures r == s.(arcs := r.arcs, fault := r.fault)
  {
    if a !in s.arcs then s.(fault := true)
    else if s.arcs[a] == 1 then s.(arcs := s.arcs - {a})
    else s.(arcs := s.arcs[a := s.arcs[a] - 1])
  }

  function DropOpt(s: State, a: Option<Arena>): (r: State)
    ensures r == s.(arcs := r.arcs, fault := r.fault)
  {
    if a.None? then s else DropArc(s, a.value)
  }

  function DropAll(s: State, arenas: seq<Arena>): (r: State)
    ensures r == s.(arcs := r.arcs, fault := r.fault)
    decreases |arenas|
  {
    if arenas == [] then s else DropAll(DropArc(s, arenas[0]), arenas[1..])
  }

  // ── dictionary counts ─────────────────────────────────────────────────────

  function AddRef(s: State, d: Ptr): (r: State)
    ensures r == s.(dicts := r.dicts, fault := r.fault) && r.dicts.Keys == s.dicts.Keys
  {
    if d in s.dicts then s.(dicts := s.dicts[d := s.dicts[d].(refs := s.dicts[d].refs + 1)])
    else s.(fault := true)
  }

  /** The last release frees the dictionary, lets go of the arenas it pinned,
      and then releases the reference it held on its parent. */
  function Release(s: State, d: Ptr): (r: State)
    ensures r == s.(dicts := r.dicts, arcs := r.arcs, fault := r.fault)
    decreases |s.dicts|
  {
    if d !in s.dicts then s.(fault := true)
    else
      var rec := s.dicts[d];
      if rec.refs != 1 then s.(dicts := s.dicts[d := rec.(refs := rec.refs - 1)])
      else
        var freed := DropAll(s.(dicts := s.dicts - {d}), rec.retained);
        if rec.parent == NULL then freed else Release(freed, rec.parent)
  }

  function Retain(s: State, d: Ptr, a: Arena): (r: State)
    ensures r == s.(dicts := r.dicts, arcs := r.arcs, fault := r.fault)
  {
    if d !in s.dicts then s.(fault := true)
    else if a in s.dicts[d].retained then DropArc(s, a)
    else s.(dicts := s.dicts[d := s.dicts[d].(retained := s.dicts[d].retained + [a])])
  }

  predicate Pinned(dicts: map<Ptr, Dict>, d: Ptr, a: Arena) { d in dicts && a in dicts[d].retained }

  // ── interning ─────────────────────────────────────────────────────────────

  /** The parent of `d` when the chain can be followed. */
  function Up(s: State, d: Ptr): Ptr {
    if d in s.dicts && s.dicts[d].parent in s.dicts && s.dicts[s.dicts[d].parent].depth < s.dicts[d].depth
    then s.dicts[d].parent else NULL
  }

  function Depth(s: State, d: Ptr): nat { if d in s.dicts then s.dicts[d].depth else 0 }

  /** The nearest table on the chain from `d` upwards that knows `bytes`. */
  function ChainFind(s: State, d: Ptr, bytes: Bytes): Ptr
    decreases Depth(s, d)
  {
    if d !in s.dicts then NULL
    else if bytes in s.dicts[d].table then s.dicts[d].table[bytes]
    else if Up(s, d) in s.dicts && Depth(s, Up(s, d)) < Depth(s, d) then ChainFind(s, Up(s, d), bytes)
    else NULL
  }

  function ChainOwns(s: State, d: Ptr, p: Ptr): bool
    decreases Depth(s, d)
  {
    if d !in s.dicts then false
    else if p in s.dicts[d].owned then true
    else if Up(s, d) in s.dicts && Depth(s, Up(s, d)) < Depth(s, d) then ChainOwns(s, Up(s, d), p)
    else false
  }

  function OwnFind(s: State, d: Ptr, bytes: Bytes): Ptr {
    if d in s.dicts && bytes in s.dicts[d].table then s.dicts[d].table[bytes] else NULL
  }

  /** What `intern` finds without inserting: ancestors first, own table last. */
  function InternFind(s: State, d: Ptr, bytes: Bytes): Ptr {
    var up := ChainFind(s, Up(s, d), bytes);
    if up != NULL then up else OwnFind(s, d, bytes)
  }

  /** What `lookup` finds: own table first, ancestors last. */
  function LookupFind(s: State, d: Ptr, bytes: Bytes): Ptr {
    var own := OwnFind(s, d, bytes);
    if own != NULL then own else ChainFind(s, Up(s, d), bytes)
  }

  /** `addr` is the address the allocator gives a new canonical buffer. */
  function Intern(s: State, d: Ptr, bytes: Bytes, addr: Ptr): (r: State)
    ensures r == s.(dicts := r.dicts, fault := r.fault)
  {
    if d !in s.dicts then s.(fault := true)
    else if InternFind(s, d, bytes) != NULL then s
    else
      var rec := s.dicts[d];
      s.(dicts := s.dicts[d := rec.(table := rec.table[bytes := addr], owned := rec.owned + {addr})])
  }

  function InternPtr(s: State, d: Ptr, bytes: Bytes, addr: Ptr): Ptr {
    var hit := InternFind(s, d, bytes);
    if hit != NULL then hit else addr
  }

  function QName(prefix: Bytes, name: Bytes): Bytes {
    if prefix == [] then name else prefix + [58] + name
  }

  /** `b` is the name alone, or the prefix, a colon and the name. */
  predicate Joins(prefix: Bytes, name: Bytes, b: Bytes) {
    if prefix == [] then b == name
    else
      && |b| == |prefix| + 1 + |name|
      && b[..|prefix|] == prefix && b[|prefix|] == 58 && b[|prefix| + 1..] == name
  }

  lemma QNameJoins(prefix: Bytes, name: Bytes, b: Bytes)
    ensures Joins(prefix, name, b) <==> b == QName(prefix, name)
  {
    if prefix != [] && Joins(prefix, name, b) { assert b == b[..|prefix|] + [b[|prefix|]] + b[|prefix| + 1..]; }
  }

  // ── invariant ─────────────────────────────────────────────────────────────

  /** Reference counts are exact: each live dictionary counts the recorded
      stakes plus the references `extra` still in some caller's hand, at least
      one, and no stake names a freed dictionary. */
  ghost predicate RefsExact(s: State, extra: multiset<Ptr>) {
    && NULL !in s.dicts
    && (forall d :: d in s.dicts ==> 1 <= s.dicts[d].refs == Stakes(s, d) + extra[d])
    && (forall d :: Stakes(s, d) + extra[d] > 0 ==> d in s.dicts)
  }

  /** The same for arena counts. */
  ghost predicate ArcsExact(s: State, extra: multiset<Arena>) {
    && (forall a :: a in s.arcs ==> 1 <= s.arcs[a] == Holds(s, a) + extra[a])
    && (forall a :: Holds(s, a) + extra[a] > 0 ==> a in s.arcs)
    && (forall a :: a in s.arcs ==> a < s.nextArena)
  }

  /** Parents are live and strictly shallower. */
  ghost predicate Chained(dicts: map<Ptr, Dict>) {
    forall d :: d in dicts ==> LinkOk(dicts, dicts[d])
  }

  ghost predicate LinkOk(dicts: map<Ptr, Dict>, r: Dict) {
    r.parent != NULL ==> r.parent in dicts && dicts[r.parent].depth < r.depth
  }

  /** A table is injective and `owned` is exactly its range. */
  ghost predicate TableOk(r: Dict) {
    && r.owned == r.table.Values
    && NULL !in r.owned
    && (forall x, y :: x in r.table && y in r.table && r.table[x] == r.table[y] ==> x == y)
  }

  /** No canonical buffer belongs to two dictionaries. */
  ghost predicate Tables(dicts: map<Ptr, Dict>) {
    && (forall d :: d in dicts ==> TableOk(dicts[d]))
    && (forall d, e :: d in dicts && e in dicts && d != e ==> dicts[d].owned !! dicts[e].owned)
  }

  /** No arena is pinned twice on one dictionary. */
  ghost predicate NoDup(arenas: seq<Arena>) {
    forall i, j :: 0 <= i < j < |arenas| ==> arenas[i] != arenas[j]
  }

  ghost predicate PinsOk(dicts: map<Ptr, Dict>) {
    forall d :: d in dicts ==> NoDup(dicts[d].retained)
  }

  ghost predicate DictsOk(dicts: map<Ptr, Dict>) { Chained(dicts) && Tables(dicts) && PinsOk(dicts) }

  ghost predicate HomesOk(docs: map<DocId, Doc>, home: map<Node, Arena>, nextArena: Arena) {
    && (forall n :: n in home ==> home[n] < nextArena)
    && (forall k :: k in docs ==> docs[k].nodes <= home.Keys)
  }

  /** `xd` and `xa` are dictionary and arena references in flight inside one
      operation; both are empty between operations. */
  ghost predicate Inv(s: State, xd: multiset<Ptr>, xa: multiset<Arena>) {
    && !s.fault && RefsExact(s, xd) && ArcsExact(s, xa)
    && DictsOk(s.dicts) && HomesOk(s.docs, s.home, s.nextArena)
  }

  ghost predicate Sound(s: State) { Inv(s, multiset{}, multiset{}) }
}
