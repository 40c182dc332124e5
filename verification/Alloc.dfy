/** The allocation registries over a heap of bytes with address reuse and failure
    (crates/compat/src/alloc.rs:34-269, crates/compat/src/parse.rs:703-730). */
module Alloc {
  import opened Basics

  type Addr = nat
  const NULL: Addr := 0

  /** Which allocator a block came from: libc, the Rust allocator, or one the
      registries know nothing of (document arenas, the host's own blocks). */
  datatype Kind = Libc | Rust | Other

  datatype Block = Block(kind: Kind, size: nat)

  /** `blocks` are the live blocks by base address; `registry` and `binary` the two
      registries.  `fault` is raised by a release or a move through the wrong
      allocator or with the wrong size, and by a write past the end of a block. */
  datatype Heap = Heap(mem: map<Addr, Byte>, blocks: map<Addr, Block>,
                       registry: set<Addr>, binary: map<Addr, nat>, fault: bool)

  const Empty := Heap(map[], map[], {}, map[], false)

  // ── raw memory ────────────────────────────────────────────────────────────

  function At(mem: map<Addr, Byte>, x: Addr): Byte { if x in mem then mem[x] else 0 }

  function Put(mem: map<Addr, Byte>, a: Addr, data: Bytes): map<Addr, Byte>
    decreases |data|
  {
    if data == [] then mem else Put(mem[a := data[0]], a + 1, data[1..])
  }

  function Read(mem: map<Addr, Byte>, a: Addr, n: nat): (r: Bytes)
    ensures |r| == n
  {
    seq(n, i requires 0 <= i < n => At(mem, a + i))
  }

  lemma {:induction false} PutAt(mem: map<Addr, Byte>, a: Addr, data: Bytes, x: Addr)
    ensures At(Put(mem, a, data), x) == if a <= x < a + |data| then data[x - a] else At(mem, x)
    decreases |data|
  {
    if data != [] { PutAt(mem[a := data[0]], a + 1, data[1..], x); }
  }

  /** The extent an allocator sets aside; even an empty block has an address of its own. */
  function Foot(size: nat): nat { if size == 0 then 1 else size }

  predicate Apart(a: Addr, n: nat, b: Addr, m: nat) { a + Foot(n) <= b || b + Foot(m) <= a }

  /** The allocator's answer: failure, or an address and whatever bytes are found there. */
  datatype Answer = Fail | Got(a: Addr, junk: Bytes)

  /** An allocator may answer with any room clear of the live blocks but `but`. */
  ghost predicate Room(blocks: map<Addr, Block>, but: Addr, a: Addr, n: nat) {
    a != NULL && forall b :: b in blocks && b != but ==> Apart(a, n, b, blocks[b].size)
  }

  ghost predicate AnswerOk(h: Heap, but: Addr, size: nat, ans: Answer) {
    ans.Got? ==> |ans.junk| == size && Room(h.blocks, but, ans.a, size)
  }

  // ── the underlying allocators ─────────────────────────────────────────────

  function NewBlock(h: Heap, a: Addr, kind: Kind, data: Bytes): Heap {
    h.(mem := Put(h.mem, a, data), blocks := h.blocks[a := Block(kind, |data|)])
  }

  function LibcFree(h: Heap, p: Addr): Heap {
    if p in h.blocks && h.blocks[p].kind == Libc then h.(blocks := h.blocks - {p}) else h.(fault := true)
  }

  function RustDealloc(h: Heap, p: Addr, size: nat): Heap {
    if p in h.blocks && h.blocks[p] == Block(Rust, size) then h.(blocks := h.blocks - {p}) else h.(fault := true)
  }

  /** On success the block moves, keeping as many bytes as both sizes allow.  No block
      in answer to size 0 means that the old one was freed. */
  function LibcRealloc(h: Heap, p: Addr, size: nat, ans: Answer): Heap {
    if !(p in h.blocks && h.blocks[p].kind == Libc) then h.(fault := true)
    else if ans.Fail? then (if size == 0 then h.(blocks := h.blocks - {p}) else h)
    else NewBlock(h.(blocks := h.blocks - {p}), ans.a, Libc, Moved(h.mem, p, Min(h.blocks[p].size, size), ans.junk))
  }

  function Moved(mem: map<Addr, Byte>, p: Addr, kept: nat, junk: Bytes): (r: Bytes)
    ensures kept <= |junk| ==> |r| == |junk|
  {
    Read(mem, p, kept) + junk[Min(kept, |junk|)..]
  }

  function Store(h: Heap, a: Addr, data: Bytes): Heap {
    if a in h.blocks && |data| <= h.blocks[a].size then h.(mem := Put(h.mem, a, data)) else h.(fault := true)
  }

  // ── the registry functions ────────────────────────────────────────────────

  function Register(h: Heap, p: Addr): Heap { if p == NULL then h else h.(registry := h.registry + {p}) }

  /** The part of `s` before its first NUL. */
  function Body(s: Bytes): (b: Bytes)
    ensures |b| <= |s| && b == s[..|b|] && 0 !in b && (|b| < |s| ==> s[|b|] == 0)
  {
    if s == [] || s[0] == 0 then [] else [s[0]] + Body(s[1..])
  }

  /** `t` is what C reads of `s`. */
  predicate CText(s: Bytes, t: Bytes) { t <= s && 0 !in t && (|t| == |s| || s[|t|] == 0) }

  function Zeros(n: nat): Bytes { seq(n, _ => 0) }

  /** Allocate through libc, fill the front of the block, register it. */
  function AllocFilled(h: Heap, data: Bytes, ans: Answer): Heap {
    if ans.Fail? then h else Register(Store(NewBlock(h, ans.a, Libc, ans.junk), ans.a, data), ans.a)
  }

  /** Running out of memory here aborts the process: nothing more happens. */
  function AllocBuffer(h: Heap, s: Bytes, ans: Answer): Heap {
    if ans.Fail? then h
    else
      var filled := Store(NewBlock(h, ans.a, Rust, ans.junk), ans.a, s + [0]);
      filled.(binary := filled.binary[ans.a := |s| + 1])
  }

  function XmlFree(h: Heap, p: Addr): Heap {
    if p == NULL then h
    else if p in h.binary then RustDealloc(h.(binary := h.binary - {p}), p, h.binary[p])
    else if p in h.registry then LibcFree(h.(registry := h.registry - {p}), p)
    else h
  }

  function CopyLen(n: nat, size: nat): nat { Min(n, if size == 0 then 0 else size - 1) }

  /** `text` is the string found at `p` when the main registry does not know `p`. */
  function XmlRealloc(h: Heap, p: Addr, size: nat, text: Bytes, ans: Answer): Heap {
    if p == NULL then AllocFilled(h, [], ans)
    else if p in h.registry then
      var moved := LibcRealloc(h.(registry := h.registry - {p}), p, size, ans);
      if ans.Fail? then moved else Register(moved, ans.a)
    else if ans.Fail? then h
    else Store(AllocFilled(h, [], ans), ans.a, text[..CopyLen(|text|, size)] + [0])
  }

  function Result(ans: Answer): Addr { if ans.Fail? then NULL else ans.a }

  // ── steps ─────────────────────────────────────────────────────────────────

  /** `ArenaNew`, `ArenaDrop` and `HostWrite` are the rest of the process: memory
      outside the registries coming and going, and anyone writing anywhere. */
  datatype Event =
    | Malloc(size: nat, ans: Answer)
    | Cstring(s: Bytes, ans: Answer)
    | Buffer(s: Bytes, ans: Answer)
    | Zeroed(size: nat, ans: Answer)
    | Realloc(p: Addr, size: nat, text: Bytes, ans: Answer)
    | FreePtr(p: Addr)
    | ArenaNew(a: Addr, data: Bytes)
    | ArenaDrop(p: Addr)
    | HostWrite(x: Addr, b: Byte)

  /** The NUL-terminated string `s` lies at `p`, inside block `b`. */
  ghost predicate StrIn(h: Heap, b: Addr, p: Addr, s: Bytes) {
    && b in h.blocks && b <= p && p + |s| < b + h.blocks[b].size
    && 0 !in s && Read(h.mem, p, |s|) == s && At(h.mem, p + |s|) == 0
  }

  ghost predicate HasStr(h: Heap, p: Addr, s: Bytes) { exists b :: StrIn(h, b, p, s) }

  /** What the callers owe: a pointer given to realloc is null, registered, or, if a
      copy is to be made of it, a live NUL-terminated string given a positive size.
      Any pointer at all may be freed, and any allocation may fail. */
  ghost predicate Enabled(h: Heap, e: Event) {
    match e
    case Malloc(size, ans) => AnswerOk(h, NULL, size, ans)
    case Cstring(s, ans) => AnswerOk(h, NULL, |Body(s)| + 1, ans)
    case Buffer(s, ans) => AnswerOk(h, NULL, |s| + 1, ans)
    case Zeroed(size, ans) => AnswerOk(h, NULL, size, ans)
    case Realloc(p, size, text, ans) =>
      && AnswerOk(h, if p in h.registry then p else NULL, size, ans)
      && (p != NULL && p !in h.registry && ans.Got? ==> size > 0 && HasStr(h, p, text))
    case FreePtr(_) => true
    case ArenaNew(a, data) => Room(h.blocks, NULL, a, |data|)
    case ArenaDrop(p) => p in h.blocks && h.blocks[p].kind == Other
    case HostWrite(_, _) => true
  }

  function Step(h: Heap, e: Event): Heap {
    match e
    case Malloc(size, ans) => AllocFilled(h, [], ans)
    case Cstring(s, ans) => AllocFilled(h, Body(s) + [0], ans)
    case Buffer(s, ans) => AllocBuffer(h, s, ans)
    case Zeroed(size, ans) => AllocFilled(h, Zeros(size), ans)
    case Realloc(p, size, text, ans) => XmlRealloc(h, p, size, text, ans)
    case FreePtr(p) => XmlFree(h, p)
    case ArenaNew(a, data) => NewBlock(h, a, Other, data)
    case ArenaDrop(p) => h.(blocks := h.blocks - {p})
    case HostWrite(x, b) => h.(mem := h.mem[x := b])
  }

  // ── invariant ─────────────────────────────────────────────────────────────

  ghost predicate Layout(blocks: map<Addr, Block>) {
    && NULL !in blocks
    && forall a, b :: a in blocks && b in blocks && a != b ==> Apart(a, blocks[a].size, b, blocks[b].size)
  }

  /** The registries hold only live blocks of their allocator, the binary one every
      such block with its exact size. */
  ghost predicate Registered(h: Heap) {
    && (forall a :: a in h.registry ==> a in h.blocks && h.blocks[a].kind == Libc)
    && (forall a :: a in h.binary ==> a in h.blocks && h.blocks[a] == Block(Rust, h.binary[a]))
    && (forall a :: a in h.blocks && h.blocks[a].kind == Rust ==> a in h.binary)
  }

  ghost predicate Inv(h: Heap) { !h.fault && Layout(h.blocks) && Registered(h) }

  /** Libc blocks the main registry no longer knows. */
  function Lost(h: Heap): set<Addr> {
    set a | a in h.blocks && h.blocks[a].kind == Libc && a !in h.registry
  }

  /** The block, if any, that the event makes the main registry forget. */
  function Forgets(h: Heap, e: Event): set<Addr> {
    if e.Realloc? && e.p in h.registry && e.ans.Fail? && e.size > 0 then {e.p} else {}
  }

  /** A room's base is not a live block, and a block there keeps the layout. */
  lemma RoomIsNew(blocks: map<Addr, Block>, a: Addr, b: Block)
    requires Layout(blocks) && Room(blocks, NULL, a, b.size)
    ensures a != NULL && a !in blocks && Layout(blocks[a := b])
  {
    assert a in blocks ==> Apart(a, b.size, a, blocks[a].size);
  }

  lemma DropLayout(blocks: map<Addr, Block>, p: Addr)
    requires Layout(blocks)
    ensures Layout(blocks - {p})
    ensures forall a, n: nat :: Room(blocks, p, a, n) ==> Room(blocks - {p}, NULL, a, n)
  {
  }

  lemma NullUnknown(h: Heap)
    requires Inv(h)
    ensures NULL !in h.registry && NULL !in h.binary
  {
    assert NULL !in h.blocks;
  }

  /** No call faults, the invariant survives, and the only blocks the registry
      ever loses are those whose realloc failed. */
  lemma StepInv(h: Heap, e: Event)
    requires Inv(h) && Enabled(h, e)
    ensures Inv(Step(h, e))
    ensures Lost(Step(h, e)) == Lost(h) + Forgets(h, e)
  {
    hide Layout, Room, Put, Body, HasStr, XmlRealloc, AllocFilled, XmlFree;
    match e
    case Malloc(_, ans) => AllocFilledInv(h, [], ans);
    case Cstring(s, ans) => AllocFilledInv(h, Body(s) + [0], ans);
    case Buffer(s, ans) => if ans.Got? { RoomIsNew(h.blocks, ans.a, Block(Rust, |ans.junk|)); }
    case Zeroed(size, ans) => AllocFilledInv(h, Zeros(size), ans);
    case Realloc(p, size, text, ans) => ReallocInv(h, p, size, text, ans);
    case ArenaNew(a, data) => RoomIsNew(h.blocks, a, Block(Other, |data|));
    case ArenaDrop(p) => DropLayout(h.blocks, p);
    case FreePtr(p) => FreeInv(h, p);
    case HostWrite(_, _) =>
  }

  lemma FreeInv(h: Heap, p: Addr)
    requires Inv(h)
    ensures Inv(XmlFree(h, p)) && Lost(XmlFree(h, p)) == Lost(h)
  {
    if p != NULL && (p in h.binary || p in h.registry) {
      FreeShape(h, p);
      DropLayout(h.blocks, p);
      Unregister(h, p);
    }
    hide Layout, Registered, Lost;
  }

  lemma Unregister(h: Heap, p: Addr)
    requires Registered(h) && (p in h.binary || p in h.registry)
    ensures var g := h.(blocks := h.blocks - {p}, registry := h.registry - {p}, binary := h.binary - {p});
      Registered(g) && Lost(g) == Lost(h)
  {
  }

  lemma FreeShape(h: Heap, p: Addr)
    requires Inv(h) && p != NULL && (p in h.binary || p in h.registry)
    ensures XmlFree(h, p) == h.(blocks := h.blocks - {p}, registry := h.registry - {p}, binary := h.binary - {p})
  {
    hide Layout;
    assert p in h.binary ==> p !in h.registry;
  }

  lemma AllocFilledInv(h: Heap, data: Bytes, ans: Answer)
    requires Inv(h) && (ans.Got? ==> |data| <= |ans.junk| && Room(h.blocks, NULL, ans.a, |ans.junk|))
    ensures Inv(AllocFilled(h, data, ans)) && Lost(AllocFilled(h, data, ans)) == Lost(h)
    ensures ans.Got? ==> AllocFilled(h, data, ans).blocks == h.blocks[ans.a := Block(Libc, |ans.junk|)]
  {
    hide Layout, Room, Put;
    if ans.Got? { RoomIsNew(h.blocks, ans.a, Block(Libc, |ans.junk|)); }
  }

  lemma ReallocInv(h: Heap, p: Addr, size: nat, text: Bytes, ans: Answer)
    requires Inv(h) && Enabled(h, Realloc(p, size, text, ans))
    ensures Inv(XmlRealloc(h, p, size, text, ans))
    ensures Lost(XmlRealloc(h, p, size, text, ans)) == Lost(h) + Forgets(h, Realloc(p, size, text, ans))
  {
    NullUnknown(h);
    hide Layout, Room, Put, HasStr, Read, Lost;
    if ans.Fail? {
      ReallocFails(h, p, size, text, ans);
    } else if p == NULL || p !in h.registry {
      AllocFilledInv(h, [], ans);
    } else {
      ReallocMoves(h, p, size, text, ans);
    }
  }

  lemma ReallocFails(h: Heap, p: Addr, size: nat, text: Bytes, ans: Answer)
    requires Inv(h) && ans.Fail?
    ensures Inv(XmlRealloc(h, p, size, text, ans))
    ensures XmlRealloc(h, p, size, text, ans) ==
      h.(registry := h.registry - {p}, blocks := if p in h.registry && size == 0 then h.blocks - {p} else h.blocks)
    ensures Lost(XmlRealloc(h, p, size, text, ans)) == Lost(h) + Forgets(h, Realloc(p, size, text, ans))
  {
    NullUnknown(h);
    DropLayout(h.blocks, p);
    hide Layout;
    if p in h.registry && size == 0 {
      Unregister(h, p);
      assert h.binary - {p} == h.binary;
      hide Registered, Lost;
    }
  }

  lemma Reregister(h: Heap, h': Heap, a: Addr, size: nat)
    requires Registered(h) && a !in h.blocks && h'.binary == h.binary
    requires h'.blocks == h.blocks[a := Block(Libc, size)] && h'.registry == h.registry + {a}
    ensures Registered(h') && Lost(h') == Lost(h)
  {
  }

  lemma ReallocMoves(h: Heap, p: Addr, size: nat, text: Bytes, ans: Answer)
    requires Inv(h) && p in h.registry && ans.Got? && AnswerOk(h, p, size, ans)
    ensures Inv(XmlRealloc(h, p, size, text, ans))
    ensures Lost(XmlRealloc(h, p, size, text, ans)) == Lost(h)
  {
    NullUnknown(h);
    DropLayout(h.blocks, p);
    assert Room(h.blocks, p, ans.a, size);
    RoomIsNew(h.blocks - {p}, ans.a, Block(Libc, size));
    hide Layout, Room, Put, Moved;
    var h' := XmlRealloc(h, p, size, text, ans);
    assert h'.blocks == (h.blocks - {p})[ans.a := Block(Libc, size)];
    assert h'.registry == h.registry - {p} + {ans.a} && h'.binary == h.binary && !h'.fault;
    assert h.binary - {p} == h.binary;
    Unregister(h, p);
    Reregister(h.(blocks := h.blocks - {p}, registry := h.registry - {p}), h', ans.a, size);
    hide Registered, Lost;
  }

  // ── runs ──────────────────────────────────────────────────────────────────

  ghost predicate Runs(h: Heap, es: seq<Event>)
    decreases |es|
  {
    es == [] || (Enabled(h, es[0]) && Runs(Step(h, es[0]), es[1..]))
  }

  function After(h: Heap, es: seq<Event>): Heap
    decreases |es|
  {
    if es == [] then h else After(Step(h, es[0]), es[1..])
  }

  /** The blocks whose realloc failed somewhere in the run. */
  function Forgotten(h: Heap, es: seq<Event>): set<Addr>
    decreases |es|
  {
    if es == [] then {} else Forgets(h, es[0]) + Forgotten(Step(h, es[0]), es[1..])
  }

  /** Over every run: nothing faults, both registries stay exact, and the main one
      is short of the live libc blocks by exactly those whose realloc failed, none
      of which is ever released. */
  lemma {:induction false} RunInv(h: Heap, es: seq<Event>)
    requires Inv(h) && Runs(h, es)
    ensures Inv(After(h, es)) && Lost(After(h, es)) == Lost(h) + Forgotten(h, es)
    decreases |es|
  {
    hide Inv, Step, Enabled, Lost, Forgets;
    if es != [] {
      StepInv(h, es[0]);
      RunInv(Step(h, es[0]), es[1..]);
    }
  }

  function LibcLive(h: Heap): set<Addr> { set a | a in h.blocks && h.blocks[a].kind == Libc }

  lemma RegistryExact(es: seq<Event>)
    requires Runs(Empty, es)
    ensures Inv(After(Empty, es))
    ensures After(Empty, es).registry == LibcLive(After(Empty, es)) <==> Forgotten(Empty, es) == {}
  {
    RunInv(Empty, es);
    var h := After(Empty, es);
    assert Lost(Empty) == {};
    assert forall a :: a in LibcLive(h) && a !in h.registry ==> a in Lost(h);
    assert Lost(h) != {} ==> exists a :: a in Lost(h) && a in LibcLive(h);
  }

  /** A run after which the two differ: a block whose realloc fails. */
  lemma ReallocLeaks()
    ensures var es := [Malloc(1, Got(1, [0])), Realloc(1, 2, [], Fail)];
      Runs(Empty, es) && After(Empty, es).registry == {} && LibcLive(After(Empty, es)) == {1}
  {
    var e, f := Malloc(1, Got(1, [0])), Realloc(1, 2, [], Fail);
    var h := Step(Empty, e);
    assert h.blocks == map[1 := Block(Libc, 1)] && h.registry == {1};
    assert Enabled(Empty, e) && Enabled(h, f);
    assert Step(h, f).blocks == h.blocks && Step(h, f).registry == {};
    assert [e, f][1..] == [f] && [f][1..] == [];
    assert Runs(Step(h, f), []) && After(Step(h, f), []) == Step(h, f);
  }

  // ── freeing ───────────────────────────────────────────────────────────────

  /** `xmlFree` releases a block exactly when handed the base of a live block the
      registries still know; any other pointer leaves everything as it was. */
  lemma FreeExactly(h: Heap, p: Addr)
    requires Inv(h)
    ensures XmlFree(h, p) != h <==> p in h.blocks && !h.blocks[p].kind.Other? && p !in Lost(h)
    ensures XmlFree(h, p) != h ==>
      XmlFree(h, p) == h.(blocks := h.blocks - {p}, registry := h.registry - {p}, binary := h.binary - {p})
  {
    NullUnknown(h);
    if XmlFree(h, p) != h { FreeShape(h, p); }
    hide Layout;
  }

  /** A pointer anywhere into a document arena, or past the start of any block,
      may be freed with no effect. */
  lemma FreeIgnores(h: Heap, a: Addr, p: Addr)
    requires Inv(h) && a in h.blocks && a <= p < a + h.blocks[a].size
    requires h.blocks[a].kind.Other? || p != a
    ensures XmlFree(h, p) == h
  {
    assert forall b :: b in h.blocks && b != a ==> Apart(a, h.blocks[a].size, b, h.blocks[b].size);
  }

  /** Whatever an allocating call hands out, freeing it next gives the heap back. */
  lemma AllocThenFree(h: Heap, e: Event)
    requires Inv(h) && Enabled(h, e) && (e.Malloc? || e.Cstring? || e.Buffer? || e.Zeroed?) && e.ans.Got?
    ensures XmlFree(Step(h, e), e.ans.a) == h.(mem := Step(h, e).mem)
  {
    RoomIsNew(h.blocks, e.ans.a, Block(Libc, |e.ans.junk|));
    hide Layout, Room, Put, Body;
    var h', a := Step(h, e), e.ans.a;
    assert h'.blocks - {a} == h.blocks;
    assert a !in h.registry && a !in h.binary;
    hide Registered;
    if e.Buffer? {
      assert h'.binary == h.binary[a := h'.blocks[a].size] && h'.blocks[a].kind == Rust;
      assert h'.binary - {a} == h.binary;
    } else {
      assert h'.registry == h.registry + {a} && h'.binary == h.binary && h'.blocks[a].kind == Libc;
      assert h'.registry - {a} == h.registry;
    }
  }

  // ── contents ──────────────────────────────────────────────────────────────

  /** The event releases block `b`. */
  predicate Releases(h: Heap, e: Event, b: Addr) {
    || (e.FreePtr? && e.p == b && (b in h.registry || b in h.binary))
    || (e.Realloc? && e.p == b && b in h.registry && (e.ans.Got? || e.size == 0))
    || (e.ArenaDrop? && e.p == b)
  }

  predicate Touches(h: Heap, e: Event, b: Addr) {
    e.HostWrite? && b in h.blocks && b <= e.x < b + h.blocks[b].size
  }

  /** Block `b` is still there with the same bytes. */
  ghost predicate Same(h: Heap, g: Heap, b: Addr) {
    && b in h.blocks && b in g.blocks && h.blocks[b] == g.blocks[b]
    && forall x :: b <= x < b + h.blocks[b].size ==> At(g.mem, x) == At(h.mem, x)
  }

  lemma PutApart(mem: map<Addr, Byte>, a: Addr, data: Bytes, n: nat, b: Addr, m: nat)
    requires |data| <= n && Apart(a, n, b, m)
    ensures forall x :: b <= x < b + m ==> At(Put(mem, a, data), x) == At(mem, x)
  {
    forall x | b <= x < b + m ensures At(Put(mem, a, data), x) == At(mem, x) { PutAt(mem, a, data, x); }
  }

  lemma FilledFrame(h: Heap, kind: Kind, data: Bytes, a: Addr, junk: Bytes, b: Addr)
    requires Inv(h) && |data| <= |junk| && Room(h.blocks, NULL, a, |junk|) && b in h.blocks
    ensures Same(h, NewBlock(h, a, kind, junk), b)
    ensures Same(h, Store(NewBlock(h, a, kind, junk), a, data), b)
  {
    PutApart(h.mem, a, junk, |junk|, b, h.blocks[b].size);
    PutApart(Put(h.mem, a, junk), a, data, |junk|, b, h.blocks[b].size);
    RoomIsNew(h.blocks, a, Block(kind, |junk|));
    hide Layout, Room, Put, Registered;
  }

  /** Every call leaves every block alone, bytes and all, but the one it releases. */
  lemma StepFrame(h: Heap, e: Event, b: Addr)
    requires Inv(h) && Enabled(h, e) && b in h.blocks && !Releases(h, e, b) && !Touches(h, e, b)
    ensures Same(h, Step(h, e), b)
  {
    hide Layout, Room, Put, Body, HasStr, Registered, Store;
    match e
    case Malloc(_, ans) => if ans.Got? { AllocFrame(h, [], ans, b); }
    case Cstring(s, ans) => if ans.Got? { AllocFrame(h, Body(s) + [0], ans, b); }
    case Zeroed(size, ans) => if ans.Got? { AllocFrame(h, Zeros(size), ans, b); }
    case Buffer(s, ans) => if ans.Got? { FilledFrame(h, Rust, s + [0], ans.a, ans.junk, b); }
    case Realloc(p, size, text, ans) =>
      if ans.Got? { ReallocFrame(h, p, size, text, ans, b); }
    case ArenaNew(a, data) => FilledFrame(h, Other, [], a, data, b);
    case _ =>
  }

  lemma AllocFrame(h: Heap, data: Bytes, ans: Answer, b: Addr)
    requires Inv(h) && b in h.blocks && ans.Got? && |data| <= |ans.junk| && Room(h.blocks, NULL, ans.a, |ans.junk|)
    ensures Same(h, AllocFilled(h, data, ans), b)
  {
    hide Layout, Room, Put, Registered;
    FilledFrame(h, Libc, data, ans.a, ans.junk, b);
  }

  lemma ReallocFrame(h: Heap, p: Addr, size: nat, text: Bytes, ans: Answer, b: Addr)
    requires Inv(h) && Enabled(h, Realloc(p, size, text, ans)) && b in h.blocks && ans.Got?
    requires !(p == b && p in h.registry)
    ensures Same(h, XmlRealloc(h, p, size, text, ans), b)
  {
    NullUnknown(h);
    if p in h.registry {
      var kept := h.(blocks := h.blocks - {p});
      DropLayout(h.blocks, p);
      PutApart(h.mem, ans.a, Moved(h.mem, p, Min(h.blocks[p].size, size), ans.junk), size, b, h.blocks[b].size);
      RoomIsNew(h.blocks - {p}, ans.a, Block(Libc, size));
    } else {
      hide Layout, Room, Put, Registered, HasStr;
      AllocFrame(h, [], ans, b);
      if p != NULL {
        AllocFrame(h, text[..CopyLen(|text|, size)] + [0], ans, b);
        FillTwice(h, text[..CopyLen(|text|, size)] + [0], ans);
      }
    }
  }

  /** Registering before or after filling the block makes no difference. */
  lemma FillTwice(h: Heap, data: Bytes, ans: Answer)
    requires ans.Got? && |data| <= |ans.junk|
    ensures Store(AllocFilled(h, [], ans), ans.a, data) == AllocFilled(h, data, ans)
  {
  }

  lemma SameStr(h: Heap, g: Heap, b: Addr, p: Addr, s: Bytes)
    requires StrIn(h, b, p, s) && Same(h, g, b)
    ensures StrIn(g, b, p, s)
  {
    assert Read(g.mem, p, |s|) == Read(h.mem, p, |s|);
  }

  lemma NoLonger(h: Heap, p: Addr, s: Bytes, t: Bytes)
    requires HasStr(h, p, s) && HasStr(h, p, t)
    ensures |t| <= |s|
  {
    forall x | p <= x < p + |t| ensures At(h.mem, x) != 0 {
      assert t[x - p] == Read(h.mem, p, |t|)[x - p];
    }
  }

  /** A pointer is the start of at most one string. */
  lemma StrUnique(h: Heap, p: Addr, s: Bytes, t: Bytes)
    requires HasStr(h, p, s) && HasStr(h, p, t)
    ensures s == t
  {
    NoLonger(h, p, s, t);
    NoLonger(h, p, t, s);
  }

  /** Filling a fresh block with a NUL-terminated text puts that string there. */
  lemma FilledStr(h: Heap, s: Bytes, ans: Answer)
    requires ans.Got? && |s| < |ans.junk| && 0 !in s
    ensures StrIn(AllocFilled(h, s + [0], ans), ans.a, ans.a, s)
  {
    var mem := Put(h.mem, ans.a, ans.junk);
    forall x | ans.a <= x <= ans.a + |s| ensures At(Put(mem, ans.a, s + [0]), x) == (s + [0])[x - ans.a] {
      PutAt(mem, ans.a, s + [0], x);
    }
    assert Read(Put(mem, ans.a, s + [0]), ans.a, |s|) == s;
  }

  /** Growing or shrinking a string the main registry does not know, one in an
      arena or in a binary buffer, gives a registered libc block of the requested
      size that reads back the string, cut to what fits, and leaves the original. */
  lemma ReallocBridges(h: Heap, p: Addr, size: nat, text: Bytes, ans: Answer, b: Addr)
    requires Inv(h) && Enabled(h, Realloc(p, size, text, ans)) && ans.Got?
    requires p != NULL && p !in h.registry && StrIn(h, b, p, text)
    ensures var h' := XmlRealloc(h, p, size, text, ans);
      && StrIn(h', ans.a, ans.a, text[..Min(|text|, size - 1)])
      && ans.a in h'.registry && h'.blocks[ans.a] == Block(Libc, size)
      && Same(h, h', b) && StrIn(h', b, p, text)
  {
    ReallocFrame(h, p, size, text, ans, b);
    FillTwice(h, text[..CopyLen(|text|, size)] + [0], ans);
    FilledStr(h, text[..CopyLen(|text|, size)], ans);
    SameStr(h, XmlRealloc(h, p, size, text, ans), b, p, text);
    AllocFilledInv(h, text[..CopyLen(|text|, size)] + [0], ans);
    assert ans.a != NULL;
  }

  /** On that path the terminator lands inside the new block exactly when the
      requested size is positive. */
  lemma ReallocInBoundsExactly(h: Heap, p: Addr, size: nat, text: Bytes, ans: Answer)
    requires Inv(h) && p != NULL && p !in h.registry && ans.Got? && AnswerOk(h, NULL, size, ans)
    ensures XmlRealloc(h, p, size, text, ans).fault <==> size == 0
  {
    hide Put, Layout, Room;
  }

  /** An empty string in an arena, reallocated to nothing. */
  lemma ReallocToNothing()
    ensures var h := NewBlock(Empty, 1, Other, [0]);
      Inv(h) && HasStr(h, 1, []) && XmlRealloc(h, 1, 0, [], Got(2, [])).fault
  {
    var h := NewBlock(Empty, 1, Other, [0]);
    assert Put(map[], 1, [0]) == map[1 := 0] by { assert [0 as Byte][1..] == []; }
    assert Read(h.mem, 1, 0) == [];
    assert StrIn(h, 1, 1, []);
  }

  /** A registered string keeps its text through any realloc with room for it. */
  lemma ReallocMovesStr(h: Heap, p: Addr, size: nat, text: Bytes, ans: Answer, b: Addr, s: Bytes)
    requires Inv(h) && p in h.registry && AnswerOk(h, p, size, ans) && ans.Got?
    requires StrIn(h, b, p, s) && |s| < size
    ensures b == p && StrIn(XmlRealloc(h, p, size, text, ans), ans.a, ans.a, s)
  {
    NullUnknown(h);
    assert b != p ==> Apart(b, h.blocks[b].size, p, h.blocks[p].size);
    var kept := Min(h.blocks[p].size, size);
    var data := Moved(h.mem, p, kept, ans.junk);
    var h' := XmlRealloc(h, p, size, text, ans);
    forall x | ans.a <= x <= ans.a + |s| ensures At(h'.mem, x) == At(h.mem, x - ans.a + p) {
      PutAt(h.mem, ans.a, data, x);
      assert data[x - ans.a] == Read(h.mem, p, kept)[x - ans.a];
    }
    assert Read(h'.mem, ans.a, |s|) == Read(h.mem, p, |s|);
  }

  // ── a string followed through a run ───────────────────────────────────────

  /** Where the holder of `p` finds its string after the event. */
  function Follow(p: Addr, e: Event): Addr {
    if e.Realloc? && e.p == p && p != NULL && e.ans.Got? then e.ans.a else p
  }

  /** The event does not overwrite or release the string `s` at `p` in block `b`,
      except by reallocating `p` itself to a size with room for it. */
  predicate Spares(h: Heap, e: Event, b: Addr, p: Addr, s: Bytes) {
    && !Touches(h, e, b)
    && (Releases(h, e, b) ==> e.Realloc? && e.p == p)
    && (e.Realloc? && e.p == p ==> |s| < e.size)
  }

  lemma StrStep(h: Heap, e: Event, b: Addr, p: Addr, s: Bytes)
    requires Inv(h) && Enabled(h, e) && StrIn(h, b, p, s) && p != NULL && Spares(h, e, b, p, s)
    ensures Follow(p, e) != NULL && HasStr(Step(h, e), Follow(p, e), s)
  {
    hide Layout, Room, Put, Body, Registered, Store, XmlFree, AllocFilled, LibcRealloc, Read;
    if e.Realloc? && e.p == p && e.ans.Got? {
      assert Enabled(h, e) && e.ans.a != NULL by { RoomNotNull(h, e); }
      if p in h.registry {
        ReallocMovesStr(h, p, e.size, e.text, e.ans, b, s);
      } else {
        StrUnique(h, p, s, e.text);
        ReallocBridges(h, p, e.size, e.text, e.ans, b);
        assert s[..Min(|s|, e.size - 1)] == s;
      }
      assert StrIn(Step(h, e), e.ans.a, e.ans.a, s);
    } else {
      StepFrame(h, e, b);
      SameStr(h, Step(h, e), b, p, s);
    }
  }

  lemma RoomNotNull(h: Heap, e: Event)
    requires Enabled(h, e) && e.Realloc? && e.ans.Got?
    ensures e.ans.a != NULL
  {
  }

  /** Every event of the run spares the string held at `p`, wherever it has moved. */
  ghost predicate AllSpare(h: Heap, es: seq<Event>, p: Addr, s: Bytes)
    decreases |es|
  {
    es == [] || ((forall b :: StrIn(h, b, p, s) ==> Spares(h, es[0], b, p, s))
      && AllSpare(Step(h, es[0]), es[1..], Follow(p, es[0]), s))
  }

  function FollowAll(p: Addr, es: seq<Event>): Addr
    decreases |es|
  {
    if es == [] then p else FollowAll(Follow(p, es[0]), es[1..])
  }

  /** A string outlives any run of calls by anyone, through any chain of reallocs
      with room for it, whether it starts in an arena, in a binary buffer or in a
      registered block. */
  lemma {:induction false} StrSurvives(h: Heap, es: seq<Event>, p: Addr, s: Bytes)
    requires Inv(h) && Runs(h, es) && p != NULL && HasStr(h, p, s) && AllSpare(h, es, p, s)
    ensures HasStr(After(h, es), FollowAll(p, es), s)
    decreases |es|
  {
    hide Inv, Step, Enabled, StrIn, Spares, Follow, Lost;
    if es != [] {
      var b :| StrIn(h, b, p, s);
      StrStep(h, es[0], b, p, s);
      StepInv(h, es[0]);
      StrSurvives(Step(h, es[0]), es[1..], Follow(p, es[0]), s);
    }
  }
}
