/** The registry allocators themselves, updating the registries and raw memory in
    place (crates/compat/src/alloc.rs, crates/compat/src/parse.rs:703-730).  Each is
    proved to take the heap where the corresponding step of Alloc takes it; `Value`
    has no fault, so each release meets the allocator and size it came from. */
module AllocAbi {
  import opened Basics
  import opened Alloc
  import opened AllocContents

  class Allocator {
    var mem: map<Addr, Byte>
    ghost var blocks: map<Addr, Block>
    var registry: set<Addr>
    var binary: map<Addr, nat>

    ghost function Value(): Heap
      reads this
    {
      Heap(mem, blocks, registry, binary, false)
    }

    constructor ()
      ensures Value() == Empty && Inv(Value())
    {
      mem, blocks, registry, binary := map[], map[], {}, map[];
    }

    // ── the platform: libc and the Rust allocator, answering `ans` ──────────

    method Allocate(ghost kind: Kind, ans: Answer) returns (p: Addr)
      modifies this`mem, this`blocks
      ensures p == Result(ans)
      ensures Value() == if ans.Fail? then old(Value()) else NewBlock(old(Value()), ans.a, kind, ans.junk)
    {
      p := Result(ans);
      if ans.Got? {
        mem := Put(mem, ans.a, ans.junk);
        blocks := blocks[ans.a := Block(kind, |ans.junk|)];
      }
    }

    method Free(p: Addr)
      requires p in blocks && blocks[p].kind == Libc
      modifies this`blocks
      ensures Value() == LibcFree(old(Value()), p)
    {
      blocks := blocks - {p};
    }

    method Dealloc(p: Addr, size: nat)
      requires p in blocks && blocks[p] == Block(Rust, size)
      modifies this`blocks
      ensures Value() == RustDealloc(old(Value()), p, size)
    {
      blocks := blocks - {p};
    }

    /** `usable` is the size the platform remembers for the block. */
    method Reallocate(p: Addr, usable: nat, size: nat, ans: Answer) returns (q: Addr)
      requires p in blocks && blocks[p] == Block(Libc, usable)
      modifies this`mem, this`blocks
      ensures q == Result(ans)
      ensures Value() == LibcRealloc(old(Value()), p, size, ans)
    {
      q := Result(ans);
      if ans.Got? {
        var data := Moved(mem, p, Min(usable, size), ans.junk);
        mem := Put(mem, ans.a, data);
        blocks := (blocks - {p})[ans.a := Block(Libc, |data|)];
      } else if size == 0 {
        blocks := blocks - {p};
      }
    }

    // ── raw writes and reads, byte by byte ──────────────────────────────────

    method CopyBytes(a: Addr, data: Bytes)
      requires a in blocks && |data| <= blocks[a].size
      modifies this`mem
      ensures Value() == Store(old(Value()), a, data)
    {
      var i := 0;
      assert data[0..] == data;
      while i < |data|
        invariant i <= |data|
        invariant Put(mem, a + i, data[i..]) == Put(old(mem), a, data)
      {
        assert data[i..][1..] == data[i + 1..];
        mem := mem[a + i := data[i]];
        i := i + 1;
      }
      assert data[i..] == [];
    }

    method Strlen(p: Addr, ghost s: Bytes) returns (n: nat)
      requires HasStr(Value(), p, s)
      ensures n == |s|
    {
      n := 0;
      StrBytes(Value(), p, s);
      while At(mem, p + n) != 0
        invariant n <= |s|
        decreases |s| - n
      {
        n := n + 1;
      }
    }

    // ── the registries ──────────────────────────────────────────────────────

    method RegisterAlloc(p: Addr)
      modifies this`registry
      ensures Value() == Register(old(Value()), p)
    {
      if p != NULL { registry := registry + {p}; }
    }

    method TakeAlloc(p: Addr) returns (known: bool)
      modifies this`registry
      ensures known <==> p != NULL && p in old(registry)
      ensures registry == if known then old(registry) - {p} else old(registry)
    {
      known := p != NULL && p in registry;
      if known { registry := registry - {p}; }
    }

    method TakeBinaryAlloc(p: Addr) returns (size: Option<nat>)
      modifies this`binary
      ensures size == if p != NULL && p in old(binary) then Some(old(binary)[p]) else None
      ensures binary == if size.Some? then old(binary) - {p} else old(binary)
    {
      if p == NULL || p !in binary { return None; }
      size := Some(binary[p]);
      binary := binary - {p};
    }

    // ── the allocating calls ────────────────────────────────────────────────

    method AllocRegisteredCstring(s: Bytes, ans: Answer) returns (p: Addr)
      requires Inv(Value()) && Enabled(Value(), Cstring(s, ans))
      modifies this`mem, this`blocks, this`registry
      ensures p == Result(ans) && Value() == Step(old(Value()), Cstring(s, ans)) && Inv(Value())
      ensures p == NULL ==> Value() == old(Value())
      ensures forall t :: p != NULL && CText(s, t) ==> StrIn(Value(), p, p, t)
    {
      forall t | ans.Got? && CText(s, t) ensures StrIn(Step(Value(), Cstring(s, ans)), ans.a, ans.a, t) {
        CstringHolds(Value(), s, ans, t);
      }
      StepInv(Value(), Cstring(s, ans));
      var end := 0;
      while end < |s| && s[end] != 0
        invariant end <= |s|
        invariant |Body(s)| == end + |Body(s[end..])|
      {
        assert s[end..][1..] == s[end + 1..];
        end := end + 1;
      }
      assert s[..end] == Body(s);
      p := Allocate(Libc, ans);
      if p == NULL { return; }
      CopyBytes(p, s[..end] + [0]);
      RegisterAlloc(p);
    }

    method AllocRegisteredBuffer(s: Bytes, ans: Answer) returns (p: Addr)
      requires Inv(Value()) && Enabled(Value(), Buffer(s, ans)) && ans.Got?
      modifies this`mem, this`blocks, this`binary
      ensures p == Result(ans) && Value() == Step(old(Value()), Buffer(s, ans)) && Inv(Value())
      ensures Read(mem, p, |s| + 1) == s + [0] && p in binary && binary[p] == |s| + 1
    {
      BufferHolds(Value(), s, ans);
      StepInv(Value(), Buffer(s, ans));
      p := Allocate(Rust, ans);
      CopyBytes(p, s + [0]);
      binary := binary[p := |s| + 1];
    }

    method AllocRegisteredZeroed(size: nat, ans: Answer) returns (p: Addr)
      requires Inv(Value()) && Enabled(Value(), Zeroed(size, ans))
      modifies this`mem, this`blocks, this`registry
      ensures p == Result(ans) && Value() == Step(old(Value()), Zeroed(size, ans)) && Inv(Value())
      ensures p == NULL ==> Value() == old(Value())
      ensures p != NULL ==> p in registry && forall x :: p <= x < p + size ==> At(mem, x) == 0
    {
      if ans.Got? { ZeroedHolds(Value(), size, ans); }
      StepInv(Value(), Zeroed(size, ans));
      p := Allocate(Libc, ans);
      if p == NULL { return; }
      CopyBytes(p, Zeros(size));
      RegisterAlloc(p);
    }

    method XmlMalloc(size: nat, ans: Answer) returns (p: Addr)
      requires Inv(Value()) && Enabled(Value(), Malloc(size, ans))
      modifies this`mem, this`blocks, this`registry
      ensures p == Result(ans) && Value() == Step(old(Value()), Malloc(size, ans)) && Inv(Value())
    {
      StepInv(Value(), Malloc(size, ans));
      p := Allocate(Libc, ans);
      RegisterAlloc(p);
    }

    method XmlFreePtr(p: Addr)
      requires Inv(Value())
      modifies this`blocks, this`registry, this`binary
      ensures Value() == Step(old(Value()), FreePtr(p)) && Inv(Value())
    {
      StepInv(Value(), FreePtr(p));
      if p == NULL { return; }
      var total := TakeBinaryAlloc(p);
      if total.Some? {
        Dealloc(p, total.value);
        return;
      }
      var known := TakeAlloc(p);
      if known { Free(p); }
    }

    /** `usable` is the size the platform remembers for a registered `p`; `text`
        the string at an unregistered one. */
    method XmlReallocPtr(p: Addr, size: nat, ghost text: Bytes, usable: nat, ans: Answer) returns (q: Addr)
      requires Inv(Value()) && Enabled(Value(), Realloc(p, size, text, ans))
      requires p in registry ==> usable == blocks[p].size
      modifies this`mem, this`blocks, this`registry
      ensures q == Result(ans) && Value() == Step(old(Value()), Realloc(p, size, text, ans)) && Inv(Value())
    {
      ghost var h := Value();
      StepInv(h, Realloc(p, size, text, ans));
      NullUnknown(h);
      if p == NULL {
        q := XmlMalloc(size, ans);
        return;
      }
      var known := TakeAlloc(p);
      if known {
        q := Reallocate(p, usable, size, ans);
        RegisterAlloc(q);
        return;
      }
      q := XmlMalloc(size, ans);
      if q == NULL { return; }
      AllocSpares(h, p, text, ans);
      var oldLen := Strlen(p, text);
      var copyLen := CopyLen(oldLen, size);
      ReadText(Value(), p, text, copyLen);
      CopyBytes(q, Read(mem, p, copyLen) + [0]);
    }
  }

  /** The bytes of a string where it lies. */
  lemma StrBytes(h: Heap, p: Addr, s: Bytes)
    requires HasStr(h, p, s)
    ensures forall i :: 0 <= i < |s| ==> At(h.mem, p + i) == s[i]
    ensures At(h.mem, p + |s|) == 0
    ensures forall x :: p <= x < p + |s| ==> At(h.mem, x) != 0
  {
    forall x | p <= x < p + |s| ensures At(h.mem, x) != 0 { assert s[x - p] == Read(h.mem, p, |s|)[x - p]; }
    forall i | 0 <= i < |s| ensures At(h.mem, p + i) == s[i] { assert Read(h.mem, p, |s|)[i] == s[i]; }
  }

  lemma ReadText(h: Heap, p: Addr, s: Bytes, n: nat)
    requires HasStr(h, p, s) && n <= |s|
    ensures Read(h.mem, p, n) == s[..n]
  {
    StrBytes(h, p, s);
  }

  /** A fresh allocation does not disturb a live string. */
  lemma AllocSpares(h: Heap, p: Addr, s: Bytes, ans: Answer)
    requires Inv(h) && HasStr(h, p, s) && ans.Got? && Room(h.blocks, NULL, ans.a, |ans.junk|)
    ensures HasStr(AllocFilled(h, [], ans), p, s)
  {
    var b :| StrIn(h, b, p, s);
    AllocFrame(h, [], ans, b);
    SameStr(h, AllocFilled(h, [], ans), b, p, s);
  }
}
