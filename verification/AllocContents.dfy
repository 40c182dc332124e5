/** What the bytes of a block are when an allocating call hands it out
    (crates/compat/src/alloc.rs:83-269). */
module AllocContents {
  import opened Basics
  import opened Alloc

  lemma CTextIs(s: Bytes, t: Bytes)
    requires CText(s, t)
    ensures t == Body(s)
  {
    var b := Body(s);
    forall k | 0 <= k < |t| ensures s[k] != 0 { assert t[k] in t; }
    forall k | 0 <= k < |b| ensures s[k] != 0 { assert b[k] in b; }
    assert |t| == |b|;
  }

  lemma GotIsNew(h: Heap, size: nat, ans: Answer)
    requires Inv(h) && ans.Got? && AnswerOk(h, NULL, size, ans)
    ensures ans.a != NULL && ans.a !in h.blocks && |ans.junk| == size
  {
    RoomIsNew(h.blocks, ans.a, Block(Libc, size));
    hide Layout, Registered;
  }

  /** `alloc_registered_cstring` hands out a registered block of just the length, in
      which C reads what it would have read of the source. */
  lemma CstringHolds(h: Heap, s: Bytes, ans: Answer, t: Bytes)
    requires Inv(h) && Enabled(h, Cstring(s, ans)) && ans.Got? && CText(s, t)
    ensures var h' := Step(h, Cstring(s, ans));
      && ans.a != NULL && ans.a !in h.blocks
      && StrIn(h', ans.a, ans.a, t) && h'.blocks[ans.a] == Block(Libc, |t| + 1) && ans.a in h'.registry
  {
    CTextIs(s, t);
    GotIsNew(h, |t| + 1, ans);
    FilledStr(h, t, ans);
    AllocFilledInv(h, t + [0], ans);
    hide Put, Layout, Registered, Room;
  }

  /** `alloc_registered_buffer` hands out all the bytes, NULs and all, and one NUL more,
      registered with that size. */
  lemma BufferHolds(h: Heap, s: Bytes, ans: Answer)
    requires Inv(h) && Enabled(h, Buffer(s, ans)) && ans.Got?
    ensures var h' := Step(h, Buffer(s, ans));
      && ans.a != NULL && ans.a !in h.blocks
      && Read(h'.mem, ans.a, |s| + 1) == s + [0]
      && h'.blocks[ans.a] == Block(Rust, |s| + 1) && ans.a in h'.binary && h'.binary[ans.a] == |s| + 1
  {
    GotIsNew(h, |s| + 1, ans);
    hide Layout, Registered, Room;
    var mem := Put(h.mem, ans.a, ans.junk);
    forall x | ans.a <= x < ans.a + |s| + 1 ensures At(Put(mem, ans.a, s + [0]), x) == (s + [0])[x - ans.a] {
      PutAt(mem, ans.a, s + [0], x);
    }
    hide Put;
  }

  /** `alloc_registered_zeroed` hands out a registered block whose every byte is 0. */
  lemma ZeroedHolds(h: Heap, size: nat, ans: Answer)
    requires Inv(h) && Enabled(h, Zeroed(size, ans)) && ans.Got?
    ensures var h' := Step(h, Zeroed(size, ans));
      && ans.a != NULL && ans.a !in h.blocks
      && (forall x :: ans.a <= x < ans.a + size ==> At(h'.mem, x) == 0)
      && h'.blocks[ans.a] == Block(Libc, size) && ans.a in h'.registry
  {
    GotIsNew(h, size, ans);
    hide Layout, Registered, Room;
    var mem := Put(h.mem, ans.a, ans.junk);
    forall x | ans.a <= x < ans.a + size ensures At(Put(mem, ans.a, Zeros(size)), x) == 0 {
      PutAt(mem, ans.a, Zeros(size), x);
    }
    hide Put;
  }

  /** `xmlMalloc`, and `xmlRealloc` of NULL, hand out a registered block of the size
      asked for, or without an answer change nothing. */
  lemma MallocGives(h: Heap, size: nat, text: Bytes, ans: Answer)
    requires Inv(h) && Enabled(h, Malloc(size, ans))
    ensures Step(h, Realloc(NULL, size, text, ans)) == Step(h, Malloc(size, ans))
    ensures ans.Fail? ==> Step(h, Malloc(size, ans)) == h
    ensures ans.Got? ==>
      var h' := Step(h, Malloc(size, ans));
      ans.a != NULL && ans.a !in h.blocks && h'.blocks[ans.a] == Block(Libc, size) && ans.a in h'.registry
  {
    if ans.Got? { GotIsNew(h, size, ans); }
    hide Put, Layout, Registered, Room;
  }

  /** Reallocating a registered block gives a registered block of the new size that
      begins with as many of the old bytes as both have room for, and lets the old go. */
  lemma ReallocKeepsBytes(h: Heap, p: Addr, size: nat, text: Bytes, ans: Answer)
    requires Inv(h) && p in h.registry && Enabled(h, Realloc(p, size, text, ans)) && ans.Got?
    ensures var h' := Step(h, Realloc(p, size, text, ans));
      var kept := Min(h.blocks[p].size, size);
      && Read(h'.mem, ans.a, kept) == Read(h.mem, p, kept)
      && h'.blocks == (h.blocks - {p})[ans.a := Block(Libc, size)]
      && h'.registry == h.registry - {p} + {ans.a}
  {
    NullUnknown(h);
    var kept := Min(h.blocks[p].size, size);
    var data := Moved(h.mem, p, kept, ans.junk);
    forall x | ans.a <= x < ans.a + kept ensures At(Put(h.mem, ans.a, data), x) == At(h.mem, x - ans.a + p) {
      PutAt(h.mem, ans.a, data, x);
      assert data[x - ans.a] == Read(h.mem, p, kept)[x - ans.a];
    }
    assert Room(h.blocks, p, ans.a, size);
    hide Put, Layout, Registered, Moved;
  }
}
