/** Replacing a file in place through a temporary sibling, with a crash or a failure
    possible at every step (crates/cli/src/main.rs:687-735). */
module InPlace {
  import opened Basics

  /** A file name that is UTF-8, one that is not, or none (a path such as `..`). */
  datatype FileName = Utf8(text: string) | Raw(id: nat) | NoName

  datatype Path = Path(dir: string, name: FileName)
  datatype File = File(content: Bytes, mode: nat)
  type Disk = map<Path, File>

  function Parent(p: Path): string { if p.dir == "" then "." else p.dir }

  function Stem(p: Path): string { if p.name.Utf8? then p.name.text else "out" }

  function TmpPath(p: Path, pid: string, nonce: string): Path {
    Path(Parent(p), Utf8("." + Stem(p) + ".sup-xml.tmp." + pid + "." + nonce))
  }

  /** The temporary file never has the target's own name, whatever the target. */
  lemma TmpDiffers(p: Path, pid: string, nonce: string)
    ensures TmpPath(p, pid, nonce).name != p.name
  {
    if p.name.Utf8? { assert |TmpPath(p, pid, nonce).name.text| > |p.name.text|; }
  }

  /** The directory a file lies in, seen from the directory `cwd`. */
  function Directory(cwd: string, p: Path): string {
    if p.dir == "" || p.dir == "." then cwd else if p.dir[0] == '/' then p.dir else cwd + "/" + p.dir
  }

  /** The temporary file lies in the target's own directory, wherever the call is made,
      so the rename stays within it. */
  lemma SameDirectory(cwd: string, p: Path, pid: string, nonce: string)
    ensures Directory(cwd, TmpPath(p, pid, nonce)) == Directory(cwd, p)
  {
  }

  lemma TailsAgree(x: string, a: string, b: string)
    requires x + a == x + b
    ensures a == b
  {
    assert (x + a)[|x|..] == a && (x + b)[|x|..] == b;
  }

  /** Two processes, or two moments of one, never share a temporary file. */
  lemma TmpUnique(p: Path, pid: string, nonce: string, pid': string, nonce': string)
    requires '.' !in pid && '.' !in pid' && TmpPath(p, pid, nonce) == TmpPath(p, pid', nonce')
    ensures pid == pid' && nonce == nonce'
  {
    var head := "." + Stem(p) + ".sup-xml.tmp.";
    var s, t := pid + "." + nonce, pid' + "." + nonce';
    assert TmpPath(p, pid, nonce).name.text == head + s && TmpPath(p, pid', nonce').name.text == head + t;
    TailsAgree(head, s, t);
    forall k | 0 <= k < |pid| ensures s[k] != '.' { assert s[k] in pid; }
    forall k | 0 <= k < |pid'| ensures t[k] != '.' { assert t[k] in pid'; }
    assert s[|pid|] == '.' && t[|pid'|] == '.';
    assert |pid| == |pid'|;
    assert s[..|pid|] == pid && t[..|pid|] == pid';
    TailsAgree(pid + ".", nonce, nonce');
  }

  /** How each system call turns out; `wrote` bytes reach the file before a write error. */
  datatype Luck = Luck(create: bool, wrote: nat, metadata: bool, chmod: bool, rename: bool, remove: bool)

  /** The disk after each change made, and whether the call succeeded. */
  datatype Outcome = Outcome(trace: seq<Disk>, ok: bool)

  function Last(d: Disk, trace: seq<Disk>): Disk { if trace == [] then d else trace[|trace| - 1] }

  /** Creating or truncating the file, then one byte at a time. */
  function Writing(d: Disk, tmp: Path, contents: Bytes, mode: nat, n: nat): (w: seq<Disk>)
    requires n <= |contents|
    ensures |w| == n + 1 && forall k :: 0 <= k <= n ==> w[k] == d[tmp := File(contents[..k], mode)]
  {
    seq(n + 1, k requires 0 <= k <= n => d[tmp := File(contents[..k], mode)])
  }

  /** The cleanup after an error. */
  function Cleanup(d: Disk, trace: seq<Disk>, tmp: Path, luck: Luck): Outcome {
    var now := Last(d, trace);
    Outcome(if luck.remove && tmp in now then trace + [now - {tmp}] else trace, false)
  }

  /** The mode a new file gets is `initial`; truncating keeps the mode. */
  function TmpMode(d: Disk, tmp: Path, initial: nat): nat { if tmp in d then d[tmp].mode else initial }

  /** Write, match the mode, rename; the first error ends it. */
  function Body(d: Disk, tmp: Path, path: Path, contents: Bytes, initial: nat, luck: Luck): Outcome {
    if !luck.create then Outcome([], false)
    else
      var w := Writing(d, tmp, contents, TmpMode(d, tmp, initial), Min(luck.wrote, |contents|));
      var kept := luck.metadata && path in d;
      if luck.wrote < |contents| || (kept && !luck.chmod) then Outcome(w, false)
      else
        var ready := File(contents, if kept then d[path].mode else TmpMode(d, tmp, initial));
        var t := if kept then w + [d[tmp := ready]] else w;
        if !luck.rename then Outcome(t, false)
        else Outcome(t + [d[tmp := ready] - {tmp} + map[path := ready]], true)
  }

  function Plan(d: Disk, tmp: Path, path: Path, contents: Bytes, initial: nat, luck: Luck): Outcome {
    var b := Body(d, tmp, path, contents, initial, luck);
    if b.ok then b else Cleanup(d, b.trace, tmp, luck)
  }

  // ── what a crash leaves ───────────────────────────────────────────────────

  /** The target, there or not, is as it was. */
  predicate Intact(d: Disk, now: Disk, path: Path) {
    (path in now <==> path in d) && (path in d ==> now[path] == d[path])
  }

  predicate Replaced(now: Disk, path: Path, contents: Bytes) { path in now && now[path].content == contents }

  /** Only the target and the temporary file are ever touched. */
  ghost predicate Elsewhere(d: Disk, now: Disk, tmp: Path, path: Path) {
    forall q :: q != tmp && q != path ==> Intact(d, now, q)
  }

  ghost predicate Untouched(d: Disk, now: Disk, tmp: Path, path: Path) {
    Intact(d, now, path) && Elsewhere(d, now, tmp, path)
  }

  ghost predicate AllUntouched(d: Disk, trace: seq<Disk>, tmp: Path, path: Path) {
    forall i :: 0 <= i < |trace| ==> Untouched(d, trace[i], tmp, path)
  }

  predicate Succeeds(d: Disk, path: Path, contents: Bytes, luck: Luck) {
    luck.create && luck.wrote >= |contents| && (luck.metadata && path in d ==> luck.chmod) && luck.rename
  }

  lemma CleanupSafe(d: Disk, trace: seq<Disk>, tmp: Path, path: Path, luck: Luck)
    requires tmp != path && AllUntouched(d, trace, tmp, path)
    ensures AllUntouched(d, Cleanup(d, trace, tmp, luck).trace, tmp, path)
    ensures Untouched(d, Last(d, Cleanup(d, trace, tmp, luck).trace), tmp, path)
    ensures luck.remove ==> tmp !in Last(d, Cleanup(d, trace, tmp, luck).trace)
  {
  }

  lemma WritingSafe(d: Disk, tmp: Path, path: Path, contents: Bytes, mode: nat, n: nat)
    requires tmp != path && n <= |contents|
    ensures AllUntouched(d, Writing(d, tmp, contents, mode, n), tmp, path)
  {
  }

  lemma BodySafe(d: Disk, tmp: Path, path: Path, contents: Bytes, initial: nat, luck: Luck)
    requires tmp != path
    ensures var o := Body(d, tmp, path, contents, initial, luck);
      && (o.ok <==> Succeeds(d, path, contents, luck))
      && AllUntouched(d, if o.ok && o.trace != [] then o.trace[..|o.trace| - 1] else o.trace, tmp, path)
      && (o.ok ==> o.trace != [] && Replaced(Last(d, o.trace), path, contents) && Elsewhere(d, Last(d, o.trace), tmp, path))
  {
    var n := Min(luck.wrote, |contents|);
    var w := Writing(d, tmp, contents, TmpMode(d, tmp, initial), n);
    var kept := luck.metadata && path in d;
    WritingSafe(d, tmp, path, contents, TmpMode(d, tmp, initial), n);
    hide Writing;
    if luck.create && luck.wrote >= |contents| && (kept ==> luck.chmod) {
      var ready := File(contents, if kept then d[path].mode else TmpMode(d, tmp, initial));
      var t := if kept then w + [d[tmp := ready]] else w;
      assert Untouched(d, d[tmp := ready], tmp, path);
      assert AllUntouched(d, t, tmp, path);
      assert luck.rename ==> Body(d, tmp, path, contents, initial, luck).trace[..|t|] == t;
    }
  }

  lemma PlanSafe(d: Disk, tmp: Path, path: Path, contents: Bytes, initial: nat, luck: Luck)
    requires tmp != path
    ensures var o := Plan(d, tmp, path, contents, initial, luck);
      && (o.ok <==> Succeeds(d, path, contents, luck))
      && (if o.ok then
            && o.trace != [] && AllUntouched(d, o.trace[..|o.trace| - 1], tmp, path)
            && Replaced(Last(d, o.trace), path, contents) && Elsewhere(d, Last(d, o.trace), tmp, path)
          else
            && AllUntouched(d, o.trace, tmp, path) && Untouched(d, Last(d, o.trace), tmp, path)
            && (luck.remove ==> tmp !in Last(d, o.trace)))
  {
    BodySafe(d, tmp, path, contents, initial, luck);
    hide Body, AllUntouched, Untouched, Replaced, Elsewhere;
    var b := Body(d, tmp, path, contents, initial, luck);
    if !b.ok { CleanupSafe(d, b.trace, tmp, path, luck); }
  }

  /** Stopped after any change it makes, a byte of the temporary file included, the
      call leaves the target whole: as it was, or, once the rename is done, new. */
  lemma CrashSafe(d: Disk, tmp: Path, path: Path, contents: Bytes, initial: nat, luck: Luck, i: nat)
    requires tmp != path && i < |Plan(d, tmp, path, contents, initial, luck).trace|
    ensures var o := Plan(d, tmp, path, contents, initial, luck);
      && Elsewhere(d, o.trace[i], tmp, path)
      && (if o.ok && i == |o.trace| - 1 then Replaced(o.trace[i], path, contents) else Intact(d, o.trace[i], path))
  {
    PlanSafe(d, tmp, path, contents, initial, luck);
    var o := Plan(d, tmp, path, contents, initial, luck);
    hide Plan, Elsewhere, Intact;
    assert o.ok && i < |o.trace| - 1 ==> o.trace[i] == o.trace[..|o.trace| - 1][i];
  }

  lemma PlanEnds(d: Disk, tmp: Path, path: Path, contents: Bytes, initial: nat, luck: Luck)
    requires tmp != path
    ensures var o := Plan(d, tmp, path, contents, initial, luck);
      if o.ok then Replaced(Last(d, o.trace), path, contents)
      else Intact(d, Last(d, o.trace), path) && (luck.remove ==> tmp !in Last(d, o.trace))
  {
    PlanSafe(d, tmp, path, contents, initial, luck);
    hide Plan, Elsewhere, Intact;
  }

  /** A successful call leaves the new contents, no temporary file, and the target's
      own mode exactly when its metadata could be read (or the modes agree anyway). */
  lemma SuccessKeepsModeExactly(d: Disk, tmp: Path, path: Path, contents: Bytes, initial: nat, luck: Luck)
    requires tmp != path && path in d && Succeeds(d, path, contents, luck)
    ensures var now := Last(d, Plan(d, tmp, path, contents, initial, luck).trace);
      && tmp !in now && path in now && now[path].content == contents
      && (now[path].mode == d[path].mode <==> luck.metadata || TmpMode(d, tmp, initial) == d[path].mode)
  {
  }

  /** One call on which it is lost: the metadata of a private file cannot be read. */
  lemma ModeLost(tmp: Path, path: Path, contents: Bytes)
    requires tmp != path
    ensures var d, luck := map[path := File([], 0x180)], Luck(true, |contents|, false, true, true, true);
      Succeeds(d, path, contents, luck) && Last(d, Plan(d, tmp, path, contents, 0x1A4, luck).trace)[path].mode == 0x1A4
  {
  }

  // ── the call itself ───────────────────────────────────────────────────────

  class FileSystem {
    var files: Disk
    ghost var history: seq<Disk>

    constructor (d: Disk)
      ensures files == d && history == []
    {
      files, history := d, [];
    }

    method Set(d: Disk)
      modifies this
      ensures files == d && history == old(history) + [d]
    {
      files := d;
      history := history + [d];
    }

    /** `fs::write`: create or truncate, then the bytes, until one fails. */
    method Write(tmp: Path, contents: Bytes, initial: nat, luck: Luck) returns (ok: bool)
      modifies this
      ensures ok <==> luck.create && luck.wrote >= |contents|
      ensures !luck.create ==> files == old(files) && history == old(history)
      ensures luck.create ==>
        var w := Writing(old(files), tmp, contents, TmpMode(old(files), tmp, initial), Min(luck.wrote, |contents|));
        history == old(history) + w && files == w[|w| - 1]
    {
      if !luck.create { return false; }
      var mode := TmpMode(files, tmp, initial);
      Set(files[tmp := File([], mode)]);
      var n := Min(luck.wrote, |contents|);
      ghost var w := Writing(old(files), tmp, contents, mode, n);
      var k := 0;
      while k < n
        invariant k <= n && files == w[k] && history == old(history) + w[..k + 1]
      {
        k := k + 1;
        assert w[..k] + [w[k]] == w[..k + 1];
        Set(files[tmp := File(contents[..k], mode)]);
      }
      assert w[..n + 1] == w;
      ok := luck.wrote >= |contents|;
    }

    method Remove(p: Path, luck: Luck)
      modifies this
      ensures if luck.remove && p in old(files)
        then files == old(files) - {p} && history == old(history) + [files]
        else files == old(files) && history == old(history)
    {
      if luck.remove && p in files { Set(files - {p}); }
    }

    /** The closure that writes, matches the mode and renames. */
    method RunBody(tmp: Path, path: Path, contents: Bytes, initial: nat, luck: Luck) returns (ok: bool)
      requires tmp != path
      modifies this
      ensures var b := Body(old(files), tmp, path, contents, initial, luck);
        ok == b.ok && history == old(history) + b.trace && files == Last(old(files), b.trace)
    {
      ghost var d, h := files, history;
      ok := Write(tmp, contents, initial, luck);
      if !ok { return; }
      assert contents[..Min(luck.wrote, |contents|)] == contents;
      if luck.metadata && path in files {
        if !luck.chmod { return false; }
        Set(files[tmp := files[tmp].(mode := files[path].mode)]);
        assert files == d[tmp := File(contents, d[path].mode)];
      }
      if !luck.rename { return false; }
      Set(files - {tmp} + map[path := files[tmp]]);
    }

    /** `write_in_place`: the closure, and the cleanup if it failed. */
    method WriteInPlace(path: Path, pid: string, nonce: string, contents: Bytes, initial: nat, luck: Luck)
      returns (ok: bool)
      modifies this
      ensures var o := Plan(old(files), TmpPath(path, pid, nonce), path, contents, initial, luck);
        ok == o.ok && history == old(history) + o.trace && files == Last(old(files), o.trace)
      ensures ok ==> Replaced(files, path, contents)
      ensures !ok ==> Intact(old(files), files, path) && (luck.remove ==> TmpPath(path, pid, nonce) !in files)
    {
      var tmp := TmpPath(path, pid, nonce);
      TmpDiffers(path, pid, nonce);
      PlanEnds(files, tmp, path, contents, initial, luck);
      hide Body, Intact, Replaced;
      ok := RunBody(tmp, path, contents, initial, luck);
      if !ok { Remove(tmp, luck); }
    }
  }
}
