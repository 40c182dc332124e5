/** The `--max-size` cap over a reader that may return short, and its agreement with
    the check made on slurped input (crates/cli/src/main.rs:647-668, 966-1055). */
module CapReader {
  import opened Basics

  const U64_MAX: nat := 0xFFFF_FFFF_FFFF_FFFF

  /** What one `read` returns: some bytes, none at all meaning end of input, an
      error of the source, or the cap error. */
  datatype ReadResult = Data(bytes: Bytes) | IoError | CapError

  /** `rest` is what the source has still to give. */
  datatype Cap = Cap(rest: Bytes, remaining: nat, hitCap: bool)

  /** Any read of up to `n` bytes, however short, that makes progress if it can. */
  ghost predicate InnerRead(before: Bytes, n: nat, got: Bytes, after: Bytes) {
    got + after == before && |got| <= n && (n > 0 && before != [] ==> got != [])
  }

  /** One call of `read` with a buffer of `len` bytes. */
  ghost predicate CapRead(s: Cap, len: nat, r: ReadResult, t: Cap) {
    match r
    case IoError => t == s
    case CapError => s.remaining == 0 && s.rest != [] && t == Cap(s.rest[1..], 0, true)
    case Data(b) =>
      if s.remaining == 0 then b == [] && s.rest == [] && t == s
      else InnerRead(s.rest, Min(len, s.remaining), b, t.rest) && t.remaining == s.remaining - |b| && t.hitCap == s.hitCap
  }

  // ── the reader in place ───────────────────────────────────────────────────

  class Source {
    var rest: Bytes

    constructor (data: Bytes)
      ensures rest == data
    {
      rest := data;
    }

    /** Gives any number of bytes it likes, or fails. */
    method Read(n: nat) returns (r: ReadResult)
      modifies this
      ensures r.IoError? || r.Data?
      ensures r.IoError? ==> rest == old(rest)
      ensures r.Data? ==> InnerRead(old(rest), n, r.bytes, rest)
    {
      var fails: bool := *;
      if fails { return IoError; }
      var k := Min(n, |rest|);
      var short: nat := *;
      if 0 < short < k { k := short; }
      r := Data(rest[..k]);
      rest := rest[k..];
    }
  }

  class CappedReader {
    const inner: Source
    var remaining: nat
    var hitCap: bool

    ghost function Value(): Cap
      reads this, inner
    {
      Cap(inner.rest, remaining, hitCap)
    }

    constructor (source: Source, limit: nat)
      ensures inner == source && Value() == Cap(source.rest, limit, false)
    {
      inner, remaining, hitCap := source, limit, false;
    }

    method Read(len: nat) returns (r: ReadResult)
      modifies this, inner
      ensures CapRead(old(Value()), len, r, Value())
      ensures r.Data? ==> |r.bytes| <= len && |r.bytes| <= old(remaining)
    {
      if remaining == 0 {
        var probe := inner.Read(1);
        if probe.IoError? { return IoError; }
        if probe.bytes == [] { return Data([]); }
        hitCap := true;
        assert old(inner.rest)[1..] == inner.rest;
        return CapError;
      }
      var n := Min(len, remaining);
      r := inner.Read(n);
      if r.Data? { remaining := remaining - |r.bytes|; }
    }

    /** Reads with a buffer of `len` bytes until the end, the cap, or a failure. */
    method Drain(len: nat) returns (got: Bytes, last: ReadResult)
      requires len > 0
      modifies this, inner
      ensures last == IoError || last == Data([]) || last == CapError
      ensures |got| + remaining == old(remaining) && got <= old(inner.rest)
      ensures last == Data([]) ==> got == old(inner.rest) && |old(inner.rest)| <= old(remaining)
      ensures last == CapError ==> |old(inner.rest)| > old(remaining) == |got|
    {
      got := [];
      while true
        invariant |got| + remaining == old(remaining) && got + inner.rest == old(inner.rest)
        decreases |inner.rest|
      {
        label before:
        last := Read(len);
        if last == Data([]) || !last.Data? {
          assert last == CapError ==> inner.rest == old@before(inner.rest)[1..];
          return;
        }
        got := got + last.bytes;
      }
    }
  }

  // ── every sequence of reads ───────────────────────────────────────────────

  datatype Run = Run(states: seq<Cap>, lens: seq<nat>, results: seq<ReadResult>)

  ghost predicate Valid(run: Run) {
    && |run.lens| == |run.results| && |run.states| == |run.results| + 1
    && forall i :: 0 <= i < |run.results| ==> CapRead(run.states[i], run.lens[i], run.results[i], run.states[i + 1])
  }

  /** The bytes delivered by the first `n` reads. */
  function Delivered(results: seq<ReadResult>, n: nat): Bytes
    requires n <= |results|
  {
    if n == 0 then []
    else Delivered(results, n - 1) + (if results[n - 1].Data? then results[n - 1].bytes else [])
  }

  /** Bytes swallowed by probes. */
  function Probed(results: seq<ReadResult>, n: nat): nat
    requires n <= |results|
  {
    if n == 0 then 0 else Probed(results, n - 1) + (if results[n - 1] == CapError then 1 else 0)
  }

  /** No read of any sequence gives more bytes than its buffer takes or than the cap has
      left, and one that could give some and gives none says the source has ended. */
  lemma ReadsFit(run: Run, i: nat)
    requires Valid(run) && i < |run.results| && run.results[i].Data?
    ensures |run.results[i].bytes| <= run.lens[i] && |run.results[i].bytes| <= run.states[i].remaining
    ensures run.results[i].bytes == [] && run.lens[i] > 0 ==> run.states[i].rest == []
  {
    assert CapRead(run.states[i], run.lens[i], run.results[i], run.states[i + 1]);
  }

  /** A source given out up to `d`, and then one read further. */
  lemma ReadOn(whole: Bytes, d: Bytes, got: Bytes, rest: Bytes)
    requires |d| <= |whole| && d == whole[..|d|] && whole[|d|..] == got + rest
    ensures |d + got| <= |whole| && d + got == whole[..|d + got|] && rest == whole[|d + got|..]
  {
    assert whole == d + got + rest;
  }

  /** Over any sequence of reads with any buffers: what is delivered is a prefix of the
      source, delivered and remaining add up to the cap, and nothing is lost but the
      bytes probed past the cap. */
  lemma {:induction false} RunDelivers(run: Run, whole: Bytes, cap: nat, n: nat)
    requires Valid(run) && n <= |run.results| && run.states[0] == Cap(whole, cap, false)
    ensures var d, p := Delivered(run.results, n), Probed(run.results, n);
      && |d| + run.states[n].remaining == cap
      && |d| + p <= |whole| && d == whole[..|d|] && run.states[n].rest == whole[|d| + p..]
      && (p > 0 ==> |d| == cap) && (run.states[n].hitCap <==> p > 0)
  {
    if n > 0 {
      RunDelivers(run, whole, cap, n - 1);
      var s, r, t := run.states[n - 1], run.results[n - 1], run.states[n];
      assert CapRead(s, run.lens[n - 1], r, t);
      var d, p := Delivered(run.results, n - 1), Probed(run.results, n - 1);
      if r.Data? && s.remaining > 0 {
        ReadOn(whole, d, r.bytes, t.rest);
      }
    }
  }

  /** A drain: non-empty buffers, data until the last read, which ends it. */
  ghost predicate Drains(run: Run) {
    var n := |run.results|;
    && Valid(run) && n > 0
    && (forall i :: 0 <= i < n ==> run.lens[i] > 0)
    && (forall i :: 0 <= i < n - 1 ==> run.results[i].Data? && run.results[i].bytes != [])
    && (run.results[n - 1] == Data([]) || run.results[n - 1] == CapError)
  }

  lemma NoProbes(results: seq<ReadResult>, n: nat)
    requires n <= |results| && forall i :: 0 <= i < n ==> results[i] != CapError
    ensures Probed(results, n) == 0
  {
  }

  /** A drain yields the whole source and then its end when that fits the cap, and
      otherwise exactly the cap's worth and then the cap error. */
  lemma DrainYields(run: Run, whole: Bytes, cap: nat)
    requires Drains(run) && run.states[0] == Cap(whole, cap, false)
    ensures var n := |run.results|;
      && Delivered(run.results, n) == whole[..Min(cap, |whole|)]
      && (run.results[n - 1] == CapError <==> |whole| > cap)
  {
    var n := |run.results|;
    NoProbes(run.results, n - 1);
    RunDelivers(run, whole, cap, n - 1);
    var s := run.states[n - 1];
    var d := Delivered(run.results, n - 1);
    assert CapRead(s, run.lens[n - 1], run.results[n - 1], run.states[n]);
    assert s.rest == whole[|d|..];
    assert Delivered(run.results, n) == d;
  }

  // ── the two size checks ───────────────────────────────────────────────────

  /** The limit given to the reader: `--max-size 0` means none. */
  function CappedLimit(maxSize: nat): nat { if maxSize == 0 then U64_MAX else maxSize }

  /** The check on input read whole. */
  predicate SlurpRejects(maxSize: nat, size: nat) { maxSize > 0 && size > maxSize }

  /** The streamed and the slurped check agree on every input, for every `--max-size`,
      unless the cap is off and the input exceeds the largest 64-bit size. */
  lemma VerdictsAgreeExactly(run: Run, whole: Bytes, maxSize: nat)
    requires Drains(run) && run.states[0] == Cap(whole, CappedLimit(maxSize), false)
    ensures (run.results[|run.results| - 1] == CapError <==> SlurpRejects(maxSize, |whole|)) <==>
      maxSize > 0 || |whole| < 0x1_0000_0000_0000_0000
  {
    DrainYields(run, whole, CappedLimit(maxSize));
  }

  /** One input on which they differ: with the cap off, one byte too many. */
  lemma UncappedStops() returns (run: Run, whole: Bytes)
    ensures |whole| == 0x1_0000_0000_0000_0000 && Drains(run) && run.states[0] == Cap(whole, CappedLimit(0), false)
    ensures run.results[|run.results| - 1] == CapError && !SlurpRejects(0, |whole|)
  {
    whole := seq(U64_MAX + 1, _ => 0);
    var s0, s1 := Cap(whole, U64_MAX, false), Cap(whole[U64_MAX..], 0, false);
    run := Run([s0, s1, Cap(s1.rest[1..], 0, true)], [U64_MAX, 1], [Data(whole[..U64_MAX]), CapError]);
    assert whole[..U64_MAX] + whole[U64_MAX..] == whole;
    assert CapRead(s0, U64_MAX, run.results[0], s1) && CapRead(s1, 1, CapError, run.states[2]);
  }
}
