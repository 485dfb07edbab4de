/**
  Disk-cache accounting of common/disk_cache_config.go and common/body_storage.go as a step
  system: any number of body storages are created and closed concurrently, each counter update
  is its own atomic step, and admission is a check of the recorded usage that is not atomic
  with the update that follows it. The limit is fixed.
*/
module DiskCache {

  /** Where one storage is in its life. */
  datatype Pc =
    | Streaming(claim: int) // CreateBodyStorageFromReader about to check the declared length
    | Buffered              // the body is in memory and CreateBodyStorage is about to check its size
    | Admitted(streamed: bool) // IsDiskCacheAvailable answered yes; the file is being written
    | FileCounted           // ActiveDiskFiles incremented, usage not yet
    | DiskOpen
    | DiskClosing           // closed flag set, counters not yet decremented
    | FileUncounted         // ActiveDiskFiles decremented, usage not yet
    | ClampFiles            // the file count went negative: about to store 0
    | ClampUsage            // the usage went negative: about to store 0
    | BufferCounted         // ActiveMemoryBuffers incremented, memory usage not yet
    | MemoryOpen
    | MemoryClosing
    | BufferUncounted
    | Closed

  datatype Storage = Storage(size: nat, pc: Pc)

  datatype State = State(storages: seq<Storage>, files: int, usage: int, buffers: int, memory: int)

  datatype Limits = Limits(enabled: bool, threshold: int, max: int)

  function At(s: State, t: nat, pc: Pc): State
    requires t < |s.storages|
  {
    s.(storages := s.storages[t := s.storages[t].(pc := pc)])
  }

  /** Disk when the cache is on, the body is large enough and the recorded usage leaves room. */
  predicate Admits(s: State, size: int, lim: Limits) {
    lim.enabled && size >= lim.threshold && s.usage + size <= lim.max
  }

  ghost predicate CreateStep(s: State, t: nat, s': State, lim: Limits)
    requires t < |s.storages|
  {
    var size := s.storages[t].size;
    match s.storages[t].pc
    case Streaming(claim) =>
      if claim > 0 && Admits(s, claim, lim) then
        s' == At(s, t, Admitted(true))
      else
        s' == At(s, t, Buffered) || s' == At(s, t, Closed)     // the body was read, or was too long or unreadable
    case Buffered =>
      s' == if Admits(s, size, lim) then At(s, t, Admitted(false))
            else At(s.(buffers := s.buffers + 1), t, BufferCounted)
    case Admitted(streamed) =>
      || s' == At(s.(files := s.files + 1), t, FileCounted)
      || (streamed && s' == At(s, t, Closed))                           // the file could not be written: an error
      || (!streamed && s' == At(s.(buffers := s.buffers + 1), t, BufferCounted)) // ... or the fallback to memory
    case FileCounted => s' == At(s.(usage := s.usage + size), t, DiskOpen)
    case BufferCounted => s' == At(s.(memory := s.memory + size), t, MemoryOpen)
    case _ => false
  }

  /** Close; only the caller that flips the closed flag gets past the first step. */
  ghost predicate CloseStep(s: State, t: nat, s': State)
    requires t < |s.storages|
  {
    var size := s.storages[t].size;
    match s.storages[t].pc
    case DiskOpen => s' == At(s, t, DiskClosing)
    case DiskClosing => s' == At(s.(files := s.files - 1), t, if s.files - 1 < 0 then ClampFiles else FileUncounted)
    case ClampFiles => s' == At(s.(files := 0), t, FileUncounted)
    case FileUncounted => s' == At(s.(usage := s.usage - size), t, if s.usage - size < 0 then ClampUsage else Closed)
    case ClampUsage => s' == At(s.(usage := 0), t, Closed)
    case MemoryOpen => s' == At(s, t, MemoryClosing)
    case MemoryClosing => s' == At(s.(buffers := s.buffers - 1), t, BufferUncounted)
    case BufferUncounted => s' == At(s.(memory := s.memory - size), t, Closed)
    case _ => false
  }

  ghost predicate Next(s: State, s': State, lim: Limits) {
    exists t: nat :: t < |s.storages| && (CreateStep(s, t, s', lim) || CloseStep(s, t, s'))
  }

  ghost predicate Init(s: State) {
    && s.files == 0 && s.usage == 0 && s.buffers == 0 && s.memory == 0
    && forall t :: 0 <= t < |s.storages| ==> (s.storages[t].pc.Streaming? || s.storages[t].pc.Buffered?)
  }

  ghost predicate Run(r: seq<State>, lim: Limits) {
    && |r| > 0 && Init(r[0])
    && forall i: nat :: i + 1 < |r| ==> Next(r[i], r[i + 1], lim)
  }

  // ----- what the counters should be -----

  type Weight = Storage -> nat

  /** Storages counted in ActiveDiskFiles. */
  function File(x: Storage): nat {
    if x.pc.FileCounted? || x.pc.DiskOpen? || x.pc.DiskClosing? then 1 else 0
  }

  /** Bytes counted in CurrentDiskUsageBytes. */
  function Bytes(x: Storage): nat {
    if x.pc.DiskOpen? || x.pc.DiskClosing? || x.pc.FileUncounted? then x.size else 0
  }

  /** Storages counted in ActiveMemoryBuffers. */
  function Buffer(x: Storage): nat {
    if x.pc.BufferCounted? || x.pc.MemoryOpen? || x.pc.MemoryClosing? then 1 else 0
  }

  /** Bytes counted in CurrentMemoryUsageBytes. */
  function Memory(x: Storage): nat {
    if x.pc.MemoryOpen? || x.pc.MemoryClosing? || x.pc.BufferUncounted? then x.size else 0
  }

  /** A creator admitted to the disk whose bytes are not recorded yet. */
  function InFlight(x: Storage): nat {
    if x.pc.Admitted? || x.pc.FileCounted? then 1 else 0
  }

  function Unrecorded(x: Storage): nat {
    if x.pc.Admitted? || x.pc.FileCounted? then x.size else 0
  }

  function Sum(xs: seq<Storage>, w: Weight): nat {
    if xs == [] then 0 else Sum(xs[..|xs| - 1], w) + w(xs[|xs| - 1])
  }

  /** Replacing one storage moves the sum by the difference of its weights. */
  lemma {:induction false} SumAfter(xs: seq<Storage>, t: nat, x: Storage, w: Weight)
    requires t < |xs|
    ensures Sum(xs[t := x], w) + w(xs[t]) == Sum(xs, w) + w(x)
  {
    var k := |xs| - 1;
    var ys := xs[t := x];
    if t == k {
      assert ys[..k] == xs[..k];
    } else {
      assert ys[..k] == xs[..k][t := x];
      SumAfter(xs[..k], t, x, w);
    }
  }

  lemma {:induction false} PartOfSum(xs: seq<Storage>, t: nat, w: Weight)
    requires t < |xs|
    ensures w(xs[t]) <= Sum(xs, w)
  {
    if t < |xs| - 1 { PartOfSum(xs[..|xs| - 1], t, w); }
  }

  lemma {:induction false} SameSum(xs: seq<Storage>, v: Weight, w: Weight)
    requires forall t :: 0 <= t < |xs| ==> v(xs[t]) == w(xs[t])
    ensures Sum(xs, v) == Sum(xs, w)
  {
    if xs != [] { SameSum(xs[..|xs| - 1], v, w); }
  }

  function Zero(x: Storage): nat { 0 }

  lemma {:induction false} ZeroSum(xs: seq<Storage>)
    ensures Sum(xs, Zero) == 0
  {
    if xs != [] { ZeroSum(xs[..|xs| - 1]); }
  }

  /** Every counter is exactly the sum over the storages, and no clamp is ever due. */
  ghost predicate Conserved(s: State) {
    && s.files == Sum(s.storages, File) && s.usage == Sum(s.storages, Bytes)
    && s.buffers == Sum(s.storages, Buffer) && s.memory == Sum(s.storages, Memory)
    && forall t :: 0 <= t < |s.storages| ==> !s.storages[t].pc.ClampFiles? && !s.storages[t].pc.ClampUsage?
  }

  /** A step that moves every counter by what it moves the storage's own share keeps them all exact. */
  lemma MovedTogether(s: State, t: nat, x: Storage, s': State)
    requires Conserved(s) && t < |s.storages| && s'.storages == s.storages[t := x] && !x.pc.ClampFiles?
    requires !x.pc.ClampUsage?
    requires s'.files + File(s.storages[t]) == s.files + File(x)
    requires s'.usage + Bytes(s.storages[t]) == s.usage + Bytes(x)
    requires s'.buffers + Buffer(s.storages[t]) == s.buffers + Buffer(x)
    requires s'.memory + Memory(s.storages[t]) == s.memory + Memory(x)
    ensures Conserved(s')
  {
    SumAfter(s.storages, t, x, File);
    SumAfter(s.storages, t, x, Bytes);
    SumAfter(s.storages, t, x, Buffer);
    SumAfter(s.storages, t, x, Memory);
  }

  lemma CreateConserves(s: State, t: nat, s': State, lim: Limits)
    requires Conserved(s) && t < |s.storages| && CreateStep(s, t, s', lim)
    ensures Conserved(s')
  {
    MovedTogether(s, t, s'.storages[t], s');
  }

  lemma CloseConserves(s: State, t: nat, s': State)
    requires Conserved(s) && t < |s.storages| && CloseStep(s, t, s')
    ensures Conserved(s')
  {
    PartOfSum(s.storages, t, File);
    PartOfSum(s.storages, t, Bytes);
    MovedTogether(s, t, s'.storages[t], s');
  }

  lemma InitConserved(s: State)
    requires Init(s)
    ensures Conserved(s) && Sum(s.storages, Unrecorded) == 0
  {
    ZeroSum(s.storages);
    SameSum(s.storages, File, Zero);
    SameSum(s.storages, Bytes, Zero);
    SameSum(s.storages, Buffer, Zero);
    SameSum(s.storages, Memory, Zero);
    SameSum(s.storages, Unrecorded, Zero);
  }

  /** In every state of every run the counters are exact, so the clamps to zero never fire. */
  lemma {:induction false} CountersExact(r: seq<State>, lim: Limits, i: nat)
    requires Run(r, lim) && i < |r|
    ensures Conserved(r[i])
  {
    if i == 0 {
      InitConserved(r[0]);
    } else {
      CountersExact(r, lim, i - 1);
      var s, s' := r[i - 1], r[i - 1 + 1];
      assert Next(s, s', lim);
      var t: nat :| t < |s.storages| && (CreateStep(s, t, s', lim) || CloseStep(s, t, s'));
      if CreateStep(s, t, s', lim) { CreateConserves(s, t, s', lim); } else { CloseConserves(s, t, s'); }
    }
  }

  /** Nothing is in progress. */
  ghost predicate Quiescent(s: State) {
    forall t :: 0 <= t < |s.storages| ==>
      var pc := s.storages[t].pc;
      pc.Streaming? || pc.Buffered? || pc.DiskOpen? || pc.MemoryOpen? || pc.Closed?
  }

  function OnDisk(x: Storage): nat { if x.pc.DiskOpen? then 1 else 0 }

  function DiskSize(x: Storage): nat { if x.pc.DiskOpen? then x.size else 0 }

  function InMemory(x: Storage): nat { if x.pc.MemoryOpen? then 1 else 0 }

  function MemorySize(x: Storage): nat { if x.pc.MemoryOpen? then x.size else 0 }

  /** Whenever nothing is in progress, the counts are the numbers of open storages and the usages the sums of their
      sizes. */
  lemma CountersMeasureOpenStorages(r: seq<State>, lim: Limits, i: nat)
    requires Run(r, lim) && i < |r| && Quiescent(r[i])
    ensures r[i].files == Sum(r[i].storages, OnDisk) && r[i].usage == Sum(r[i].storages, DiskSize)
    ensures r[i].buffers == Sum(r[i].storages, InMemory) && r[i].memory == Sum(r[i].storages, MemorySize)
  {
    CountersExact(r, lim, i);
    var xs := r[i].storages;
    SameSum(xs, File, OnDisk);
    SameSum(xs, Bytes, DiskSize);
    SameSum(xs, Buffer, InMemory);
    SameSum(xs, Memory, MemorySize);
  }

  // ----- the overshoot of check-then-act -----

  /** No body is longer than `bound`, and none is longer than the length it declares, if any, by more than `slack`. */
  ghost predicate Sized(s: State, bound: nat, slack: nat) {
    forall t :: 0 <= t < |s.storages| ==>
      && s.storages[t].size <= bound
      && (s.storages[t].pc.Streaming? && s.storages[t].pc.claim > 0 ==>
           s.storages[t].size <= s.storages[t].pc.claim + slack)
  }

  /** Recorded usage plus bytes admitted but not yet recorded. */
  function Load(s: State): int {
    s.usage + Sum(s.storages, Unrecorded)
  }

  lemma {:induction false} PendingAtMost(xs: seq<Storage>, bound: nat)
    requires forall t :: 0 <= t < |xs| ==> xs[t].size <= bound
    ensures Sum(xs, Unrecorded) <= Sum(xs, InFlight) * bound
  {
    if xs != [] {
      var k := |xs| - 1;
      PendingAtMost(xs[..k], bound);
      var n := Sum(xs[..k], InFlight);
      assert (n + 1) * bound == n * bound + bound;
      assert xs[k].size <= bound;
    }
  }

  lemma Fewer(a: nat, b: nat, bound: nat)
    requires a <= b
    ensures a * bound <= b * bound
  {
    assert b * bound == a * bound + (b - a) * bound;
  }

  /** The step in which a creator is let onto the disk. */
  predicate Admission(s: State, t: nat, s': State) {
    t < |s.storages| && t < |s'.storages| && !s.storages[t].pc.Admitted? && s'.storages[t].pc.Admitted?
  }

  /** Admission with `k` creators in flight, itself included. */
  lemma AdmissionBound(s: State, t: nat, s': State, lim: Limits, k: nat, bound: nat, slack: nat)
    requires t < |s.storages| && CreateStep(s, t, s', lim) && Admission(s, t, s')
    requires Sized(s, bound, slack) && Sum(s'.storages, InFlight) <= k
    ensures Load(s') <= lim.max + slack + (k - 1) * bound
  {
    SumAfter(s.storages, t, s'.storages[t], Unrecorded);
    SumAfter(s.storages, t, s'.storages[t], InFlight);
    PendingAtMost(s.storages, bound);
    Fewer(Sum(s.storages, InFlight), k - 1, bound);
  }

  /** Every other step leaves the load as it is or lowers it. */
  lemma NoOtherGrowth(s: State, t: nat, s': State, lim: Limits)
    requires Conserved(s) && t < |s.storages| && (CreateStep(s, t, s', lim) || CloseStep(s, t, s'))
    requires !Admission(s, t, s')
    ensures Load(s') <= Load(s)
  {
    SumAfter(s.storages, t, s'.storages[t], Unrecorded);
    PartOfSum(s.storages, t, Bytes);
  }

  /** With at most `k` creators in flight at any time and bodies of at most `bound` bytes, recorded usage plus bytes
      admitted but not yet recorded never exceeds the limit by more than (k - 1) bodies, in any interleaving, when no
      body outgrows its declared length. A streamed body that does (the declared length is that of the compressed one)
      adds its excess, at most `slack`, once. */
  lemma {:induction false} OvershootBounded(r: seq<State>, lim: Limits, k: nat, bound: nat, slack: nat, i: nat)
    requires Run(r, lim) && i < |r| && lim.max >= 0 && k >= 1
    requires forall j :: 0 <= j < |r| ==> Sized(r[j], bound, slack) && Sum(r[j].storages, InFlight) <= k
    ensures Load(r[i]) <= lim.max + slack + (k - 1) * bound
  {
    Fewer(0, k - 1, bound);
    if i == 0 {
      InitConserved(r[0]);
    } else {
      OvershootBounded(r, lim, k, bound, slack, i - 1);
      CountersExact(r, lim, i - 1);
      var s, s' := r[i - 1], r[i - 1 + 1];
      assert Next(s, s', lim) && Sized(s, bound, slack);
      var t: nat :| t < |s.storages| && (CreateStep(s, t, s', lim) || CloseStep(s, t, s'));
      if Admission(s, t, s') {
        AdmissionBound(s, t, s', lim, k, bound, slack);
      } else {
        NoOtherGrowth(s, t, s', lim);
      }
    }
  }

  // ----- the bound is attained -----

  function Total(sizes: seq<nat>): nat {
    if sizes == [] then 0 else Total(sizes[..|sizes| - 1]) + sizes[|sizes| - 1]
  }

  /** Bodies stored one after another until one `bound` is left; then `k` bodies of `bound` bytes enter together. */
  datatype Race = Race(fills: seq<nat>, k: nat, bound: nat)

  /** Each fill takes three steps, each entry one. */
  function Length(x: Race): nat {
    3 * |x.fills| + x.k
  }

  function PcAt(x: Race, i: nat, t: nat): Pc {
    if t < |x.fills| then
      if i <= 3 * t then Buffered
      else if i == 3 * t + 1 then Admitted(false)
      else if i == 3 * t + 2 then FileCounted
      else DiskOpen
    else if i <= 3 * |x.fills| + (t - |x.fills|) then Buffered
    else Admitted(false)
  }

  function StorageAt(x: Race, i: nat, t: nat): Storage {
    Storage(if t < |x.fills| then x.fills[t] else x.bound, PcAt(x, i, t))
  }

  function Filled(x: Race, i: nat): nat {
    if i / 3 < |x.fills| then i / 3 else |x.fills|
  }

  function RaceAt(x: Race, i: nat): State {
    State(seq(|x.fills| + x.k, t requires t >= 0 => StorageAt(x, i, t)),
          if i < 3 * |x.fills| then (i + 1) / 3 else |x.fills|, Total(x.fills[..Filled(x, i)]), 0, 0)
  }

  /** The storage that moves in step `i`. */
  function Mover(x: Race, i: nat): nat {
    if i < 3 * |x.fills| then i / 3 else |x.fills| + (i - 3 * |x.fills|)
  }

  ghost predicate Fits(x: Race, lim: Limits) {
    && lim.enabled && lim.threshold <= x.bound && Total(x.fills) + x.bound == lim.max
    && forall t :: 0 <= t < |x.fills| ==> lim.threshold <= x.fills[t] <= x.bound
  }

  lemma {:induction false} TotalGrows(sizes: seq<nat>, n: nat)
    requires n < |sizes|
    ensures Total(sizes[..n + 1]) == Total(sizes[..n]) + sizes[n] && Total(sizes[..n + 1]) <= Total(sizes)
    decreases |sizes|
  {
    assert sizes[..n + 1][..n] == sizes[..n];
    if n + 1 == |sizes| {
      assert sizes[..n + 1] == sizes;
    } else {
      var k := |sizes| - 1;
      TotalGrows(sizes[..k], n);
      assert sizes[..k][..n + 1] == sizes[..n + 1] && sizes[..k][..n] == sizes[..n];
    }
  }

  /** Only the mover moves. */
  lemma RaceMoves(x: Race, i: nat)
    requires i < Length(x)
    ensures var s, s', t := RaceAt(x, i), RaceAt(x, i + 1), Mover(x, i);
      t < |s.storages| && s'.storages == s.storages[t := StorageAt(x, i + 1, t)] && s.storages[t] == StorageAt(x, i, t)
  {
    var s, s', t := RaceAt(x, i), RaceAt(x, i + 1), Mover(x, i);
    forall u: nat | u < |s.storages| && u != t ensures s'.storages[u] == s.storages[u] {
      assert PcAt(x, i + 1, u) == PcAt(x, i, u);
    }
  }

  lemma FillStep(x: Race, lim: Limits, i: nat)
    requires Fits(x, lim) && i < 3 * |x.fills|
    ensures CreateStep(RaceAt(x, i), Mover(x, i), RaceAt(x, i + 1), lim)
  {
    RaceMoves(x, i);
    TotalGrows(x.fills, i / 3);
  }

  lemma EnterStep(x: Race, lim: Limits, i: nat)
    requires Fits(x, lim) && 3 * |x.fills| <= i < Length(x)
    ensures CreateStep(RaceAt(x, i), Mover(x, i), RaceAt(x, i + 1), lim)
  {
    RaceMoves(x, i);
    assert x.fills[..|x.fills|] == x.fills;
  }

  /** Creators in flight and their bytes at each point of the race. */
  function Flying(x: Race, i: nat): nat {
    if i >= 3 * |x.fills| then i - 3 * |x.fills| else if i % 3 == 0 then 0 else 1
  }

  function FlyingBytes(x: Race, i: nat): nat {
    if i >= 3 * |x.fills| then (i - 3 * |x.fills|) * x.bound else if i % 3 == 0 then 0 else x.fills[i / 3]
  }

  lemma RaceStart(x: Race)
    ensures Sum(RaceAt(x, 0).storages, InFlight) == 0 && Sum(RaceAt(x, 0).storages, Unrecorded) == 0
    ensures Init(RaceAt(x, 0))
  {
    var xs := RaceAt(x, 0).storages;
    ZeroSum(xs);
    SameSum(xs, InFlight, Zero);
    SameSum(xs, Unrecorded, Zero);
    assert x.fills[..0] == [];
  }

  lemma RaceStarts(x: Race)
    ensures SumsAre(x, 0, Flying(x, 0), FlyingBytes(x, 0))
  {
    RaceStart(x);
    assert 0 * x.bound == 0;
  }

  lemma RaceSumStep(x: Race, i: nat, w: Weight)
    requires i < Length(x)
    ensures var t := Mover(x, i);
      Sum(RaceAt(x, i + 1).storages, w) + w(StorageAt(x, i, t)) ==
      Sum(RaceAt(x, i).storages, w) + w(StorageAt(x, i + 1, t))
  {
    RaceMoves(x, i);
    var t := Mover(x, i);
    SumAfter(RaceAt(x, i).storages, t, StorageAt(x, i + 1, t), w);
  }

  ghost predicate SumsAre(x: Race, i: nat, count: int, bytes: int) {
    Sum(RaceAt(x, i).storages, InFlight) == count && Sum(RaceAt(x, i).storages, Unrecorded) == bytes
  }

  lemma SumsNext(x: Race, i: nat)
    requires i < Length(x) && SumsAre(x, i, Flying(x, i), FlyingBytes(x, i))
    ensures SumsAre(x, i + 1, Flying(x, i + 1), FlyingBytes(x, i + 1))
  {
    RaceSumStep(x, i, InFlight);
    RaceSumStep(x, i, Unrecorded);
    FlyingNext(x, i);
  }

  lemma {:induction false} RaceSums(x: Race, i: nat)
    requires i <= Length(x)
    ensures SumsAre(x, i, Flying(x, i), FlyingBytes(x, i))
  {
    if i == 0 {
      RaceStarts(x);
    } else {
      RaceSums(x, i - 1);
      SumsNext(x, i - 1);
    }
  }

  lemma FlyingNext(x: Race, i: nat)
    requires i < Length(x)
    ensures var t := Mover(x, i);
      && Flying(x, i + 1) + InFlight(StorageAt(x, i, t)) == Flying(x, i) + InFlight(StorageAt(x, i + 1, t))
      && FlyingBytes(x, i + 1) + Unrecorded(StorageAt(x, i, t)) ==
         FlyingBytes(x, i) + Unrecorded(StorageAt(x, i + 1, t))
  {
    var e := i - 3 * |x.fills|;
    assert (e + 1) * x.bound == e * x.bound + x.bound;
  }

  function RaceRun(x: Race): seq<State> {
    seq(Length(x) + 1, i requires i >= 0 => RaceAt(x, i))
  }

  lemma RaceIsRun(x: Race, lim: Limits)
    requires Fits(x, lim)
    ensures Run(RaceRun(x), lim)
  {
    var r := RaceRun(x);
    RaceStart(x);
    forall i: nat | i + 1 < |r| ensures Next(r[i], r[i + 1], lim) {
      if i < 3 * |x.fills| { FillStep(x, lim, i); } else { EnterStep(x, lim, i); }
      RaceMoves(x, i);
    }
  }

  lemma RaceStaysSmall(x: Race, lim: Limits, j: nat)
    requires Fits(x, lim) && x.k >= 1 && j <= Length(x)
    ensures Sized(RaceAt(x, j), x.bound, 0) && Sum(RaceAt(x, j).storages, InFlight) <= x.k
  {
    RaceSums(x, j);
  }

  /** The bound is tight: for every k and every body size, a limit that is filled up to one body by bodies of at most
      that size is overshot by exactly (k - 1) bodies in some interleaving in which no body is larger and no more than
      k creators are ever in flight. */
  lemma OvershootAttained(x: Race, lim: Limits)
    requires Fits(x, lim) && x.k >= 1
    ensures var r := RaceRun(x);
      && Run(r, lim) && Load(r[Length(x)]) == lim.max + (x.k - 1) * x.bound
      && forall j :: 0 <= j < |r| ==> Sized(r[j], x.bound, 0) && Sum(r[j].storages, InFlight) <= x.k
  {
    var r := RaceRun(x);
    RaceIsRun(x, lim);
    forall j | 0 <= j < |r| ensures Sized(r[j], x.bound, 0) && Sum(r[j].storages, InFlight) <= x.k {
      RaceStaysSmall(x, lim, j);
    }
    RaceSums(x, Length(x));
    assert x.fills[..|x.fills|] == x.fills;
    assert x.k * x.bound == (x.k - 1) * x.bound + x.bound;
  }
}
