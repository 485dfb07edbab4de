/**
  The two request-body storages of common/body_storage.go behind one interface: a memory buffer read through
  bytes.Reader, and a temporary file read through os.File. Both are proved against step functions on a common view, and
  the step functions are compared over whole runs of requests.
*/
module BodyStorage {

  type Byte = bv8

  /** The file descriptor layer caps a single read of a file at one gibibyte. */
  const MAX_RW: nat := 0x4000_0000

  datatype Whence = Start | Current | End

  datatype Request = Read(n: nat) | Seek(offset: int, whence: Whence) | Bytes | Close

  /** `Got([])` is a read of nothing without an error; `Eof` a read of nothing with io.EOF. */
  datatype Reply = Got(data: seq<Byte>) | Eof | Moved(pos: nat) | Whole(data: seq<Byte>) | Done | StorageClosed | Failed

  datatype View = View(data: seq<Byte>, size: nat, pos: nat, closed: bool)

  predicate Intact(v: View) {
    v.size == |v.data|
  }

  function Min(a: int, b: int): int { if a < b then a else b }

  function Left(v: View): nat {
    if v.pos < |v.data| then |v.data| - v.pos else 0
  }

  // ----- the specification of each storage -----

  function Target(v: View, offset: int, whence: Whence): int {
    match whence
    case Start => offset
    case Current => v.pos + offset
    case End => |v.data| + offset
  }

  function SeekStep(v: View, offset: int, whence: Whence): (View, Reply) {
    var t := Target(v, offset, whence);
    if t < 0 then (v, Failed) else (v.(pos := t), Moved(t))
  }

  /** Delivers the next `k` bytes. */
  function Deliver(v: View, k: nat): (View, Reply)
    requires v.pos + k <= |v.data|
  {
    (v.(pos := v.pos + k), Got(v.data[v.pos..v.pos + k]))
  }

  function MemoryStep(v: View, q: Request): (View, Reply) {
    if q.Close? then (v.(closed := true), Done)
    else if v.closed then (v, StorageClosed)
    else match q
      case Read(n) => if Left(v) == 0 then (v, Eof) else Deliver(v, Min(n, Left(v)))
      case Seek(offset, whence) => SeekStep(v, offset, whence)
      case Bytes => (v, Whole(v.data))
  }

  function DiskStep(v: View, q: Request): (View, Reply) {
    if q.Close? then (v.(closed := true), Done)
    else if v.closed then (v, StorageClosed)
    else match q
      case Read(n) =>
        if n == 0 then (v, Got([])) else if Left(v) == 0 then (v, Eof) else Deliver(v, Min(Min(n, MAX_RW), Left(v)))
      case Seek(offset, whence) => SeekStep(v, offset, whence)
      case Bytes =>
        if v.size <= |v.data| then (v, Whole(v.data[..v.size])) else (v.(pos := |v.data|), Failed)
  }

  // ----- the storages -----

  class MemoryStorage {
    const data: seq<Byte>
    var index: nat                    // the position of the bytes.Reader
    const size: nat
    var closed: bool

    constructor (data: seq<Byte>)
      ensures State() == View(data, |data|, 0, false)
    {
      this.data := data;
      size := |data|;
      index := 0;
      closed := false;
    }

    function State(): View
      reads this
    {
      View(data, size, index, closed)
    }

    method Read(n: nat) returns (r: Reply)
      modifies this
      ensures (State(), r) == MemoryStep(old(State()), Request.Read(n))
    {
      if closed { return StorageClosed; }
      if index >= |data| { return Eof; }
      var k := if n < |data| - index then n else |data| - index;
      r := Got(data[index..index + k]);
      index := index + k;
    }

    method Seek(offset: int, whence: Whence) returns (r: Reply)
      modifies this
      ensures (State(), r) == MemoryStep(old(State()), Request.Seek(offset, whence))
    {
      if closed { return StorageClosed; }
      var target;
      match whence {
        case Start => target := offset;
        case Current => target := index + offset;
        case End => target := |data| + offset;
      }
      if target < 0 { return Failed; }
      index := target;
      r := Moved(target);
    }

    method Bytes() returns (r: Reply)
      ensures (State(), r) == MemoryStep(State(), Request.Bytes)
    {
      r := if closed then StorageClosed else Whole(data);
    }

    method Close() returns (r: Reply)
      modifies this
      ensures (State(), r) == MemoryStep(old(State()), Request.Close)
    {
      closed := true;
      r := Done;
    }
  }

  /** An open regular file. */
  class File {
    const content: seq<Byte>
    var offset: nat

    constructor (content: seq<Byte>)
      ensures this.content == content && offset == 0
    {
      this.content := content;
      offset := 0;
    }

    /** os.File.Read: nothing asked for is no error, nothing delivered otherwise is io.EOF. */
    method Read(n: nat) returns (chunk: seq<Byte>, eof: bool)
      modifies this
      ensures eof <==> n > 0 && old(offset) >= |content|
      ensures |chunk| == if old(offset) >= |content| then 0 else Min(Min(n, MAX_RW), |content| - old(offset))
      ensures offset == old(offset) + |chunk|
      ensures chunk != [] ==> chunk == content[old(offset)..offset]
    {
      if n == 0 { return [], false; }
      if offset >= |content| { return [], true; }
      var k := Min(Min(n, MAX_RW), |content| - offset);
      chunk, eof := content[offset..offset + k], false;
      offset := offset + k;
    }

    method Seek(to: int, whence: Whence) returns (at: int)
      modifies this
      ensures var t := Target(View(content, 0, old(offset), false), to, whence);
        at == t && offset == if t < 0 then old(offset) else t
    {
      match whence {
        case Start => at := to;
        case Current => at := offset + to;
        case End => at := |content| + to;
      }
      if at >= 0 { offset := at; }
    }
  }

  class DiskStorage {
    const file: File
    const size: nat
    var closed: bool

    constructor (data: seq<Byte>)
      ensures fresh(file) && State() == View(data, |data|, 0, false)
    {
      file := new File(data);
      size := |data|;
      closed := false;
    }

    function State(): View
      reads this, file
    {
      View(file.content, size, file.offset, closed)
    }

    method Read(n: nat) returns (r: Reply)
      modifies file
      ensures (State(), r) == DiskStep(old(State()), Request.Read(n))
    {
      if closed { return StorageClosed; }
      var chunk, eof := file.Read(n);
      r := if eof then Eof else Got(chunk);
    }

    method Seek(offset: int, whence: Whence) returns (r: Reply)
      modifies file
      ensures (State(), r) == DiskStep(old(State()), Request.Seek(offset, whence))
    {
      if closed { return StorageClosed; }
      var at := file.Seek(offset, whence);
      r := if at < 0 then Failed else Moved(at);
    }

    /** Remembers the position, reads the file from its start in as many reads as it takes, and goes back. */
    method Bytes() returns (r: Reply)
      modifies file
      ensures (State(), r) == DiskStep(old(State()), Request.Bytes)
    {
      if closed { return StorageClosed; }
      var back := file.Seek(0, Current);
      var _ := file.Seek(0, Start);
      var data: seq<Byte> := [];
      var eof := false;
      while |data| < size && !eof
        invariant |data| == file.offset <= size && file.offset <= |file.content|
        invariant data == file.content[..|data|]
        invariant eof ==> |data| == |file.content| < size
        decreases size - |data|, !eof
      {
        var chunk;
        chunk, eof := file.Read(size - |data|);
        data := data + chunk;
      }
      if |data| < size { return Failed; }
      var _ := file.Seek(back, Start);
      r := Whole(data);
    }

    method Close() returns (r: Reply)
      modifies this
      ensures (State(), r) == DiskStep(old(State()), Request.Close)
    {
      closed := true;
      r := Done;
    }
  }

  // ----- memory and disk are the same storage, except for two kinds of read -----

  /** A read of nothing at the end, or a read of more than the descriptor layer moves at once. */
  predicate Differs(v: View, q: Request) {
    && q.Read? && !v.closed
    && ((q.n == 0 && Left(v) == 0) || (q.n > MAX_RW && Left(v) > MAX_RW))
  }

  /** No request changes the contents or the size, and Bytes does not move the position. */
  lemma ContentsStay(v: View, q: Request)
    requires Intact(v)
    ensures var m, d := MemoryStep(v, q).0, DiskStep(v, q).0;
      && m.data == v.data == d.data && Intact(m) && Intact(d)
      && (q.Bytes? ==> m == v == d)
      && (v.closed ==> m.closed && d.closed)
      && (q.Bytes? && !v.closed ==> MemoryStep(v, q).1 == Whole(v.data) == DiskStep(v, q).1)
  {
    assert v.data[..v.size] == v.data;
  }

  lemma StepsAgree(v: View, q: Request)
    requires Intact(v)
    ensures MemoryStep(v, q).1 == DiskStep(v, q).1 <==> !Differs(v, q)
    ensures !Differs(v, q) ==> MemoryStep(v, q) == DiskStep(v, q)
  {
    assert v.data[..v.size] == v.data;
  }

  function Step(v: View, q: Request, disk: bool): (View, Reply) {
    if disk then DiskStep(v, q) else MemoryStep(v, q)
  }

  /** The replies to a run of requests. */
  function Replies(v: View, qs: seq<Request>, disk: bool): seq<Reply>
    decreases |qs|
  {
    if qs == [] then [] else [Step(v, qs[0], disk).1] + Replies(Step(v, qs[0], disk).0, qs[1..], disk)
  }

  /** Somewhere along the run on the memory storage a request is one of the two kinds. */
  predicate MeetsDifference(v: View, qs: seq<Request>)
    decreases |qs|
  {
    qs != [] && (Differs(v, qs[0]) || MeetsDifference(MemoryStep(v, qs[0]).0, qs[1..]))
  }

  /** Over every run the two storages give the same replies exactly when neither kind of read is met. */
  lemma {:induction false} RunsAgree(v: View, qs: seq<Request>)
    requires Intact(v)
    ensures Replies(v, qs, false) == Replies(v, qs, true) <==> !MeetsDifference(v, qs)
    decreases |qs|
  {
    if qs != [] {
      StepsAgree(v, qs[0]);
      ContentsStay(v, qs[0]);
      RunsAgree(MemoryStep(v, qs[0]).0, qs[1..]);
      var ms, ds := Replies(v, qs, false), Replies(v, qs, true);
      assert ms[0] == MemoryStep(v, qs[0]).1 && ds[0] == DiskStep(v, qs[0]).1;
      assert ms[1..] == Replies(MemoryStep(v, qs[0]).0, qs[1..], false);
      assert ds[1..] == Replies(DiskStep(v, qs[0]).0, qs[1..], true);
    }
  }

  lemma {:induction false} NoDifference(v: View, qs: seq<Request>)
    requires forall i :: 0 <= i < |qs| ==> qs[i].Read? ==> 1 <= qs[i].n <= MAX_RW
    ensures !MeetsDifference(v, qs)
    decreases |qs|
  {
    if qs != [] {
      assert !Differs(v, qs[0]);
      NoDifference(MemoryStep(v, qs[0]).0, qs[1..]);
    }
  }

  /** Callers read into buffers of 1 byte to 1 GiB: then a body on disk cannot be told from one in memory. */
  lemma OrdinaryRunsAgree(v: View, qs: seq<Request>)
    requires Intact(v) && forall i :: 0 <= i < |qs| ==> qs[i].Read? ==> 1 <= qs[i].n <= MAX_RW
    ensures Replies(v, qs, false) == Replies(v, qs, true)
  {
    NoDifference(v, qs);
    RunsAgree(v, qs);
  }

  // ----- reading to the end delivers the body -----

  function Reads(ns: seq<nat>): seq<Request> {
    if ns == [] then [] else [Request.Read(ns[0])] + Reads(ns[1..])
  }

  /** The bytes delivered by a series of replies. */
  function Delivered(rs: seq<Reply>): seq<Byte> {
    if rs == [] then [] else (if rs[0].Got? then rs[0].data else []) + Delivered(rs[1..])
  }

  /** What lies beyond the position. */
  function Rest(v: View): seq<Byte> {
    if v.pos < |v.data| then v.data[v.pos..] else []
  }

  /** One read takes a prefix of the rest, and reports the end only when there is none. */
  lemma ReadTakes(v: View, n: nat, disk: bool)
    requires !v.closed
    ensures var (w, r) := Step(v, Request.Read(n), disk);
      && !w.closed
      && Rest(v) == (if r.Got? then r.data else []) + Rest(w)
      && (r == Eof ==> Rest(v) == [])
  {
  }

  /** Whatever buffer sizes are used, what is read is a prefix of the rest, and all of it once the end is reported. */
  lemma {:induction false} ReadsDeliver(v: View, ns: seq<nat>, disk: bool)
    requires !v.closed
    ensures var rs := Replies(v, Reads(ns), disk);
      Delivered(rs) <= Rest(v) && (Eof in rs ==> Delivered(rs) == Rest(v))
    decreases |ns|
  {
    if ns != [] {
      var qs := Reads(ns);
      assert qs[1..] == Reads(ns[1..]);
      ReadTakes(v, ns[0], disk);
      var (w, r) := Step(v, qs[0], disk);
      ReadsDeliver(w, ns[1..], disk);
      var rest := Replies(w, qs[1..], disk);
      var rs := Replies(v, qs, disk);
      assert rs == [r] + rest && rs[1..] == rest;
      Joined(r, rest, Rest(v), Rest(w));
    }
  }

  lemma Joined(r: Reply, rest: seq<Reply>, whole: seq<Byte>, tail: seq<Byte>)
    requires whole == (if r.Got? then r.data else []) + tail && (r == Eof ==> whole == [])
    requires Delivered(rest) <= tail && (Eof in rest ==> Delivered(rest) == tail)
    ensures var rs := [r] + rest; Delivered(rs) <= whole && (Eof in rs ==> Delivered(rs) == whole)
  {
    assert ([r] + rest)[1..] == rest;
  }
}
