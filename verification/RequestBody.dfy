/**
  The request body kept in the request context (common/gin.go): the first GetRequestBody drains and closes the incoming
  body into a storage, later calls rewind that storage, and CleanupBodyStorage drops it.
*/
module RequestBody {
  import opened Base
  import opened BodyStorage

  /** What the incoming reader answers after its last byte: io.EOF, the error of http.MaxBytesReader, any other error.
      */
  datatype Ending = Clean | Exceeds | Broken

  /** The request's body, `taken` once it has been drained and closed. When the storage itself is put in its place
      (`attached`), it is read only after cleanup has closed it, and such a read fails. */
  datatype Source = Source(bytes: seq<Byte>, length: int, ending: Ending, taken: bool, attached: bool)

  datatype Handle = Handle(disk: bool, view: View)

  /** `legacy` is the body cached under the older context key. */
  datatype Context = Context(storage: Option<Handle>, legacy: Option<seq<Byte>>, source: Source, max: nat)

  /** What one call finds: the cache settings, the room left at the two admission checks, whether files can be written,
      and what the incoming reader answers now if it was drained and closed before. */
  datatype Env = Env(enabled: bool, threshold: int, streamRoom: int, bufferRoom: int, writable: bool, drained: Ending)

  datatype Outcome = Ready(handle: Handle) | TooLarge | Unreadable

  function MaxBytes(maxMB: int): nat {
    (if maxMB <= 0 then 128 else maxMB) * 0x10_0000
  }

  // ----- specification -----

  function NewView(data: seq<Byte>): View {
    View(data, |data|, 0, false)
  }

  /** CreateBodyStorage. */
  function Store(data: seq<Byte>, e: Env): Handle {
    Handle(e.enabled && |data| >= e.threshold && |data| <= e.bufferRoom && e.writable, NewView(data))
  }

  /** What the incoming reader has left to give, and how it ends. */
  function Remaining(src: Source): seq<Byte> { if src.taken then [] else src.bytes }

  function Final(src: Source, e: Env): Ending {
    if !src.taken then src.ending else if src.attached then Broken else e.drained
  }

  predicate Streams(src: Source, e: Env) {
    e.enabled && src.length > 0 && src.length >= e.threshold && src.length <= e.streamRoom
  }

  /** CreateBodyStorageFromReader followed by closing the incoming body. */
  function Accept(src: Source, max: nat, e: Env): Outcome {
    if Streams(src, e) && !e.writable then Unreadable
    else if |Remaining(src)| > max || Final(src, e) == Exceeds then TooLarge
    else if Final(src, e) == Broken then Unreadable
    else Ready(if Streams(src, e) then Handle(true, NewView(Remaining(src))) else Store(Remaining(src), e))
  }

  function GetStep(c: Context, e: Env): (Context, Outcome) {
    if c.storage.Some? then
      var h := c.storage.value;
      if h.view.closed then (c, Unreadable)
      else
        var rewound := Handle(h.disk, h.view.(pos := 0));
        (c.(storage := Some(rewound)), Ready(rewound))
    else
      var o := if c.legacy.Some? then Ready(Store(c.legacy.value, e)) else Accept(c.source, c.max, e);
      (c.(storage := if o.Ready? then Some(o.handle) else None,
          source := if c.legacy.Some? then c.source else c.source.(taken := true)), o)
  }

  // ----- the code -----

  class RequestContext {
    var storage: Option<Handle>
    const legacy: Option<seq<Byte>>
    var source: Source
    const max: nat

    constructor (legacy: Option<seq<Byte>>, source: Source, maxMB: int)
      ensures State() == Context(None, legacy, source, MaxBytes(maxMB))
    {
      storage := None;
      this.legacy := legacy;
      this.source := source;
      max := MaxBytes(maxMB);
    }

    function State(): Context
      reads this
    {
      Context(storage, legacy, source, max)
    }

    /** Reads the incoming body through a limit of `max` + 1 bytes. */
    method Drain(e: Env) returns (data: seq<Byte>, ending: Ending)
      ensures |data| > max <==> |Remaining(source)| > max
      ensures |data| <= max ==> data == Remaining(source) && ending == Final(source, e)
      ensures |data| > max ==> ending == Clean
    {
      data, ending := Remaining(source), Final(source, e);
      if |data| > max {
        data, ending := data[..max + 1], Clean;
      }
    }

    method CreateFromReader(e: Env) returns (o: Outcome)
      ensures o == Accept(source, max, e)
    {
      var streams := Streams(source, e);
      if streams && !e.writable { return Unreadable; }
      var data, ending := Drain(e);
      if ending == Exceeds { return TooLarge; }
      if ending == Broken { return Unreadable; }
      if |data| > max { return TooLarge; }
      o := Ready(if streams then Handle(true, NewView(data)) else Store(data, e));
    }

    method GetRequestBody(e: Env) returns (o: Outcome)
      modifies this
      ensures (State(), o) == GetStep(old(State()), e)
    {
      if storage.Some? {
        var h := storage.value;
        var (view, reply) := Step(h.view, Seek(0, Start), h.disk);
        if !reply.Moved? { return Unreadable; }
        storage := Some(Handle(h.disk, view));
        return Ready(storage.value);
      }
      if legacy.Some? {
        storage := Some(Store(legacy.value, e));
        return Ready(storage.value);
      }
      o := CreateFromReader(e);
      source := source.(taken := true);
      if o.Ready? { storage := Some(o.handle); }
    }

    /** A reader or a parser works on the storage. */
    method Use(q: Request) returns (r: Option<Reply>)
      modifies this
      ensures State() == Next(old(State()), Event.Use(q))
      ensures r == if old(storage).None? then None
                   else Some(Step(old(storage).value.view, q, old(storage).value.disk).1)
    {
      if storage.None? { return None; }
      var h := storage.value;
      var (view, reply) := Step(h.view, q, h.disk);
      storage := Some(Handle(h.disk, view));
      r := Some(reply);
    }

    /** The storage becomes the request's body, as after parsing it or before an attempt. */
    method AttachBody()
      modifies this
      ensures State() == Next(old(State()), Attach)
    {
      if storage.Some? {
        source := source.(taken := true, attached := true);
      }
    }

    method CleanupBodyStorage()
      modifies this
      ensures State() == Next(old(State()), Cleanup)
    {
      storage := None;
    }
  }

  // ----- runs -----

  datatype Event = Get(e: Env) | Use(q: Request) | Attach | Cleanup

  function Next(c: Context, ev: Event): Context {
    match ev
    case Get(e) => GetStep(c, e).0
    case Use(q) =>
      if c.storage.None? then c
      else c.(storage := Some(Handle(c.storage.value.disk, Step(c.storage.value.view, q, c.storage.value.disk).0)))
    case Attach => if c.storage.None? then c else c.(source := c.source.(taken := true, attached := true))
    case Cleanup => c.(storage := None)
  }

  /** The context before event `i`. */
  function Before(c: Context, es: seq<Event>, i: nat): Context
    requires i <= |es|
  {
    if i == 0 then c else Next(Before(c, es, i - 1), es[i - 1])
  }

  /** The answer to the call at `i`. */
  function Answer(c: Context, es: seq<Event>, i: nat): Outcome
    requires i < |es| && es[i].Get?
  {
    GetStep(Before(c, es, i), es[i].e).1
  }

  predicate Releases(ev: Event) {
    ev.Cleanup? || (ev.Use? && ev.q.Close?)
  }

  /** The storage is open and holds `data` on the given medium. */
  predicate Holds(c: Context, data: seq<Byte>, size: nat, disk: bool) {
    && c.storage.Some? && c.storage.value.disk == disk
    && c.storage.value.view.data == data && c.storage.value.view.size == size && !c.storage.value.view.closed
  }

  lemma HoldsStays(c: Context, ev: Event, data: seq<Byte>, size: nat, disk: bool)
    requires Holds(c, data, size, disk) && !Releases(ev)
    ensures Holds(Next(c, ev), data, size, disk)
    ensures ev.Get? ==> GetStep(c, ev.e).1 == Ready(Handle(disk, View(data, size, 0, false)))
  {
  }

  lemma {:induction false} HeldFrom(c: Context, es: seq<Event>, i: nat, j: nat, v: View, disk: bool)
    requires i < j <= |es| && es[i].Get? && Answer(c, es, i) == Ready(Handle(disk, v))
    requires forall k :: i < k < j ==> !Releases(es[k])
    ensures Holds(Before(c, es, j), v.data, v.size, disk) && v.pos == 0 && !v.closed
  {
    if j > i + 1 {
      HeldFrom(c, es, i, j - 1, v, disk);
      HoldsStays(Before(c, es, j - 1), es[j - 1], v.data, v.size, disk);
    }
  }

  /** Once a call has been answered, every later call before the storage is closed or dropped is answered with the
      identical storage at position 0, whatever was read or sought in between; and reading it to the end, with any
      buffer sizes, gives every attempt the same bytes. */
  lemma EveryAttemptSeesTheBody(c: Context, es: seq<Event>, i: nat, j: nat, ns: seq<nat>)
    requires i < j < |es| && es[i].Get? && es[j].Get? && Answer(c, es, i).Ready?
    requires forall k :: i < k < j ==> !Releases(es[k])
    ensures Answer(c, es, j) == Answer(c, es, i)
    ensures var h := Answer(c, es, j).handle;
      var rs := Replies(h.view, Reads(ns), h.disk);
      h.view.pos == 0 && (Eof in rs ==> Delivered(rs) == h.view.data)
  {
    var h := Answer(c, es, i).handle;
    HeldFrom(c, es, i, j, h.view, h.disk);
    HoldsStays(Before(c, es, j), es[j], h.view.data, h.view.size, h.disk);
    ReadsDeliver(h.view, ns, h.disk);
    assert h.view.data[0..] == h.view.data;
  }

  /** A closed storage that was not dropped is never answered again. */
  lemma {:induction false} ClosedStaysClosed(c: Context, es: seq<Event>, j: nat)
    requires j <= |es| && c.storage.Some? && c.storage.value.view.closed
    requires forall k :: 0 <= k < j ==> !es[k].Cleanup?
    ensures var b := Before(c, es, j); b.storage.Some? && b.storage.value.view.closed
    ensures j < |es| && es[j].Get? ==> Answer(c, es, j) == Unreadable
  {
    if j > 0 { ClosedStaysClosed(c, es, j - 1); }
  }

  // ----- which body it is -----

  predicate Fresh(c: Context) {
    c.storage.None? && c.legacy.None? && !c.source.taken && !c.source.attached
  }

  /** The body is complete and within the limit. */
  predicate Acceptable(c: Context) {
    |c.source.bytes| <= c.max && c.source.ending == Clean
  }

  /** The first call: the whole body at position 0, or the error that says why not. */
  lemma FirstAnswer(c: Context, e: Env)
    requires Fresh(c)
    ensures var o := GetStep(c, e).1;
      && (o.Ready? <==> Acceptable(c) && (Streams(c.source, e) ==> e.writable))
      && (o.Ready? ==> o.handle.view == View(c.source.bytes, |c.source.bytes|, 0, false))
      && (o.Ready? ==> var large := Streams(c.source, e) || e.threshold <= |c.source.bytes| <= e.bufferRoom;
                       o.handle.disk == (e.enabled && e.writable && large))
      && (o.TooLarge? <==>
           (|c.source.bytes| > c.max || c.source.ending == Exceeds) && (Streams(c.source, e) ==> e.writable))
  {
  }

  /** Some call before event `j` finds that the drained reader ends cleanly. */
  ghost predicate EndsCleanly(es: seq<Event>, j: nat) {
    exists i: nat :: i < j && i < |es| && es[i].Get? && es[i].e.drained == Clean
  }

  /** What every context of a run from a fresh one keeps. */
  predicate Sound(c0: Context, c: Context, clean: bool) {
    && c.legacy.None? && c.max == c0.max
    && c.source == c0.source.(taken := c.source.taken, attached := c.source.attached)
    && (c.source.attached ==> c.source.taken)
    && (c.storage.Some? ==> c.source.taken && Authentic(c0, c.storage.value.view.data, clean))
  }

  /** The incoming body if it was acceptable; nothing, if a drained reader reported a clean end. */
  predicate Authentic(c0: Context, data: seq<Byte>, clean: bool) {
    (Acceptable(c0) && data == c0.source.bytes) || (clean && data == [])
  }

  lemma SoundStays(c0: Context, c: Context, ev: Event, clean: bool, clean': bool)
    requires Fresh(c0) && Sound(c0, c, clean) && (clean || (ev.Get? && ev.e.drained == Clean) ==> clean')
    ensures Sound(c0, Next(c, ev), clean')
    ensures ev.Get? && GetStep(c, ev.e).1.Ready? ==> Authentic(c0, GetStep(c, ev.e).1.handle.view.data, clean')
  {
  }

  /** In every run, with any number of cleanups, no answer holds anything but the incoming body, or nothing at all when
      the drained reader was found to end cleanly. */
  lemma {:induction false} OnlyTheBody(c0: Context, es: seq<Event>, j: nat)
    requires Fresh(c0) && j <= |es|
    ensures Sound(c0, Before(c0, es, j), EndsCleanly(es, j))
    ensures j < |es| && es[j].Get? && Answer(c0, es, j).Ready? ==>
              Authentic(c0, Answer(c0, es, j).handle.view.data, EndsCleanly(es, j + 1))
  {
    if j > 0 {
      OnlyTheBody(c0, es, j - 1);
      SoundStays(c0, Before(c0, es, j - 1), es[j - 1], EndsCleanly(es, j - 1), EndsCleanly(es, j));
    }
    if j < |es| { SoundStays(c0, Before(c0, es, j), es[j], EndsCleanly(es, j), EndsCleanly(es, j + 1)); }
  }

  /** No call before event `j` is answered. */
  ghost predicate NeverReady(c: Context, es: seq<Event>, j: nat)
    requires j <= |es|
  {
    forall i: nat :: i < j && es[i].Get? ==> !Answer(c, es, i).Ready?
  }

  /** There was a call before event `j`. */
  ghost predicate Called(es: seq<Event>, j: nat) {
    exists i: nat :: i < j && i < |es| && es[i].Get?
  }

  /** A call that finds the reader drained gets nothing from it: the reader fails, or the file cannot be written. */
  predicate StillFails(src: Source, e: Env) {
    e.drained != Clean || (Streams(src, e) && !e.writable)
  }

  /** While nothing was answered, a run only drains the reader. */
  lemma {:induction false} OnlyDrained(c0: Context, es: seq<Event>, j: nat)
    requires Fresh(c0) && j <= |es| && NeverReady(c0, es, j)
    ensures Before(c0, es, j) == c0.(source := c0.source.(taken := Called(es, j)))
  {
    if j > 0 {
      OnlyDrained(c0, es, j - 1);
      assert es[j - 1].Get? ==> !Answer(c0, es, j - 1).Ready?;
    }
  }

  /** The answer to the next call of a run without an answer. */
  lemma NextAnswer(c0: Context, es: seq<Event>, j: nat)
    requires Fresh(c0) && !Acceptable(c0) && j < |es| && es[j].Get? && NeverReady(c0, es, j)
    ensures Answer(c0, es, j).Ready? <==> Called(es, j) && !StillFails(c0.source, es[j].e)
  {
    OnlyDrained(c0, es, j);
  }

  lemma {:induction false} RefusedUpTo(c0: Context, es: seq<Event>, j: nat)
    requires Fresh(c0) && !Acceptable(c0) && j <= |es|
    requires forall k: nat :: k < j && es[k].Get? && Called(es, k) ==> StillFails(c0.source, es[k].e)
    ensures NeverReady(c0, es, j)
  {
    if j > 0 {
      RefusedUpTo(c0, es, j - 1);
      if es[j - 1].Get? { NextAnswer(c0, es, j - 1); }
    }
  }

  /** In every run a body that is too long or breaks off is refused throughout exactly when every call after the first
      finds the drained reader failing, as the one wrapped by http.MaxBytesReader does, or no file to write to; a
      reader that ends cleanly turns such a call into an empty body. */
  lemma RefusedForGood(c0: Context, es: seq<Event>)
    requires Fresh(c0) && !Acceptable(c0)
    ensures NeverReady(c0, es, |es|) <==>
            forall k: nat :: k < |es| && es[k].Get? && Called(es, k) ==> StillFails(c0.source, es[k].e)
  {
    if NeverReady(c0, es, |es|) {
      forall k: nat | k < |es| && es[k].Get? && Called(es, k) ensures StillFails(c0.source, es[k].e) {
        NextAnswer(c0, es, k);
      }
    } else if forall k: nat :: k < |es| && es[k].Get? && Called(es, k) ==> StillFails(c0.source, es[k].e) {
      RefusedUpTo(c0, es, |es|);
    }
  }

  /** Once the storage was put in the body's place, a cleanup is final: no later call of the run is answered. */
  lemma {:induction false} NothingAfterCleanup(c: Context, es: seq<Event>, j: nat)
    requires c.legacy.None? && c.storage.None? && c.source.taken && c.source.attached && j <= |es|
    ensures var b := Before(c, es, j); b.legacy.None? && b.storage.None? && b.source.taken && b.source.attached
    ensures j < |es| && es[j].Get? ==> Answer(c, es, j) == Unreadable
  {
    if j > 0 { NothingAfterCleanup(c, es, j - 1); }
  }

  /** In particular after an attempt: get, attach, use, clean up. */
  lemma AttachedBodyIsGone(c: Context, e: Env, q: Request, es: seq<Event>, j: nat)
    requires c.legacy.None? && GetStep(c, e).1.Ready? && j < |es| && es[j].Get?
    ensures var after := Next(Next(Next(Next(c, Get(e)), Attach), Use(q)), Cleanup);
      Answer(after, es, j) == Unreadable
  {
    NothingAfterCleanup(Next(Next(Next(Next(c, Get(e)), Attach), Use(q)), Cleanup), es, j);
  }
}
