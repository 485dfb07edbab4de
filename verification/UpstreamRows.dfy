/**
  The stored model list and update settings of a channel under overlapping checks and applies. Each of them loads the
  channel, a check then asks the upstream, and only later is the whole settings column stored, together with the models
  if the operation changed them. No lock covers this, and a bulk check loads a batch of channels before it asks the
  first upstream. What a check stores of the keys when it selects one is in module ChannelRows.
*/
module UpstreamRows {
  import opened Base
  import opened ModelNames
  import opened UpstreamModels
  import opened Schedules

  /** A check that reached the upstream, one that did not, an apply, and an operation that stores nothing: a check that
      comes too soon, or one whose update fails. */
  datatype Op =
    | Check(upstream: seq<string>, seen: map<string, string>, matches: Matcher, sync: bool, now: int)
    | FailedCheck(now: int)
    | Apply(add: seq<string>, ignore: seq<string>, remove: seq<string>, now: int)
    | Idle

  type Ops = Tid -> Op

  /** What the operation makes of its copy. */
  function Edited(snap: Record, op: Op): Record {
    match op
    case Check(upstream, seen, matches, sync, now) => Checked(snap, upstream, seen, matches, sync, now)
    case FailedCheck(now) => snap.(lastCheck := now)
    case Apply(add, ignore, remove, now) => Applied(snap, add, ignore, remove, now)
    case Idle => snap
  }

  /** The operation stores the models too. */
  predicate ChangesModels(snap: Record, op: Op) {
    match op
    case Check(upstream, seen, matches, sync, now) =>
      sync && |PendingAdd(GetModels(snap.models), upstream, snap.ignored, seen, matches)| > 0
    case Apply(add, ignore, remove, now) => NextModels(snap, add, remove) != Local(snap)
    case _ => false
  }

  /** The record after an operation stores what it made of the copy `snap` over `r`. */
  function Written(r: Record, snap: Record, counted: nat, op: Op): Record {
    if op.Idle? then r
    else Edited(snap, op).(models := if ChangesModels(snap, op) then Edited(snap, op).models else r.models)
  }

  function Nothing(r: Record): nat { 0 }

  /** The table that holds the record. */
  function Table(): Database<Record, Op> {
    Database(Written, Nothing)
  }

  // ----- decisions -----

  /** Applied to the copy `snap`, the operation ignores `m`. */
  predicate Ignores(snap: Record, op: Op, m: string) {
    op.Apply? && m in Skipped(snap, op.ignore) && m !in Added(snap, op.add)
  }

  predicate Adds(snap: Record, op: Op, m: string) {
    op.Apply? && m in Added(snap, op.add)
  }

  predicate OnList(r: Record, m: string) {
    m in Normalize(r.ignored)
  }

  lemma IgnoredOnCommit(r: Record, snap: Record, n: nat, op: Op, m: string)
    requires Ignores(snap, op, m)
    ensures OnList(Written(r, snap, n, op), m)
  {
    ApplyConserves(snap, op.add, op.ignore, op.remove, op.now);
    NormalizeFixed(Applied(snap, op.add, op.ignore, op.remove, op.now).ignored);
  }

  lemma StaysOnList(r: Record, snap: Record, n: nat, op: Op, m: string)
    requires OnList(r, m) && OnList(snap, m) && !Adds(snap, op, m)
    ensures OnList(Written(r, snap, n, op), m)
  {
    if op.Apply? {
      ApplyConserves(snap, op.add, op.ignore, op.remove, op.now);
      NormalizeFixed(Applied(snap, op.add, op.ignore, op.remove, op.now).ignored);
    }
  }

  /** A name ignored at `k` is on the ignore list in the end unless it was added since. */
  ghost predicate Honoured(init: Record, es: seq<Event>, ops: Ops, k: nat, m: string) {
    Lasts(Table(), init, es, ops, IgnoringOf(m), AddingOf(m), Listing(m), k, |es|)
  }

  function IgnoringOf(m: string): (Record, Op) -> bool {
    (snap, op) => Ignores(snap, op, m)
  }

  function AddingOf(m: string): (Record, Op) -> bool {
    (snap, op) => Adds(snap, op, m)
  }

  function Listing(m: string): Record -> bool {
    r => OnList(r, m)
  }

  lemma DecisionsSettle(ops: Ops, m: string)
    ensures Settled(Table(), ops, IgnoringOf(m), AddingOf(m), Listing(m))
  {
    forall r: Record, t: Tid | Ignores(r, ops(t), m) || (OnList(r, m) && !Adds(r, ops(t), m))
      ensures OnList(Serial(Table(), r, ops(t)), m)
    {
      if Ignores(r, ops(t), m) { IgnoredOnCommit(r, r, 0, ops(t), m); } else { StaysOnList(r, r, 0, ops(t), m); }
    }
  }

  // ----- with overlap -----

  /** One pending model. */
  const PENDING: Record := Record("", ["m"], [], [], 0)

  const IGNORE_M: Op := Apply([], ["m"], [], 2)

  /** One operation finds its upstream unreachable, one ignores the pending model, and no other stores anything. */
  function Racers(slow: Tid, fast: Tid): Ops {
    t => if t == slow then FailedCheck(1) else if t == fast then IGNORE_M else Idle
  }

  function Decided(): Record {
    Edited(PENDING, IGNORE_M)
  }

  function Forgotten(): Record {
    PENDING.(lastCheck := 1)
  }

  lemma Ignoring()
    ensures !ChangesModels(PENDING, IGNORE_M) && Ignores(PENDING, IGNORE_M, "m") && !OnList(Forgotten(), "m")
  {
    var m := "m";
    NormalizeFixed([m]);
    assert m in [m];
    IntersectMeaning([m], [m]);
    IntersectMeaning([], [m]);
    RemovedMeaning(PENDING, [], []);
    NextMeaning(PENDING, [], []);
    EmptyIfNone(NextModels(PENDING, [], []));
  }

  lemma FastWrites(n: nat)
    ensures Written(PENDING, PENDING, n, IGNORE_M) == Decided()
  {
  }

  lemma SlowWrites(n: nat)
    ensures Written(Decided(), PENDING, n, FailedCheck(1)) == Forgotten()
  {
    Ignoring();
    assert Decided().models == PENDING.models;
  }

  lemma RacersRace(slow: Tid, fast: Tid)
    requires slow != fast
    ensures Races(Table(), Racers(slow, fast), PENDING, Decided(), Forgotten(), slow, fast)
  {
    var db, ops := Table(), Racers(slow, fast);
    forall n: nat ensures db.write(PENDING, PENDING, n, ops(fast)) == Decided() { FastWrites(n); }
    forall n: nat ensures db.write(Decided(), PENDING, n, ops(slow)) == Forgotten() { SlowWrites(n); }
    forall t: Tid, r: Record, snap: Record, n: nat | t != slow && t != fast ensures db.write(r, snap, n, ops(t)) == r {
      assert ops(t) == Idle;
    }
  }

  lemma OnlyFastApplies(slow: Tid, fast: Tid)
    ensures forall r: Record, t: Tid :: t != fast ==> !AddingOf("m")(r, Racers(slow, fast)(t))
  {
  }

  lemma DecisionLost(es: seq<Event>, i: nat, j: nat, k: nat)
    requires Schedule(es) && OverlapAt(es, i, j, k)
    ensures !Honoured(PENDING, es, Racers(es[k].t, es[j].t), j, "m")
  {
    var ops, m := Racers(es[k].t, es[j].t), "m";
    assert es[j] != es[k];
    RacersRace(es[k].t, es[j].t);
    Ignoring();
    OnlyFastApplies(es[k].t, es[j].t);
    RaceForgets(Table(), es, i, j, k, ops, PENDING, Decided(), Forgotten(), IgnoringOf(m), AddingOf(m), Listing(m));
  }

  /** For any schedule: whatever the operations are, a name that an apply ignored stays on the ignore list until an
      apply adds it, if and only if no operation commits between the load and the commit of another. */
  lemma DecisionsStayIff(es: seq<Event>)
    requires Schedule(es)
    ensures (forall init: Record, ops: Ops, k: nat, m: string :: Honoured(init, es, ops, k, m)) <==> !Overlaps(es)
  {
    if Overlaps(es) {
      var i: nat, j: nat, k: nat :| OverlapAt(es, i, j, k);
      DecisionLost(es, i, j, k);
    } else {
      forall init: Record, ops: Ops, k: nat, m: string ensures Honoured(init, es, ops, k, m) {
        DecisionsSettle(ops, m);
        LastsUpTo(Table(), init, es, ops, IgnoringOf(m), AddingOf(m), Listing(m), k, |es|);
      }
    }
  }

  lemma IgnoresAgain(r: Record)
    requires r.detected == ["m"]
    ensures OnList(Edited(r, IGNORE_M), "m")
  {
    Ignoring();
    assert Skipped(r, ["m"]) == Skipped(PENDING, ["m"]) && Added(r, []) == Added(PENDING, []);
    IgnoredOnCommit(r, r, 0, IGNORE_M, "m");
  }

  lemma StillIgnored(r: Record, slow: Tid, fast: Tid, t: Tid)
    requires OnList(r, "m")
    ensures OnList(Serial(Table(), r, Racers(slow, fast)(t)), "m")
  {
    IntersectMeaning([], Normalize(r.detected));
    StaysOnList(r, r, 0, Racers(slow, fast)(t), "m");
  }

  /** In any order, the pending model is ignored once the operation that ignores it has run. */
  lemma SerialRemembers(slow: Tid, fast: Tid, order: seq<Tid>)
    requires slow != fast && fast in order
    ensures OnList(SerialRun(Table(), PENDING, order, Racers(slow, fast)), "m")
  {
    var ops, m := Racers(slow, fast), "m";
    var before := (r: Record) => r.detected == ["m"];
    forall r: Record | before(r) ensures Listing(m)(Serial(Table(), r, ops(fast))) { IgnoresAgain(r); }
    forall r: Record, t: Tid | Listing(m)(r) ensures Listing(m)(Serial(Table(), r, ops(t))) {
      StillIgnored(r, slow, fast, t);
    }
    SerialTurn(Table(), PENDING, order, ops, fast, before, Listing(m));
  }

  lemma NoOrderForgets(es: seq<Event>, i: nat, j: nat, k: nat, order: seq<Tid>)
    requires Schedule(es) && OverlapAt(es, i, j, k) && es[j].t in order
    ensures var ops := Racers(es[k].t, es[j].t);
      Final(Table(), PENDING, es, ops) != SerialRun(Table(), PENDING, order, ops)
  {
    assert es[j] != es[k];
    RacersRace(es[k].t, es[j].t);
    RaceFinal(Table(), es, i, j, k, Racers(es[k].t, es[j].t), PENDING, Decided(), Forgotten());
    Ignoring();
    SerialRemembers(es[k].t, es[j].t, order);
  }

  /** Every outcome is that of the operations one after another, in the order of their commits, if and only if the same
      holds. */
  lemma SerialIff(es: seq<Event>)
    requires Schedule(es)
    ensures (forall init: Record, ops: Ops ::
               Final(Table(), init, es, ops) == SerialRun(Table(), init, Committed(es, |es|), ops)) <==> !Overlaps(es)
  {
    if Overlaps(es) {
      var i: nat, j: nat, k: nat :| OverlapAt(es, i, j, k);
      CommittedHas(es, |es|, j);
      NoOrderForgets(es, i, j, k, Committed(es, |es|));
    } else {
      forall init: Record, ops: Ops
        ensures Final(Table(), init, es, ops) == SerialRun(Table(), init, Committed(es, |es|), ops)
      {
        NoOverlapIsSerial(Table(), init, es, ops, |es|);
      }
    }
  }

  /** `t` commits, and the outcome is that of no order in which it has its turn. */
  ghost predicate OfNoOrder(es: seq<Event>, ops: Ops, t: Tid) {
    Commit(t) in es && forall order: seq<Tid> :: t in order ==>
      Final(Table(), PENDING, es, ops) != SerialRun(Table(), PENDING, order, ops)
  }

  /** With an overlap some outcome is that of no order in which a certain committed operation has its turn. */
  lemma OverlapIsNoOrder(es: seq<Event>)
    requires Schedule(es) && Overlaps(es)
    ensures exists ops: Ops, t: Tid :: OfNoOrder(es, ops, t)
  {
    var i: nat, j: nat, k: nat :| OverlapAt(es, i, j, k);
    var ops, t := Racers(es[k].t, es[j].t), es[j].t;
    assert OfNoOrder(es, ops, t) by {
      forall order: seq<Tid> | t in order
        ensures Final(Table(), PENDING, es, ops) != SerialRun(Table(), PENDING, order, ops)
      {
        NoOrderForgets(es, i, j, k, order);
      }
    }
  }

  /** In every schedule, a name ignored only since a check loaded is off the ignore list once the check commits, and
      pending again if it is an upstream name that the check had to offer when it loaded. */
  lemma LateCheckForgets(init: Record, es: seq<Event>, ops: Ops, i: nat, c: nat, k: nat, m: string)
    requires Schedule(es) && Follows(es, i, c, k) && ops(es[k].t).Check? && !ops(es[k].t).sync
    ensures var loaded, op := Before(Table(), init, es, ops, i).row, ops(es[k].t);
      var now, after := Before(Table(), init, es, ops, k).row, Before(Table(), init, es, ops, k + 1).row;
      && (OnList(now, m) && !OnList(loaded, m) ==> !OnList(after, m))
      && (m in after.detected <==>
            && m in Normalize(op.upstream) && m !in Local(loaded) && m !in Targets(op.seen)
            && !Ignored(Normalize(loaded.ignored), m, op.matches))
  {
    var loaded, op := Before(Table(), init, es, ops, i).row, ops(es[k].t);
    CommitIs(Table(), init, es, ops, i, c, k);
    PendingAddMeaning(GetModels(loaded.models), op.upstream, loaded.ignored, op.seen, op.matches);
  }

  /** In every schedule, an apply that commits a change of the models stores those it loaded with its own selection:
      a model that was added since its load is gone, and one that was removed is back. */
  lemma LateApplyOverwrites(init: Record, es: seq<Event>, ops: Ops, i: nat, c: nat, k: nat)
    requires Schedule(es) && Follows(es, i, c, k) && ops(es[k].t).Apply?
    requires ChangesModels(Before(Table(), init, es, ops, i).row, ops(es[k].t))
    requires CommaFree(Added(Before(Table(), init, es, ops, i).row, ops(es[k].t).add))
    ensures var loaded, op := Before(Table(), init, es, ops, i).row, ops(es[k].t);
      forall m :: m in Local(Before(Table(), init, es, ops, k + 1).row) <==>
        m in Added(loaded, op.add) || (m in Local(loaded) && m !in Removed(loaded, op.add, op.remove))
  {
    var loaded, op := Before(Table(), init, es, ops, i).row, ops(es[k].t);
    CommitIs(Table(), init, es, ops, i, c, k);
    StoredModels(loaded, op.add, op.ignore, op.remove, op.now);
    NextMeaning(loaded, op.add, op.remove);
  }
}
