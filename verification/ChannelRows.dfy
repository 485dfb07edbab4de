/**
  The whole channel row under overlapping operations of every kind. A check or an apply of upstream models stores the
  settings column, and the models if it changed them; a key action stores the models and the settings it loaded along
  with the keys, and a report stores every column but the keys. A key selection, in polling mode without the memory
  cache, stores the channel info of the copy it was made on. So all of them meet in one row.

  A check asks the upstream with a key, which it selects from the copy it loaded, and stores twice: the channel info at
  the selection and the settings at the end. It is two operations with adjacent loads, a selection and a check that
  commits after it (`IsCheck`, `OneCopy`). A check that stores nothing at one of the two moments has a selection that
  saves nothing there (another mode, the memory cache, an Ollama channel, a failed store) or is idle.
*/
module ChannelRows {
  import opened MultiKey
  import opened Schedules
  import K = MultiKeyRows
  import U = UpstreamRows
  import opened UpstreamModels

  /** `filled` says that the settings column is not the empty string. */
  datatype Row = Row(keys: K.Row, up: Record, filled: bool)

  /** A key action or report, a key selection, and a check or apply. */
  datatype Op = Key(a: Action) | Select(saves: bool) | Up(u: U.Op)

  datatype Family = Keys | Selections | Models

  type Ops = Tid -> Op

  function FamilyOf(op: Op): Family {
    match op
    case Key(_) => Keys
    case Select(_) => Selections
    case Up(_) => Models
  }

  /** The columns of the upstream settings after an update that leaves out empty fields. */
  function Refilled(r: Row, snap: Row): Row {
    var models := if snap.up.models == "" then r.up.models else snap.up.models;
    if snap.filled then r.(up := snap.up.(models := models), filled := true) else r.(up := r.up.(models := models))
  }

  /** What a key action or report leaves in the models and settings columns. */
  function Carried(r: Row, snap: Row, a: Action): Row {
    if a.Append? then r
    else if a.Report? then
      if snap.keys.channelStatus == a.status then r else r.(up := snap.up, filled := snap.filled)
    else if K.Edited(snap.keys, a).Refused? then r
    else Refilled(r, snap)
  }

  /** The row after an operation stores the copy `snap` into `r`. */
  function Written(r: Row, snap: Row, counted: nat, op: Op): Row {
    match op
    case Key(a) => Carried(r, snap, a).(keys := K.Written(r.keys, snap.keys, counted, K.Do(a)))
    case Select(saves) => if saves then r.(keys := K.Written(r.keys, snap.keys, counted, K.Poll)) else r
    case Up(u) => if u.Idle? then r else r.(up := U.Written(r.up, snap.up, counted, u), filled := true)
  }

  function KeyCount(r: Row): nat {
    |r.keys.keys|
  }

  /** The table that holds the row. */
  function Table(): Database<Row, Op> {
    Database(Written, KeyCount)
  }

  /** Every operation is of the family that `fam` gives it. */
  ghost predicate Fits(ops: Ops, fam: Tid -> Family) {
    forall t: Tid :: FamilyOf(ops(t)) == fam(t)
  }

  /** A commit of the family `fast` falls between the load and the commit of an operation of the family `slow`. */
  ghost predicate Crosses(es: seq<Event>, fam: Tid -> Family, fast: Family, slow: Family) {
    exists i: nat, j: nat, k: nat :: OverlapAt(es, i, j, k) && fam(es[j].t) == fast && fam(es[k].t) == slow
  }

  /** A key action commits inside an operation that stores what it loaded of the keys. */
  ghost predicate KeysCross(es: seq<Event>, fam: Tid -> Family) {
    Crosses(es, fam, Keys, Keys) || Crosses(es, fam, Keys, Selections)
  }

  /** A check or an apply commits inside an operation that stores what it loaded of the models and settings. */
  ghost predicate ModelsCross(es: seq<Event>, fam: Tid -> Family) {
    Crosses(es, fam, Models, Keys) || Crosses(es, fam, Models, Models)
  }

  // ----- what stays current -----

  function KeyPart(r: Row): K.Row {
    r.keys
  }

  function UpPart(r: Row): (Record, bool) {
    (r.up, r.filled)
  }

  lemma Crossed(es: seq<Event>, fam: Tid -> Family, i: nat, j: nat, k: nat)
    requires OverlapAt(es, i, j, k)
    ensures Crosses(es, fam, fam(es[j].t), fam(es[k].t))
  {
  }

  /** What an operation other than a key action makes of keys that are still those it loaded. */
  lemma KeysKept(r: Row, snap: Row, n: nat, op: Op)
    requires FamilyOf(op) != Keys && (FamilyOf(op) == Selections ==> snap.keys == r.keys)
    ensures Written(r, snap, n, op).keys == r.keys
  {
  }

  /** What an operation other than a check or an apply makes of models and settings that are still those it loaded. */
  lemma UpKept(r: Row, snap: Row, n: nat, op: Op)
    requires FamilyOf(op) != Models && (FamilyOf(op) == Keys ==> UpPart(snap) == UpPart(r))
    ensures UpPart(Written(r, snap, n, op)) == UpPart(r)
  {
  }

  /** If no key action commits inside a key action or a selection, then each of these commits over the very keys it
      loaded, and counted, and a selection does not change them. */
  lemma {:induction false} KeysCurrent(init: Row, es: seq<Event>, ops: Ops, fam: Tid -> Family, i: nat, c: nat, k: nat)
    requires Schedule(es) && Fits(ops, fam) && !KeysCross(es, fam) && Follows(es, i, c, k) && fam(es[k].t) != Models
    ensures Before(Table(), init, es, ops, i).row.keys == Before(Table(), init, es, ops, k).row.keys
    ensures Before(Table(), init, es, ops, c).row.keys == Before(Table(), init, es, ops, k).row.keys
    decreases k, 0
  {
    forall j: nat | i <= j < k ensures KeepsAt(Table(), init, es, ops, KeyPart, j) {
      if es[j].Commit? {
        if fam(es[j].t) == Keys { Crossed(es, fam, i, j, k); }
        OthersKeepKeys(init, es, ops, fam, j);
      }
    }
    PartStays(Table(), init, es, ops, KeyPart, i, k);
    PartStays(Table(), init, es, ops, KeyPart, c, k);
  }

  lemma {:induction false} OthersKeepKeys(init: Row, es: seq<Event>, ops: Ops, fam: Tid -> Family, k: nat)
    requires Schedule(es) && Fits(ops, fam) && !KeysCross(es, fam)
    requires k < |es| && es[k].Commit? && fam(es[k].t) != Keys
    ensures KeepsAt(Table(), init, es, ops, KeyPart, k)
    decreases k, 1
  {
    var i: nat, c: nat :| Follows(es, i, c, k);
    if fam(es[k].t) == Selections { KeysCurrent(init, es, ops, fam, i, c, k); }
    CommitIs(Table(), init, es, ops, i, c, k);
    assert FamilyOf(ops(es[k].t)) == fam(es[k].t);
    var n := KeyCount(Before(Table(), init, es, ops, c).row);
    KeysKept(Before(Table(), init, es, ops, k).row, Before(Table(), init, es, ops, i).row, n, ops(es[k].t));
  }

  /** If no check or apply commits inside a key action, a check or an apply, then each of these commits over the very
      models and settings it loaded, and a key action does not change them. */
  lemma {:induction false} UpCurrent(init: Row, es: seq<Event>, ops: Ops, fam: Tid -> Family, i: nat, c: nat, k: nat)
    requires Schedule(es) && Fits(ops, fam) && !ModelsCross(es, fam) && Follows(es, i, c, k)
    requires fam(es[k].t) != Selections
    ensures UpPart(Before(Table(), init, es, ops, i).row) == UpPart(Before(Table(), init, es, ops, k).row)
    decreases k, 0
  {
    forall j: nat | i <= j < k ensures KeepsAt(Table(), init, es, ops, UpPart, j) {
      if es[j].Commit? {
        if fam(es[j].t) == Models { Crossed(es, fam, i, j, k); }
        OthersKeepUp(init, es, ops, fam, j);
      }
    }
    PartStays(Table(), init, es, ops, UpPart, i, k);
  }

  lemma {:induction false} OthersKeepUp(init: Row, es: seq<Event>, ops: Ops, fam: Tid -> Family, k: nat)
    requires Schedule(es) && Fits(ops, fam) && !ModelsCross(es, fam)
    requires k < |es| && es[k].Commit? && fam(es[k].t) != Models
    ensures KeepsAt(Table(), init, es, ops, UpPart, k)
    decreases k, 1
  {
    var i: nat, c: nat :| Follows(es, i, c, k);
    if fam(es[k].t) == Keys { UpCurrent(init, es, ops, fam, i, c, k); }
    CommitIs(Table(), init, es, ops, i, c, k);
    assert FamilyOf(ops(es[k].t)) == fam(es[k].t);
    var n := KeyCount(Before(Table(), init, es, ops, c).row);
    UpKept(Before(Table(), init, es, ops, k).row, Before(Table(), init, es, ops, i).row, n, ops(es[k].t));
  }

  // ----- the racers -----

  const FIRST: Row := Row(K.THREE, U.PENDING, true)

  /** A race that spoils the row: the early operation changes what the late one stores as loaded. */
  predicate Spoils(fast: Family, slow: Family) {
    (fast == Keys && slow != Models) || (fast == Models && slow != Selections)
  }

  /** The late operation reports the third key, stores its selection or finds its upstream unreachable, the early one
      appends a key or ignores the pending model, and no other stores anything. */
  function Racers(fam: Tid -> Family, slow: Tid, fast: Tid): Ops {
    (t: Tid) =>
      match fam(t)
      case Keys => Key(K.Racers(slow, fast)(t).a)
      case Selections => Select(t == slow)
      case Models => Up(U.Racers(slow, fast)(t))
  }

  lemma RacersFit(fam: Tid -> Family, slow: Tid, fast: Tid)
    ensures Fits(Racers(fam, slow, fast), fam)
  {
  }

  /** The row after the early commit. */
  function Second(fast: Family): Row {
    if fast == Keys then FIRST.(keys := K.Four()) else FIRST.(up := U.Decided())
  }

  function ThirdMarked(): K.Row {
    K.Reported(K.THREE, Report("c", AUTO_DISABLED, "", 0))
  }

  /** Four keys with the channel info of three. */
  function Overwritten(): K.Row {
    K.Four().(size := 3, status := map[], time := map[], reason := map[])
  }

  /** The row after the late one. */
  function Third(fast: Family, slow: Family): Row {
    if slow == Models then FIRST.(up := U.Forgotten())
    else if slow == Selections then FIRST.(keys := Overwritten())
    else FIRST.(keys := if fast == Keys then K.Stale() else ThirdMarked())
  }

  lemma OverwrittenIsInvalid()
    ensures !K.Valid(Overwritten()) && Overwritten().channelStatus == ENABLED
    ensures |Overwritten().keys| > 3 && Overwritten().size == 3
  {
    K.FourKeys();
  }

  lemma MarkedEnabled()
    ensures ThirdMarked().channelStatus == ENABLED && ThirdMarked().keys == K.THREE.keys
  {
    FirstIndexFound(K.THREE.keys, "c", 2);
    assert |map[2 := AUTO_DISABLED]| == 1;
  }

  lemma RowsEnabled(fast: Family, slow: Family)
    requires Spoils(fast, slow)
    ensures FIRST.keys.channelStatus == ENABLED && Second(fast).keys.channelStatus == ENABLED
    ensures Third(fast, slow).keys.channelStatus == ENABLED
  {
    K.FourKeys();
    K.StaleIsInvalid();
    OverwrittenIsInvalid();
    MarkedEnabled();
  }

  lemma FastWrites(fam: Tid -> Family, slow: Tid, fast: Tid, n: nat)
    requires slow != fast && fam(fast) != Selections
    ensures Written(FIRST, FIRST, n, Racers(fam, slow, fast)(fast)) == Second(fam(fast))
  {
    K.RacersRace(slow, fast);
    U.RacersRace(slow, fast);
    if fam(fast) == Keys {
      assert K.Table().write(K.THREE, K.THREE, n, K.Racers(slow, fast)(fast)) == K.Four();
    } else {
      assert U.Table().write(U.PENDING, U.PENDING, n, U.Racers(slow, fast)(fast)) == U.Decided();
    }
  }

  lemma SelectionOverwrites(n: nat)
    ensures Written(Second(Keys), FIRST, n, Select(true)) == Third(Keys, Selections)
  {
  }

  lemma ReportOverwrites(fast: Family, n: nat)
    requires fast != Selections
    ensures Written(Second(fast), FIRST, n, Key(Report("c", AUTO_DISABLED, "", 0))) == Third(fast, Keys)
  {
    if fast == Keys { K.StaleIsInvalid(); } else { MarkedEnabled(); }
  }

  lemma FailedCheckOverwrites(n: nat)
    ensures Written(Second(Models), FIRST, n, Up(U.FailedCheck(1))) == Third(Models, Models)
  {
    U.SlowWrites(n);
  }

  lemma SlowWrites(fam: Tid -> Family, slow: Tid, fast: Tid, n: nat)
    requires slow != fast && Spoils(fam(fast), fam(slow))
    ensures Written(Second(fam(fast)), FIRST, n, Racers(fam, slow, fast)(slow)) == Third(fam(fast), fam(slow))
  {
    match fam(slow)
    case Keys => ReportOverwrites(fam(fast), n);
    case Selections => SelectionOverwrites(n);
    case Models => FailedCheckOverwrites(n);
  }

  /** An operation that loaded a row of an enabled channel and has no part in the race stores nothing. */
  lemma OthersRest(fam: Tid -> Family, slow: Tid, fast: Tid, t: Tid, r: Row, snap: Row, n: nat)
    requires t != slow && t != fast && snap.keys.channelStatus == ENABLED
    ensures Written(r, snap, n, Racers(fam, slow, fast)(t)) == r
  {
    var op := Racers(fam, slow, fast)(t);
    assert op == match fam(t)
                 case Keys => Key(Report("", ENABLED, "", 0))
                 case Selections => Select(false)
                 case Models => Up(U.Idle);
  }

  lemma RacersRace(fam: Tid -> Family, slow: Tid, fast: Tid)
    requires slow != fast && Spoils(fam(fast), fam(slow))
    ensures Races(Table(), Racers(fam, slow, fast), FIRST, Second(fam(fast)), Third(fam(fast), fam(slow)), slow, fast)
  {
    var db, ops := Table(), Racers(fam, slow, fast);
    var second, third := Second(fam(fast)), Third(fam(fast), fam(slow));
    forall n: nat ensures db.write(FIRST, FIRST, n, ops(fast)) == second { FastWrites(fam, slow, fast, n); }
    forall n: nat ensures db.write(second, FIRST, n, ops(slow)) == third { SlowWrites(fam, slow, fast, n); }
    RowsEnabled(fam(fast), fam(slow));
    forall t: Tid, r: Row, n: nat | t != slow && t != fast
      ensures db.write(r, FIRST, n, ops(t)) == r && db.write(r, second, n, ops(t)) == r
      ensures db.write(r, third, n, ops(t)) == r
    {
      OthersRest(fam, slow, fast, t, r, FIRST, n);
      OthersRest(fam, slow, fast, t, r, second, n);
      OthersRest(fam, slow, fast, t, r, third, n);
    }
  }

  lemma RacersFinal(es: seq<Event>, fam: Tid -> Family, i: nat, j: nat, k: nat)
    requires Schedule(es) && OverlapAt(es, i, j, k) && Spoils(fam(es[j].t), fam(es[k].t))
    ensures Final(Table(), FIRST, es, Racers(fam, es[k].t, es[j].t)) == Third(fam(es[j].t), fam(es[k].t))
  {
    assert es[j] != es[k];
    RacersRace(fam, es[k].t, es[j].t);
    RaceFinal(Table(), es, i, j, k, Racers(fam, es[k].t, es[j].t), FIRST, Second(fam(es[j].t)),
              Third(fam(es[j].t), fam(es[k].t)));
  }

  // ----- the keys -----

  lemma KeyCommit(init: Row, es: seq<Event>, ops: Ops, fam: Tid -> Family, k: nat)
    requires Schedule(es) && Fits(ops, fam) && !KeysCross(es, fam)
    requires k < |es| && es[k].Commit? && fam(es[k].t) == Keys
    ensures ops(es[k].t).Key? && Before(Table(), init, es, ops, k + 1).row.keys ==
            K.Alone(Before(Table(), init, es, ops, k).row.keys, K.Do(ops(es[k].t).a))
  {
    var i: nat, c: nat :| Follows(es, i, c, k);
    KeysCurrent(init, es, ops, fam, i, c, k);
    CommitIs(Table(), init, es, ops, i, c, k);
    assert FamilyOf(ops(es[k].t)) == fam(es[k].t);
  }

  lemma {:induction false} KeysStayValid(init: Row, es: seq<Event>, ops: Ops, fam: Tid -> Family, k: nat)
    requires Schedule(es) && Fits(ops, fam) && !KeysCross(es, fam) && k <= |es| && K.Valid(init.keys)
    ensures K.Valid(Before(Table(), init, es, ops, k).row.keys)
  {
    if k > 0 {
      KeysStayValid(init, es, ops, fam, k - 1);
      if es[k - 1].Commit? {
        if fam(es[k - 1].t) == Keys {
          KeyCommit(init, es, ops, fam, k - 1);
          K.SerialMeaning(Before(Table(), init, es, ops, k - 1).row.keys, K.Do(ops(es[k - 1].t).a));
        } else {
          OthersKeepKeys(init, es, ops, fam, k - 1);
          assert KeepsAt(Table(), init, es, ops, KeyPart, k - 1);
        }
      }
    }
  }

  /** Whatever the operations are, the keys stay valid. */
  ghost predicate AlwaysValid(es: seq<Event>, fam: Tid -> Family) {
    forall init: Row, ops: Ops :: Fits(ops, fam) && K.Valid(init.keys) ==>
      K.Valid(Final(Table(), init, es, ops).keys)
  }

  lemma KeysBreak(es: seq<Event>, fam: Tid -> Family, i: nat, j: nat, k: nat)
    requires Schedule(es) && OverlapAt(es, i, j, k) && fam(es[j].t) == Keys && fam(es[k].t) != Models
    ensures !K.Valid(Final(Table(), FIRST, es, Racers(fam, es[k].t, es[j].t)).keys) && !AlwaysValid(es, fam)
  {
    var ops := Racers(fam, es[k].t, es[j].t);
    RacersFinal(es, fam, i, j, k);
    RacersFit(fam, es[k].t, es[j].t);
    assert !K.Valid(Final(Table(), FIRST, es, ops).keys) by {
      K.StaleIsInvalid();
      OverwrittenIsInvalid();
    }
    assert K.Valid(FIRST.keys);
  }

  /** For any schedule of operations of all families: the keys of every valid row stay valid, whatever the operations
      are, if and only if no key action commits between the load and the commit of a key action or of a selection, be it
      that of a request or of a check. Other overlaps are harmless. */
  lemma ValidIff(es: seq<Event>, fam: Tid -> Family)
    requires Schedule(es)
    ensures AlwaysValid(es, fam) <==> !KeysCross(es, fam)
  {
    if KeysCross(es, fam) {
      var i: nat, j: nat, k: nat :| OverlapAt(es, i, j, k) && fam(es[j].t) == Keys && fam(es[k].t) != Models;
      KeysBreak(es, fam, i, j, k);
    } else {
      forall init: Row, ops: Ops | Fits(ops, fam) && K.Valid(init.keys)
        ensures K.Valid(Final(Table(), init, es, ops).keys)
      {
        KeysStayValid(init, es, ops, fam, |es|);
      }
    }
  }

  // ----- decisions about models -----

  function IgnoringOf(m: string): (Row, Op) -> bool {
    (snap: Row, op: Op) => op.Up? && U.Ignores(snap.up, op.u, m)
  }

  function AddingOf(m: string): (Row, Op) -> bool {
    (snap: Row, op: Op) => op.Up? && U.Adds(snap.up, op.u, m)
  }

  function Listing(m: string): Row -> bool {
    (r: Row) => U.OnList(r.up, m)
  }

  /** A name ignored at `k` is on the ignore list in the end unless it was added since. */
  ghost predicate Honoured(init: Row, es: seq<Event>, ops: Ops, k: nat, m: string) {
    Lasts(Table(), init, es, ops, IgnoringOf(m), AddingOf(m), Listing(m), k, |es|)
  }

  lemma CommitSettles(init: Row, es: seq<Event>, ops: Ops, fam: Tid -> Family, m: string, k: nat)
    requires Schedule(es) && Fits(ops, fam) && !ModelsCross(es, fam) && k < |es| && es[k].Commit?
    ensures SettlesAt(Table(), init, es, ops, IgnoringOf(m), AddingOf(m), Listing(m), k)
  {
    var i: nat, c: nat :| Follows(es, i, c, k);
    assert FamilyOf(ops(es[k].t)) == fam(es[k].t);
    if fam(es[k].t) != Selections { UpCurrent(init, es, ops, fam, i, c, k); }
    LoadedIs(Table(), init, es, ops, i, k);
    CountedIs(Table(), init, es, ops, c, k);
    var r, snap, op := Before(Table(), init, es, ops, k).row, Before(Table(), init, es, ops, i).row, ops(es[k].t);
    var n := KeyCount(Before(Table(), init, es, ops, c).row);
    SettlesCurrent(r, snap, n, op, m);
  }

  lemma SettlesCurrent(r: Row, snap: Row, n: nat, op: Op, m: string)
    requires FamilyOf(op) != Selections ==> UpPart(snap) == UpPart(r)
    ensures IgnoringOf(m)(snap, op) || (Listing(m)(r) && !AddingOf(m)(snap, op)) ==> Listing(m)(Written(r, snap, n, op))
  {
    if !op.Up? {
      UpKept(r, snap, n, op);
    } else if U.Ignores(snap.up, op.u, m) {
      U.IgnoredOnCommit(r.up, snap.up, n, op.u, m);
    } else if U.OnList(r.up, m) && !U.Adds(snap.up, op.u, m) {
      U.StaysOnList(r.up, snap.up, n, op.u, m);
    }
  }

  lemma FastDecides(fam: Tid -> Family, slow: Tid, fast: Tid)
    requires slow != fast && fam(fast) == Models && fam(slow) != Selections
    ensures IgnoringOf("m")(FIRST, Racers(fam, slow, fast)(fast)) && !Listing("m")(Third(Models, fam(slow)))
  {
    U.Ignoring();
    assert !U.OnList(U.PENDING, "m");
  }

  lemma OnlyFastApplies(fam: Tid -> Family, slow: Tid, fast: Tid)
    ensures forall r: Row, t: Tid :: t != fast ==> !AddingOf("m")(r, Racers(fam, slow, fast)(t))
  {
    forall r: Row, t: Tid | t != fast ensures !AddingOf("m")(r, Racers(fam, slow, fast)(t)) {
      assert FamilyOf(Racers(fam, slow, fast)(t)) == fam(t);
      assert !U.Racers(slow, fast)(t).Apply?;
    }
  }

  lemma DecisionLost(es: seq<Event>, fam: Tid -> Family, i: nat, j: nat, k: nat)
    requires Schedule(es) && OverlapAt(es, i, j, k) && fam(es[j].t) == Models && fam(es[k].t) != Selections
    ensures !Honoured(FIRST, es, Racers(fam, es[k].t, es[j].t), j, "m")
  {
    var slow, fast, m := es[k].t, es[j].t, "m";
    var ops := Racers(fam, slow, fast);
    assert es[j] != es[k];
    RacersRace(fam, slow, fast);
    FastDecides(fam, slow, fast);
    OnlyFastApplies(fam, slow, fast);
    RaceForgets(Table(), es, i, j, k, ops, FIRST, Second(Models), Third(Models, fam(slow)),
                IgnoringOf(m), AddingOf(m), Listing(m));
  }

  /** Whatever the operations are, an ignored name stays ignored until it is added. */
  ghost predicate AlwaysHonoured(es: seq<Event>, fam: Tid -> Family) {
    forall init: Row, ops: Ops, k: nat, m: string :: Fits(ops, fam) ==> Honoured(init, es, ops, k, m)
  }

  /** For any schedule of operations of all families: whatever the operations are, a name that an apply ignored stays
      on the ignore list until an apply adds it, if and only if no check or apply commits between the load and the
      commit of a check, an apply or a key action. Other overlaps are harmless. */
  lemma DecisionsStayIff(es: seq<Event>, fam: Tid -> Family)
    requires Schedule(es)
    ensures AlwaysHonoured(es, fam) <==> !ModelsCross(es, fam)
  {
    if ModelsCross(es, fam) {
      var i: nat, j: nat, k: nat :| OverlapAt(es, i, j, k) && fam(es[j].t) == Models && fam(es[k].t) != Selections;
      var ops := Racers(fam, es[k].t, es[j].t);
      RacersFit(fam, es[k].t, es[j].t);
      DecisionLost(es, fam, i, j, k);
    } else {
      forall init: Row, ops: Ops, k: nat, m: string | Fits(ops, fam) ensures Honoured(init, es, ops, k, m) {
        forall x: nat | x < |es| ensures SettlesAt(Table(), init, es, ops, IgnoringOf(m), AddingOf(m), Listing(m), x) {
          if es[x].Commit? { CommitSettles(init, es, ops, fam, m, x); }
        }
        LastsIf(Table(), init, es, ops, IgnoringOf(m), AddingOf(m), Listing(m), k, |es|);
      }
    }
  }

  // ----- serial outcomes -----

  lemma CommitSerial(init: Row, es: seq<Event>, ops: Ops, fam: Tid -> Family, k: nat)
    requires Schedule(es) && Fits(ops, fam) && !KeysCross(es, fam) && !ModelsCross(es, fam)
    requires k < |es| && es[k].Commit?
    ensures SerialAt(Table(), init, es, ops, k)
  {
    var i: nat, c: nat :| Follows(es, i, c, k);
    assert FamilyOf(ops(es[k].t)) == fam(es[k].t);
    if fam(es[k].t) != Selections { UpCurrent(init, es, ops, fam, i, c, k); }
    if fam(es[k].t) != Models { KeysCurrent(init, es, ops, fam, i, c, k); }
    CommitIs(Table(), init, es, ops, i, c, k);
  }

  /** One operation after another keeps the keys valid. */
  lemma {:induction false} SerialKeysValid(init: Row, order: seq<Tid>, ops: Ops)
    requires K.Valid(init.keys)
    ensures K.Valid(SerialRun(Table(), init, order, ops).keys)
  {
    if order != [] {
      var n := |order| - 1;
      SerialKeysValid(init, order[..n], ops);
      var r, op := SerialRun(Table(), init, order[..n], ops), ops(order[n]);
      if op.Key? { K.SerialMeaning(r.keys, K.Do(op.a)); } else { KeysKept(r, r, KeyCount(r), op); }
    }
  }

  lemma SerialIgnores(fam: Tid -> Family, slow: Tid, fast: Tid, r: Row)
    requires slow != fast && fam(fast) == Models && r.up.detected == ["m"]
    ensures U.OnList(Serial(Table(), r, Racers(fam, slow, fast)(fast)).up, "m")
  {
    U.IgnoresAgain(r.up);
  }

  lemma SerialStillIgnored(fam: Tid -> Family, slow: Tid, fast: Tid, t: Tid, r: Row)
    requires U.OnList(r.up, "m")
    ensures U.OnList(Serial(Table(), r, Racers(fam, slow, fast)(t)).up, "m")
  {
    if fam(t) == Models {
      U.StillIgnored(r.up, slow, fast, t);
    } else {
      OthersLeaveModels(r, Racers(fam, slow, fast)(t));
    }
  }

  lemma SerialStillPending(fam: Tid -> Family, slow: Tid, fast: Tid, t: Tid, r: Row)
    requires t != fast && r.up.detected == ["m"]
    ensures Serial(Table(), r, Racers(fam, slow, fast)(t)).up.detected == ["m"]
  {
    if fam(t) == Models {
      UpLeavesPending(r, slow, fast, t);
    } else {
      OthersLeaveModels(r, Racers(fam, slow, fast)(t));
    }
  }

  lemma OthersLeaveModels(r: Row, op: Op)
    requires !op.Up?
    ensures Serial(Table(), r, op).up == r.up
  {
    UpKept(r, r, KeyCount(r), op);
  }

  lemma UpLeavesPending(r: Row, slow: Tid, fast: Tid, t: Tid)
    requires t != fast
    ensures Serial(Table(), r, Up(U.Racers(slow, fast)(t))).up.detected == r.up.detected
  {
  }

  /** In any order, the pending model is ignored once the operation that ignores it has run. */
  lemma SerialRemembers(fam: Tid -> Family, slow: Tid, fast: Tid, order: seq<Tid>)
    requires slow != fast && fam(fast) == Models && fast in order
    ensures U.OnList(SerialRun(Table(), FIRST, order, Racers(fam, slow, fast)).up, "m")
  {
    var ops, m := Racers(fam, slow, fast), "m";
    var before := (r: Row) => r.up.detected == ["m"];
    forall r: Row | before(r) ensures Listing(m)(Serial(Table(), r, ops(fast))) { SerialIgnores(fam, slow, fast, r); }
    forall r: Row, t: Tid | t != fast && before(r) ensures before(Serial(Table(), r, ops(t))) {
      SerialStillPending(fam, slow, fast, t, r);
    }
    forall r: Row, t: Tid | Listing(m)(r) ensures Listing(m)(Serial(Table(), r, ops(t))) {
      SerialStillIgnored(fam, slow, fast, t, r);
    }
    SerialTurn(Table(), FIRST, order, ops, fast, before, Listing(m));
  }

  /** No order of operations has the outcome of a race in which the early operation takes part. */
  lemma RaceIsNoOrder(es: seq<Event>, fam: Tid -> Family, i: nat, j: nat, k: nat, order: seq<Tid>)
    requires Schedule(es) && OverlapAt(es, i, j, k) && es[j].t in order
    requires Spoils(fam(es[j].t), fam(es[k].t))
    ensures var ops := Racers(fam, es[k].t, es[j].t);
      Final(Table(), FIRST, es, ops) != SerialRun(Table(), FIRST, order, ops)
  {
    assert es[j] != es[k];
    RacersFinal(es, fam, i, j, k);
    if fam(es[j].t) == Models {
      U.Ignoring();
      SerialRemembers(fam, es[k].t, es[j].t, order);
    } else {
      K.StaleIsInvalid();
      OverwrittenIsInvalid();
      SerialKeysValid(FIRST, order, Racers(fam, es[k].t, es[j].t));
    }
  }

  /** Whatever the operations are, the outcome is that of running them in the order of their commits. */
  ghost predicate AlwaysSerial(es: seq<Event>, fam: Tid -> Family) {
    forall init: Row, ops: Ops :: Fits(ops, fam) ==>
      Final(Table(), init, es, ops) == SerialRun(Table(), init, Committed(es, |es|), ops)
  }

  /** For any schedule of operations of all families: every outcome is that of the operations one after another, in the
      order of their commits, if and only if no key action commits inside a key action or a selection, and no check or
      apply inside a key action, a check or an apply. */
  lemma SerialIff(es: seq<Event>, fam: Tid -> Family)
    requires Schedule(es)
    ensures AlwaysSerial(es, fam) <==> !KeysCross(es, fam) && !ModelsCross(es, fam)
  {
    if i: nat, j: nat, k: nat :| OverlapAt(es, i, j, k) && Spoils(fam(es[j].t), fam(es[k].t)) {
      CommittedHas(es, |es|, j);
      RacersFit(fam, es[k].t, es[j].t);
      RaceIsNoOrder(es, fam, i, j, k, Committed(es, |es|));
    } else {
      forall init: Row, ops: Ops | Fits(ops, fam)
        ensures Final(Table(), init, es, ops) == SerialRun(Table(), init, Committed(es, |es|), ops)
      {
        forall x: nat | x < |es| ensures SerialAt(Table(), init, es, ops, x) {
          if es[x].Commit? { CommitSerial(init, es, ops, fam, x); }
        }
        SerialCommits(Table(), init, es, ops, |es|);
      }
    }
  }

  // ----- checks that select a key -----

  /** The check `t` loads at `l` the copy from which it selects its key at `p`, and commits at `k`. */
  ghost predicate IsCheck(es: seq<Event>, t: Tid, selection: Tid, l: nat, p: nat, k: nat) {
    && l + 1 < p < k < |es| && es[l] == Load(t) && es[l + 1] == Load(selection)
    && es[p] == Commit(selection) && es[k] == Commit(t)
  }

  lemma OneCopy(init: Row, es: seq<Event>, ops: Ops, t: Tid, selection: Tid, l: nat, p: nat, k: nat)
    requires Schedule(es) && IsCheck(es, t, selection, l, p, k)
    ensures var w := Before(Table(), init, es, ops, p);
      t in w.loaded && selection in w.loaded && w.loaded[t] == w.loaded[selection]
  {
    LoadedIs(Table(), init, es, ops, l, p);
    LoadedIs(Table(), init, es, ops, l + 1, p);
    RowStays(Table(), init, es, ops, l, l + 1);
  }

  /** A key action that commits between the load of a check and its selection can break the keys, and leaves no serial
      outcome; once the selection is stored, key actions inside the check are harmless by `ValidIff`. */
  lemma KeyActionInsideCheck(es: seq<Event>, fam: Tid -> Family, t: Tid, selection: Tid, l: nat, j: nat, p: nat, k: nat)
    requires Schedule(es) && IsCheck(es, t, selection, l, p, k) && fam(selection) == Selections
    requires l < j < p && es[j].Commit? && fam(es[j].t) == Keys
    ensures !AlwaysValid(es, fam) && !AlwaysSerial(es, fam)
  {
    assert OverlapAt(es, l + 1, j, p);
    ValidIff(es, fam);
    SerialIff(es, fam);
  }

  /** In every schedule, a selection that is stored after the number of keys has changed breaks the keys. */
  lemma LateSelectionBreaks(init: Row, es: seq<Event>, ops: Ops, i: nat, c: nat, k: nat)
    requires Schedule(es) && Follows(es, i, c, k) && ops(es[k].t) == Select(true)
    ensures var loaded, now, after := Before(Table(), init, es, ops, i).row.keys,
                                      Before(Table(), init, es, ops, k).row.keys,
                                      Before(Table(), init, es, ops, k + 1).row.keys;
      K.Valid(loaded) && |now.keys| != |loaded.keys| ==> !K.Valid(after)
  {
    CommitIs(Table(), init, es, ops, i, c, k);
  }

  /** A check loads three keys, an append brings a fourth, and the check selects its key and goes on. */
  function AppendInside(check: Tid, selection: Tid, append: Tid): seq<Event> {
    [Load(check), Load(selection), Count(check), Count(selection), Load(append), Count(append), Commit(append),
     Commit(selection), Commit(check)]
  }

  function InsideFamilies(selection: Tid, append: Tid): Tid -> Family {
    (t: Tid) => if t == selection then Selections else if t == append then Keys else Models
  }

  lemma AppendInsideIsSchedule(check: Tid, selection: Tid, append: Tid)
    requires check != selection && check != append && selection != append
    ensures var es := AppendInside(check, selection, append);
      Schedule(es) && IsCheck(es, check, selection, 0, 7, 8) && OverlapAt(es, 1, 6, 7)
  {
    var es := AppendInside(check, selection, append);
    assert Follows(es, 4, 5, 6) && Follows(es, 1, 3, 7) && Follows(es, 0, 2, 8);
  }

  lemma OneKeyAction(check: Tid, selection: Tid, append: Tid)
    requires check != selection && check != append && selection != append
    ensures !Crosses(AppendInside(check, selection, append), InsideFamilies(selection, append), Keys, Keys)
  {
    var es, fam := AppendInside(check, selection, append), InsideFamilies(selection, append);
    forall i: nat, j: nat, k: nat | OverlapAt(es, i, j, k) ensures fam(es[j].t) != Keys || fam(es[k].t) != Keys {
      assert es[j] == Commit(append) ==> j == 6;
      assert es[k] == Commit(append) ==> k == 6;
    }
  }

  /** The whole run: with a single key action, the row ends with more than three keys and a size of three. */
  lemma AppendInsideCheck(check: Tid, selection: Tid, append: Tid)
    requires check != selection && check != append && selection != append
    ensures var es, fam := AppendInside(check, selection, append), InsideFamilies(selection, append);
      var r := Final(Table(), FIRST, es, Racers(fam, selection, append));
      && Schedule(es) && IsCheck(es, check, selection, 0, 7, 8) && !Crosses(es, fam, Keys, Keys)
      && K.Valid(FIRST.keys) && |r.keys.keys| > 3 && r.keys.size == 3 && !K.Valid(r.keys)
  {
    var es, fam := AppendInside(check, selection, append), InsideFamilies(selection, append);
    AppendInsideIsSchedule(check, selection, append);
    OneKeyAction(check, selection, append);
    RacersFinal(es, fam, 1, 6, 7);
    OverwrittenIsInvalid();
  }

  /** In every schedule, a key action that commits undoes what was decided about the models since it loaded: a name
      ignored since then is off the ignore list again, and a name added to a stored list since then is gone. */
  lemma LateKeyActionUndoes(init: Row, es: seq<Event>, ops: Ops, i: nat, c: nat, k: nat, m: string)
    requires Schedule(es) && Follows(es, i, c, k) && ops(es[k].t).Key?
    requires var loaded, a := Before(Table(), init, es, ops, i).row, ops(es[k].t).a;
      && loaded.filled && loaded.up.models != "" && !a.Append?
      && (if a.Report? then loaded.keys.channelStatus != a.status else K.Edited(loaded.keys, a).Change?)
    ensures var loaded := Before(Table(), init, es, ops, i).row.up;
      var now, after := Before(Table(), init, es, ops, k).row.up, Before(Table(), init, es, ops, k + 1).row.up;
      && (U.OnList(now, m) && !U.OnList(loaded, m) ==> !U.OnList(after, m))
      && (m in Local(now) && m !in Local(loaded) ==> m !in Local(after))
      && (m in Local(loaded) && m !in Local(now) ==> m in Local(after))
  {
    CommitIs(Table(), init, es, ops, i, c, k);
  }
}
