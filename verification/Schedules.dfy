/**
  Operations that load a record, work on their copy and store it later, in any order of their loads and stores: the
  theory of lost updates, for any record and any way of storing a copy.
*/
module Schedules {

  type Tid = nat

  /** The three moments at which an operation meets the database: it loads the record; it counts something in it; it
      stores its copy. */
  datatype Event = Load(t: Tid) | Count(t: Tid) | Commit(t: Tid)

  /** `write(r, copy, n, op)` is the record after `op` stores the copy it made over `r`, with `n` as it counted. */
  datatype Database<!R, !O> = Database(write: (R, R, nat, O) -> R, count: R -> nat)

  datatype World<R> = World(row: R, loaded: map<Tid, R>, counted: map<Tid, nat>)

  function Step<R, O>(db: Database<R, O>, w: World<R>, e: Event, ops: Tid -> O): World<R> {
    match e
    case Load(t) => w.(loaded := w.loaded[t := w.row])
    case Count(t) => w.(counted := w.counted[t := db.count(w.row)])
    case Commit(t) =>
      if t in w.loaded && t in w.counted then w.(row := db.write(w.row, w.loaded[t], w.counted[t], ops(t))) else w
  }

  /** The world before event `k`. */
  function Before<R, O>(db: Database<R, O>, init: R, es: seq<Event>, ops: Tid -> O, k: nat): World<R>
    requires k <= |es|
  {
    if k == 0 then World(init, map[], map[]) else Step(db, Before(db, init, es, ops, k - 1), es[k - 1], ops)
  }

  function Final<R, O>(db: Database<R, O>, init: R, es: seq<Event>, ops: Tid -> O): R {
    Before(db, init, es, ops, |es|).row
  }

  /** The operation that commits at `k` loaded at `i` and counted at `c`. */
  ghost predicate Follows(es: seq<Event>, i: nat, c: nat, k: nat) {
    i < c < k < |es| && es[k].Commit? && es[i] == Load(es[k].t) && es[c] == Count(es[k].t)
  }

  /** Every event happens once, and every commit after its load and count. */
  ghost predicate Schedule(es: seq<Event>) {
    && (forall i, j :: 0 <= i < j < |es| ==> es[i] != es[j])
    && (forall k: nat :: k < |es| && es[k].Commit? ==> exists i: nat, c: nat :: Follows(es, i, c, k))
  }

  /** A commit falls between the load and the commit of another operation. */
  ghost predicate OverlapAt(es: seq<Event>, i: nat, j: nat, k: nat) {
    i < j < k < |es| && es[k].Commit? && es[i] == Load(es[k].t) && es[j].Commit?
  }

  ghost predicate Overlaps(es: seq<Event>) {
    exists i: nat, j: nat, k: nat :: OverlapAt(es, i, j, k)
  }

  /** The operations that have committed, in order. */
  function Committed(es: seq<Event>, k: nat): seq<Tid>
    requires k <= |es|
  {
    if k == 0 then []
    else if es[k - 1].Commit? then Committed(es, k - 1) + [es[k - 1].t]
    else Committed(es, k - 1)
  }

  /** The operation as one step. */
  function Serial<R, O>(db: Database<R, O>, r: R, op: O): R {
    db.write(r, r, db.count(r), op)
  }

  /** One operation after another. */
  function SerialRun<R, O>(db: Database<R, O>, init: R, order: seq<Tid>, ops: Tid -> O): R {
    if order == [] then init
    else Serial(db, SerialRun(db, init, order[..|order| - 1], ops), ops(order[|order| - 1]))
  }

  // ----- without overlap -----

  lemma {:induction false} LoadedIs<R, O>(db: Database<R, O>, init: R, es: seq<Event>, ops: Tid -> O, i: nat, k: nat)
    requires Schedule(es) && i < k <= |es| && es[i].Load?
    ensures var w := Before(db, init, es, ops, k);
      es[i].t in w.loaded && w.loaded[es[i].t] == Before(db, init, es, ops, i).row
  {
    if k > i + 1 {
      LoadedIs(db, init, es, ops, i, k - 1);
      assert es[i] != es[k - 1];
    }
  }

  lemma {:induction false} CountedIs<R, O>(db: Database<R, O>, init: R, es: seq<Event>, ops: Tid -> O, c: nat, k: nat)
    requires Schedule(es) && c < k <= |es| && es[c].Count?
    ensures var w := Before(db, init, es, ops, k);
      es[c].t in w.counted && w.counted[es[c].t] == db.count(Before(db, init, es, ops, c).row)
  {
    if k > c + 1 {
      CountedIs(db, init, es, ops, c, k - 1);
      assert es[c] != es[k - 1];
    }
  }

  /** Only commits change the row. */
  lemma {:induction false} RowStays<R, O>(db: Database<R, O>, init: R, es: seq<Event>, ops: Tid -> O, i: nat, k: nat)
    requires i <= k <= |es| && forall j :: i <= j < k ==> !es[j].Commit?
    ensures Before(db, init, es, ops, k).row == Before(db, init, es, ops, i).row
  {
    if i < k { RowStays(db, init, es, ops, i, k - 1); }
  }

  /** What the commit at `k` writes. */
  lemma CommitIs<R, O>(db: Database<R, O>, init: R, es: seq<Event>, ops: Tid -> O, i: nat, c: nat, k: nat)
    requires Schedule(es) && Follows(es, i, c, k)
    ensures Before(db, init, es, ops, k + 1).row ==
            db.write(Before(db, init, es, ops, k).row, Before(db, init, es, ops, i).row,
                    db.count(Before(db, init, es, ops, c).row), ops(es[k].t))
  {
    LoadedIs(db, init, es, ops, i, k);
    CountedIs(db, init, es, ops, c, k);
  }

  /** Without overlap an operation commits the copy of the row that is still stored. */
  lemma CopyIsCurrent<R, O>(db: Database<R, O>, init: R, es: seq<Event>, ops: Tid -> O, k: nat)
    requires Schedule(es) && !Overlaps(es) && k < |es| && es[k].Commit?
    ensures var w := Before(db, init, es, ops, k);
      es[k].t in w.loaded && es[k].t in w.counted && w.loaded[es[k].t] == w.row
  {
    var i: nat, c: nat :| Follows(es, i, c, k);
    forall j: nat | i <= j < k ensures !es[j].Commit? { assert i < j ==> !OverlapAt(es, i, j, k); }
    RowStays(db, init, es, ops, i, k);
    LoadedIs(db, init, es, ops, i, k);
    CountedIs(db, init, es, ops, c, k);
  }

  lemma CommitIsSerial<R, O>(db: Database<R, O>, init: R, es: seq<Event>, ops: Tid -> O, k: nat)
    requires Schedule(es) && !Overlaps(es) && k < |es| && es[k].Commit?
    ensures Before(db, init, es, ops, k + 1).row == Serial(db, Before(db, init, es, ops, k).row, ops(es[k].t))
  {
    var i: nat, c: nat :| Follows(es, i, c, k);
    forall j: nat | i <= j < k ensures !es[j].Commit? { assert i < j ==> !OverlapAt(es, i, j, k); }
    RowStays(db, init, es, ops, i, k);
    RowStays(db, init, es, ops, i, c);
    CommitIs(db, init, es, ops, i, c, k);
  }

  /** The event at `k`, if it is a commit, does what its operation does alone. */
  ghost predicate SerialAt<R, O>(db: Database<R, O>, init: R, es: seq<Event>, ops: Tid -> O, k: nat)
    requires k < |es|
  {
    es[k].Commit? ==>
      Before(db, init, es, ops, k + 1).row == Serial(db, Before(db, init, es, ops, k).row, ops(es[k].t))
  }

  lemma {:induction false} SerialCommits<R, O>(db: Database<R, O>, init: R, es: seq<Event>, ops: Tid -> O, k: nat)
    requires k <= |es| && forall x: nat :: x < |es| ==> SerialAt(db, init, es, ops, x)
    ensures Before(db, init, es, ops, k).row == SerialRun(db, init, Committed(es, k), ops)
  {
    if k > 0 {
      SerialCommits(db, init, es, ops, k - 1);
      if es[k - 1].Commit? {
        assert SerialAt(db, init, es, ops, k - 1);
        var order := Committed(es, k - 1);
        assert (order + [es[k - 1].t])[..|order|] == order;
      }
    }
  }

  /** Without overlap every schedule is the serial run of its operations in the order of their commits. */
  lemma NoOverlapIsSerial<R, O>(db: Database<R, O>, init: R, es: seq<Event>, ops: Tid -> O, k: nat)
    requires Schedule(es) && !Overlaps(es) && k <= |es|
    ensures Before(db, init, es, ops, k).row == SerialRun(db, init, Committed(es, k), ops)
  {
    forall x: nat | x < |es| ensures SerialAt(db, init, es, ops, x) {
      if es[x].Commit? { CommitIsSerial(db, init, es, ops, x); }
    }
    SerialCommits(db, init, es, ops, k);
  }

  /** The event at `k` keeps `part` of the row. */
  ghost predicate KeepsAt<R, O, P>(db: Database<R, O>, init: R, es: seq<Event>, ops: Tid -> O, part: R -> P, k: nat)
    requires k < |es|
  {
    part(Before(db, init, es, ops, k + 1).row) == part(Before(db, init, es, ops, k).row)
  }

  lemma {:induction false} PartStays<R, O, P>(db: Database<R, O>, init: R, es: seq<Event>, ops: Tid -> O,
                                              part: R -> P, i: nat, k: nat)
    requires i <= k <= |es| && forall j: nat :: i <= j < k ==> KeepsAt(db, init, es, ops, part, j)
    ensures part(Before(db, init, es, ops, k).row) == part(Before(db, init, es, ops, i).row)
  {
    if i < k {
      PartStays(db, init, es, ops, part, i, k - 1);
      assert KeepsAt(db, init, es, ops, part, k - 1);
    }
  }

  // ----- decisions -----

  /** The operation that commits at `k` does `acts` to the copy it loaded. */
  ghost predicate ActsAt<R, O>(db: Database<R, O>, init: R, es: seq<Event>, ops: Tid -> O, k: nat,
                               acts: (R, O) -> bool) {
    k < |es| && es[k].Commit? &&
    var w, t := Before(db, init, es, ops, k), es[k].t;
    t in w.loaded && t in w.counted && acts(w.loaded[t], ops(t))
  }

  /** What a commit at `k` settles holds of the row before event `j` unless a commit in between revokes it. */
  ghost predicate Lasts<R, O>(db: Database<R, O>, init: R, es: seq<Event>, ops: Tid -> O, settles: (R, O) -> bool,
                              revokes: (R, O) -> bool, holds: R -> bool, k: nat, j: nat)
    requires j <= |es|
  {
    k < j && ActsAt(db, init, es, ops, k, settles) &&
    (forall x: nat :: k < x < j ==> !ActsAt(db, init, es, ops, x, revokes)) ==>
      holds(Before(db, init, es, ops, j).row)
  }

  /** Alone, an operation that settles it makes it hold, and only one that revokes it ends it. */
  ghost predicate Settled<R(!new), O>(db: Database<R, O>, ops: Tid -> O, settles: (R, O) -> bool,
                                      revokes: (R, O) -> bool, holds: R -> bool) {
    forall r: R, t: Tid ::
      settles(r, ops(t)) || (holds(r) && !revokes(r, ops(t))) ==> holds(Serial(db, r, ops(t)))
  }

  /** The commit at `k` makes it hold if it settles it, and ends it only if it revokes it. */
  ghost predicate SettlesAt<R, O>(db: Database<R, O>, init: R, es: seq<Event>, ops: Tid -> O, settles: (R, O) -> bool,
                                  revokes: (R, O) -> bool, holds: R -> bool, k: nat)
    requires k < |es|
  {
    es[k].Commit? ==>
      (|| ActsAt(db, init, es, ops, k, settles)
       || (holds(Before(db, init, es, ops, k).row) && !ActsAt(db, init, es, ops, k, revokes))) ==>
        holds(Before(db, init, es, ops, k + 1).row)
  }

  lemma {:induction false} LastsIf<R, O>(db: Database<R, O>, init: R, es: seq<Event>, ops: Tid -> O,
                                         settles: (R, O) -> bool, revokes: (R, O) -> bool, holds: R -> bool,
                                         k: nat, j: nat)
    requires j <= |es| && forall x: nat :: x < |es| ==> SettlesAt(db, init, es, ops, settles, revokes, holds, x)
    ensures Lasts(db, init, es, ops, settles, revokes, holds, k, j)
  {
    if k < j && ActsAt(db, init, es, ops, k, settles) &&
       forall x: nat :: k < x < j ==> !ActsAt(db, init, es, ops, x, revokes) {
      assert SettlesAt(db, init, es, ops, settles, revokes, holds, j - 1);
      if k < j - 1 {
        LastsIf(db, init, es, ops, settles, revokes, holds, k, j - 1);
        assert !ActsAt(db, init, es, ops, j - 1, revokes);
      }
    }
  }

  lemma LastsUpTo<R(!new), O>(db: Database<R, O>, init: R, es: seq<Event>, ops: Tid -> O, settles: (R, O) -> bool,
                              revokes: (R, O) -> bool, holds: R -> bool, k: nat, j: nat)
    requires Schedule(es) && !Overlaps(es) && j <= |es| && Settled(db, ops, settles, revokes, holds)
    ensures Lasts(db, init, es, ops, settles, revokes, holds, k, j)
  {
    forall x: nat | x < |es| ensures SettlesAt(db, init, es, ops, settles, revokes, holds, x) {
      if es[x].Commit? {
        CopyIsCurrent(db, init, es, ops, x);
        CommitIsSerial(db, init, es, ops, x);
      }
    }
    LastsIf(db, init, es, ops, settles, revokes, holds, k, j);
  }

  /** In any order, `before` holds until the turn of `fast`, and `after` from then on. */
  lemma {:induction false} SerialTurn<R(!new), O>(db: Database<R, O>, init: R, order: seq<Tid>, ops: Tid -> O,
                                                  fast: Tid, before: R -> bool, after: R -> bool)
    requires before(init)
    requires forall r: R :: before(r) ==> after(Serial(db, r, ops(fast)))
    requires forall r: R, t: Tid :: t != fast && before(r) ==> before(Serial(db, r, ops(t)))
    requires forall r: R, t: Tid :: after(r) ==> after(Serial(db, r, ops(t)))
    ensures var r := SerialRun(db, init, order, ops); if fast in order then after(r) else before(r)
  {
    if order != [] {
      var n := |order| - 1;
      SerialTurn(db, init, order[..n], ops, fast, before, after);
      assert order == order[..n] + [order[n]];
    }
  }

  lemma {:induction false} CommittedHas(es: seq<Event>, k: nat, j: nat)
    requires j < k <= |es| && es[j].Commit?
    ensures es[j].t in Committed(es, k)
  {
    if j < k - 1 { CommittedHas(es, k - 1, j); }
  }

  // ----- with overlap -----

  /** The row before event `x` when one operation commits at `j` and the overlapping one at `k`. */
  function RaceRow<R>(x: nat, j: nat, k: nat, first: R, second: R, third: R): R {
    if x <= j then first else if x <= k then second else third
  }

  /** The commit at `j` turns the first row into the second, that at `k` stores over the second what it loaded from
      the first, and no other operation stores anything. */
  ghost predicate Races<R(!new), O>(db: Database<R, O>, ops: Tid -> O, first: R, second: R, third: R, slow: Tid,
                                    fast: Tid) {
    && (forall n: nat :: db.write(first, first, n, ops(fast)) == second)
    && (forall n: nat :: db.write(second, first, n, ops(slow)) == third)
    && (forall t: Tid, r: R, n: nat :: t != slow && t != fast ==>
          && db.write(r, first, n, ops(t)) == r && db.write(r, second, n, ops(t)) == r
          && db.write(r, third, n, ops(t)) == r)
  }

  lemma RaceCommit<R(!new), O>(db: Database<R, O>, es: seq<Event>, i: nat, j: nat, k: nat, l: nat, y: nat, n: nat,
                               ops: Tid -> O, first: R, second: R, third: R)
    requires Schedule(es) && OverlapAt(es, i, j, k) && Races(db, ops, first, second, third, es[k].t, es[j].t)
    requires l < y < |es| && es[y].Commit? && es[l] == Load(es[y].t)
    ensures db.write(RaceRow(y, j, k, first, second, third), RaceRow(l, j, k, first, second, third), n, ops(es[y].t)) ==
            RaceRow(y + 1, j, k, first, second, third)
  {
    assert es[j] != es[k];
    if y == k {
      assert es[l] == es[i];
      assert l == i;
    } else if y != j {
      assert es[y] != es[j] && es[y] != es[k];
    }
  }

  lemma {:induction false} RaceRows<R(!new), O>(db: Database<R, O>, es: seq<Event>, i: nat, j: nat, k: nat, x: nat,
                                                ops: Tid -> O, first: R, second: R, third: R)
    requires Schedule(es) && OverlapAt(es, i, j, k) && x <= |es|
    requires Races(db, ops, first, second, third, es[k].t, es[j].t)
    ensures Before(db, first, es, ops, x).row == RaceRow(x, j, k, first, second, third)
  {
    if x > 0 {
      RaceRows(db, es, i, j, k, x - 1, ops, first, second, third);
      if es[x - 1].Commit? {
        var l: nat, c: nat :| Follows(es, l, c, x - 1);
        CommitIs(db, first, es, ops, l, c, x - 1);
        RaceRows(db, es, i, j, k, l, ops, first, second, third);
        RaceCommit(db, es, i, j, k, l, x - 1, db.count(Before(db, first, es, ops, c).row), ops, first, second, third);
      }
    }
  }

  lemma RaceFinal<R(!new), O>(db: Database<R, O>, es: seq<Event>, i: nat, j: nat, k: nat, ops: Tid -> O, first: R,
                              second: R, third: R)
    requires Schedule(es) && OverlapAt(es, i, j, k) && Races(db, ops, first, second, third, es[k].t, es[j].t)
    ensures Final(db, first, es, ops) == third
  {
    RaceRows(db, es, i, j, k, |es|, ops, first, second, third);
  }

  /** What the early commit settles does not last if it does not hold of the third row and nothing revokes it. */
  lemma RaceForgets<R(!new), O>(db: Database<R, O>, es: seq<Event>, i: nat, j: nat, k: nat, ops: Tid -> O, first: R,
                                second: R, third: R, settles: (R, O) -> bool, revokes: (R, O) -> bool, holds: R -> bool)
    requires Schedule(es) && OverlapAt(es, i, j, k) && Races(db, ops, first, second, third, es[k].t, es[j].t)
    requires settles(first, ops(es[j].t)) && !holds(third)
    requires forall r: R, t: Tid :: t != es[j].t ==> !revokes(r, ops(t))
    ensures !Lasts(db, first, es, ops, settles, revokes, holds, j, |es|)
  {
    RaceRows(db, es, i, j, k, |es|, ops, first, second, third);
    var l: nat, c: nat :| Follows(es, l, c, j);
    LoadedIs(db, first, es, ops, l, j);
    CountedIs(db, first, es, ops, c, j);
    RaceRows(db, es, i, j, k, l, ops, first, second, third);
    forall x: nat | j < x < |es| ensures !ActsAt(db, first, es, ops, x, revokes) { assert es[x] != es[j]; }
  }

  /** One operation runs from its load to its commit while another is between its own. */
  ghost predicate Nested(es: seq<Event>) {
    |es| == 6 && Follows(es, 2, 3, 4) && Follows(es, 0, 1, 5)
  }

  lemma NestedExists(slow: Tid, fast: Tid)
    requires slow != fast
    ensures var es := [Load(slow), Count(slow), Load(fast), Count(fast), Commit(fast), Commit(slow)];
      Schedule(es) && Nested(es) && Overlaps(es)
  {
    var es := [Load(slow), Count(slow), Load(fast), Count(fast), Commit(fast), Commit(slow)];
    assert Follows(es, 2, 3, 4) && Follows(es, 0, 1, 5);
    assert OverlapAt(es, 0, 4, 5);
  }

  lemma NestedFinal<R, O>(db: Database<R, O>, init: R, es: seq<Event>, ops: Tid -> O)
    requires Schedule(es) && Nested(es)
    ensures Final(db, init, es, ops) ==
            db.write(Serial(db, init, ops(es[4].t)), init, db.count(init), ops(es[5].t))
  {
    forall x: nat | x <= 4 ensures Before(db, init, es, ops, x).row == init {
      RowStays(db, init, es, ops, 0, x);
    }
    CommitIs(db, init, es, ops, 2, 3, 4);
    CommitIs(db, init, es, ops, 0, 1, 5);
  }
}
