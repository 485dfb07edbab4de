/**
  The stored row of a multi-key channel under overlapping operations. Every operation loads the row, works on its copy
  and stores the copy later; ManageMultiKeys takes the channel's lock only after its load, the append branch of
  UpdateChannel takes none, and UpdateChannelStatus and a polling selection store what they loaded earlier. A schedule
  is any order of the loads, counts and stores of any number of operations, so what is proved of all schedules holds
  whatever the locks exclude.
*/
module MultiKeyRows {
  import opened Base
  import opened ModelNames
  import opened MultiKey
  import opened Schedules

  /** The columns of the channel row that these operations touch. */
  datatype Row = Row(
    keys: seq<string>,
    size: int,
    status: map<nat, int>,
    time: map<nat, int>,
    reason: map<nat, string>,
    channelStatus: int)

  /** MultiKeySize is the key count, every index belongs to a key and every status entry disables one. */
  ghost predicate Valid(r: Row) {
    && r.size == |r.keys| && Sparse(r.status, |r.keys|)
    && InRange(r.time, |r.keys|) && InRange(r.reason, |r.keys|)
  }

  function Slots(r: Row): seq<Slot> {
    SlotsOf(r.keys, r.status, r.time, r.reason)
  }

  /** A valid row is determined by what it means. */
  lemma RowUnique(r: Row, q: Row)
    requires Valid(r) && Valid(q) && Slots(r) == Slots(q) && r.channelStatus == q.channelStatus
    ensures r == q
  {
    assert |Slots(r)| == |r.keys| && |Slots(q)| == |q.keys|;
    forall i | 0 <= i < |r.keys|
      ensures r.keys[i] == q.keys[i] && StatusAt(r.status, i) == StatusAt(q.status, i)
      ensures Get(r.time, i) == Get(q.time, i) && Get(r.reason, i) == Get(q.reason, i)
    {
      assert Slots(r)[i] == Slots(q)[i];
    }
    assert r.keys == q.keys;
    SameEntries(r.status, q.status, |r.keys|);
    assert r.time == q.time by { SameMap(r.time, q.time, |r.keys|); }
    assert r.reason == q.reason by { SameMap(r.reason, q.reason, |r.keys|); }
  }

  lemma SameMap<T>(m: map<nat, T>, n: map<nat, T>, size: nat)
    requires InRange(m, size) && InRange(n, size) && forall i: nat :: i < size ==> Get(m, i) == Get(n, i)
    ensures m == n
  {
    forall i: nat ensures (i in m <==> i in n) && (i in m ==> m[i] == n[i]) {
      if i < size { assert Get(m, i) == Get(n, i); }
    }
  }

  lemma SameEntries(m: map<nat, int>, n: map<nat, int>, size: nat)
    requires Sparse(m, size) && Sparse(n, size) && forall i: nat :: i < size ==> StatusAt(m, i) == StatusAt(n, i)
    ensures m == n
  {
    forall i: nat ensures (i in m <==> i in n) && (i in m ==> m[i] == n[i]) {
      if i < size { assert StatusAt(m, i) == StatusAt(n, i); }
    }
  }

  // ----- what each operation makes of its copy -----

  /** An action, or the saving of the polling position by a request or an upstream check that selects a key. */
  datatype Op = Do(a: Action) | Poll

  /** The key column, empty if it is not to be written, and the three maps. */
  datatype Change =
    | Refused
    | Change(keys: seq<string>, status: map<nat, int>, time: map<nat, int>, reason: map<nat, string>)

  function Cut(keys: seq<string>, i: nat): seq<string> {
    if i < |keys| then keys[..i] + keys[i + 1..] else keys
  }

  /** Where position `j` comes from when position `i` is cut out. */
  function Source(i: nat, j: nat): nat {
    if j < i then j else j + 1
  }

  function CutMap<T>(m: map<nat, T>, i: nat, n: nat): map<nat, T> {
    map j: nat | 0 <= j < n && Source(i, j) in m :: m[Source(i, j)]
  }

  /** The entries that disable a key. */
  function Disabling(status: map<nat, int>): map<nat, int> {
    map i | i in status && status[i] != ENABLED :: status[i]
  }

  predicate Keeps(status: map<nat, int>, i: nat) {
    i in status && status[i] != ENABLED
  }

  function KeysAt(keys: seq<string>, ix: seq<nat>): seq<string> {
    seq(|ix|, j requires 0 <= j < |ix| => if ix[j] < |keys| then keys[ix[j]] else "")
  }

  function PickMap<T>(m: map<nat, T>, status: map<nat, int>, ix: seq<nat>): map<nat, T> {
    map j: nat | 0 <= j < |ix| && Keeps(status, ix[j]) && ix[j] in m :: m[ix[j]]
  }

  /** ManageMultiKeys and the append branch of UpdateChannel on a loaded copy. */
  function Edited(r: Row, a: Action): Change
    requires !a.Report?
  {
    match a
    case Disable(i) =>
      if 0 <= i < r.size then Change(r.keys, r.status[i := MANUALLY_DISABLED], r.time, r.reason) else Refused
    case EnableOne(i) =>
      if 0 <= i < r.size then Change(r.keys, r.status - {i}, r.time - {i}, r.reason - {i}) else Refused
    case EnableAll => Change(r.keys, map[], map[], map[])
    case DisableAll =>
      if forall i: nat :: 0 <= i < r.size ==> StatusAt(r.status, i) != ENABLED then Refused
      else
        var more := map i: nat | 0 <= i < r.size && StatusAt(r.status, i) == ENABLED :: MANUALLY_DISABLED;
        Change(r.keys, r.status + more, r.time, r.reason)
    case Delete(i) =>
      if !(0 <= i < r.size) || Cut(r.keys, i) == [] then Refused
      else
        var n := |Cut(r.keys, i)|;
        Change(Cut(r.keys, i), CutMap(Disabling(r.status), i, n), CutMap(r.time, i, n), CutMap(r.reason, i, n))
    case DeleteDisabled =>
      var ix := KeptIndices(Slots(r));
      if |ix| == |r.keys| then Refused
      else
        Change(KeysAt(r.keys, ix), PickMap(r.status, r.status, ix), PickMap(r.time, r.status, ix),
               PickMap(r.reason, r.status, ix))
    case Append(lines) =>
      Change(if r.keys == [] then Raw(lines) else r.keys + Fresh(Known(r.keys), lines), r.status, r.time, r.reason)
  }

  /** handlerMultiKeyUpdate on a loaded copy with keys. */
  function Reported(r: Row, a: Action): Row
    requires a.Report?
  {
    if r.keys == [] then r.(channelStatus := a.status)
    else
      var i := FirstIndex(r.keys, a.key);
      var m := if a.status == ENABLED then r.(status := r.status - {i})
               else r.(status := r.status[i := a.status], time := r.time[i := a.now],
                       reason := r.reason[i := a.reason]);
      if |m.status| >= m.size then m.(channelStatus := AUTO_DISABLED) else m
  }

  /** The row after an operation stores the copy `snap` into `r`; `counted` is the number of stored keys it found when
      its own key column was empty. */
  function Written(r: Row, snap: Row, counted: nat, op: Op): Row {
    if op.Poll? then r.(size := snap.size, status := snap.status, time := snap.time, reason := snap.reason)
    else if op.a.Report? then
      if snap.channelStatus == op.a.status then r else Reported(snap, op.a).(keys := r.keys)
    else
      match Edited(snap, op.a)
      case Refused => r
      case Change(keys, status, time, reason) =>
        var n := if keys == [] then counted else |keys|;
        Row(if keys == [] then r.keys else keys, n, map i | i in status && i < n :: status[i], time, reason,
            if op.a.Append? then r.channelStatus else snap.channelStatus)
  }

  /** The operation as one step. */
  function Alone(r: Row, op: Op): Row {
    Written(r, r, |r.keys|, op)
  }

  // ----- alone, every operation keeps the row valid and does what the slots say -----

  /** The operation stores something. */
  predicate Stores(r: Row, op: Op) {
    op.Do? && if op.a.Report? then r.channelStatus != op.a.status else Edited(r, op.a).Change?
  }

  ghost predicate DoesAct(r: Row, a: Action, r': Row) {
    Valid(r') && Slots(r') == Act(Slots(r), a)
  }

  lemma KeysOfSlots(r: Row)
    ensures KeysOf(Slots(r)) == r.keys && |Slots(r)| == |r.keys|
    ensures forall i :: 0 <= i < |r.keys| ==> Slots(r)[i].status == StatusAt(r.status, i)
  {
  }

  lemma OneSlot(r: Row, a: Action)
    requires Valid(r) && (a.Disable? || a.EnableOne?) && Edited(r, a).Change?
    ensures DoesAct(r, a, Alone(r, Do(a)))
  {
    var r' := Alone(r, Do(a));
    assert Slots(r') == Act(Slots(r), a);
  }

  lemma AllSlots(r: Row, a: Action)
    requires Valid(r) && (a.EnableAll? || a.DisableAll?) && Edited(r, a).Change?
    ensures DoesAct(r, a, Alone(r, Do(a)))
  {
    var r' := Alone(r, Do(a));
    assert Slots(r') == Act(Slots(r), a);
  }

  /** The slot at `i`, entry by entry. */
  function SlotAt(r: Row, i: nat): Slot
    requires i < |r.keys|
  {
    Slot(r.keys[i], StatusAt(r.status, i), Get(r.time, i), Get(r.reason, i))
  }

  ghost predicate Means(r: Row, slots: seq<Slot>) {
    |slots| == |r.keys| && forall i: nat :: i < |r.keys| ==> SlotAt(r, i) == slots[i]
  }

  lemma SlotsMean(r: Row, slots: seq<Slot>)
    ensures Means(r, slots) <==> Slots(r) == slots
  {
    var own := Slots(r);
    assert |own| == |r.keys| && forall i: nat :: i < |r.keys| ==> own[i] == SlotAt(r, i);
  }

  lemma CutStatus(status: map<nat, int>, i: nat, n: nat, j: nat)
    requires j < n
    ensures StatusAt(CutMap(Disabling(status), i, n), j) == StatusAt(status, Source(i, j))
  {
  }

  lemma CutGet<T>(m: map<nat, T>, i: nat, n: nat, j: nat)
    requires j < n
    ensures Get(CutMap(m, i, n), j) == Get(m, Source(i, j))
  {
  }

  function CutRow(r: Row, i: nat): Row
    requires i < |r.keys|
  {
    var n := |r.keys| - 1;
    Row(Cut(r.keys, i), n, CutMap(Disabling(r.status), i, n), CutMap(r.time, i, n), CutMap(r.reason, i, n),
        r.channelStatus)
  }

  lemma CutAt(r: Row, i: nat, j: nat)
    requires i < |r.keys| && j < |r.keys| - 1
    ensures |CutRow(r, i).keys| == |r.keys| - 1 && SlotAt(CutRow(r, i), j) == SlotAt(r, Source(i, j))
  {
    var n := |r.keys| - 1;
    CutStatus(r.status, i, n, j);
    CutGet(r.time, i, n, j);
    CutGet(r.reason, i, n, j);
  }

  lemma CutMeans(r: Row, i: nat, slots: seq<Slot>)
    requires i < |r.keys| && Means(r, slots)
    ensures Means(CutRow(r, i), slots[..i] + slots[i + 1..])
  {
    var cut := slots[..i] + slots[i + 1..];
    forall j: nat | j < |r.keys| - 1 ensures SlotAt(CutRow(r, i), j) == cut[j] {
      CutAt(r, i, j);
      assert cut[j] == slots[Source(i, j)];
    }
  }

  lemma CutValid(r: Row, i: nat)
    requires i < |r.keys|
    ensures Valid(CutRow(r, i))
  {
  }

  /** What storing a non-empty key list leaves. */
  lemma ChangeStored(r: Row, a: Action, c: Change)
    requires !a.Report? && !a.Append? && Edited(r, a) == c && c.Change? && c.keys != [] && InRange(c.status, |c.keys|)
    ensures Alone(r, Do(a)) == Row(c.keys, |c.keys|, c.status, c.time, c.reason, r.channelStatus)
  {
    NoneBeyond(c.status, |c.keys|);
  }

  lemma CutEdited(r: Row, i: nat)
    requires Valid(r) && i < |r.keys| && |r.keys| > 1
    ensures var q := CutRow(r, i);
      |q.keys| == |r.keys| - 1 && Edited(r, Delete(i)) == Change(q.keys, q.status, q.time, q.reason)
  {
  }

  lemma CutStored(r: Row, i: nat)
    requires Valid(r) && i < |r.keys| && |r.keys| > 1
    ensures Alone(r, Do(Delete(i))) == CutRow(r, i)
  {
    CutEdited(r, i);
    CutValid(r, i);
    ChangeStored(r, Delete(i), Edited(r, Delete(i)));
  }

  lemma CutSlots(r: Row, i: int)
    requires Valid(r) && Edited(r, Delete(i)).Change?
    ensures DoesAct(r, Delete(i), Alone(r, Do(Delete(i))))
  {
    var slots := Slots(r);
    SlotsMean(r, slots);
    CutStored(r, i);
    CutValid(r, i);
    CutMeans(r, i, slots);
    SlotsMean(CutRow(r, i), slots[..i] + slots[i + 1..]);
  }

  lemma AppendSlots(r: Row, lines: seq<string>)
    requires Valid(r)
    ensures DoesAct(r, Append(lines), Alone(r, Do(Append(lines))))
  {
    KeysOfSlots(r);
    var more := if r.keys == [] then Raw(lines) else Fresh(Known(r.keys), lines);
    assert r.keys == [] ==> r.keys + more == more;
    SlotsGrow(r.keys, more, r.status, r.time, r.reason);
    NoneBeyond(r.status, |r.keys + more|);
  }

  lemma ReportedMaps(r: Row, a: Action)
    requires Valid(r) && a.Report? && r.keys != []
    ensures var m := Reported(r, a);
      && m.keys == r.keys && m.size == r.size && Sparse(m.status, |r.keys|)
      && InRange(m.time, |r.keys|) && InRange(m.reason, |r.keys|)
  {
    FirstIndexBound(r.keys, a.key);
  }

  lemma ReportedSlots(r: Row, a: Action)
    requires Valid(r) && a.Report? && r.keys != []
    ensures var i, slots := FirstIndex(r.keys, a.key), Slots(r);
      i < |slots| && Slots(Reported(r, a)) == slots[i := Marked(slots[i], a.status, a.reason, a.now)]
  {
    FirstIndexBound(r.keys, a.key);
    var i, st := FirstIndex(r.keys, a.key), if a.status == ENABLED then AUTO_DISABLED else a.status;
    SlotChanged(r.keys, r.status, r.time, r.reason, i, st, a.reason, a.now);
  }

  lemma ReportSlots(r: Row, a: Action)
    requires Valid(r) && a.Report? && r.channelStatus != a.status
    ensures DoesAct(r, a, Alone(r, Do(a)))
  {
    KeysOfSlots(r);
    assert Alone(r, Do(a)) == Reported(r, a);
    if r.keys != [] {
      ReportedMaps(r, a);
      ReportedSlots(r, a);
    }
  }

  function Picked(r: Row, ix: seq<nat>): Row {
    Row(KeysAt(r.keys, ix), |ix|, PickMap(r.status, r.status, ix), PickMap(r.time, r.status, ix),
        PickMap(r.reason, r.status, ix), r.channelStatus)
  }

  lemma PickedSlot(r: Row, ix: seq<nat>, j: nat)
    requires j < |ix| && ix[j] < |r.keys|
    ensures SlotAt(Picked(r, ix), j) == Observed(SlotAt(r, ix[j]))
  {
  }

  lemma NonePicked<T>(m: map<nat, T>, status: map<nat, int>)
    ensures PickMap(m, status, []) == map[]
  {
  }

  lemma SiftNone(r: Row)
    requires Edited(r, DeleteDisabled).Change? && KeptIndices(Slots(r)) == []
    ensures Alone(r, Do(DeleteDisabled)) == Row(r.keys, |r.keys|, map[], map[], map[], r.channelStatus)
  {
    NonePicked(r.status, r.status);
    NonePicked(r.time, r.status);
    NonePicked(r.reason, r.status);
  }

  lemma SiftSome(r: Row)
    requires Edited(r, DeleteDisabled).Change? && KeptIndices(Slots(r)) != []
    ensures Alone(r, Do(DeleteDisabled)) == Picked(r, KeptIndices(Slots(r)))
  {
    ChangeStored(r, DeleteDisabled, Edited(r, DeleteDisabled));
  }

  /** The row delete_disabled_keys stores with a key left, and with none. */
  lemma SiftRow(r: Row)
    requires Edited(r, DeleteDisabled).Change?
    ensures var ix, r' := KeptIndices(Slots(r)), Alone(r, Do(DeleteDisabled));
      r' == if ix == [] then Row(r.keys, |r.keys|, map[], map[], map[], r.channelStatus) else Picked(r, ix)
  {
    if KeptIndices(Slots(r)) == [] { SiftNone(r); } else { SiftSome(r); }
  }

  lemma SiftAct(slots: seq<Slot>)
    requires |KeptIndices(slots)| != |slots|
    ensures Act(slots, DeleteDisabled) == if KeptIndices(slots) == [] then EnableEvery(slots) else Survivors(slots)
  {
    KeptAscend(slots);
    SomeDeleted(slots);
  }

  lemma PickedMeans(r: Row, slots: seq<Slot>)
    requires Means(r, slots)
    ensures Means(Picked(r, KeptIndices(slots)), Survivors(slots))
  {
    var ix := KeptIndices(slots);
    KeptAscend(slots);
    forall j: nat | j < |ix| ensures SlotAt(Picked(r, ix), j) == Survivors(slots)[j] {
      SurvivorAt(slots, j);
      PickedSlot(r, ix, j);
    }
  }

  lemma PickedValid(r: Row, ix: seq<nat>)
    ensures Valid(Picked(r, ix))
  {
  }

  lemma SiftSlots(r: Row)
    requires Valid(r) && Edited(r, DeleteDisabled).Change?
    ensures DoesAct(r, DeleteDisabled, Alone(r, Do(DeleteDisabled)))
  {
    var slots, r' := Slots(r), Alone(r, Do(DeleteDisabled));
    KeysOfSlots(r);
    SiftRow(r);
    SiftAct(slots);
    SlotsMean(r, slots);
    if KeptIndices(slots) == [] {
      SlotsMean(r', EnableEvery(slots));
    } else {
      PickedValid(r, KeptIndices(slots));
      PickedMeans(r, slots);
      SlotsMean(r', Survivors(slots));
    }
  }

  /** Alone, an operation that stores something does what its action does to the slots, and keeps the row valid; one
      that does not leaves the row as it is. */
  lemma SerialMeaning(r: Row, op: Op)
    requires Valid(r)
    ensures Valid(Alone(r, op))
    ensures if Stores(r, op) then Slots(Alone(r, op)) == Act(Slots(r), op.a) else Alone(r, op) == r
  {
    if Stores(r, op) {
      match op.a {
        case Disable(_) => OneSlot(r, op.a);
        case EnableOne(_) => OneSlot(r, op.a);
        case EnableAll => AllSlots(r, op.a);
        case DisableAll => AllSlots(r, op.a);
        case Delete(i) => CutSlots(r, i);
        case DeleteDisabled => SiftSlots(r);
        case Append(lines) => AppendSlots(r, lines);
        case Report(_, _, _, _) => ReportSlots(r, op.a);
      }
    }
  }

  /** The channel's own status after an operation that leaves `slots`: it changes only by a report, on a channel without
      keys or when no enabled key is left. */
  ghost function StatusAfter(r: Row, op: Op, slots: seq<Slot>): int {
    if !Stores(r, op) || !op.a.Report? then r.channelStatus
    else if r.keys == [] then op.a.status
    else if forall i :: 0 <= i < |slots| ==> slots[i].status != ENABLED then AUTO_DISABLED
    else r.channelStatus
  }

  lemma SerialStatus(r: Row, op: Op)
    requires Valid(r)
    ensures Alone(r, op).channelStatus == StatusAfter(r, op, Slots(Alone(r, op)))
  {
    if Stores(r, op) && op.a.Report? && r.keys != [] {
      ReportedMaps(r, op.a);
      var m := Reported(r, op.a);
      assert Alone(r, op) == m && Slots(m) == SlotsOf(r.keys, m.status, m.time, m.reason);
      NoneEnabledIff(r.keys, m.status, m.time, m.reason);
    }
  }

  /** Alone, an operation is determined down to the last entry: what it leaves is the one valid row that has the slots
      its action makes and the status they call for. */
  lemma SerialExact(r: Row, op: Op, q: Row)
    requires Valid(r)
    ensures q == Alone(r, op) <==>
            && Valid(q) && Slots(q) == (if Stores(r, op) then Act(Slots(r), op.a) else Slots(r))
            && q.channelStatus == StatusAfter(r, op, Slots(q))
  {
    SerialMeaning(r, op);
    SerialStatus(r, op);
    if Valid(q) && Slots(q) == Slots(Alone(r, op)) && q.channelStatus == Alone(r, op).channelStatus {
      RowUnique(q, Alone(r, op));
    }
  }

  // ----- replacing the keys -----

  /** UpdateChannel with keys that take the place of the stored ones. */
  function Replacing(r: Row, lines: seq<string>): Row {
    var keys := if Raw(lines) == [] then r.keys else Raw(lines);
    r.(keys := keys, size := |keys|, status := Kept(r.status, |keys|))
  }

  /** It keeps the row valid exactly if no key beyond the new ones has a disabled time or reason. */
  lemma ReplaceValidIff(r: Row, lines: seq<string>)
    requires Valid(r)
    ensures Valid(Replacing(r, lines)) <==> Raw(lines) == [] || NoDetailsFrom(Slots(r), |Raw(lines)|)
  {
    ReplacedSlots(r.keys, Raw(lines), r.status, r.time, r.reason);
  }

  /** What is left beyond the new keys goes to keys appended later: each comes enabled, with the time and reason of the
      old key of its position. */
  lemma AppendedTakesOver(r: Row, lines: seq<string>, more: seq<string>, j: nat)
    requires Valid(r) && Raw(lines) != []
    requires |Raw(lines)| <= j < |Alone(Replacing(r, lines), Do(Append(more))).keys|
    ensures var q := Alone(Replacing(r, lines), Do(Append(more)));
      SlotAt(q, j) == Slot(q.keys[j], ENABLED, Get(r.time, j), Get(r.reason, j))
  {
  }

  /** Disabled by hand, such a key is shown with the reason of the old one. */
  lemma OldReasonShown(r: Row, lines: seq<string>, more: seq<string>, j: nat)
    requires Valid(r) && Raw(lines) != [] && j in r.reason
    requires |Raw(lines)| <= j < |Alone(Replacing(r, lines), Do(Append(more))).keys|
    ensures var q := Alone(Alone(Replacing(r, lines), Do(Append(more))), Do(Disable(j)));
      j < |q.keys| && RowOf(j, SlotAt(q, j)).status == MANUALLY_DISABLED && RowOf(j, SlotAt(q, j)).reason == r.reason[j]
  {
    AppendedTakesOver(r, lines, more, j);
  }

  // ----- schedules -----

  type Ops = Tid -> Op

  function KeyCount(r: Row): nat {
    |r.keys|
  }

  /** The table that holds the row. */
  function Table(): Database<Row, Op> {
    Database(Written, KeyCount)
  }

  lemma {:induction false} SerialRunValid(init: Row, order: seq<Tid>, ops: Ops)
    requires Valid(init)
    ensures Valid(SerialRun(Table(), init, order, ops))
  {
    if order != [] {
      var n := |order| - 1;
      SerialRunValid(init, order[..n], ops);
      SerialMeaning(SerialRun(Table(), init, order[..n], ops), ops(order[n]));
    }
  }

  /** The actions of a serial run that stored something. */
  function Stored(init: Row, order: seq<Tid>, ops: Ops): seq<Action> {
    if order == [] then []
    else
      var n := |order| - 1;
      var before, op := Stored(init, order[..n], ops), ops(order[n]);
      if Stores(SerialRun(Table(), init, order[..n], ops), op) then before + [op.a] else before
  }

  /** A serial run does to the slots what its stored actions do, so all that holds of runs of actions holds of it. */
  lemma {:induction false} SerialRunSlots(init: Row, order: seq<Tid>, ops: Ops)
    requires Valid(init)
    ensures Slots(SerialRun(Table(), init, order, ops)) == Run(Slots(init), Stored(init, order, ops))
  {
    if order != [] {
      var n := |order| - 1;
      var before, r := Stored(init, order[..n], ops), SerialRun(Table(), init, order[..n], ops);
      SerialRunSlots(init, order[..n], ops);
      SerialRunValid(init, order[..n], ops);
      SerialMeaning(r, ops(order[n]));
      if Stores(r, ops(order[n])) {
        var a := ops(order[n]).a;
        assert (before + [a])[..|before|] == before;
      }
    }
  }

  // ----- with overlap -----

  /** Three enabled keys. */
  const THREE: Row := Row(["a", "b", "c"], 3, map[], map[], map[], ENABLED)

  /** One operation reports the third key, one appends a fourth, and all others are reports that are dropped. Without
      the memory cache none of them waits for a lock that another holds while it meets the database. */
  function Racers(reporter: Tid, appender: Tid): Ops {
    t =>
      if t == reporter then Do(Report("c", AUTO_DISABLED, "", 0))
      else if t == appender then Do(Append(["d"]))
      else Do(Report("", ENABLED, "", 0))
  }

  function Four(): Row {
    Alone(THREE, Do(Append(["d"])))
  }

  /** The report of an operation that loaded three keys, stored over four. */
  function Stale(): Row {
    Written(Four(), THREE, 3, Do(Report("c", AUTO_DISABLED, "", 0)))
  }

  lemma FourKeys()
    ensures |Four().keys| > 3 && Four().channelStatus == ENABLED
  {
    var d := "d";
    TrimFixed(d);
    assert [d][0] == d && Listed([d], d);
    assert d !in Known(THREE.keys) by {
      TrimFixed("a");
      TrimFixed("b");
      TrimFixed("c");
    }
    FreshMeaning(Known(THREE.keys), [d]);
    assert d in Fresh(Known(THREE.keys), [d]);
  }

  lemma StaleIsInvalid()
    ensures !Valid(Stale()) && Stale().channelStatus == ENABLED
    ensures Stale().size == 3 && Stale().keys == Four().keys
    ensures forall n :: Written(Four(), THREE, n, Do(Report("c", AUTO_DISABLED, "", 0))) == Stale()
  {
    FourKeys();
    FirstIndexFound(THREE.keys, "c", 2);
    assert |map[2 := AUTO_DISABLED]| == 1;
  }

  lemma RacersRace(slow: Tid, fast: Tid)
    requires slow != fast
    ensures Races(Table(), Racers(slow, fast), THREE, Four(), Stale(), slow, fast)
  {
    FourKeys();
    StaleIsInvalid();
  }

  /** For any schedule: every valid row stays valid, whatever the operations are, if and only if no operation commits
      between the load and the commit of another. */
  lemma ValidIff(es: seq<Event>)
    requires Schedule(es)
    ensures (forall init: Row, ops: Ops :: Valid(init) ==> Valid(Final(Table(), init, es, ops))) <==> !Overlaps(es)
  {
    if Overlaps(es) {
      OverlapBreaks(es);
    } else {
      forall init: Row, ops: Ops | Valid(init) ensures Valid(Final(Table(), init, es, ops)) {
        NoOverlapIsSerial(Table(), init, es, ops, |es|);
        SerialRunValid(init, Committed(es, |es|), ops);
      }
    }
  }

  lemma OverlapIsStale(es: seq<Event>, i: nat, j: nat, k: nat)
    requires Schedule(es) && OverlapAt(es, i, j, k)
    ensures Final(Table(), THREE, es, Racers(es[k].t, es[j].t)) == Stale()
  {
    assert es[j] != es[k];
    RacersRace(es[k].t, es[j].t);
    RaceFinal(Table(), es, i, j, k, Racers(es[k].t, es[j].t), THREE, Four(), Stale());
  }

  lemma OverlapBreaks(es: seq<Event>)
    requires Schedule(es) && Overlaps(es)
    ensures exists ops: Ops :: Valid(THREE) && !Valid(Final(Table(), THREE, es, ops))
  {
    var i: nat, j: nat, k: nat :| OverlapAt(es, i, j, k);
    var ops := Racers(es[k].t, es[j].t);
    assert !Valid(Final(Table(), THREE, es, ops)) by {
      OverlapIsStale(es, i, j, k);
      StaleIsInvalid();
    }
  }

  /** And every outcome is that of the operations one after another, in the order of their commits, if and only if the
      same holds; with an overlap some outcome is that of no order at all. */
  lemma SerialIff(es: seq<Event>)
    requires Schedule(es)
    ensures (forall init: Row, ops: Ops ::
               Valid(init) ==> Final(Table(), init, es, ops) == SerialRun(Table(), init, Committed(es, |es|), ops))
            <==> !Overlaps(es)
    ensures Overlaps(es) ==>
              exists ops: Ops :: forall order: seq<Tid> ::
                Final(Table(), THREE, es, ops) != SerialRun(Table(), THREE, order, ops)
  {
    if Overlaps(es) {
      OverlapBreaks(es);
      var ops: Ops :| Valid(THREE) && !Valid(Final(Table(), THREE, es, ops));
      forall order: seq<Tid> ensures Final(Table(), THREE, es, ops) != SerialRun(Table(), THREE, order, ops) {
        SerialRunValid(THREE, order, ops);
      }
    } else {
      forall init: Row, ops: Ops | Valid(init)
        ensures Final(Table(), init, es, ops) == SerialRun(Table(), init, Committed(es, |es|), ops)
      {
        NoOverlapIsSerial(Table(), init, es, ops, |es|);
      }
    }
  }

  lemma LateReportRow(n: nat)
    ensures Written(Alone(THREE, Do(Delete(0))), THREE, n, Do(Report("c", AUTO_DISABLED, "", 0))) ==
            Row(["b", "c"], 3, map[2 := AUTO_DISABLED], map[2 := 0], map[2 := ""], ENABLED)
  {
    CutStored(THREE, 0);
    assert Cut(THREE.keys, 0) == ["b", "c"];
    FirstIndexFound(THREE.keys, "c", 2);
    assert |map[2 := AUTO_DISABLED]| == 1;
  }

  /** A report on the third key that loaded before the first key was deleted: two keys, a size of 3 and an entry beyond
      them. */
  lemma LateReport(es: seq<Event>, ops: Ops)
    requires Schedule(es) && Nested(es)
    requires ops(es[5].t) == Do(Report("c", AUTO_DISABLED, "", 0)) && ops(es[4].t) == Do(Delete(0))
    ensures var r := Final(Table(), THREE, es, ops);
      r == Row(["b", "c"], 3, map[2 := AUTO_DISABLED], map[2 := 0], map[2 := ""], ENABLED) && !Valid(r)
  {
    NestedFinal(Table(), THREE, es, ops);
    LateReportRow(3);
  }

  /** In every schedule, an action that changes no key undoes what happened to the key column since its load: a key
      that was there at its load and is gone just before its commit is back after it, one that came since is gone. */
  lemma DeletedKeyReturns(init: Row, es: seq<Event>, ops: Ops, i: nat, c: nat, k: nat, key: string)
    requires Schedule(es) && Follows(es, i, c, k) && ops(es[k].t).Do?
    requires var a := ops(es[k].t).a; a.Disable? || a.EnableOne? || a.EnableAll? || a.DisableAll?
    requires Edited(Before(Table(), init, es, ops, i).row, ops(es[k].t).a).Change?
    ensures var loaded, now, after := Before(Table(), init, es, ops, i).row.keys,
                                      Before(Table(), init, es, ops, k).row.keys,
                                      Before(Table(), init, es, ops, k + 1).row.keys;
      && (key in loaded && key !in now ==> key in after)
      && (loaded != [] && key !in loaded && key in now ==> key !in after)
  {
    CommitIs(Table(), init, es, ops, i, c, k);
  }
}
