/**
  The multi-key channel of controller/channel.go (ManageMultiKeys and the append branch of
  UpdateChannel) with the parts of model/channel.go it goes through.

  Keys are stored in order; status, disabled time and disabled reason are sparse maps from a
  key's position. `Slots` is what the channel means: one slot per key with the data attached
  to it. Nil maps read as empty maps. `saved` is the outcome of the database update and
  `indexed` that of rebuilding the channel's abilities after it. Keys are non-blank lines
  without line breaks, so the joined form is left out.

  Here every action is one step, from the row it loads to the row it stores: runs are serial.
  What happens when loads and stores of different actions overlap is in module MultiKeyRows.
*/
module MultiKey {
  import opened Base
  import opened ModelNames

  const ENABLED: int := 1
  const MANUALLY_DISABLED: int := 2
  const AUTO_DISABLED: int := 3

  datatype Slot = Slot(key: string, status: int, time: Option<int>, reason: Option<string>)

  function Get<T>(m: map<nat, T>, i: nat): Option<T> {
    if i in m then Some(m[i]) else None
  }

  function Put<T>(m: map<nat, T>, i: nat, v: Option<T>): map<nat, T> {
    if v.Some? then m[i := v.value] else m
  }

  /** A key without a status entry is enabled. */
  function StatusAt(status: map<nat, int>, i: nat): int {
    if i in status then status[i] else ENABLED
  }

  function SlotsOf(keys: seq<string>, status: map<nat, int>, time: map<nat, int>, reason: map<nat, string>): seq<Slot> {
    seq(|keys|, i requires 0 <= i < |keys| => Slot(keys[i], StatusAt(status, i), Get(time, i), Get(reason, i)))
  }

  ghost predicate InRange<T>(m: map<nat, T>, n: nat) {
    forall i :: i in m ==> i < n
  }

  /** Every status entry belongs to a key and disables it. */
  ghost predicate Sparse(status: map<nat, int>, n: nat) {
    forall i :: i in status ==> i < n && status[i] != ENABLED
  }

  /** Appending a key together with its entries at the next position appends its slot. */
  lemma SlotAppended(keys: seq<string>, status: map<nat, int>, time: map<nat, int>, reason: map<nat, string>,
                     key: string, s: Option<int>, t: Option<int>, r: Option<string>)
    requires Sparse(status, |keys|) && InRange(time, |keys|) && InRange(reason, |keys|) && s != Some(ENABLED)
    ensures SlotsOf(keys + [key], Put(status, |keys|, s), Put(time, |keys|, t), Put(reason, |keys|, r)) ==
            SlotsOf(keys, status, time, reason) + [Slot(key, if s.Some? then s.value else ENABLED, t, r)]
    ensures Sparse(Put(status, |keys|, s), |keys| + 1)
    ensures InRange(Put(time, |keys|, t), |keys| + 1) && InRange(Put(reason, |keys|, r), |keys| + 1)
  {
  }

  // ----- what the actions do to the slots -----

  function Enable(s: Slot): Slot {
    Slot(s.key, ENABLED, None, None)
  }

  function EnableEvery(slots: seq<Slot>): seq<Slot> {
    seq(|slots|, i requires 0 <= i < |slots| => Enable(slots[i]))
  }

  function DisableEvery(slots: seq<Slot>): seq<Slot> {
    seq(|slots|, i requires 0 <= i < |slots| =>
      if slots[i].status == ENABLED then slots[i].(status := MANUALLY_DISABLED) else slots[i])
  }

  /** Slots that are not auto-disabled, in order; an enabled slot loses a stale time and reason. */
  function Survivors(slots: seq<Slot>): seq<Slot> {
    if slots == [] then []
    else
      var last := slots[|slots| - 1];
      var rest := Survivors(slots[..|slots| - 1]);
      if last.status == AUTO_DISABLED then rest
      else if last.status == ENABLED then rest + [Enable(last)]
      else rest + [last]
  }

  /** The trimmed non-blank lines that are not yet known, each once, in order. */
  function Fresh(known: set<string>, lines: seq<string>): seq<string> {
    if lines == [] then []
    else
      var rest := Fresh(known, lines[..|lines| - 1]);
      var k := Trim(lines[|lines| - 1]);
      if k == "" || k in known || k in rest then rest else rest + [k]
  }

  function Known(keys: seq<string>): set<string> {
    set i | 0 <= i < |keys| && Trim(keys[i]) != "" :: Trim(keys[i])
  }

  function NewSlots(keys: seq<string>): seq<Slot> {
    seq(|keys|, i requires 0 <= i < |keys| => Slot(keys[i], ENABLED, None, None))
  }

  function KeysOf(slots: seq<Slot>): seq<string> {
    seq(|slots|, i requires 0 <= i < |slots| => slots[i].key)
  }

  /** The position of `key`, or 0 when no key matches. */
  function FirstIndex(keys: seq<string>, key: string): nat {
    if key !in keys then 0 else if keys[0] == key then 0 else 1 + FirstIndex(keys[1..], key)
  }

  function Marked(s: Slot, status: int, reason: string, now: int): Slot {
    if status == ENABLED then s.(status := ENABLED) else Slot(s.key, status, Some(now), Some(reason))
  }

  /** The lines of a key column, without the empty ones at its ends; of empty lines alone one is left. */
  function WithoutEnds(lines: seq<string>): seq<string> {
    if |lines| <= 1 then lines
    else if lines[0] == "" then WithoutEnds(lines[1..])
    else if lines[|lines| - 1] == "" then WithoutEnds(lines[..|lines| - 1])
    else lines
  }

  /** The lines stored as they are when the channel has no key yet; a single empty line is an empty key column. */
  function Raw(lines: seq<string>): seq<string> {
    if lines == [""] then [] else WithoutEnds(lines)
  }

  /** New keys in the places of the old ones: status, time and reason stay with the position. */
  function Replaced(slots: seq<Slot>, keys: seq<string>): seq<Slot> {
    seq(|keys|, i requires 0 <= i < |keys| =>
      if i < |slots| then slots[i].(key := keys[i]) else Slot(keys[i], ENABLED, None, None))
  }

  /** From position `n` on no slot has a disabled time or reason. */
  ghost predicate NoDetailsFrom(slots: seq<Slot>, n: nat) {
    forall i :: n <= i < |slots| ==> slots[i].time == None && slots[i].reason == None
  }

  datatype Action =
    | Disable(index: int)
    | EnableOne(index: int)
    | EnableAll
    | DisableAll
    | Delete(index: int)
    | DeleteDisabled
    | Append(lines: seq<string>)
    | Report(key: string, status: int, reason: string, now: int)

  /** What a saved action makes of the slots. */
  function Act(slots: seq<Slot>, a: Action): seq<Slot> {
    match a
    case Disable(i) => if 0 <= i < |slots| then slots[i := slots[i].(status := MANUALLY_DISABLED)] else slots
    case EnableOne(i) => if 0 <= i < |slots| then slots[i := Enable(slots[i])] else slots
    case EnableAll => EnableEvery(slots)
    case DisableAll => DisableEvery(slots)
    case Delete(i) => if 0 <= i < |slots| && |slots| > 1 then slots[..i] + slots[i + 1..] else slots
    case DeleteDisabled =>
      if forall i :: 0 <= i < |slots| ==> slots[i].status != AUTO_DISABLED then slots
      else if Survivors(slots) == [] then EnableEvery(slots)
      else Survivors(slots)
    case Append(lines) =>
      if slots == [] then NewSlots(Raw(lines)) else slots + NewSlots(Fresh(Known(KeysOf(slots)), lines))
    case Report(key, status, reason, now) =>
      var i := FirstIndex(KeysOf(slots), key);
      if i < |slots| then slots[i := Marked(slots[i], status, reason, now)] else slots
  }

  // ----- get_key_status -----

  datatype KeyStatus = KeyStatus(index: nat, status: int, time: int, reason: string, preview: string)

  datatype Page = Page(rows: seq<KeyStatus>, total: nat, page: int, pageSize: int, totalPages: int, enabled: nat,
                       manual: nat, auto: nat)

  function RowOf(i: nat, s: Slot): KeyStatus {
    KeyStatus(i, s.status,
              if s.status != ENABLED && s.time.Some? then s.time.value else 0,
              if s.status != ENABLED && s.reason.Some? then s.reason.value else "",
              if |s.key| > 10 then s.key[..10] + "..." else s.key)
  }

  function Rows(slots: seq<Slot>): seq<KeyStatus> {
    seq(|slots|, i requires 0 <= i < |slots| => RowOf(i, slots[i]))
  }

  /** The rows with the wanted status, in order. */
  function Filtered(rows: seq<KeyStatus>, wanted: Option<int>): seq<KeyStatus> {
    if wanted == None || rows == [] then rows
    else
      var last := rows[|rows| - 1];
      Filtered(rows[..|rows| - 1], wanted) + if last.status == wanted.value then [last] else []
  }

  function Count(slots: seq<Slot>, status: int): nat {
    if slots == [] then 0
    else Count(slots[..|slots| - 1], status) + if slots[|slots| - 1].status == status then 1 else 0
  }

  function TotalPages(total: nat, pageSize: int): (pages: int)
    requires pageSize > 0
    ensures pages >= 1
  {
    var pages := (total + pageSize - 1) / pageSize;
    if pages == 0 then 1 else pages
  }

  function PageOf<T>(list: seq<T>, page: int, pageSize: int): seq<T>
    requires page >= 1 && pageSize > 0
  {
    var start := (page - 1) * pageSize;
    var end := if start + pageSize > |list| then |list| else start + pageSize;
    if 0 <= start < |list| then list[start..end] else []
  }

  /** The first `n` pages one after the other. */
  function FirstPages<T>(list: seq<T>, pageSize: int, n: nat): seq<T>
    requires pageSize > 0
  {
    if n == 0 then [] else FirstPages(list, pageSize, n - 1) + PageOf(list, n, pageSize)
  }

  lemma Product(a: nat, b: nat)
    ensures a * b >= 0 && (a + 1) * b == a * b + b
  {
  }

  function Clip(n: nat, size: nat): nat {
    if n < size then n else size
  }

  /** The page that starts at `start` follows what is before it. */
  lemma PageFollows<T>(list: seq<T>, page: int, pageSize: int, start: nat)
    requires page >= 1 && pageSize > 0 && start == (page - 1) * pageSize
    ensures list[..Clip(start, |list|)] + PageOf(list, page, pageSize) == list[..Clip(start + pageSize, |list|)]
  {
  }

  lemma {:induction false} FirstPagesArePrefix<T>(list: seq<T>, pageSize: int, n: nat)
    requires pageSize > 0
    ensures n * pageSize >= 0 && FirstPages(list, pageSize, n) == list[..Clip(n * pageSize, |list|)]
  {
    if n > 0 {
      FirstPagesArePrefix(list, pageSize, n - 1);
      Product(n - 1, pageSize);
      PageFollows(list, n, pageSize, (n - 1) * pageSize);
    }
  }

  lemma EnoughPages(total: nat, pageSize: int)
    requires pageSize > 0
    ensures TotalPages(total, pageSize) * pageSize >= total
  {
    var x := total + pageSize - 1;
    assert x == (x / pageSize) * pageSize + x % pageSize;
  }

  /** Reading every page in turn shows every row exactly once, in order. */
  lemma PagesCover<T>(list: seq<T>, pageSize: int)
    requires pageSize > 0
    ensures FirstPages(list, pageSize, TotalPages(|list|, pageSize)) == list
  {
    FirstPagesArePrefix(list, pageSize, TotalPages(|list|, pageSize));
    EnoughPages(|list|, pageSize);
  }

  /** The slice shown as page `page`. */
  method SlicePage<T>(list: seq<T>, page: int, pageSize: int) returns (rows: seq<T>)
    requires page >= 1 && pageSize > 0
    ensures rows == PageOf(list, page, pageSize)
  {
    Product(page - 1, pageSize);
    var start := (page - 1) * pageSize;
    var end := start + pageSize;
    if end > |list| {
      end := |list|;
    }
    rows := if start < |list| then list[start..end] else [];
  }

  method ListRows(slots: seq<Slot>) returns (rows: seq<KeyStatus>, enabled: nat, manual: nat, auto: nat)
    ensures rows == Rows(slots)
    ensures enabled == Count(slots, ENABLED) && manual == Count(slots, MANUALLY_DISABLED)
    ensures auto == Count(slots, AUTO_DISABLED)
  {
    rows, enabled, manual, auto := [], 0, 0, 0;
    for i := 0 to |slots|
      invariant rows == Rows(slots[..i])
      invariant enabled == Count(slots[..i], ENABLED) && manual == Count(slots[..i], MANUALLY_DISABLED)
      invariant auto == Count(slots[..i], AUTO_DISABLED)
    {
      assert slots[..i + 1][..i] == slots[..i];
      if slots[i].status == ENABLED {
        enabled := enabled + 1;
      } else if slots[i].status == MANUALLY_DISABLED {
        manual := manual + 1;
      } else if slots[i].status == AUTO_DISABLED {
        auto := auto + 1;
      }
      rows := rows + [RowOf(i, slots[i])];
    }
    assert slots[..|slots|] == slots;
  }

  method FilterRows(rows: seq<KeyStatus>, wanted: Option<int>) returns (kept: seq<KeyStatus>)
    ensures kept == Filtered(rows, wanted)
  {
    if wanted == None {
      return rows;
    }
    kept := [];
    for i := 0 to |rows|
      invariant kept == Filtered(rows[..i], wanted)
    {
      assert rows[..i + 1][..i] == rows[..i];
      if rows[i].status == wanted.value {
        kept := kept + [rows[i]];
      }
    }
    assert rows[..|rows|] == rows;
  }

  method PageCount(total: nat, pageSize: int) returns (totalPages: int)
    requires pageSize > 0
    ensures totalPages == TotalPages(total, pageSize)
  {
    totalPages := (total + pageSize - 1) / pageSize;
    if totalPages == 0 {
      totalPages := 1;
    }
  }

  /** One page of the key list, with counts over all keys. */
  method GetKeyStatus(slots: seq<Slot>, page: int, pageSize: int, wanted: Option<int>) returns (r: Page)
    ensures r.pageSize == (if pageSize <= 0 then 50 else pageSize) && r.total == |Filtered(Rows(slots), wanted)|
    ensures r.totalPages == TotalPages(r.total, r.pageSize) && 1 <= r.page <= r.totalPages
    ensures 1 <= page <= r.totalPages ==> r.page == page
    ensures r.rows == PageOf(Filtered(Rows(slots), wanted), r.page, r.pageSize)
    ensures r.enabled == Count(slots, ENABLED) && r.manual == Count(slots, MANUALLY_DISABLED)
    ensures r.auto == Count(slots, AUTO_DISABLED)
  {
    var p, size := if page <= 0 then 1 else page, if pageSize <= 0 then 50 else pageSize;
    var all, enabled, manual, auto := ListRows(slots);
    var kept := FilterRows(all, wanted);
    var total := |kept|;
    var totalPages := PageCount(total, size);
    if p > totalPages {
      p := totalPages;
    }
    var rows := SlicePage(kept, p, size);
    r := Page(rows, total, p, size, totalPages, enabled, manual, auto);
  }

  /** The next index of a map iteration. */
  method AnyOf(indices: set<nat>) returns (i: nat)
    requires indices != {}
    ensures i in indices
  {
    i :| i in indices;
  }

  /** Status entries beyond the key count are removed one by one. */
  method DropBeyond(status: map<nat, int>, n: nat) returns (kept: map<nat, int>)
    ensures kept == map i | i in status && i < n :: status[i]
  {
    kept := status;
    var todo: set<nat> := status.Keys;
    while todo != {}
      invariant todo <= status.Keys
      invariant kept == map i | i in status && (i in todo || i < n) :: status[i]
    {
      var i := AnyOf(todo);
      if i >= n {
        kept := kept - {i};
      }
      todo := todo - {i};
    }
  }

  /** The new keys of an append, against the set of keys already present. */
  method Dedupe(keys: seq<string>, lines: seq<string>) returns (deduped: seq<string>)
    ensures deduped == Fresh(Known(keys), lines)
  {
    var seen: set<string> := {};
    for i := 0 to |keys|
      invariant seen == Known(keys[..i])
    {
      assert keys[..i + 1] == keys[..i] + [keys[i]];
      KnownAppend(keys[..i], keys[i]);
      var normalized := Trim(keys[i]);
      if normalized == "" {
        continue;
      }
      seen := seen + {normalized};
    }
    assert keys[..|keys|] == keys;
    deduped := [];
    for i := 0 to |lines|
      invariant deduped == Fresh(Known(keys), lines[..i])
      invariant seen == Known(keys) + set k | k in deduped
    {
      assert lines[..i + 1][..i] == lines[..i];
      var normalized := Trim(lines[i]);
      if normalized == "" || normalized in seen {
        continue;
      }
      seen := seen + {normalized};
      deduped := deduped + [normalized];
    }
    assert lines[..|lines|] == lines;
  }

  /** The first `i` slots without the one at `at`. */
  function CutUpTo(slots: seq<Slot>, at: nat, i: nat): seq<Slot>
    requires i <= |slots|
  {
    if i <= at then slots[..i] else slots[..at] + slots[at + 1..i]
  }

  lemma CutNext(slots: seq<Slot>, at: nat, i: nat)
    requires i < |slots|
    ensures CutUpTo(slots, at, i + 1) == CutUpTo(slots, at, i) + if i == at then [] else [slots[i]]
  {
    if i < at {
      assert slots[..i + 1] == slots[..i] + [slots[i]];
    } else if i > at {
      assert slots[at + 1..i + 1] == slots[at + 1..i] + [slots[i]];
    }
  }

  /** The rebuild loop of delete_key: every key but the one at `at`, re-indexed with its entries. */
  method CutOut(keys: seq<string>, status: map<nat, int>, time: map<nat, int>, reason: map<nat, string>, at: nat)
    returns (remaining: seq<string>, ns: map<nat, int>, nt: map<nat, int>, nr: map<nat, string>)
    requires at < |keys|
    ensures Sparse(ns, |remaining|) && InRange(nt, |remaining|) && InRange(nr, |remaining|)
    ensures var slots := SlotsOf(keys, status, time, reason);
            SlotsOf(remaining, ns, nt, nr) == slots[..at] + slots[at + 1..]
  {
    remaining, ns, nt, nr := [], map[], map[], map[];
    ghost var slots := SlotsOf(keys, status, time, reason);
    for i := 0 to |keys|
      invariant Sparse(ns, |remaining|) && InRange(nt, |remaining|) && InRange(nr, |remaining|)
      invariant SlotsOf(remaining, ns, nt, nr) == CutUpTo(slots, at, i)
    {
      CutNext(slots, at, i);
      if i == at {
        continue;
      }
      var s := if i in status && status[i] != ENABLED then Some(status[i]) else None;
      SlotAppended(remaining, ns, nt, nr, keys[i], s, Get(time, i), Get(reason, i));
      ns, nt, nr := Put(ns, |remaining|, s), Put(nt, |remaining|, Get(time, i)), Put(nr, |remaining|, Get(reason, i));
      remaining := remaining + [keys[i]];
    }
  }

  /** The rebuild loop of delete_disabled_keys. */
  method Sift(keys: seq<string>, status: map<nat, int>, time: map<nat, int>, reason: map<nat, string>)
    returns (remaining: seq<string>, ns: map<nat, int>, nt: map<nat, int>, nr: map<nat, string>, deleted: nat)
    ensures Sparse(ns, |remaining|) && InRange(nt, |remaining|) && InRange(nr, |remaining|)
    ensures SlotsOf(remaining, ns, nt, nr) == Survivors(SlotsOf(keys, status, time, reason))
    ensures deleted == |keys| - |remaining|
    ensures deleted > 0 <==> exists j :: 0 <= j < |keys| && StatusAt(status, j) == AUTO_DISABLED
  {
    remaining, ns, nt, nr, deleted := [], map[], map[], map[], 0;
    ghost var slots := SlotsOf(keys, status, time, reason);
    for i := 0 to |keys|
      invariant Sparse(ns, |remaining|) && InRange(nt, |remaining|) && InRange(nr, |remaining|)
      invariant SlotsOf(remaining, ns, nt, nr) == Survivors(slots[..i])
      invariant deleted == i - |remaining|
    {
      assert slots[..i + 1][..i] == slots[..i];
      var st := StatusAt(status, i);
      if st == AUTO_DISABLED {
        deleted := deleted + 1;
      } else {
        var s := if st != ENABLED then Some(st) else None;
        var t := if st != ENABLED then Get(time, i) else None;
        var r := if st != ENABLED then Get(reason, i) else None;
        SlotAppended(remaining, ns, nt, nr, keys[i], s, t, r);
        ns, nt, nr := Put(ns, |remaining|, s), Put(nt, |remaining|, t), Put(nr, |remaining|, r);
        remaining := remaining + [keys[i]];
      }
    }
    assert slots[..|slots|] == slots;
    assert |SlotsOf(remaining, ns, nt, nr)| == |remaining|;
    SomeDeleted(slots);
    assert forall j :: 0 <= j < |keys| ==> slots[j].status == StatusAt(status, j);
  }

  /** Something is deleted exactly when some slot is auto-disabled. */
  lemma {:induction false} SomeDeleted(slots: seq<Slot>)
    ensures |Survivors(slots)| <= |slots|
    ensures |Survivors(slots)| < |slots| <==> exists j :: 0 <= j < |slots| && slots[j].status == AUTO_DISABLED
  {
    if slots != [] {
      var k := |slots| - 1;
      SomeDeleted(slots[..k]);
      assert forall j :: 0 <= j < k ==> slots[..k][j] == slots[j];
    }
  }

  /** The search loop of handlerMultiKeyUpdate. */
  method FindKey(keys: seq<string>, usingKey: string) returns (keyIndex: nat)
    ensures keyIndex == FirstIndex(keys, usingKey)
  {
    keyIndex := 0;
    var i := 0;
    while i < |keys|
      invariant 0 <= i <= |keys| && keyIndex == 0 && usingKey !in keys[..i]
    {
      if keys[i] == usingKey {
        keyIndex := i;
        break;
      }
      i := i + 1;
    }
    FirstIndexFound(keys, usingKey, i);
  }

  lemma {:induction false} FirstIndexBound(keys: seq<string>, key: string)
    ensures keys != [] ==> FirstIndex(keys, key) < |keys|
    ensures key in keys ==> keys[FirstIndex(keys, key)] == key && key !in keys[..FirstIndex(keys, key)]
  {
    if key in keys && keys[0] != key {
      FirstIndexBound(keys[1..], key);
      var n := FirstIndex(keys[1..], key);
      assert keys[..n + 1] == [keys[0]] + keys[1..][..n];
    }
  }

  /** Changing the entries of one position changes that slot only. */
  lemma SlotChanged(keys: seq<string>, status: map<nat, int>, time: map<nat, int>, reason: map<nat, string>, i: nat,
                    st: int, r: string, t: int)
    requires i < |keys| && st != ENABLED
    ensures var slots := SlotsOf(keys, status, time, reason);
            SlotsOf(keys, status - {i}, time, reason) == slots[i := slots[i].(status := ENABLED)]
    ensures SlotsOf(keys, status[i := st], time[i := t], reason[i := r]) ==
            SlotsOf(keys, status, time, reason)[i := Slot(keys[i], st, Some(t), Some(r))]
  {
  }

  /** New keys at the end carry no entries, because every entry belongs to an older key. */
  lemma SlotsGrow(keys: seq<string>, more: seq<string>, status: map<nat, int>, time: map<nat, int>,
                  reason: map<nat, string>)
    requires InRange(status, |keys|) && InRange(time, |keys|) && InRange(reason, |keys|)
    ensures SlotsOf(keys + more, status, time, reason) == SlotsOf(keys, status, time, reason) + NewSlots(more)
  {
  }

  /** Entries survive the recount when they are in range. */
  lemma NoneBeyond(status: map<nat, int>, n: nat)
    requires InRange(status, n)
    ensures status == map i | i in status && i < n :: status[i]
  {
  }

  function Kept(status: map<nat, int>, n: nat): map<nat, int> {
    map i | i in status && i < n :: status[i]
  }

  lemma ReplacedSlots(keys: seq<string>, newer: seq<string>, status: map<nat, int>, time: map<nat, int>,
                      reason: map<nat, string>)
    requires Sparse(status, |keys|) && InRange(time, |keys|) && InRange(reason, |keys|)
    ensures SlotsOf(newer, Kept(status, |newer|), time, reason) ==
            Replaced(SlotsOf(keys, status, time, reason), newer)
    ensures Sparse(Kept(status, |newer|), |newer|)
    ensures InRange(time, |newer|) && InRange(reason, |newer|) <==>
            NoDetailsFrom(SlotsOf(keys, status, time, reason), |newer|)
  {
    var slots := SlotsOf(keys, status, time, reason);
    assert forall i :: 0 <= i < |keys| ==> slots[i].time == Get(time, i) && slots[i].reason == Get(reason, i);
    if NoDetailsFrom(slots, |newer|) {
      forall i | i in time ensures i < |newer| { assert slots[i].time == Get(time, i); }
      forall i | i in reason ensures i < |newer| { assert slots[i].reason == Get(reason, i); }
    }
  }

  function Upto(n: nat): set<nat> {
    if n == 0 then {} else Upto(n - 1) + {n - 1}
  }

  lemma {:induction false} UptoMeaning(n: nat)
    ensures |Upto(n)| == n && forall i: nat :: i in Upto(n) <==> i < n
  {
    if n > 0 { UptoMeaning(n - 1); }
  }

  /** All `n` keys are disabled exactly when there are `n` status entries. */
  lemma AllDisabledIff(status: map<nat, int>, n: nat)
    requires Sparse(status, n)
    ensures |status| >= n <==> forall i: nat :: i < n ==> StatusAt(status, i) != ENABLED
  {
    UptoMeaning(n);
    Subset(status.Keys, Upto(n));
    assert |status| == |status.Keys|;
    if forall i: nat :: i < n ==> StatusAt(status, i) != ENABLED {
      forall i: nat | i in Upto(n) ensures i in status.Keys { assert StatusAt(status, i) != ENABLED; }
      assert status.Keys == Upto(n);
    }
  }

  lemma Subset(a: set<nat>, b: set<nat>)
    requires a <= b
    ensures |a| <= |b| && (|a| >= |b| <==> a == b)
  {
    assert b == a + (b - a);
  }

  lemma NoneEnabledIff(keys: seq<string>, status: map<nat, int>, time: map<nat, int>, reason: map<nat, string>)
    requires Sparse(status, |keys|)
    ensures |status| >= |keys| <==>
            forall i :: 0 <= i < |keys| ==> SlotsOf(keys, status, time, reason)[i].status != ENABLED
  {
    var slots := SlotsOf(keys, status, time, reason);
    assert forall i :: 0 <= i < |keys| ==> slots[i].status == StatusAt(status, i);
    AllDisabledIff(status, |keys|);
  }

  /** The entries after a report on a listed key, and whether no enabled key is left. */
  method MarkKey(keys: seq<string>, status: map<nat, int>, time: map<nat, int>, reason: map<nat, string>,
                 usingKey: string, newStatus: int, why: string, now: int)
    returns (ns: map<nat, int>, nt: map<nat, int>, nr: map<nat, string>, none: bool)
    requires keys != [] && Sparse(status, |keys|) && InRange(time, |keys|) && InRange(reason, |keys|)
    ensures Sparse(ns, |keys|) && InRange(nt, |keys|) && InRange(nr, |keys|)
    ensures SlotsOf(keys, ns, nt, nr) == Act(SlotsOf(keys, status, time, reason), Report(usingKey, newStatus, why, now))
    ensures none <==> forall i :: 0 <= i < |keys| ==> SlotsOf(keys, ns, nt, nr)[i].status != ENABLED
  {
    ghost var slots := SlotsOf(keys, status, time, reason);
    assert KeysOf(slots) == keys;
    var keyIndex := FindKey(keys, usingKey);
    FirstIndexBound(keys, usingKey);
    SlotChanged(keys, status, time, reason, keyIndex,
                if newStatus == ENABLED then AUTO_DISABLED else newStatus, why, now);
    ns, nt, nr := status, time, reason;
    if newStatus == ENABLED {
      ns := ns - {keyIndex};
    } else {
      ns := ns[keyIndex := newStatus];
      nr := nr[keyIndex := why];
      nt := nt[keyIndex := now];
    }
    none := |ns| >= |keys|;
    NoneEnabledIff(keys, ns, nt, nr);
  }

  class Channel {
    var keys: seq<string>
    var multiKeySize: int
    var status: map<nat, int>
    var disabledTime: map<nat, int>
    var disabledReason: map<nat, string>
    var channelStatus: int

    /** The stored size is the key count, every map index belongs to a key and every status entry disables one. */
    ghost predicate Valid()
      reads this
    {
      && multiKeySize == |keys| && Sparse(status, |keys|)
      && InRange(disabledTime, |keys|) && InRange(disabledReason, |keys|)
    }

    function Slots(): (slots: seq<Slot>)
      reads this
      ensures |slots| == |keys|
    {
      SlotsOf(keys, status, disabledTime, disabledReason)
    }

    constructor (keys: seq<string>, channelStatus: int)
      ensures Valid() && this.keys == keys && Slots() == NewSlots(keys) && this.channelStatus == channelStatus
    {
      this.keys, multiKeySize, status, disabledTime, disabledReason := keys, |keys|, map[], map[], map[];
      this.channelStatus := channelStatus;
    }

    /** Channel.Update, the database write having succeeded: an empty key column is a zero value, which the update
        leaves as stored; the size is recounted and status entries beyond it are dropped. Then the abilities are
        rebuilt, which may fail and leaves the row as written. */
    method Update(newKeys: seq<string>, newStatus: map<nat, int>, newTime: map<nat, int>, newReason: map<nat, string>,
                  indexed: bool)
      returns (ok: bool)
      modifies this
      ensures ok == indexed && channelStatus == old(channelStatus)
      ensures keys == if newKeys == [] then old(keys) else newKeys
      ensures multiKeySize == |keys|
      ensures status == map i | i in newStatus && i < |keys| :: newStatus[i]
      ensures disabledTime == newTime && disabledReason == newReason
    {
      if newKeys != [] {
        keys := newKeys;
      }
      multiKeySize := |keys|;
      status := DropBeyond(newStatus, |keys|);
      disabledTime, disabledReason := newTime, newReason;
      ok := indexed;
    }

    method DisableKey(index: Option<int>, saved: bool, indexed: bool) returns (ok: bool)
      requires Valid()
      modifies this
      ensures Valid() && keys == old(keys) && channelStatus == old(channelStatus)
      ensures ok == (saved && indexed && index.Some? && 0 <= index.value < |keys|)
      ensures Slots() == if saved && index.Some? then Act(old(Slots()), Disable(index.value)) else old(Slots())
    {
      if index == None || index.value < 0 || index.value >= multiKeySize {
        return false;
      }
      if !saved {
        return false;
      }
      ok := Update(keys, status[index.value := MANUALLY_DISABLED], disabledTime, disabledReason, indexed);
    }

    method EnableKey(index: Option<int>, saved: bool, indexed: bool) returns (ok: bool)
      requires Valid()
      modifies this
      ensures Valid() && keys == old(keys) && channelStatus == old(channelStatus)
      ensures ok == (saved && indexed && index.Some? && 0 <= index.value < |keys|)
      ensures Slots() == if saved && index.Some? then Act(old(Slots()), EnableOne(index.value)) else old(Slots())
    {
      if index == None || index.value < 0 || index.value >= multiKeySize {
        return false;
      }
      if !saved {
        return false;
      }
      var i := index.value;
      ok := Update(keys, status - {i}, disabledTime - {i}, disabledReason - {i}, indexed);
    }

    method EnableAll(saved: bool, indexed: bool) returns (ok: bool)
      requires Valid()
      modifies this
      ensures Valid() && keys == old(keys) && channelStatus == old(channelStatus)
      ensures ok == (saved && indexed)
      ensures Slots() == if saved then Act(old(Slots()), Action.EnableAll) else old(Slots())
    {
      if !saved {
        return false;
      }
      ok := Update(keys, map[], map[], map[], indexed);
    }

    method DisableAll(saved: bool, indexed: bool) returns (ok: bool)
      requires Valid()
      modifies this
      ensures Valid() && keys == old(keys) && channelStatus == old(channelStatus)
      ensures ok == (saved && indexed && exists i :: 0 <= i < |keys| && old(Slots())[i].status == ENABLED)
      ensures Slots() == if saved then Act(old(Slots()), Action.DisableAll) else old(Slots())
    {
      var newStatus: map<nat, int>, count := status, 0;
      for i := 0 to multiKeySize
        invariant Sparse(newStatus, |keys|)
        invariant forall j :: 0 <= j < |keys| ==>
                    StatusAt(newStatus, j) ==
                    (if j < i && StatusAt(status, j) == ENABLED then MANUALLY_DISABLED else StatusAt(status, j))
        invariant count >= 0 && (count > 0 <==> exists j :: 0 <= j < i && StatusAt(status, j) == ENABLED)
        invariant unchanged(this)
      {
        if StatusAt(newStatus, i) == ENABLED {
          newStatus := newStatus[i := MANUALLY_DISABLED];
          count := count + 1;
        }
      }
      assert forall j :: 0 <= j < |keys| ==> Slots()[j].status == StatusAt(status, j);
      if count == 0 || !saved {
        return false;
      }
      ok := Update(keys, newStatus, disabledTime, disabledReason, indexed);
    }

    method DeleteKey(index: Option<int>, saved: bool, indexed: bool) returns (ok: bool)
      requires Valid()
      modifies this
      ensures Valid() && channelStatus == old(channelStatus)
      ensures ok == (saved && indexed && index.Some? && 0 <= index.value < old(|keys|) && old(|keys|) > 1)
      ensures Slots() == if saved && index.Some? then Act(old(Slots()), Delete(index.value)) else old(Slots())
    {
      if index == None || index.value < 0 || index.value >= multiKeySize {
        return false;
      }
      var remaining, ns, nt, nr := CutOut(keys, status, disabledTime, disabledReason, index.value);
      assert |SlotsOf(remaining, ns, nt, nr)| == |remaining|;
      if |remaining| == 0 || !saved {
        return false;
      }
      NoneBeyond(ns, |remaining|);
      ok := Update(remaining, ns, nt, nr, indexed);
    }

    method DeleteDisabledKeys(saved: bool, indexed: bool) returns (ok: bool, deleted: nat)
      requires Valid()
      modifies this
      ensures Valid() && channelStatus == old(channelStatus)
      ensures ok == (saved && indexed && exists i :: 0 <= i < |old(Slots())| && old(Slots())[i].status == AUTO_DISABLED)
      ensures deleted == |old(Slots())| - |Survivors(old(Slots()))|
      ensures Slots() == if saved then Act(old(Slots()), DeleteDisabled) else old(Slots())
    {
      ghost var slots := Slots();
      var remaining, ns, nt, nr;
      remaining, ns, nt, nr, deleted := Sift(keys, status, disabledTime, disabledReason);
      assert |SlotsOf(remaining, ns, nt, nr)| == |remaining|;
      assert forall j :: 0 <= j < |keys| ==> slots[j].status == StatusAt(status, j);
      if deleted == 0 || !saved {
        return false, deleted;
      }
      NoneBeyond(ns, |remaining|);
      ok := Update(remaining, ns, nt, nr, indexed);
      if remaining == [] {
        assert Slots() == EnableEvery(slots);
      }
    }

    /** The append branch of UpdateChannel. */
    method AppendKeys(lines: seq<string>, saved: bool, indexed: bool) returns (ok: bool)
      requires Valid()
      modifies this
      ensures Valid() && channelStatus == old(channelStatus)
      ensures ok == (saved && indexed)
      ensures Slots() == if saved then Act(old(Slots()), Append(lines)) else old(Slots())
    {
      var all := Raw(lines);
      assert KeysOf(Slots()) == keys;
      if |keys| > 0 {
        var deduped := Dedupe(keys, lines);
        all := keys + deduped;
        SlotsGrow(keys, deduped, status, disabledTime, disabledReason);
      } else {
        SlotsGrow(keys, all, status, disabledTime, disabledReason);
        assert keys + all == all;
      }
      if !saved {
        return false;
      }
      NoneBeyond(status, |all|);
      ok := Update(all, status, disabledTime, disabledReason, indexed);
    }

    /** UpdateChannel with keys that take the place of the stored ones. Each takes over what its position had. The
        invariant survives exactly if no key beyond the new ones had a disabled time or reason. */
    method ReplaceKeys(lines: seq<string>, saved: bool, indexed: bool) returns (ok: bool)
      requires Valid()
      modifies this
      ensures ok == (saved && indexed) && channelStatus == old(channelStatus)
      ensures if saved && Raw(lines) != [] then keys == Raw(lines) && Slots() == Replaced(old(Slots()), Raw(lines))
              else Valid() && Slots() == old(Slots())
      ensures saved && Raw(lines) != [] ==> (Valid() <==> NoDetailsFrom(old(Slots()), |Raw(lines)|))
    {
      if !saved {
        return false;
      }
      ReplacedSlots(keys, Raw(lines), status, disabledTime, disabledReason);
      NoneBeyond(status, |keys|);
      ok := Update(Raw(lines), status, disabledTime, disabledReason, indexed);
    }

    /** UpdateChannelStatus on the stored channel: a key was reported to have changed status. A report of the status
        the channel itself has is dropped. With no keys the report is about the channel; with no enabled key left the
        channel is disabled too. */
    method ReportKey(usingKey: string, newStatus: int, reason: string, now: int, saved: bool) returns (stored: bool)
      requires Valid()
      modifies this
      ensures Valid() && keys == old(keys)
      ensures stored == (saved && newStatus != old(channelStatus))
      ensures !stored ==> Slots() == old(Slots()) && channelStatus == old(channelStatus)
      ensures stored ==> Slots() == Act(old(Slots()), Report(usingKey, newStatus, reason, now))
      ensures stored ==>
        channelStatus == if |keys| == 0 then newStatus
                         else if forall i :: 0 <= i < |keys| ==> Slots()[i].status != ENABLED then AUTO_DISABLED
                         else old(channelStatus)
    {
      if channelStatus == newStatus || !saved {
        return false;
      }
      stored := true;
      assert KeysOf(Slots()) == keys;
      if |keys| == 0 {
        channelStatus := newStatus;
        return;
      }
      var none;
      status, disabledTime, disabledReason, none :=
        MarkKey(keys, status, disabledTime, disabledReason, usingKey, newStatus, reason, now);
      if none {
        channelStatus := AUTO_DISABLED;
      }
    }
  }

  lemma KnownAppend(keys: seq<string>, key: string)
    ensures Known(keys + [key]) == Known(keys) + if Trim(key) == "" then {} else {Trim(key)}
  {
    var all := keys + [key];
    assert forall i :: 0 <= i < |keys| ==> all[i] == keys[i];
    assert all[|keys|] == key;
  }

  /** The search loop's position: the first match, or the end. */
  lemma {:induction false} FirstIndexFound(keys: seq<string>, key: string, i: nat)
    requires i <= |keys| && key !in keys[..i] && (i < |keys| ==> keys[i] == key)
    ensures FirstIndex(keys, key) == if i < |keys| then i else 0
  {
    if i == |keys| {
      assert keys[..i] == keys;
    } else if i > 0 {
      assert keys[0] == keys[..i][0];
      assert keys[1..][..i - 1] == keys[..i][1..];
      FirstIndexFound(keys[1..], key, i - 1);
      assert keys[1..][i - 1] == key;
    }
  }

  // ----- what the deletions mean -----

  /** Positions of the keys that are not auto-disabled. */
  function KeptIndices(slots: seq<Slot>): seq<nat> {
    if slots == [] then []
    else
      var k := |slots| - 1;
      KeptIndices(slots[..k]) + if slots[k].status == AUTO_DISABLED then [] else [k]
  }

  /** What get_key_status shows of a slot: time and reason only while it is disabled. */
  function Observed(s: Slot): Slot {
    if s.status == ENABLED then Enable(s) else s
  }

  ghost predicate Increasing(ix: seq<nat>, bound: nat) {
    (forall a, b :: 0 <= a < b < |ix| ==> ix[a] < ix[b]) && forall a :: 0 <= a < |ix| ==> ix[a] < bound
  }

  lemma {:induction false} KeptAscend(slots: seq<Slot>)
    ensures Increasing(KeptIndices(slots), |slots|) && |Survivors(slots)| == |KeptIndices(slots)|
  {
    if slots != [] { KeptAscend(slots[..|slots| - 1]); }
  }

  lemma {:induction false} KeptExactly(slots: seq<Slot>, i: nat)
    requires i < |slots|
    ensures slots[i].status != AUTO_DISABLED <==> i in KeptIndices(slots)
  {
    var k := |slots| - 1;
    KeptAscend(slots[..k]);
    if i < k { KeptExactly(slots[..k], i); }
  }

  lemma {:induction false} SurvivorAt(slots: seq<Slot>, j: nat)
    requires j < |KeptIndices(slots)|
    ensures KeptIndices(slots)[j] < |slots| && j < |Survivors(slots)|
    ensures Survivors(slots)[j] == Observed(slots[KeptIndices(slots)[j]])
  {
    KeptAscend(slots);
    var k := |slots| - 1;
    KeptAscend(slots[..k]);
    if j < |KeptIndices(slots[..k])| { SurvivorAt(slots[..k], j); }
  }

  /** delete_disabled_keys keeps exactly the keys that are not auto-disabled, in order, each with everything that is
      shown of it. */
  lemma SurvivorsMeaning(slots: seq<Slot>)
    ensures var ix, kept := KeptIndices(slots), Survivors(slots);
            && |kept| == |ix| && Increasing(ix, |slots|)
            && (forall j :: 0 <= j < |ix| ==> kept[j] == Observed(slots[ix[j]]))
            && (forall i :: 0 <= i < |slots| ==> (slots[i].status != AUTO_DISABLED <==> i in ix))
  {
    KeptAscend(slots);
    var ix := KeptIndices(slots);
    forall j | 0 <= j < |ix| ensures Survivors(slots)[j] == Observed(slots[ix[j]]) { SurvivorAt(slots, j); }
    forall i | 0 <= i < |slots| ensures slots[i].status != AUTO_DISABLED <==> i in ix { KeptExactly(slots, i); }
  }

  lemma NoSurvivors(slots: seq<Slot>)
    ensures Survivors(slots) == [] <==> forall i :: 0 <= i < |slots| ==> slots[i].status == AUTO_DISABLED
  {
    SurvivorsMeaning(slots);
    var ix := KeptIndices(slots);
    if ix != [] {
      assert ix[0] in ix && slots[ix[0]].status != AUTO_DISABLED;
    }
  }

  /** The saved action leaves exactly the keys that are not auto-disabled if and only if some key is not auto-disabled
      or there is none to delete: when every key is auto-disabled, nothing is deleted and every key comes back enabled.
      */
  lemma DeleteDisabledExact(slots: seq<Slot>)
    requires slots != []
    ensures KeysOf(Act(slots, DeleteDisabled)) == KeysOf(Survivors(slots))
            <==> exists i :: 0 <= i < |slots| && slots[i].status != AUTO_DISABLED
    ensures (forall i :: 0 <= i < |slots| ==> slots[i].status == AUTO_DISABLED)
            ==> Act(slots, DeleteDisabled) == EnableEvery(slots)
  {
    NoSurvivors(slots);
    if forall i :: 0 <= i < |slots| ==> slots[i].status != AUTO_DISABLED {
      AllSurvive(slots);
    } else if Survivors(slots) == [] {
      assert |KeysOf(EnableEvery(slots))| == |slots| > 0;
    }
  }

  lemma {:induction false} AllSurvive(slots: seq<Slot>)
    requires forall i :: 0 <= i < |slots| ==> slots[i].status != AUTO_DISABLED
    ensures KeysOf(Survivors(slots)) == KeysOf(slots)
  {
    if slots != [] {
      var k := |slots| - 1;
      AllSurvive(slots[..k]);
      assert KeysOf(slots) == KeysOf(slots[..k]) + [slots[k].key];
    }
  }

  /** A status report changes the reported key's slot if and only if that key is still present; otherwise the first key
      is hit. */
  lemma ReportHits(slots: seq<Slot>, key: string, status: int, reason: string, now: int)
    requires slots != []
    ensures var i := FirstIndex(KeysOf(slots), key);
            && i < |slots| && (slots[i].key == key <==> key in KeysOf(slots)) && (key !in KeysOf(slots) ==> i == 0)
            && Act(slots, Report(key, status, reason, now)) == slots[i := Marked(slots[i], status, reason, now)]
  {
    var i := FirstIndex(KeysOf(slots), key);
    FirstIndexBound(KeysOf(slots), key);
    assert KeysOf(slots)[i] == slots[i].key;
  }

  // ----- appending -----

  ghost predicate Distinct(keys: seq<string>) {
    forall i, j :: 0 <= i < j < |keys| ==> keys[i] != keys[j]
  }

  lemma {:induction false} FreshDistinct(known: set<string>, lines: seq<string>)
    ensures Distinct(Fresh(known, lines))
  {
    if lines != [] { FreshDistinct(known, lines[..|lines| - 1]); }
  }

  ghost predicate Listed(lines: seq<string>, k: string) {
    exists i :: 0 <= i < |lines| && Trim(lines[i]) == k
  }

  lemma ListedSnoc(lines: seq<string>, k: string)
    requires lines != []
    ensures Listed(lines, k) <==> Listed(lines[..|lines| - 1], k) || Trim(lines[|lines| - 1]) == k
  {
    var n := |lines| - 1;
    var before := lines[..n];
    assert forall i :: 0 <= i < n ==> before[i] == lines[i];
    if Listed(before, k) {
      var i :| 0 <= i < n && Trim(before[i]) == k;
      assert Trim(lines[i]) == k;
    }
  }

  lemma {:induction false} FreshMembers(known: set<string>, lines: seq<string>, k: string)
    ensures k in Fresh(known, lines) <==> k != "" && k !in known && Listed(lines, k)
  {
    if lines != [] {
      FreshMembers(known, lines[..|lines| - 1], k);
      ListedSnoc(lines, k);
    }
  }

  /** Every appended line ends up known exactly once: the new keys are trimmed, non-blank, distinct and not known
      before. */
  lemma FreshMeaning(known: set<string>, lines: seq<string>)
    ensures Distinct(Fresh(known, lines))
    ensures forall k :: k in Fresh(known, lines) <==> k != "" && k !in known && Listed(lines, k)
  {
    FreshDistinct(known, lines);
    forall k ensures k in Fresh(known, lines) <==> k != "" && k !in known && Listed(lines, k) {
      FreshMembers(known, lines, k);
    }
  }

  // ----- whole runs -----

  /** `a` is the part of `b` at the increasing positions `ix`. */
  ghost predicate Selects<T>(ix: seq<nat>, a: seq<T>, b: seq<T>) {
    |ix| == |a| && Increasing(ix, |b|) && forall i :: 0 <= i < |a| ==> a[i] == b[ix[i]]
  }

  /** `a` is `b` with some elements left out. */
  ghost predicate Subsequence<T>(a: seq<T>, b: seq<T>) {
    exists ix :: Selects(ix, a, b)
  }

  lemma SubsequenceSelf<T>(a: seq<T>)
    ensures Subsequence(a, a)
  {
    var ix: seq<nat> := seq(|a|, i => i);
    assert Selects(ix, a, a);
  }

  lemma SubsequenceTrans<T>(a: seq<T>, b: seq<T>, c: seq<T>)
    requires Subsequence(a, b) && Subsequence(b, c)
    ensures Subsequence(a, c)
  {
    var ix :| Selects(ix, a, b);
    var jx :| Selects(jx, b, c);
    var kx: seq<nat> := seq(|a|, i requires 0 <= i < |a| => jx[ix[i]]);
    assert Selects(kx, a, c);
  }

  lemma SubsequenceAppend<T>(a: seq<T>, b: seq<T>, c: seq<T>)
    requires Subsequence(a, b)
    ensures Subsequence(a + c, b + c)
  {
    var ix :| Selects(ix, a, b);
    var jx: seq<nat> := ix + seq(|c|, i => |b| + i);
    assert Selects(jx, a + c, b + c);
  }

  lemma SurvivingKeys(slots: seq<Slot>)
    ensures Subsequence(KeysOf(Survivors(slots)), KeysOf(slots))
  {
    SurvivorsMeaning(slots);
    assert Selects(KeptIndices(slots), KeysOf(Survivors(slots)), KeysOf(slots));
  }

  lemma CutOne<T>(keys: seq<T>, i: nat)
    requires i < |keys|
    ensures Subsequence(keys[..i] + keys[i + 1..], keys)
  {
    var ix: seq<nat> := seq(|keys| - 1, j => if j < i then j else j + 1);
    assert Selects(ix, keys[..i] + keys[i + 1..], keys);
  }

  /** The keys an action adds. */
  function AddedBy(slots: seq<Slot>, a: Action): seq<string> {
    if a.Append? then if slots == [] then Raw(a.lines) else Fresh(Known(KeysOf(slots)), a.lines) else []
  }

  lemma StatusActionsKeepKeys(slots: seq<Slot>, a: Action)
    requires !a.Delete? && !a.DeleteDisabled? && !a.Append?
    ensures KeysOf(Act(slots, a)) == KeysOf(slots)
  {
  }

  lemma DeleteDisabledKeysOrder(slots: seq<Slot>)
    ensures Subsequence(KeysOf(Act(slots, DeleteDisabled)), KeysOf(slots))
  {
    SubsequenceSelf(KeysOf(slots));
    SurvivingKeys(slots);
    assert KeysOf(EnableEvery(slots)) == KeysOf(slots);
  }

  lemma DeleteKeyOrder(slots: seq<Slot>, i: int)
    ensures Subsequence(KeysOf(Act(slots, Delete(i))), KeysOf(slots))
  {
    if 0 <= i < |slots| && |slots| > 1 {
      assert KeysOf(slots[..i] + slots[i + 1..]) == KeysOf(slots)[..i] + KeysOf(slots)[i + 1..];
      CutOne(KeysOf(slots), i);
    } else {
      SubsequenceSelf(KeysOf(slots));
    }
  }

  /** One action deletes some keys or appends some: it never reorders or replaces a key. */
  lemma ActKeys(slots: seq<Slot>, a: Action)
    ensures Subsequence(KeysOf(Act(slots, a)), KeysOf(slots) + AddedBy(slots, a))
  {
    var keys := KeysOf(slots);
    if a.Append? {
      assert KeysOf(Act(slots, a)) == keys + AddedBy(slots, a);
      SubsequenceSelf(keys + AddedBy(slots, a));
    } else {
      assert keys + [] == keys;
      if a.Delete? {
        DeleteKeyOrder(slots, a.index);
      } else if a.DeleteDisabled? {
        DeleteDisabledKeysOrder(slots);
      } else {
        StatusActionsKeepKeys(slots, a);
        SubsequenceSelf(keys);
      }
    }
  }

  function Run(slots: seq<Slot>, actions: seq<Action>): seq<Slot> {
    if actions == [] then slots else Act(Run(slots, actions[..|actions| - 1]), actions[|actions| - 1])
  }

  /** Everything appended during a run, in order. */
  function AddedIn(slots: seq<Slot>, actions: seq<Action>): seq<string> {
    if actions == [] then []
    else
      var before := actions[..|actions| - 1];
      AddedIn(slots, before) + AddedBy(Run(slots, before), actions[|actions| - 1])
  }

  /** Over every run of actions, the keys are the initial keys followed by the appended ones with some left out: order
      is never disturbed, so positions only move by deletion. */
  lemma {:induction false} RunKeepsOrder(slots: seq<Slot>, actions: seq<Action>)
    ensures Subsequence(KeysOf(Run(slots, actions)), KeysOf(slots) + AddedIn(slots, actions))
  {
    var keys := KeysOf(slots);
    if actions == [] {
      SubsequenceSelf(keys);
      assert keys + [] == keys;
    } else {
      var before, a := actions[..|actions| - 1], actions[|actions| - 1];
      RunKeepsOrder(slots, before);
      var mid := Run(slots, before);
      ActKeys(mid, a);
      OneMoreAction(keys, AddedIn(slots, before), KeysOf(mid), AddedBy(mid, a), KeysOf(Act(mid, a)));
    }
  }

  lemma OneMoreAction<T>(keys: seq<T>, added: seq<T>, mid: seq<T>, more: seq<T>, next: seq<T>)
    requires Subsequence(mid, keys + added) && Subsequence(next, mid + more)
    ensures Subsequence(next, keys + (added + more))
  {
    SubsequenceAppend(mid, keys + added, more);
    assert keys + added + more == keys + (added + more);
    SubsequenceTrans(next, mid + more, keys + added + more);
  }

  // ----- statuses stay attached -----

  /** Everything that is shown of the slots. */
  function ShownSlots(slots: seq<Slot>): seq<Slot> {
    seq(|slots|, i requires 0 <= i < |slots| => Observed(slots[i]))
  }

  /** An action that deletes or appends keys, with a key left to keep. */
  predicate Structural(slots: seq<Slot>, a: Action) {
    a.Delete? || a.Append? || (a.DeleteDisabled? && exists i :: 0 <= i < |slots| && slots[i].status != AUTO_DISABLED)
  }

  predicate StructuralRun(slots: seq<Slot>, actions: seq<Action>) {
    actions == [] ||
    var before := actions[..|actions| - 1];
    StructuralRun(slots, before) && Structural(Run(slots, before), actions[|actions| - 1])
  }

  lemma SurvivingSlots(slots: seq<Slot>)
    ensures Subsequence(ShownSlots(Survivors(slots)), ShownSlots(slots))
  {
    SurvivorsMeaning(slots);
    assert Selects(KeptIndices(slots), ShownSlots(Survivors(slots)), ShownSlots(slots));
  }

  lemma DeleteKeepsSlots(slots: seq<Slot>, i: int)
    ensures Subsequence(ShownSlots(Act(slots, Delete(i))), ShownSlots(slots))
  {
    if 0 <= i < |slots| && |slots| > 1 {
      assert ShownSlots(slots[..i] + slots[i + 1..]) == ShownSlots(slots)[..i] + ShownSlots(slots)[i + 1..];
      CutOne(ShownSlots(slots), i);
    } else {
      SubsequenceSelf(ShownSlots(slots));
    }
  }

  lemma ActSlots(slots: seq<Slot>, a: Action)
    requires Structural(slots, a)
    ensures Subsequence(ShownSlots(Act(slots, a)), ShownSlots(slots) + NewSlots(AddedBy(slots, a)))
  {
    var shown := ShownSlots(slots);
    if a.Append? {
      assert ShownSlots(Act(slots, a)) == shown + NewSlots(AddedBy(slots, a));
      SubsequenceSelf(shown + NewSlots(AddedBy(slots, a)));
    } else {
      assert NewSlots([]) == [] && shown + [] == shown;
      if a.Delete? {
        DeleteKeepsSlots(slots, a.index);
      } else {
        NoSurvivors(slots);
        SubsequenceSelf(shown);
        SurvivingSlots(slots);
      }
    }
  }

  /** Over every run of deletions and additions that always leaves a key, every key that is left has the status, time
      and reason it came with, and in the same order, however often the positions were recomputed. */
  lemma {:induction false} RunKeepsSlots(slots: seq<Slot>, actions: seq<Action>)
    requires StructuralRun(slots, actions)
    ensures Subsequence(ShownSlots(Run(slots, actions)), ShownSlots(slots) + NewSlots(AddedIn(slots, actions)))
  {
    var shown := ShownSlots(slots);
    if actions == [] {
      SubsequenceSelf(shown);
      assert NewSlots([]) == [] && shown + [] == shown;
    } else {
      var before, a := actions[..|actions| - 1], actions[|actions| - 1];
      RunKeepsSlots(slots, before);
      var mid := Run(slots, before);
      ActSlots(mid, a);
      var added, more := AddedIn(slots, before), AddedBy(mid, a);
      assert NewSlots(added + more) == NewSlots(added) + NewSlots(more);
      OneMoreAction(shown, NewSlots(added), ShownSlots(mid), NewSlots(more), ShownSlots(Act(mid, a)));
    }
  }

  // ----- following one key through a run -----

  /** Where an action moves the slot at `p`, if it keeps it. */
  function MovedTo(slots: seq<Slot>, a: Action, p: nat): Option<nat> {
    if p >= |slots| then None
    else match a
      case Delete(i) =>
        if !(0 <= i < |slots|) || |slots| == 1 || p < i then Some(p) else if p == i then None else Some(p - 1)
      case DeleteDisabled =>
        if Survivors(slots) == [] then Some(p)
        else if slots[p].status == AUTO_DISABLED then None
        else Some(|KeptIndices(slots[..p])|)
      case _ => Some(p)
  }

  /** The action is about what is shown of the slot at `p`: it names it, or it names all. */
  predicate Addresses(slots: seq<Slot>, a: Action, p: nat) {
    match a
    case Disable(i) => i == p
    case EnableOne(i) => i == p
    case EnableAll => true
    case DisableAll => true
    case Report(key, _, _, _) => FirstIndex(KeysOf(slots), key) == p
    case DeleteDisabled => Survivors(slots) == []
    case _ => false
  }

  /** What such an action sets. */
  function Sets(s: Slot, a: Action): Slot {
    match a
    case Disable(_) => s.(status := MANUALLY_DISABLED)
    case DisableAll => if s.status == ENABLED then s.(status := MANUALLY_DISABLED) else s
    case Report(_, status, reason, now) => Marked(s, status, reason, now)
    case _ => Enable(s)
  }

  /** The rank of a kept position among the kept ones. */
  lemma {:induction false} KeptRank(slots: seq<Slot>, p: nat)
    requires p < |slots| && slots[p].status != AUTO_DISABLED
    ensures var j := |KeptIndices(slots[..p])|; j < |KeptIndices(slots)| && KeptIndices(slots)[j] == p
  {
    var k := |slots| - 1;
    if p < k {
      KeptRank(slots[..k], p);
      assert slots[..k][..p] == slots[..p];
    }
  }

  lemma DeleteAt(slots: seq<Slot>, i: int, p: nat)
    requires p < |slots| && MovedTo(slots, Delete(i), p).Some?
    ensures var q := MovedTo(slots, Delete(i), p).value;
      q < |Act(slots, Delete(i))| && Act(slots, Delete(i))[q] == slots[p]
  {
  }

  lemma DeleteDisabledAt(slots: seq<Slot>, p: nat)
    requires p < |slots| && MovedTo(slots, DeleteDisabled, p).Some?
    ensures var q := MovedTo(slots, DeleteDisabled, p).value;
      && q < |Act(slots, DeleteDisabled)|
      && Observed(Act(slots, DeleteDisabled)[q]) ==
         if Addresses(slots, DeleteDisabled, p) then Enable(slots[p]) else Observed(slots[p])
  {
    NoSurvivors(slots);
    if Survivors(slots) != [] {
      KeptRank(slots, p);
      SurvivorAt(slots, |KeptIndices(slots[..p])|);
      if forall i :: 0 <= i < |slots| ==> slots[i].status != AUTO_DISABLED { AllKept(slots[..p]); }
    }
  }

  lemma {:induction false} AllKept(slots: seq<Slot>)
    requires forall i :: 0 <= i < |slots| ==> slots[i].status != AUTO_DISABLED
    ensures |KeptIndices(slots)| == |slots|
  {
    if slots != [] { AllKept(slots[..|slots| - 1]); }
  }

  /** One action, seen from one slot: it is kept at its new position, and what is shown of it changes only if it is
      addressed. */
  lemma ActAt(slots: seq<Slot>, a: Action, p: nat)
    requires MovedTo(slots, a, p).Some?
    ensures var q := MovedTo(slots, a, p).value;
      && q < |Act(slots, a)| && p < |slots|
      && Observed(Act(slots, a)[q]) == Observed(if Addresses(slots, a, p) then Sets(slots[p], a) else slots[p])
  {
    match a {
      case Delete(i) => DeleteAt(slots, i, p);
      case DeleteDisabled => DeleteDisabledAt(slots, p);
      case _ =>
    }
  }

  /** Where the slot first at `p` is after `k` actions of a run. */
  function Follow(slots: seq<Slot>, actions: seq<Action>, p: nat, k: nat): Option<nat>
    requires k <= |actions|
  {
    if k == 0 then if p < |slots| then Some(p) else None
    else
      var before := Follow(slots, actions, p, k - 1);
      if before == None then None else MovedTo(Run(slots, actions[..k - 1]), actions[k - 1], before.value)
  }

  lemma RunNext(slots: seq<Slot>, actions: seq<Action>, k: nat)
    requires k < |actions|
    ensures Run(slots, actions[..k + 1]) == Act(Run(slots, actions[..k]), actions[k])
  {
    assert actions[..k + 1][..k] == actions[..k];
  }

  /** The action at `k` addresses the slot being followed. */
  predicate AddressedAt(slots: seq<Slot>, actions: seq<Action>, p: nat, k: nat)
    requires k < |actions|
  {
    var q := Follow(slots, actions, p, k);
    q.Some? && Addresses(Run(slots, actions[..k]), actions[k], q.value)
  }

  lemma {:induction false} FollowedIsThere(slots: seq<Slot>, actions: seq<Action>, p: nat, k: nat)
    requires k <= |actions| && Follow(slots, actions, p, k).Some?
    ensures Follow(slots, actions, p, k).value < |Run(slots, actions[..k])|
  {
    if k > 0 {
      RunNext(slots, actions, k - 1);
      ActAt(Run(slots, actions[..k - 1]), actions[k - 1], Follow(slots, actions, p, k - 1).value);
    }
  }

  /** What is shown of the followed slot after `k` actions. */
  function ShownAt(slots: seq<Slot>, actions: seq<Action>, p: nat, k: nat): Option<Slot>
    requires k <= |actions|
  {
    var q, now := Follow(slots, actions, p, k), Run(slots, actions[..k]);
    if q.Some? && q.value < |now| then Some(Observed(now[q.value])) else None
  }

  lemma StepShown(slots: seq<Slot>, actions: seq<Action>, p: nat, k: nat)
    requires k < |actions| && Follow(slots, actions, p, k + 1).Some?
    ensures Follow(slots, actions, p, k).Some? && ShownAt(slots, actions, p, k).Some?
    ensures var q, now := Follow(slots, actions, p, k).value, Run(slots, actions[..k]);
      && q < |now|
      && ShownAt(slots, actions, p, k + 1) ==
         Some(Observed(if AddressedAt(slots, actions, p, k) then Sets(now[q], actions[k]) else now[q]))
  {
    FollowedIsThere(slots, actions, p, k);
    RunNext(slots, actions, k);
    ActAt(Run(slots, actions[..k]), actions[k], Follow(slots, actions, p, k).value);
  }

  /** While no action addresses it, what is shown of a key stays, however often the positions are recomputed. */
  lemma {:induction false} UnaddressedStays(slots: seq<Slot>, actions: seq<Action>, p: nat, k: nat, n: nat)
    requires k <= n <= |actions| && Follow(slots, actions, p, n).Some?
    requires forall j :: k <= j < n ==> !AddressedAt(slots, actions, p, j)
    ensures ShownAt(slots, actions, p, n).Some? && ShownAt(slots, actions, p, n) == ShownAt(slots, actions, p, k)
  {
    FollowedIsThere(slots, actions, p, n);
    if k < n {
      StepShown(slots, actions, p, n - 1);
      UnaddressedStays(slots, actions, p, k, n - 1);
    }
  }

  /** Over every run of any actions: what is shown of a key that is left is what the last action addressed to it set,
      applied to the slot it had then, under all re-indexing. The run may start right after the key was added. */
  lemma LastActionDecides(slots: seq<Slot>, actions: seq<Action>, p: nat, k: nat)
    requires k < |actions| && Follow(slots, actions, p, |actions|).Some? && AddressedAt(slots, actions, p, k)
    requires forall j :: k < j < |actions| ==> !AddressedAt(slots, actions, p, j)
    ensures var q, then_ := Follow(slots, actions, p, k).value, Run(slots, actions[..k]);
      && q < |then_|
      && ShownAt(slots, actions, p, |actions|) == Some(Observed(Sets(then_[q], actions[k])))
  {
    UnaddressedStays(slots, actions, p, k + 1, |actions|);
    FollowedEarlier(slots, actions, p, k + 1, |actions|);
    StepShown(slots, actions, p, k);
  }

  lemma {:induction false} FollowedEarlier(slots: seq<Slot>, actions: seq<Action>, p: nat, k: nat, n: nat)
    requires k <= n <= |actions| && Follow(slots, actions, p, n).Some?
    ensures Follow(slots, actions, p, k).Some?
  {
    if k < n { FollowedEarlier(slots, actions, p, k, n - 1); }
  }

  lemma MoveKeepsOrder(slots: seq<Slot>, a: Action, p: nat, r: nat)
    requires p < r && MovedTo(slots, a, p).Some? && MovedTo(slots, a, r).Some?
    ensures MovedTo(slots, a, p).value < MovedTo(slots, a, r).value
  {
    if a.DeleteDisabled? && Survivors(slots) != [] {
      KeptRank(slots[..r], p);
      assert slots[..r][..p] == slots[..p];
    }
  }

  /** Two followed keys never change places. */
  lemma {:induction false} FollowKeepsOrder(slots: seq<Slot>, actions: seq<Action>, p: nat, r: nat, k: nat)
    requires p < r && k <= |actions| && Follow(slots, actions, p, k).Some? && Follow(slots, actions, r, k).Some?
    ensures Follow(slots, actions, p, k).value < Follow(slots, actions, r, k).value
  {
    if k > 0 {
      FollowKeepsOrder(slots, actions, p, r, k - 1);
      MoveKeepsOrder(Run(slots, actions[..k - 1]), actions[k - 1],
                     Follow(slots, actions, p, k - 1).value, Follow(slots, actions, r, k - 1).value);
    }
  }
}
