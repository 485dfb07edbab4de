/**
  The expiring map of verification codes (common/verification.go). Times are nanoseconds read from one clock that never
  goes back; every operation runs under the one mutex, so a history of calls is a sequence.
*/
module Verification {
  import opened Base

  const MAX_SIZE: nat := 10
  const VALID_MINUTES: int := 10

  const NANOS: int := 1_000_000_000

  datatype Value = Value(code: string, time: int)

  /** Conversion of a duration to whole seconds truncates toward zero. */
  function WholeSeconds(d: int): int {
    if d >= 0 then d / NANOS else -((-d) / NANOS)
  }

  predicate Expired(v: Value, now: int) {
    WholeSeconds(now - v.time) >= VALID_MINUTES * 60
  }

  function Unexpired(m: map<string, Value>, now: int): map<string, Value> {
    map k | k in m && !Expired(m[k], now) :: m[k]
  }

  // ----- the map -----

  class Codes {
    var pairs: map<string, Value>

    constructor ()
      ensures pairs == map[]
    {
      pairs := map[];
    }

    /** Visits the entries in any order and deletes the expired ones. */
    method RemoveExpiredPairs(now: int)
      modifies this
      ensures pairs == Unexpired(old(pairs), now)
    {
      var left := pairs.Keys;
      while left != {}
        invariant left <= old(pairs).Keys && pairs.Keys <= old(pairs).Keys
        invariant forall k :: k in pairs ==> pairs[k] == old(pairs)[k]
        invariant forall k :: k in old(pairs) ==> (k in pairs <==> k in left || !Expired(old(pairs)[k], now))
        decreases |left|
      {
        var key :| key in left;
        left := left - {key};
        if Expired(pairs[key], now) {
          pairs := pairs - {key};
        }
      }
    }

    method Register(key: string, code: string, purpose: string, now: int, sweep: int)
      modifies this
      ensures pairs == Next(old(pairs), Op.Register(key, code, purpose, now, sweep))
      ensures |pairs| > MAX_SIZE ==> forall k :: k in pairs ==> !Expired(pairs[k], sweep)
    {
      pairs := pairs[purpose + key := Value(code, now)];
      if |pairs| > MAX_SIZE {
        RemoveExpiredPairs(sweep);
      }
    }

    method Verify(key: string, code: string, purpose: string, now: int) returns (ok: bool)
      ensures ok == Accepts(pairs, purpose + key, code, now)
    {
      if purpose + key !in pairs || Expired(pairs[purpose + key], now) {
        return false;
      }
      ok := code == pairs[purpose + key].code;
    }

    method DeleteKey(key: string, purpose: string)
      modifies this
      ensures forall now :: pairs == Next(old(pairs), Op.Delete(key, purpose, now))
    {
      pairs := pairs - {purpose + key};
    }
  }

  predicate Accepts(m: map<string, Value>, name: string, code: string, now: int) {
    name in m && !Expired(m[name], now) && code == m[name].code
  }

  // ----- runs -----

  datatype Op =
    | Register(key: string, code: string, purpose: string, at: int, sweep: int)
    | Verify(key: string, code: string, purpose: string, at: int)
    | Delete(key: string, purpose: string, at: int)

  function Next(m: map<string, Value>, op: Op): map<string, Value> {
    match op
    case Register(key, code, purpose, at, sweep) =>
      var put := m[purpose + key := Value(code, at)];
      if |put| > MAX_SIZE then Unexpired(put, sweep) else put
    case Verify(_, _, _, _) => m
    case Delete(key, purpose, _) => m - {purpose + key}
  }

  function Exec(ops: seq<Op>): map<string, Value> {
    if ops == [] then map[] else Next(Exec(ops[..|ops| - 1]), ops[|ops| - 1])
  }

  /** When the call returned. */
  function Ended(op: Op): int {
    if op.Register? then op.sweep else op.at
  }

  /** The clock never goes back, within a call or between calls. */
  predicate Clocked(ops: seq<Op>) {
    && (forall i :: 0 <= i < |ops| ==> ops[i].at <= Ended(ops[i]))
    && (forall i, j :: 0 <= i < j < |ops| ==> Ended(ops[i]) <= ops[j].at)
  }

  /** Every call is for one of the purposes. */
  predicate Within(ops: seq<Op>, purposes: set<string>) {
    forall i :: 0 <= i < |ops| ==> ops[i].purpose in purposes
  }

  /** No purpose starts with another, as holds for the two in use, "v" and "r". */
  predicate PrefixFree(purposes: set<string>) {
    forall p, q :: p in purposes && q in purposes && p <= q ==> p == q
  }

  /** The reference: the latest registration for this purpose and key that was not deleted since. No map, no eviction,
      and purposes kept apart. */
  function Latest(ops: seq<Op>, purpose: string, key: string): Option<Value> {
    if ops == [] then None
    else
      var op := ops[|ops| - 1];
      if op.purpose != purpose || op.key != key || op.Verify? then Latest(ops[..|ops| - 1], purpose, key)
      else if op.Register? then Some(Value(op.code, op.at))
      else None
  }

  /** The code of the latest registration is good for ten minutes. */
  predicate Good(ops: seq<Op>, purpose: string, key: string, code: string, now: int) {
    var v := Latest(ops, purpose, key);
    v.Some? && now - v.value.time < VALID_MINUTES * 60 * NANOS && code == v.value.code
  }

  lemma ExpiredMeaning(v: Value, now: int)
    ensures Expired(v, now) <==> now - v.time >= VALID_MINUTES * 60 * NANOS
  {
  }

  /** With purposes of which neither starts with the other the concatenated names are as distinct as the pairs. */
  lemma NamesDistinct(p: string, k: string, p': string, k': string)
    requires p == p' || !(p <= p' || p' <= p)
    ensures p + k == p' + k' <==> p == p' && k == k'
  {
    assert (p + k)[..|p|] == p && (p + k)[|p|..] == k;
    assert (p' + k')[..|p'|] == p' && (p' + k')[|p'|..] == k';
    assert p <= p + k && p' <= p' + k';
    if p + k == p' + k' { Comparable(p, p', p + k); }
  }

  lemma Comparable(p: string, q: string, name: string)
    requires p <= name && q <= name
    ensures p <= q || q <= p
  {
  }

  // ----- refinement -----

  /** The stored entry is the latest registration; it is absent only if there is none or it has expired. */
  ghost predicate Tracks(m: map<string, Value>, ops: seq<Op>, p: string, k: string, now: int) {
    && (p + k in m ==> Latest(ops, p, k) == Some(m[p + k]))
    && (p + k !in m ==> Latest(ops, p, k).None? || Expired(Latest(ops, p, k).value, now))
  }

  lemma ExpiredLater(v: Value, now: int, later: int)
    requires now <= later && Expired(v, now)
    ensures Expired(v, later)
  {
  }

  /** One call keeps the entry in step with the reference. */
  lemma StepTracks(m: map<string, Value>, ops: seq<Op>, op: Op, p: string, k: string, now: int)
    requires Tracks(m, ops, p, k, now) && now <= op.at <= Ended(op)
    requires op.purpose == p || !(op.purpose <= p || p <= op.purpose)
    ensures Tracks(Next(m, op), ops + [op], p, k, Ended(op))
  {
    NamesDistinct(p, k, op.purpose, op.key);
    assert (ops + [op])[..|ops|] == ops;
    var v := Latest(ops, p, k);
    if v.Some? && Expired(v.value, now) { ExpiredLater(v.value, now, Ended(op)); }
  }

  function Elapsed(ops: seq<Op>): int
    requires ops != []
  {
    Ended(ops[|ops| - 1])
  }

  lemma {:induction false} RunTracks(purposes: set<string>, ops: seq<Op>, p: string, k: string, now: int)
    requires PrefixFree(purposes) && Within(ops, purposes) && p in purposes
    requires Clocked(ops) && (ops != [] ==> Elapsed(ops) <= now)
    ensures Tracks(Exec(ops), ops, p, k, now)
  {
    if ops != [] {
      var n := |ops| - 1;
      var op := ops[n];
      RunTracks(purposes, ops[..n], p, k, op.at);
      StepTracks(Exec(ops[..n]), ops[..n], op, p, k, op.at);
      assert ops[..n] + [op] == ops;
      var v := Latest(ops, p, k);
      if v.Some? && Expired(v.value, Ended(op)) { ExpiredLater(v.value, Ended(op), now); }
    }
  }

  /** The map answers as the reference does. */
  predicate Agrees(ops: seq<Op>, purpose: string, key: string, code: string, now: int) {
    Accepts(Exec(ops), purpose + key, code, now) <==> Good(ops, purpose, key, code, now)
  }

  /** A run for these purposes with a clock that never goes back, up to `now`. */
  predicate History(purposes: set<string>, ops: seq<Op>, now: int) {
    Within(ops, purposes) && Clocked(ops) && (ops != [] ==> Elapsed(ops) <= now)
  }

  /** Over every run with a clock that never goes back, a code is accepted exactly when it is the code of the latest
      undeleted registration for this purpose and key, made less than ten minutes ago: the size-triggered sweep never
      changes an answer and the purposes sharing the map never interfere. */
  lemma LatestWins(purposes: set<string>, ops: seq<Op>, purpose: string, key: string, code: string, now: int)
    requires PrefixFree(purposes) && purpose in purposes && History(purposes, ops, now)
    ensures Agrees(ops, purpose, key, code, now)
  {
    RunTracks(purposes, ops, purpose, key, now);
    var v := Latest(ops, purpose, key);
    if v.Some? { ExpiredMeaning(v.value, now); }
  }

  /** The calls made for one purpose. */
  function Only(ops: seq<Op>, purpose: string): seq<Op> {
    if ops == [] then []
    else
      var before := Only(ops[..|ops| - 1], purpose);
      if ops[|ops| - 1].purpose == purpose then before + [ops[|ops| - 1]] else before
  }

  lemma {:induction false} LatestOfOnly(ops: seq<Op>, purpose: string, key: string)
    ensures Latest(Only(ops, purpose), purpose, key) == Latest(ops, purpose, key)
  {
    if ops != [] {
      var n := |ops| - 1;
      LatestOfOnly(ops[..n], purpose, key);
      var before := Only(ops[..n], purpose);
      assert (before + [ops[n]])[..|before|] == before;
    }
  }

  /** An answer depends only on the calls made for its own purpose. */
  lemma PurposesApart(purposes: set<string>, ops: seq<Op>, purpose: string, key: string, code: string, now: int)
    requires PrefixFree(purposes) && purpose in purposes && History(purposes, ops, now)
    ensures Accepts(Exec(ops), purpose + key, code, now) <==> Good(Only(ops, purpose), purpose, key, code, now)
  {
    LatestWins(purposes, ops, purpose, key, code, now);
    LatestOfOnly(ops, purpose, key);
  }

  /** A purpose that starts with another lets its codes pass for the shorter one. */
  lemma LongerPurposeInterferes(p: string, q: string, key: string, code: string, now: int)
    requires p < q
    ensures !Agrees([Register(key, code, q, now, now)], p, q[|p|..] + key, code, now)
  {
    var op, tail := Register(key, code, q, now, now), q[|p|..];
    assert [op][..0] == [];
    assert Exec([op]) == Next(Exec([]), op);
    assert q == p + tail;
    assert p + (tail + key) == q + key;
    assert Latest([op], p, tail + key) == Latest([op][..0], p, tail + key) == None;
  }

  /** For any set of purposes: every answer in every run is the reference's if and only if no purpose starts with
      another. */
  lemma PurposesIff(purposes: set<string>)
    ensures PrefixFree(purposes) <==>
            forall ops, purpose, key, code, now ::
              purpose in purposes && History(purposes, ops, now) ==> Agrees(ops, purpose, key, code, now)
  {
    if PrefixFree(purposes) {
      forall ops, purpose, key, code, now | purpose in purposes && History(purposes, ops, now)
        ensures Agrees(ops, purpose, key, code, now)
      {
        LatestWins(purposes, ops, purpose, key, code, now);
      }
    } else {
      var p, q :| p in purposes && q in purposes && p <= q && p != q;
      LongerPurposeInterferes(p, q, "", "", 0);
      assert History(purposes, [Register("", "", q, 0, 0)], 0);
    }
  }
}
