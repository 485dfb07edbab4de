/**
  Reconciling a channel's model list with its upstream's, controller/channel_upstream_update.go.

  A check compares the stored models with the upstream list and records pending additions and
  removals; an apply carries out a selection of them. `matches(pattern, name)` stands for a
  successful regexp.MatchString, `saved` for the outcome of the database update and `indexed`
  for that of rebuilding the abilities after it. The callers that check all channels do not
  load the redirect mapping of a channel, so such a check sees none.
*/
module UpstreamModels {
  import opened Base
  import opened ModelNames

  /** The persisted part of a channel that these operations touch. */
  datatype Record = Record(models: string, detected: seq<string>, removed: seq<string>, ignored: seq<string>,
                           lastCheck: int)

  type Matcher = (string, string) -> bool

  const REGEX_PREFIX: string := "regex:"

  predicate IgnoredBy(entry: string, m: string, matches: Matcher) {
    if REGEX_PREFIX <= entry then matches(Trim(entry[|REGEX_PREFIX|..]), m) else entry == m
  }

  predicate Ignored(entries: seq<string>, m: string, matches: Matcher) {
    exists e :: e in entries && IgnoredBy(e, m, matches)
  }

  function Targets(mapping: map<string, string>): set<string> {
    set s | s in mapping :: mapping[s]
  }

  function PendingAdd(local: seq<string>, upstream: seq<string>, ignored: seq<string>, mapping: map<string, string>,
                      matches: Matcher): seq<string> {
    var up := Normalize(upstream);
    var skipped := set m | m in up && Ignored(Normalize(ignored), m, matches);
    Without(up, Elements(Normalize(local)) + Targets(mapping) + skipped)
  }

  lemma PendingAddMeaning(local: seq<string>, upstream: seq<string>, ignored: seq<string>,
                          mapping: map<string, string>, matches: Matcher)
    ensures var r := PendingAdd(local, upstream, ignored, mapping, matches);
            && Normal(r)
            && forall m :: m in r <==>
                 && m in Normalize(upstream) && m !in Normalize(local) && m !in Targets(mapping)
                 && !Ignored(Normalize(ignored), m, matches)
  {
    var up := Normalize(upstream);
    var skipped := set m | m in up && Ignored(Normalize(ignored), m, matches);
    NormalizeMeaning(upstream);
    WithoutMeaning(up, Elements(Normalize(local)) + Targets(mapping) + skipped);
  }

  function PendingRemove(local: seq<string>, upstream: seq<string>, mapping: map<string, string>): seq<string> {
    Without(Normalize(local), mapping.Keys + Elements(Normalize(upstream)))
  }

  lemma PendingRemoveMeaning(local: seq<string>, upstream: seq<string>, mapping: map<string, string>)
    ensures var r := PendingRemove(local, upstream, mapping);
            Normal(r) && forall m :: m in r <==> m in Normalize(local) && m !in mapping && m !in Normalize(upstream)
  {
    NormalizeMeaning(local);
    WithoutMeaning(Normalize(local), mapping.Keys + Elements(Normalize(upstream)));
  }

  method ContainsIgnored(entries: seq<string>, m: string, matches: Matcher) returns (found: bool)
    ensures found == Ignored(entries, m, matches)
  {
    found := false;
    for i := 0 to |entries|
      invariant !found && forall j :: 0 <= j < i ==> !IgnoredBy(entries[j], m, matches)
    {
      if IgnoredBy(entries[i], m, matches) {
        return true;
      }
    }
  }

  method FilterAdd(up: seq<string>, covered: set<string>, ignored: seq<string>,
                   matches: Matcher) returns (pending: seq<string>)
    ensures pending == Without(up, covered + set m | m in up && Ignored(ignored, m, matches))
  {
    ghost var skipped := set m | m in up && Ignored(ignored, m, matches);
    pending := [];
    for i := 0 to |up|
      invariant pending == Without(up[..i], covered + skipped)
    {
      assert up[..i + 1][..i] == up[..i];
      if up[i] in covered {
        continue;
      }
      var skip := ContainsIgnored(ignored, up[i], matches);
      if !skip {
        pending := pending + [up[i]];
      }
    }
    assert up[..|up|] == up;
  }

  method FilterRemove(local: seq<string>, sources: set<string>, upstreamSet: set<string>) returns (pending: seq<string>)
    ensures pending == Without(local, sources + upstreamSet)
  {
    pending := [];
    for i := 0 to |local|
      invariant pending == Without(local[..i], sources + upstreamSet)
    {
      assert local[..i + 1][..i] == local[..i];
      if local[i] in sources {
        continue;
      }
      if local[i] !in upstreamSet {
        pending := pending + [local[i]];
      }
    }
    assert local[..|local|] == local;
  }

  /** collectPendingUpstreamModelChangesFromModels. */
  method CollectPending(localModels: seq<string>, upstreamModels: seq<string>, ignoredModels: seq<string>,
                        mapping: map<string, string>, matches: Matcher)
    returns (pendingAdd: seq<string>, pendingRemove: seq<string>)
    ensures pendingAdd == PendingAdd(localModels, upstreamModels, ignoredModels, mapping, matches)
    ensures pendingRemove == PendingRemove(localModels, upstreamModels, mapping)
  {
    var local, up := Normalize(localModels), Normalize(upstreamModels);
    var add := FilterAdd(up, Elements(local) + Targets(mapping), Normalize(ignoredModels), matches);
    var remove := FilterRemove(local, mapping.Keys, Elements(up));
    PendingAddMeaning(localModels, upstreamModels, ignoredModels, mapping, matches);
    PendingRemoveMeaning(localModels, upstreamModels, mapping);
    NormalizeFixed(add);
    NormalizeFixed(remove);
    pendingAdd, pendingRemove := Normalize(add), Normalize(remove);
  }

  // ----- specification of the two operations -----

  /** The mapping a check works with. */
  function Seen(mapping: map<string, string>, loaded: bool): map<string, string> {
    if loaded then mapping else map[]
  }

  function Local(r: Record): seq<string> {
    Normalize(GetModels(r.models))
  }

  /** A check that reached the upstream and was saved. */
  function Checked(r: Record, upstream: seq<string>, mapping: map<string, string>, matches: Matcher, autoSync: bool,
                   now: int): Record {
    var add := PendingAdd(GetModels(r.models), upstream, r.ignored, mapping, matches);
    var remove := PendingRemove(GetModels(r.models), upstream, mapping);
    if autoSync && |add| > 0 then Record(Join(Merge(Local(r), add)), [], remove, r.ignored, now)
    else Record(r.models, add, remove, r.ignored, now)
  }

  function Added(r: Record, addInput: seq<string>): seq<string> {
    Intersect(addInput, Normalize(r.detected))
  }

  function Skipped(r: Record, ignoreInput: seq<string>): seq<string> {
    Intersect(ignoreInput, Normalize(r.detected))
  }

  function Removed(r: Record, addInput: seq<string>, removeInput: seq<string>): seq<string> {
    Subtract(Intersect(removeInput, Normalize(r.removed)), Added(r, addInput))
  }

  function NextModels(r: Record, addInput: seq<string>, removeInput: seq<string>): seq<string> {
    ApplySelected(Local(r), Added(r, addInput), Removed(r, addInput, removeInput))
  }

  /** An apply that was saved. */
  function Applied(r: Record, addInput: seq<string>, ignoreInput: seq<string>, removeInput: seq<string>,
                   now: int): Record {
    var add, skip := Added(r, addInput), Skipped(r, ignoreInput);
    var next := NextModels(r, addInput, removeInput);
    var ignored := Merge(r.ignored, skip);
    Record(if next == Local(r) then r.models else Join(next),
           Subtract(Normalize(r.detected), add + skip),
           Subtract(Normalize(r.removed), Removed(r, addInput, removeInput)),
           if |add| > 0 then Subtract(ignored, add) else ignored,
           now)
  }

  // ----- the operations -----

  class Channel {
    var models: string
    var detected: seq<string>
    var removed: seq<string>
    var ignored: seq<string>
    var lastCheck: int
    const mapping: map<string, string>
    const autoSync: bool

    constructor (r: Record, mapping: map<string, string>, autoSync: bool)
      ensures Stored() == r && this.mapping == mapping && this.autoSync == autoSync
    {
      models, detected, removed, ignored, lastCheck := r.models, r.detected, r.removed, r.ignored, r.lastCheck;
      this.mapping, this.autoSync := mapping, autoSync;
    }

    function Stored(): Record
      reads this
    {
      Record(models, detected, removed, ignored, lastCheck)
    }

    /** checkAndPersistChannelUpstreamModelUpdates. `fetched` is None when the upstream could not be read; `loaded` is
        false for the callers that leave the mapping column out. */
    method Check(loaded: bool, fetched: Option<seq<string>>, force: bool, allowAutoApply: bool, now: int,
                 minInterval: int,
                 saved: bool, indexed: bool, matches: Matcher)
      returns (modelsChanged: bool, autoAdded: nat, ok: bool)
      modifies this
      ensures var r, skip := old(Stored()), !force && old(lastCheck) > 0 && now - old(lastCheck) < minInterval;
              var seen, sync := Seen(mapping, loaded), allowAutoApply && autoSync;
              && ok == (skip || (saved && fetched.Some? && (modelsChanged ==> indexed)))
              && Stored() == (if skip || !saved then r
                              else if fetched == None then r.(lastCheck := now)
                              else Checked(r, fetched.value, seen, matches, sync, now))
              && (skip || fetched == None ==> !modelsChanged && autoAdded == 0)
              && (!skip && fetched.Some? ==>
                    var pending := PendingAdd(GetModels(r.models), fetched.value, r.ignored, seen, matches);
                    && autoAdded == (if sync then |pending| else 0)
                    && (modelsChanged <==> saved && autoAdded > 0))
    {
      if !force && lastCheck > 0 && now - lastCheck < minInterval {
        return false, 0, true;
      }
      if fetched == None {
        if saved {
          lastCheck := now;
        }
        return false, 0, false;
      }
      var r': Record;
      modelsChanged, autoAdded, r' :=
        Compare(Stored(), fetched.value, Seen(mapping, loaded), matches, allowAutoApply && autoSync, now);
      if !saved {
        return false, autoAdded, false;
      }
      models, detected, removed, lastCheck := r'.models, r'.detected, r'.removed, r'.lastCheck;
      ok := !modelsChanged || indexed;
    }

    /** applyChannelUpstreamModelUpdates. */
    method Apply(addInput: seq<string>, ignoreInput: seq<string>, removeInput: seq<string>, now: int, saved: bool,
                 indexed: bool)
      returns (added: seq<string>, removedModels: seq<string>, remaining: seq<string>, remainingRemove: seq<string>,
               modelsChanged: bool, ok: bool)
      modifies this
      ensures Stored() ==
              if saved then Applied(old(Stored()), addInput, ignoreInput, removeInput, now) else old(Stored())
      ensures ok == (saved && (modelsChanged ==> indexed))
      ensures saved ==>
                && added == Added(old(Stored()), addInput)
                && removedModels == Removed(old(Stored()), addInput, removeInput)
                && remaining == detected && remainingRemove == removed
                && (modelsChanged <==> NextModels(old(Stored()), addInput, removeInput) != Local(old(Stored())))
    {
      var r': Record;
      added, removedModels, modelsChanged, r' := Plan(Stored(), addInput, ignoreInput, removeInput, now);
      if !saved {
        return [], [], [], [], false, false;
      }
      remaining, remainingRemove := r'.detected, r'.removed;
      models, detected, removed, ignored, lastCheck := r'.models, r'.detected, r'.removed, r'.ignored, r'.lastCheck;
      ok := !modelsChanged || indexed;
    }
  }

  /** The computation of checkAndPersistChannelUpstreamModelUpdates once the upstream is known. */
  method Compare(r: Record, upstream: seq<string>, seen: map<string, string>, matches: Matcher, sync: bool, now: int)
    returns (modelsChanged: bool, autoAdded: nat, r': Record)
    ensures var pending := PendingAdd(GetModels(r.models), upstream, r.ignored, seen, matches);
            autoAdded == (if sync then |pending| else 0) && (modelsChanged <==> autoAdded > 0)
    ensures r' == Checked(r, upstream, seen, matches, sync, now)
  {
    var pendingAdd, pendingRemove := CollectPending(GetModels(r.models), upstream, r.ignored, seen, matches);
    modelsChanged, autoAdded := false, 0;
    if !sync || |pendingAdd| == 0 {
      return false, 0, Record(r.models, pendingAdd, pendingRemove, r.ignored, now);
    }
    var origin := Normalize(GetModels(r.models));
    var merged := MergeModelNames(origin, pendingAdd);
    AutoSyncAddsAll(r, upstream, seen, matches);
    var newModels := r.models;
    if |merged| > |origin| {
      newModels := Join(merged);
      autoAdded := |merged| - |origin|;
      modelsChanged := true;
    }
    r' := Record(newModels, [], pendingRemove, r.ignored, now);
  }

  /** The computation of applyChannelUpstreamModelUpdates, step by step. */
  method Plan(r: Record, addInput: seq<string>, ignoreInput: seq<string>, removeInput: seq<string>, now: int)
    returns (added: seq<string>, removedModels: seq<string>, modelsChanged: bool, r': Record)
    ensures added == Added(r, addInput) && removedModels == Removed(r, addInput, removeInput)
    ensures modelsChanged <==> NextModels(r, addInput, removeInput) != Local(r)
    ensures r' == Applied(r, addInput, ignoreInput, removeInput, now)
  {
    var pendingAdd, pendingRemove := Normalize(r.detected), Normalize(r.removed);
    added := Intersect(addInput, pendingAdd);
    var skip := Intersect(ignoreInput, pendingAdd);
    removedModels := Intersect(removeInput, pendingRemove);
    removedModels := Subtract(removedModels, added);
    var origin := Normalize(GetModels(r.models));
    var next := ApplySelected(origin, added, removedModels);
    modelsChanged := origin != next;
    var newIgnored := MergeModelNames(r.ignored, skip);
    if |added| > 0 {
      newIgnored := Subtract(newIgnored, added);
    }
    var remaining := Subtract(pendingAdd, added + skip);
    var remainingRemove := Subtract(pendingRemove, removedModels);
    r' := Record(if modelsChanged then Join(next) else r.models, remaining, remainingRemove, newIgnored, now);
  }

  /** Auto-sync appends exactly the pending additions to the stored models, in order, and removes nothing. */
  lemma AutoSyncAddsAll(r: Record, upstream: seq<string>, mapping: map<string, string>, matches: Matcher)
    ensures var add := PendingAdd(GetModels(r.models), upstream, r.ignored, mapping, matches);
            Merge(Local(r), add) == Local(r) + add
  {
    var add := PendingAdd(GetModels(r.models), upstream, r.ignored, mapping, matches);
    PendingAddMeaning(GetModels(r.models), upstream, r.ignored, mapping, matches);
    NormalizeTwice(GetModels(r.models));
    NormalizeFixed(add);
    WithoutMeaning(add, Elements(Local(r)));
  }

  // ----- what applying conserves -----

  /** Every pending addition ends up added, ignored or remaining, and remaining is disjoint from the other two; a name
      both added and ignored is stored and not ignored; only pending names change membership anywhere. */
  lemma ApplyConserves(r: Record, addInput: seq<string>, ignoreInput: seq<string>, removeInput: seq<string>, now: int)
    ensures var r' := Applied(r, addInput, ignoreInput, removeInput, now);
            var pending, add, skip := Normalize(r.detected), Added(r, addInput), Skipped(r, ignoreInput);
            var gone, next := Removed(r, addInput, removeInput), NextModels(r, addInput, removeInput);
            && (forall m :: m in pending <==> m in add || m in skip || m in r'.detected)
            && (forall m :: m in r'.detected ==> m !in add && m !in skip)
            && (forall m :: m in r'.removed <==> m in Normalize(r.removed) && m !in gone)
            && (forall m :: m in gone ==> m in Normalize(r.removed) && m !in add)
            && (forall m :: m in next <==> m in add || (m in Local(r) && m !in gone))
            && (forall m :: m in r'.ignored <==> m !in add && (m in Normalize(r.ignored) || m in skip))
            && Normal(r'.detected) && Normal(r'.removed) && Normal(r'.ignored) && Normal(next)
  {
    var add, skip := Added(r, addInput), Skipped(r, ignoreInput);
    var pending, pendingRemove := Normalize(r.detected), Normalize(r.removed);
    NormalizeTwice(r.detected);
    NormalizeTwice(r.removed);
    IntersectMeaning(addInput, pending);
    IntersectMeaning(ignoreInput, pending);
    NormalizeFixed(add);
    NormalizeFixed(skip);
    RemovedMeaning(r, addInput, removeInput);
    NextMeaning(r, addInput, removeInput);
    IgnoredMeaning(r, add, skip);
    SubtractMeaning(pending, add + skip);
    assert forall m :: m in Normalize(add + skip) <==> m in add || m in skip by { NormalizeConcat(add, skip); }
    SubtractMeaning(pendingRemove, Removed(r, addInput, removeInput));
    NormalizeFixed(Removed(r, addInput, removeInput));
  }

  lemma NormalizeConcat(a: seq<string>, b: seq<string>)
    requires Normal(a) && Normal(b)
    ensures forall m :: m in Normalize(a + b) <==> m in a || m in b
  {
    var c := a + b;
    NormalizeMeaning(c);
    assert forall i :: 0 <= i < |c| ==> c[i] == if i < |a| then a[i] else b[i - |a|];
    forall i | 0 <= i < |c| ensures Trim(c[i]) == c[i] && c[i] != [] { TrimFixed(c[i]); }
    forall m ensures m in Normalize(c) <==> m in c {
      if m in c {
        var i :| 0 <= i < |c| && c[i] == m;
        assert Trim(c[i]) == m;
      }
    }
  }

  lemma RemovedMeaning(r: Record, addInput: seq<string>, removeInput: seq<string>)
    ensures var gone := Removed(r, addInput, removeInput);
            && Normal(gone)
            && forall m :: m in gone <==>
                 m in Normalize(removeInput) && m in Normalize(r.removed) && m !in Added(r, addInput)
  {
    var picked := Intersect(removeInput, Normalize(r.removed));
    NormalizeTwice(r.removed);
    NormalizeTwice(r.detected);
    IntersectMeaning(removeInput, Normalize(r.removed));
    IntersectMeaning(addInput, Normalize(r.detected));
    NormalizeFixed(picked);
    NormalizeFixed(Added(r, addInput));
    SubtractMeaning(picked, Added(r, addInput));
  }

  lemma NextMeaning(r: Record, addInput: seq<string>, removeInput: seq<string>)
    ensures var next := NextModels(r, addInput, removeInput);
            && Normal(next)
            && forall m :: m in next <==>
                 m in Added(r, addInput) || (m in Local(r) && m !in Removed(r, addInput, removeInput))
  {
    NormalizeTwice(GetModels(r.models));
    NormalizeTwice(r.detected);
    IntersectMeaning(addInput, Normalize(r.detected));
    NormalizeFixed(Added(r, addInput));
    RemovedMeaning(r, addInput, removeInput);
    NormalizeFixed(Removed(r, addInput, removeInput));
    ApplySelectedMeaning(Local(r), Added(r, addInput), Removed(r, addInput, removeInput));
  }

  lemma IgnoredMeaning(r: Record, add: seq<string>, skip: seq<string>)
    requires Normal(add) && Normal(skip)
    ensures var merged := Merge(r.ignored, skip);
            var ignored := if |add| > 0 then Subtract(merged, add) else merged;
            && Normal(ignored)
            && forall m :: m in ignored <==> m !in add && (m in Normalize(r.ignored) || m in skip)
  {
    MergeMeaning(r.ignored, skip);
    NormalizeFixed(skip);
    NormalizeFixed(Merge(r.ignored, skip));
    NormalizeFixed(add);
    SubtractMeaning(Merge(r.ignored, skip), add);
  }

  /** Comma-free names survive storage, so the channel then really has them. */
  lemma StoredModels(r: Record, addInput: seq<string>, ignoreInput: seq<string>, removeInput: seq<string>, now: int)
    requires CommaFree(Added(r, addInput))
    ensures Local(Applied(r, addInput, ignoreInput, removeInput, now)) == NextModels(r, addInput, removeInput)
  {
    var next := NextModels(r, addInput, removeInput);
    NextMeaning(r, addInput, removeInput);
    if next != Local(r) {
      forall i | 0 <= i < |next| ensures ',' !in next[i] {
        assert next[i] in next;
        if next[i] in Local(r) { LocalCommaFree(r, next[i]); }
      }
      StoreRoundTrip(next);
      NormalizeFixed(next);
    }
  }

  lemma LocalCommaFree(r: Record, m: string)
    requires m in Local(r)
    ensures ',' !in m
  {
    var names := GetModels(r.models);
    NormalizeMeaning(names);
    var i :| 0 <= i < |names| && Trim(names[i]) == m;
    assert names[i] in names;
  }

  // ----- redirects -----

  /** A stored redirect source is listed for removal exactly when it is missing upstream and the check saw no mapping.
      */
  lemma SourceListedIff(r: Record, upstream: seq<string>, mapping: map<string, string>, loaded: bool, matches: Matcher,
                        autoSync: bool, t: int, m: string)
    requires m in mapping && m in Local(r)
    ensures m in Checked(r, upstream, Seen(mapping, loaded), matches, autoSync, t).removed <==>
            !loaded && m !in Normalize(upstream)
  {
    PendingRemoveMeaning(GetModels(r.models), upstream, Seen(mapping, loaded));
  }

  /** A redirect target that is upstream, not stored and not ignored is offered exactly when the check saw no mapping.
      */
  lemma TargetOfferedIff(r: Record, upstream: seq<string>, mapping: map<string, string>, loaded: bool, matches: Matcher,
                         t: int, m: string)
    requires m in Targets(mapping) && m in Normalize(upstream) && m !in Local(r)
    requires !Ignored(Normalize(r.ignored), m, matches)
    ensures m in Checked(r, upstream, Seen(mapping, loaded), matches, false, t).detected <==> !loaded
  {
    PendingAddMeaning(GetModels(r.models), upstream, r.ignored, Seen(mapping, loaded), matches);
  }

  /** The models after applying a selection to a checked record. */
  ghost predicate StaysWhatever(r: Record, m: string) {
    forall addInput, removeInput :: m in NextModels(r, addInput, removeInput)
  }

  /** A redirect source stays stored, whatever is applied after a check, exactly when the check saw the mapping or the
      source is upstream too (or it was not stored before the check and a comma in an auto-synced name brought it in).
      */
  lemma SourceStaysIff(r: Record, upstream: seq<string>, mapping: map<string, string>, loaded: bool, matches: Matcher,
                       autoSync: bool, t: int, m: string)
    requires m in mapping && m in Local(Checked(r, upstream, Seen(mapping, loaded), matches, autoSync, t))
    ensures StaysWhatever(Checked(r, upstream, Seen(mapping, loaded), matches, autoSync, t), m) <==>
            loaded || m in Normalize(upstream) || m !in Local(r)
  {
    var r1 := Checked(r, upstream, Seen(mapping, loaded), matches, autoSync, t);
    PendingRemoveMeaning(GetModels(r.models), upstream, Seen(mapping, loaded));
    ListedIsDroppable(r1, m);
  }

  /** A stored name survives every selection exactly when it is not listed for removal. */
  lemma ListedIsDroppable(r: Record, m: string)
    requires m in Local(r) && Normal(r.removed)
    ensures StaysWhatever(r, m) <==> m !in r.removed
  {
    NormalizeFixed(r.removed);
    if m in r.removed {
      NextMeaning(r, [], r.removed);
      RemovedMeaning(r, [], r.removed);
      IntersectMeaning([], Normalize(r.detected));
      assert m !in NextModels(r, [], r.removed);
    } else {
      forall addInput, removeInput ensures m in NextModels(r, addInput, removeInput) {
        NextMeaning(r, addInput, removeInput);
        RemovedMeaning(r, addInput, removeInput);
      }
    }
  }

  /** Checking all channels and applying everything pending drops every stored source that is missing upstream, and
      brings in the targets. */
  lemma BulkApplyDropsSources(r: Record, upstream: seq<string>, mapping: map<string, string>, matches: Matcher, t: int,
                              m: string)
    requires m in mapping && m in Local(r) && m !in Normalize(upstream)
    requires CommaFree(Checked(r, upstream, Seen(mapping, false), matches, false, t).detected)
    ensures var r1 := Checked(r, upstream, Seen(mapping, false), matches, false, t);
            var r2 := Applied(r1, r1.detected, [], r1.removed, t);
            m !in Local(r2) && forall d :: d in r1.detected ==> d in Local(r2)
  {
    var r1 := Checked(r, upstream, map[], matches, false, t);
    ApplyAllMeaning(r, upstream, map[], matches, t);
    PendingAddMeaning(GetModels(r.models), upstream, r.ignored, map[], matches);
    SourceListedIff(r, upstream, mapping, false, matches, false, t, m);
    var added := Added(r1, r1.detected);
    forall i | 0 <= i < |added| ensures ',' !in added[i] { assert added[i] in r1.detected; }
    StoredModels(r1, r1.detected, [], r1.removed, t);
  }

  /** A channel with the one model `alias`, redirected to `target`, which is all its upstream offers. */
  lemma RedirectIsLost(alias: string, target: string, matches: Matcher)
    requires StoredOne(alias) && Normal([target]) && ',' !in target && alias != target
    ensures var r, mapping := Record(alias, [], [], [], 0), map[alias := target];
            var r1 := Checked(r, [target], Seen(mapping, false), matches, false, 0);
            var r2 := Applied(r1, r1.detected, [], r1.removed, 0);
            Local(r) == [alias] && alias !in Local(r2) && target in Local(r2)
  {
    var r, mapping := Record(alias, [], [], [], 0), map[alias := target];
    assert alias in Local(r) && target !in Local(r);
    NormalizeFixed([target]);
    assert target in [target];
    var detected := Checked(r, [target], Seen(mapping, false), matches, false, 0).detected;
    PendingAddMeaning(GetModels(r.models), [target], [], map[], matches);
    forall i | 0 <= i < |detected| ensures ',' !in detected[i] { assert detected[i] in [target]; }
    BulkApplyDropsSources(r, [target], mapping, matches, 0, alias);
  }

  /** For instance "alias" redirected to "real". */
  lemma AliasIsLost(matches: Matcher)
    ensures var r, mapping := Record("alias", [], [], [], 0), map["alias" := "real"];
            var r1 := Checked(r, ["real"], Seen(mapping, false), matches, false, 0);
            var r2 := Applied(r1, r1.detected, [], r1.removed, 0);
            Local(r) == ["alias"] && "alias" !in Local(r2) && "real" in Local(r2)
  {
    var alias, target := "alias", "real";
    StoredOneIs(alias);
    assert alias[1] != target[1];
    RedirectIsLost(alias, target, matches);
  }

  /** Stored alone, the name is read back as it is. */
  predicate StoredOne(name: string) {
    Normalize(GetModels(name)) == [name]
  }

  lemma StoredOneIs(name: string)
    requires name != "" && Trimmed(name) && ',' !in name
    ensures StoredOne(name)
  {
    assert Join([name]) == name;
    StoreRoundTrip([name]);
    NormalizeFixed([name]);
  }

  // ----- convergence -----

  /** Check, apply everything pending, check again against the same upstream. */
  ghost function Settle(r: Record, upstream: seq<string>, mapping: map<string, string>, matches: Matcher,
                        now: int): Record {
    var r1 := Checked(r, upstream, mapping, matches, false, now);
    var r2 := Applied(r1, r1.detected, [], r1.removed, now);
    Checked(r2, upstream, mapping, matches, false, now)
  }

  /** Nothing is un-ignored when the pending names are dropped from the ignore list. */
  ghost predicate IgnoresSurvive(r: Record, upstream: seq<string>, mapping: map<string, string>, matches: Matcher) {
    var add := PendingAdd(GetModels(r.models), upstream, r.ignored, mapping, matches);
    forall m ::
      m in Normalize(upstream) && m !in Local(r) && m !in Targets(mapping) && Ignored(Normalize(r.ignored), m, matches)
      ==> exists e :: e in Normalize(r.ignored) && e !in add && IgnoredBy(e, m, matches)
  }

  lemma ApplyAllMeaning(r: Record, upstream: seq<string>, mapping: map<string, string>, matches: Matcher, now: int)
    ensures var r1 := Checked(r, upstream, mapping, matches, false, now);
            var r2 := Applied(r1, r1.detected, [], r1.removed, now);
            && (forall m :: m in Added(r1, r1.detected) <==> m in r1.detected)
            && (forall m :: m in NextModels(r1, r1.detected, r1.removed) <==>
                 m in r1.detected || (m in Local(r) && m !in r1.removed))
            && Normal(r2.ignored)
            && (forall m :: m in r2.ignored <==> m in Normalize(r.ignored) && m !in r1.detected)
  {
    var r1 := Checked(r, upstream, mapping, matches, false, now);
    PendingAddMeaning(GetModels(r.models), upstream, r.ignored, mapping, matches);
    PendingRemoveMeaning(GetModels(r.models), upstream, mapping);
    NormalizeFixed(r1.detected);
    NormalizeFixed(r1.removed);
    IntersectMeaning(r1.detected, Normalize(r1.detected));
    RemovedMeaning(r1, r1.detected, r1.removed);
    ApplyConserves(r1, r1.detected, [], r1.removed, now);
    IntersectMeaning([], Normalize(r1.detected));
  }

  /** A pending name with a comma is split by storage and comes back as pending. */
  lemma CommaReturns(r: Record, upstream: seq<string>, mapping: map<string, string>, matches: Matcher, now: int,
                     m: string)
    requires m in Checked(r, upstream, mapping, matches, false, now).detected && ',' in m
    ensures m in Settle(r, upstream, mapping, matches, now).detected
  {
    var r1 := Checked(r, upstream, mapping, matches, false, now);
    var r2 := Applied(r1, r1.detected, [], r1.removed, now);
    PendingAddMeaning(GetModels(r.models), upstream, r.ignored, mapping, matches);
    ApplyAllMeaning(r, upstream, mapping, matches, now);
    NormalizeFixed(r2.ignored);
    PendingAddMeaning(GetModels(r2.models), upstream, r2.ignored, mapping, matches);
    if m in Local(r2) { LocalCommaFree(r2, m); }
  }

  /** Without commas, the second check finds no removal, and an addition only where an ignore entry was lost. */
  lemma SecondCheck(r: Record, upstream: seq<string>, mapping: map<string, string>, matches: Matcher, now: int)
    requires CommaFree(Checked(r, upstream, mapping, matches, false, now).detected)
    ensures var r1, r3 := Checked(r, upstream, mapping, matches, false, now),
                      Settle(r, upstream, mapping, matches, now);
            && r3.removed == []
            && forall m :: m in r3.detected <==>
                 && m in Normalize(upstream) && m !in Local(r) && m !in Targets(mapping)
                 && Ignored(Normalize(r.ignored), m, matches)
                 && !exists e :: e in Normalize(r.ignored) && e !in r1.detected && IgnoredBy(e, m, matches)
  {
    var r1 := Checked(r, upstream, mapping, matches, false, now);
    var r2 := Applied(r1, r1.detected, [], r1.removed, now);
    AllApplied(r, upstream, mapping, matches, now);
    PendingAddMeaning(GetModels(r.models), upstream, r.ignored, mapping, matches);
    PendingRemoveMeaning(GetModels(r.models), upstream, mapping);
    SecondAdds(r, r1, r2, upstream, mapping, matches);
    SecondRemoves(r, r1, r2, upstream, mapping);
  }

  lemma SecondRemoves(r: Record, r1: Record, r2: Record, upstream: seq<string>, mapping: map<string, string>)
    requires forall m :: m in Local(r2) <==> m in r1.detected || (m in Local(r) && m !in r1.removed)
    requires forall m :: m in r1.detected ==> m in Normalize(upstream)
    requires r1.removed == PendingRemove(GetModels(r.models), upstream, mapping)
    ensures PendingRemove(GetModels(r2.models), upstream, mapping) == []
  {
    PendingRemoveMeaning(GetModels(r.models), upstream, mapping);
    PendingRemoveMeaning(GetModels(r2.models), upstream, mapping);
    EmptyIfNone(PendingRemove(GetModels(r2.models), upstream, mapping));
  }

  lemma EmptyIfNone(names: seq<string>)
    ensures names == [] || exists m :: m in names
  {
    if names != [] { assert names[0] in names; }
  }

  /** The stored record after applying everything. */
  lemma AllApplied(r: Record, upstream: seq<string>, mapping: map<string, string>, matches: Matcher, now: int)
    requires CommaFree(Checked(r, upstream, mapping, matches, false, now).detected)
    ensures var r1 := Checked(r, upstream, mapping, matches, false, now);
      var r2 := Applied(r1, r1.detected, [], r1.removed, now);
      && (forall m :: m in Local(r2) <==> m in r1.detected || (m in Local(r) && m !in r1.removed))
      && Normalize(r2.ignored) == r2.ignored
      && (forall m :: m in r2.ignored <==> m in Normalize(r.ignored) && m !in r1.detected)
  {
    var r1 := Checked(r, upstream, mapping, matches, false, now);
    var r2 := Applied(r1, r1.detected, [], r1.removed, now);
    ApplyAllMeaning(r, upstream, mapping, matches, now);
    assert CommaFree(Added(r1, r1.detected)) by {
      var added := Added(r1, r1.detected);
      forall i | 0 <= i < |added| ensures ',' !in added[i] { assert added[i] in r1.detected; }
    }
    StoredModels(r1, r1.detected, [], r1.removed, now);
    NormalizeFixed(r2.ignored);
  }

  lemma SecondAdds(r: Record, r1: Record, r2: Record, upstream: seq<string>, mapping: map<string, string>,
                   matches: Matcher)
    requires r1.detected == PendingAdd(GetModels(r.models), upstream, r.ignored, mapping, matches)
    requires forall m :: m in Local(r2) <==> m in r1.detected || (m in Local(r) && m !in r1.removed)
    requires forall m :: m in r1.removed ==> m !in Normalize(upstream)
    requires Normalize(r2.ignored) == r2.ignored
    requires forall m :: m in r2.ignored <==> m in Normalize(r.ignored) && m !in r1.detected
    ensures forall m :: m in PendingAdd(GetModels(r2.models), upstream, r2.ignored, mapping, matches) <==>
              && m in Normalize(upstream) && m !in Local(r) && m !in Targets(mapping)
              && Ignored(Normalize(r.ignored), m, matches)
              && !exists e :: e in Normalize(r.ignored) && e !in r1.detected && IgnoredBy(e, m, matches)
  {
    PendingAddMeaning(GetModels(r.models), upstream, r.ignored, mapping, matches);
    PendingAddMeaning(GetModels(r2.models), upstream, r2.ignored, mapping, matches);
  }

  /** Reconciliation converges, for every stored list, upstream, ignore list, mapping and matcher, exactly when no
      pending addition contains a comma and dropping the pending names from the ignore list un-ignores nothing. */
  lemma ConvergesIff(r: Record, upstream: seq<string>, mapping: map<string, string>, matches: Matcher, now: int)
    ensures var r3 := Settle(r, upstream, mapping, matches, now);
            r3.detected == [] && r3.removed == [] <==>
            && CommaFree(Checked(r, upstream, mapping, matches, false, now).detected)
            && IgnoresSurvive(r, upstream, mapping, matches)
  {
    var r1, r3 := Checked(r, upstream, mapping, matches, false, now), Settle(r, upstream, mapping, matches, now);
    if CommaFree(r1.detected) {
      SecondCheck(r, upstream, mapping, matches, now);
      if IgnoresSurvive(r, upstream, mapping, matches) {
        EmptyIfNone(r3.detected);
      }
    } else {
      var i :| 0 <= i < |r1.detected| && ',' in r1.detected[i];
      CommaReturns(r, upstream, mapping, matches, now, r1.detected[i]);
    }
  }

  /** It always converges when no upstream name contains a comma or starts with "regex:". */
  lemma OrdinaryNamesConverge(r: Record, upstream: seq<string>, mapping: map<string, string>, matches: Matcher,
                              now: int)
    requires forall m :: m in Normalize(upstream) ==> ',' !in m && !(REGEX_PREFIX <= m)
    ensures var r3 := Settle(r, upstream, mapping, matches, now); r3.detected == [] && r3.removed == []
  {
    PendingAddMeaning(GetModels(r.models), upstream, r.ignored, mapping, matches);
    var add := PendingAdd(GetModels(r.models), upstream, r.ignored, mapping, matches);
    forall m | m in Normalize(upstream) && Ignored(Normalize(r.ignored), m, matches)
      ensures exists e :: e in Normalize(r.ignored) && e !in add && IgnoredBy(e, m, matches)
    {
      var e :| e in Normalize(r.ignored) && IgnoredBy(e, m, matches);
      assert e in add ==> e == m;
    }
    forall i | 0 <= i < |add| ensures ',' !in add[i] { assert add[i] in add; }
    ConvergesIff(r, upstream, mapping, matches, now);
  }

  /** An ignore entry that is also a pending name is dropped from the ignore list when that name is applied, and every
      upstream model that only this entry ignored comes back as pending. */
  lemma LostIgnoreReturns(r: Record, upstream: seq<string>, mapping: map<string, string>, matches: Matcher, now: int,
                          entry: string, m: string)
    requires CommaFree(Checked(r, upstream, mapping, matches, false, now).detected)
    requires entry in Checked(r, upstream, mapping, matches, false, now).detected && entry in Normalize(r.ignored)
    requires m in Normalize(upstream) && m !in Local(r) && m !in Targets(mapping) && IgnoredBy(entry, m, matches)
    requires forall e :: e in Normalize(r.ignored) && e != entry ==> !IgnoredBy(e, m, matches)
    ensures m in Settle(r, upstream, mapping, matches, now).detected
  {
    SecondCheck(r, upstream, mapping, matches, now);
  }

  // ----- convergence with auto-sync -----

  /** A check that auto-syncs, and the removals applied. */
  ghost function Synced(r: Record, upstream: seq<string>, mapping: map<string, string>, matches: Matcher,
                        now: int): Record {
    var r1 := Checked(r, upstream, mapping, matches, true, now);
    Applied(r1, [], [], r1.removed, now)
  }

  /** After an auto-sync of comma-free names the channel has its models and the additions. */
  lemma SyncedLocal(r: Record, upstream: seq<string>, mapping: map<string, string>, matches: Matcher, now: int)
    requires CommaFree(PendingAdd(GetModels(r.models), upstream, r.ignored, mapping, matches))
    ensures var add := PendingAdd(GetModels(r.models), upstream, r.ignored, mapping, matches);
            Local(Checked(r, upstream, mapping, matches, true, now)) == Local(r) + add
  {
    var add := PendingAdd(GetModels(r.models), upstream, r.ignored, mapping, matches);
    AutoSyncAddsAll(r, upstream, mapping, matches);
    if add == [] {
      assert Local(r) + add == Local(r);
    } else {
      MergeMeaning(Local(r), add);
      ReadBack(r, add);
    }
  }

  /** Comma-free names appended to the stored ones are read back as they are. */
  lemma ReadBack(r: Record, add: seq<string>)
    requires CommaFree(add) && Normal(Local(r) + add)
    ensures Normalize(GetModels(Join(Local(r) + add))) == Local(r) + add
  {
    var all := Local(r) + add;
    forall i | 0 <= i < |all| ensures ',' !in all[i] {
      if i < |Local(r)| {
        LocalCommaFree(r, Local(r)[i]);
      } else {
        assert all[i] == add[i - |Local(r)|];
      }
    }
    StoreRoundTrip(all);
    NormalizeFixed(all);
  }

  /** What is stored and ignored after the removals were applied. */
  lemma SyncedMeaning(r: Record, upstream: seq<string>, mapping: map<string, string>, matches: Matcher, now: int)
    ensures var r1, r2 := Checked(r, upstream, mapping, matches, true, now), Synced(r, upstream, mapping, matches, now);
            && (forall m :: m in Local(r2) <==> m in Local(r1) && m !in r1.removed)
            && Normalize(r2.ignored) == r2.ignored && (forall m :: m in r2.ignored <==> m in Normalize(r.ignored))
  {
    var r1 := Checked(r, upstream, mapping, matches, true, now);
    PendingRemoveMeaning(GetModels(r.models), upstream, mapping);
    NormalizeFixed(r1.removed);
    IntersectMeaning([], Normalize(r1.detected));
    EmptyIfNone(Added(r1, []));
    StoredModels(r1, [], [], r1.removed, now);
    NextMeaning(r1, [], r1.removed);
    RemovedMeaning(r1, [], r1.removed);
    ApplyConserves(r1, [], [], r1.removed, now);
    NormalizeFixed(Synced(r, upstream, mapping, matches, now).ignored);
  }

  lemma SyncedCommaReturns(r: Record, upstream: seq<string>, mapping: map<string, string>, matches: Matcher, now: int,
                           m: string)
    requires m in PendingAdd(GetModels(r.models), upstream, r.ignored, mapping, matches) && ',' in m
    ensures PendingIn(Synced(r, upstream, mapping, matches, now), upstream, mapping, matches, m)
  {
    var r2 := Synced(r, upstream, mapping, matches, now);
    PendingAddMeaning(GetModels(r.models), upstream, r.ignored, mapping, matches);
    SyncedMeaning(r, upstream, mapping, matches, now);
    PendingAddMeaning(GetModels(r2.models), upstream, r2.ignored, mapping, matches);
    if m in Local(r2) { LocalCommaFree(r2, m); }
  }

  lemma SyncedSettles(r: Record, upstream: seq<string>, mapping: map<string, string>, matches: Matcher, now: int)
    requires CommaFree(PendingAdd(GetModels(r.models), upstream, r.ignored, mapping, matches))
    ensures var r2 := Synced(r, upstream, mapping, matches, now);
            && PendingAdd(GetModels(r2.models), upstream, r2.ignored, mapping, matches) == []
            && PendingRemove(GetModels(r2.models), upstream, mapping) == []
  {
    var r2 := Synced(r, upstream, mapping, matches, now);
    PendingAddMeaning(GetModels(r.models), upstream, r.ignored, mapping, matches);
    PendingRemoveMeaning(GetModels(r.models), upstream, mapping);
    SyncedLocal(r, upstream, mapping, matches, now);
    SyncedMeaning(r, upstream, mapping, matches, now);
    PendingAddMeaning(GetModels(r2.models), upstream, r2.ignored, mapping, matches);
    PendingRemoveMeaning(GetModels(r2.models), upstream, mapping);
    EmptyIfNone(PendingAdd(GetModels(r2.models), upstream, r2.ignored, mapping, matches));
    EmptyIfNone(PendingRemove(GetModels(r2.models), upstream, mapping));
  }

  /** With auto-sync and the removals applied nothing is left to do, for every stored list, upstream, ignore list,
      mapping and matcher, exactly when no pending addition contains a comma: auto-sync leaves the ignore list alone.
      */
  lemma SyncConvergesIff(r: Record, upstream: seq<string>, mapping: map<string, string>, matches: Matcher, now: int)
    ensures var r2 := Synced(r, upstream, mapping, matches, now);
            && PendingAdd(GetModels(r2.models), upstream, r2.ignored, mapping, matches) == []
            && PendingRemove(GetModels(r2.models), upstream, mapping) == []
            <==> CommaFree(PendingAdd(GetModels(r.models), upstream, r.ignored, mapping, matches))
  {
    var add := PendingAdd(GetModels(r.models), upstream, r.ignored, mapping, matches);
    if CommaFree(add) {
      SyncedSettles(r, upstream, mapping, matches, now);
    } else {
      var i :| 0 <= i < |add| && ',' in add[i];
      SyncedCommaReturns(r, upstream, mapping, matches, now, add[i]);
    }
  }

  // ----- what never settles -----

  /** Rounds of checking, applying everything and checking again. */
  ghost predicate Trail(rs: seq<Record>, upstream: seq<string>, mapping: map<string, string>, matches: Matcher,
                        now: int) {
    |rs| > 0 && forall i: nat :: i + 1 < |rs| ==> rs[i + 1] == Settle(rs[i], upstream, mapping, matches, now)
  }

  ghost predicate PendingIn(r: Record, upstream: seq<string>, mapping: map<string, string>, matches: Matcher,
                            m: string) {
    m in PendingAdd(GetModels(r.models), upstream, r.ignored, mapping, matches)
  }

  lemma CommaStays(r: Record, r3: Record, upstream: seq<string>, mapping: map<string, string>, matches: Matcher,
                   now: int,
                   m: string)
    requires PendingIn(r, upstream, mapping, matches, m) && ',' in m
    requires r3 == Settle(r, upstream, mapping, matches, now)
    ensures PendingIn(r3, upstream, mapping, matches, m) && m in r3.detected
  {
    CommaReturns(r, upstream, mapping, matches, now, m);
    var r1 := Checked(r, upstream, mapping, matches, false, now);
    var r2 := Applied(r1, r1.detected, [], r1.removed, now);
    assert r3.models == r2.models && r3.ignored == r2.ignored;
  }

  /** A pending name with a comma never goes away, however many rounds follow. */
  lemma {:induction false} CommaAlwaysReturns(rs: seq<Record>, i: nat, upstream: seq<string>,
                                              mapping: map<string, string>,
                                              matches: Matcher, now: int, m: string)
    requires Trail(rs, upstream, mapping, matches, now) && i < |rs|
    requires PendingIn(rs[0], upstream, mapping, matches, m) && ',' in m
    ensures PendingIn(rs[i], upstream, mapping, matches, m) && (i > 0 ==> m in rs[i].detected)
  {
    if i > 0 {
      CommaAlwaysReturns(rs, i - 1, upstream, mapping, matches, now, m);
      assert rs[i - 1 + 1] == Settle(rs[i - 1], upstream, mapping, matches, now);
      CommaStays(rs[i - 1], rs[i], upstream, mapping, matches, now, m);
    }
  }

  lemma NewNamePending(upstream: seq<string>, ignored: seq<string>, matches: Matcher, m: string)
    requires m in Normalize(upstream) && !Ignored(Normalize(ignored), m, matches)
    ensures m in Checked(Record("", [], [], ignored, 0), upstream, map[], matches, false, 0).detected
  {
    PendingAddMeaning([], upstream, ignored, map[], matches);
  }

  /** A concrete upstream that never settles: the single name "a,b". */
  lemma CommaNeverSettles(rs: seq<Record>, i: nat, matches: Matcher)
    requires Trail(rs, ["a,b"], map[], matches, 0) && rs[0] == Record("", [], [], [], 0) && 0 < i < |rs|
    ensures "a,b" in rs[i].detected
  {
    var name := "a,b";
    NormalizeFixed([name]);
    NewNamePending([name], [], matches, name);
    assert name[1] == ',';
    CommaAlwaysReturns(rs, i, [name], map[], matches, 0, name);
  }

  const PATTERN: string := "^x$"

  const ENTRY: string := "regex:^x$"

  predicate OnlyX(pattern: string, name: string) {
    pattern == PATTERN && name == "x"
  }

  lemma EntryIgnoresX()
    ensures IgnoredBy(ENTRY, "x", OnlyX) && !IgnoredBy(ENTRY, ENTRY, OnlyX)
    ensures Normal([ENTRY]) && Normal([ENTRY, "x"]) && ',' !in ENTRY
  {
    assert ENTRY[..|REGEX_PREFIX|] == REGEX_PREFIX && ENTRY[|REGEX_PREFIX|..] == PATTERN;
    TrimFixed(PATTERN);
  }

  /** An ignore entry that is listed upstream next to a model that only it ignores. */
  lemma EntryListedUpstream(entry: string, m: string, matches: Matcher)
    requires Normal([entry, m]) && Normal([entry]) && ',' !in entry && ',' !in m
    requires IgnoredBy(entry, m, matches) && !IgnoredBy(entry, entry, matches)
    ensures m in Settle(Record("", [], [], [entry], 0), [entry, m], map[], matches, 0).detected
  {
    var upstream, ignored := [entry, m], [entry];
    NormalizeFixed(upstream);
    NormalizeFixed(ignored);
    assert entry in upstream && m in upstream && entry in ignored;
    OnlyEntryReturns(ignored, upstream, matches, entry, m);
  }

  lemma OnlyEntryReturns(ignored: seq<string>, upstream: seq<string>, matches: Matcher, entry: string, m: string)
    requires Normalize(upstream) == upstream && Normalize(ignored) == ignored && CommaFree(upstream)
    requires entry in upstream && m in upstream && entry in ignored && forall e :: e in ignored ==> e == entry
    requires IgnoredBy(entry, m, matches) && !IgnoredBy(entry, entry, matches)
    ensures m in Settle(Record("", [], [], ignored, 0), upstream, map[], matches, 0).detected
  {
    var r := Record("", [], [], ignored, 0);
    NewNamePending(upstream, ignored, matches, entry);
    DetectedFrom(ignored, upstream, matches);
    assert Local(r) == [];
    LostIgnoreReturns(r, upstream, map[], matches, 0, entry, m);
  }

  lemma DetectedFrom(ignored: seq<string>, upstream: seq<string>, matches: Matcher)
    requires CommaFree(Normalize(upstream))
    ensures CommaFree(Checked(Record("", [], [], ignored, 0), upstream, map[], matches, false, 0).detected)
  {
    var detected := Checked(Record("", [], [], ignored, 0), upstream, map[], matches, false, 0).detected;
    PendingAddMeaning([], upstream, ignored, map[], matches);
    forall i | 0 <= i < |detected| ensures ',' !in detected[i] { assert detected[i] in Normalize(upstream); }
  }

  /** A concrete lost ignore: the pattern entry is itself listed upstream, and applying it un-ignores "x". */
  lemma PatternListedUpstream()
    ensures "x" in Settle(Record("", [], [], [ENTRY], 0), [ENTRY, "x"], map[], OnlyX, 0).detected
  {
    EntryIgnoresX();
    EntryListedUpstream(ENTRY, "x", OnlyX);
  }
}
