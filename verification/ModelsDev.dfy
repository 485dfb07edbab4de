/**
  The models.dev and OpenRouter price converters of controller/ratio_sync.go, over reals.

  models.dev lists each model under several providers; the converter walks the providers in
  name order and keeps one candidate per model, replacing it by a comparison that treats costs
  closer than 1e-9 as equal and is therefore not transitive.
*/
module ModelsDev {
  import opened Base
  import PriceSync

  datatype Cost = Cost(input: Option<real>, output: Option<real>, cacheRead: Option<real>)

  datatype Candidate = Candidate(provider: string, input: real, output: Option<real>, cacheRead: Option<real>)

  const USD: real := 500.0

  const EPSILON: real := PriceSync.EPSILON

  /** Byte-wise string order, as `<` and sort.Strings use it. */
  predicate Less(a: string, b: string) {
    b != [] && (a == [] || a[0] < b[0] || (a[0] == b[0] && Less(a[1..], b[1..])))
  }

  lemma {:induction false} LessTrans(a: string, b: string, c: string)
    requires Less(a, b) && Less(b, c)
    ensures Less(a, c)
  {
    if a != [] && a[0] == b[0] == c[0] {
      LessTrans(a[1..], b[1..], c[1..]);
    }
  }

  lemma {:induction false} LessTotal(a: string, b: string)
    ensures !(Less(a, b) && Less(b, a))
    ensures !Less(a, b) && !Less(b, a) ==> a == b
  {
    if a != [] && b != [] && a[0] == b[0] {
      LessTotal(a[1..], b[1..]);
      assert a == [a[0]] + a[1..] && b == [b[0]] + b[1..];
    }
  }

  // ----- candidates -----

  function BuildCandidate(provider: string, cost: Cost): Option<Candidate> {
    if cost.input == None || cost.input.value < 0.0 then None
    else if cost.output.Some? && cost.output.value < 0.0 then None
    else if cost.input.value == 0.0 && cost.output.Some? && cost.output.value > 0.0 then None
    else
      Some(Candidate(provider, cost.input.value, cost.output,
                     if cost.cacheRead.Some? && cost.cacheRead.value >= 0.0 then cost.cacheRead else None))
  }

  predicate ShouldReplace(current: Candidate, next: Candidate) {
    if (current.input > 0.0) != (next.input > 0.0) then next.input > 0.0
    else if next.input > 0.0 && !PriceSync.NearlyEqual(next.input, current.input) then next.input < current.input
    else Less(next.provider, current.provider)
  }

  /** The candidate left after offering `cs` in order. */
  function Pick(cs: seq<Candidate>): Option<Candidate> {
    if cs == [] then None
    else
      var before := Pick(cs[..|cs| - 1]);
      var next := cs[|cs| - 1];
      if before == None || ShouldReplace(before.value, next) then Some(next) else before
  }

  ghost predicate Ascending(cs: seq<Candidate>) {
    forall i, j :: 0 <= i < j < |cs| ==> Less(cs[i].provider, cs[j].provider)
  }

  ghost predicate Best(cs: seq<Candidate>, r: Candidate) {
    && r in cs
    && (forall c :: c in cs && c.input > 0.0 ==> r.input > 0.0 && r.input < c.input + EPSILON)
    && (r.input > 0.0 || r == cs[0])
  }

  /** Despite the non-transitive comparison: a positive cost whenever any candidate has one, and less than EPSILON above
      the cheapest positive cost. Among free candidates only, the first provider wins. */
  lemma {:induction false} PickIsBest(cs: seq<Candidate>)
    requires Ascending(cs) && cs != [] && forall c :: c in cs ==> c.input >= 0.0
    ensures Pick(cs).Some? && Best(cs, Pick(cs).value)
  {
    var k := |cs| - 1;
    if k > 0 {
      var before := cs[..k];
      PickIsBest(before);
      var r, next := Pick(before).value, cs[k];
      var i :| 0 <= i < k && before[i] == r;
      assert Less(cs[i].provider, cs[k].provider);
      LessTotal(r.provider, next.provider);
      forall c | c in cs && c.input > 0.0
        ensures Pick(cs).value.input > 0.0 && Pick(cs).value.input < c.input + EPSILON
      {
        if c != next {
          assert c in before;
        }
      }
    }
  }

  // ----- when the pick is the cheapest -----

  function Prices(cs: seq<Candidate>): seq<real> {
    seq(|cs|, i requires 0 <= i < |cs| => cs[i].input)
  }

  /** Some cost lies strictly between the cheapest positive one and EPSILON above it. */
  ghost predicate Crowded(costs: multiset<real>) {
    exists m, d :: CrowdedAt(costs, m, d)
  }

  ghost predicate CrowdedAt(costs: multiset<real>, m: real, d: real) {
    m in costs && d in costs && 0.0 < m < d < m + EPSILON && forall c :: c in costs && c > 0.0 ==> m <= c
  }

  /** The documented rule: the cheapest non-zero input cost, if there is one. */
  ghost predicate PicksCheapest(cs: seq<Candidate>) {
    forall c :: c in cs && c.input > 0.0 ==> Pick(cs).Some? && 0.0 < Pick(cs).value.input <= c.input
  }

  lemma PriceOf(cs: seq<Candidate>, c: Candidate)
    requires c in cs
    ensures c.input in multiset(Prices(cs))
  {
    var i :| 0 <= i < |cs| && cs[i] == c;
    assert Prices(cs)[i] == c.input;
  }

  lemma PriceFrom(cs: seq<Candidate>, x: real)
    requires x in multiset(Prices(cs))
    ensures exists c :: c in cs && c.input == x
  {
    var i :| 0 <= i < |cs| && Prices(cs)[i] == x;
    assert cs[i] in cs;
  }

  /** The cheapest of the positive costs. */
  lemma {:induction false} Cheapest(cs: seq<Candidate>, c: Candidate) returns (b: Candidate)
    requires c in cs && c.input > 0.0
    ensures b in cs && b.input > 0.0 && forall d :: d in cs && d.input > 0.0 ==> b.input <= d.input
  {
    var k := |cs| - 1;
    var before := cs[..k];
    if d :| d in before && d.input > 0.0 {
      b := Cheapest(before, d);
      if 0.0 < cs[k].input < b.input { b := cs[k]; }
    } else {
      b := c;
    }
    forall d | d in cs && d.input > 0.0 ensures b.input <= d.input {
      assert d == cs[k] || d in before;
    }
  }

  /** With no cost that close to the cheapest, the pick is the cheapest, whatever the providers are called. */
  lemma PickIsCheapest(cs: seq<Candidate>)
    requires Ascending(cs) && (forall c :: c in cs ==> c.input >= 0.0) && !Crowded(multiset(Prices(cs)))
    ensures PicksCheapest(cs)
  {
    forall c | c in cs && c.input > 0.0 ensures Pick(cs).Some? && 0.0 < Pick(cs).value.input <= c.input {
      PickIsBest(cs);
      var b := Cheapest(cs, c);
      var r := Pick(cs).value;
      PriceOf(cs, b);
      PriceOf(cs, r);
      assert b.input < r.input ==> CrowdedAt(multiset(Prices(cs)), b.input, r.input) by {
        forall x | x in multiset(Prices(cs)) && x > 0.0 ensures b.input <= x { PriceFrom(cs, x); }
      }
    }
  }

  /** A provider name longer than all names of smaller index. */
  function Name(i: nat): string {
    if i == 0 then "" else "a" + Name(i - 1)
  }

  lemma {:induction false} NamesAscend(i: nat, j: nat)
    requires i < j
    ensures Less(Name(i), Name(j))
  {
    if i > 0 {
      NamesAscend(i - 1, j - 1);
      assert Name(i)[1..] == Name(i - 1) && Name(j)[1..] == Name(j - 1);
    }
  }

  /** A first offer that nothing undercuts by EPSILON is kept. */
  lemma {:induction false} FirstIsKept(cs: seq<Candidate>)
    requires Ascending(cs) && cs != [] && cs[0].input > 0.0
    requires forall i :: 0 <= i < |cs| ==> cs[i].input <= 0.0 || cs[i].input > cs[0].input - EPSILON
    ensures Pick(cs) == Some(cs[0])
  {
    var k := |cs| - 1;
    if k > 0 {
      FirstIsKept(cs[..k]);
      LessTotal(cs[0].provider, cs[k].provider);
    }
  }

  /** The collection with `d` brought to the front. */
  lemma BroughtFirst(costs: seq<real>, d: real) returns (all: seq<real>)
    requires d in multiset(costs)
    ensures multiset(all) == multiset(costs) && all != [] && all[0] == d
  {
    var at :| 0 <= at < |costs| && costs[at] == d;
    all := [d] + (costs[..at] + costs[at + 1..]);
    assert costs == costs[..at] + [d] + costs[at + 1..];
  }

  /** The costs offered in the given order. */
  lemma Offered(all: seq<real>) returns (cs: seq<Candidate>)
    ensures Prices(cs) == all && Ascending(cs)
  {
    cs := seq(|all|, i requires 0 <= i < |all| => Candidate(Name(i), all[i], None, None));
    forall i, j | 0 <= i < j < |cs| ensures Less(cs[i].provider, cs[j].provider) { NamesAscend(i, j); }
  }

  /** A crowded collection can be offered so that the dearer cost is kept. */
  lemma CrowdedIsMissed(costs: seq<real>) returns (cs: seq<Candidate>)
    requires Crowded(multiset(costs)) && forall c :: c in multiset(costs) ==> c >= 0.0
    ensures Ascending(cs) && multiset(Prices(cs)) == multiset(costs) && !PicksCheapest(cs)
  {
    var m, d :| CrowdedAt(multiset(costs), m, d);
    var all := BroughtFirst(costs, d);
    cs := Offered(all);
    assert |cs| == |Prices(cs)|;
    forall i | 0 <= i < |cs| ensures cs[i].input <= 0.0 || cs[i].input > cs[0].input - EPSILON {
      assert Prices(cs)[i] in multiset(costs);
    }
    FirstIsKept(cs);
    PriceFrom(cs, m);
  }

  /** For any collection of costs: the pick is the cheapest positive one under every assignment of providers if and only
      if no cost lies strictly between the cheapest positive one and EPSILON above it. */
  lemma CheapestIff(costs: seq<real>)
    requires forall c :: c in multiset(costs) ==> c >= 0.0
    ensures (forall cs: seq<Candidate> ::
               Ascending(cs) && multiset(Prices(cs)) == multiset(costs) ==> PicksCheapest(cs))
            <==> !Crowded(multiset(costs))
  {
    if Crowded(multiset(costs)) {
      var cs := CrowdedIsMissed(costs);
    } else {
      forall cs: seq<Candidate> | Ascending(cs) && multiset(Prices(cs)) == multiset(costs) ensures PicksCheapest(cs) {
        forall c | c in cs ensures c.input >= 0.0 {
          PriceOf(cs, c);
          assert c.input in multiset(costs);
        }
        PickIsCheapest(cs);
      }
    }
  }

  /** The documented "cheapest non-zero" rule fails for closer costs: the dearer of two can be kept. */
  lemma NotAlwaysCheapest()
    ensures exists cs: seq<Candidate> ::
              Ascending(cs) && |cs| == 2 && cs[1].input > 0.0 && Pick(cs).Some? && Pick(cs).value.input > cs[1].input
  {
    var a := Candidate("a", 1.0, None, None);
    var b := Candidate("b", 1.0 - EPSILON / 2.0, None, None);
    var cs := [a, b];
    assert Less("a", "b") && !Less("b", "a");
    assert cs[..1] == [a] && [a][..0] == [];
    assert Pick([a]) == Some(a);
    assert Pick(cs) == Some(a);
  }

  // ----- selection over the whole catalogue -----

  type Catalogue = map<string, map<string, Cost>>

  ghost predicate Sorted(names: seq<string>) {
    forall i, j :: 0 <= i < j < |names| ==> Less(names[i], names[j])
  }

  /** `names` is sort.Strings of the keys `keys`. */
  ghost predicate Enumerates(names: seq<string>, keys: set<string>) {
    Sorted(names) && forall n :: n in names <==> n in keys
  }

  lemma EmptyIff(a: seq<string>, keys: set<string>)
    requires Enumerates(a, keys)
    ensures a == [] <==> keys == {}
  {
    if a != [] {
      assert a[0] in keys;
    }
  }

  /** Sorting removes every trace of map iteration order: a key set has one sorted enumeration. */
  lemma {:induction false} EnumerationUnique(a: seq<string>, b: seq<string>, keys: set<string>)
    requires Enumerates(a, keys) && Enumerates(b, keys)
    ensures a == b
    decreases |a|
  {
    EmptyIff(a, keys);
    EmptyIff(b, keys);
    if a != [] {
      assert a[0] in keys && b != [];
      assert b[0] in keys;
      var i :| 0 <= i < |b| && b[i] == a[0];
      var j :| 0 <= j < |a| && a[j] == b[0];
      LessTotal(a[0], b[0]);
      assert a[0] == b[0];
      assert forall n :: n in a[1..] <==> n in keys - {a[0]} by { TailKeys(a, keys); }
      assert forall n :: n in b[1..] <==> n in keys - {a[0]} by { TailKeys(b, keys); }
      EnumerationUnique(a[1..], b[1..], keys - {a[0]});
      assert a == [a[0]] + a[1..] && b == [b[0]] + b[1..];
    }
  }

  lemma TailKeys(a: seq<string>, keys: set<string>)
    requires Enumerates(a, keys) && a != []
    ensures forall n :: n in a[1..] <==> n in keys - {a[0]}
  {
    forall n ensures n in a[1..] <==> n in keys - {a[0]} {
      if n in a[1..] {
        var i :| 0 <= i < |a| - 1 && a[1..][i] == n;
        assert a[i + 1] == n && Less(a[0], a[i + 1]);
        LessTotal(a[0], n);
      }
      if n in keys && n != a[0] {
        var i :| 0 <= i < |a| && a[i] == n;
        assert a[1..][i - 1] == n;
      }
    }
  }

  /** Insert a new name at its place in a sorted list. */
  method Insert(names: seq<string>, n: string) returns (r: seq<string>)
    requires Sorted(names) && n !in names
    ensures Sorted(r) && forall m :: m in r <==> m in names || m == n
  {
    var k := 0;
    while k < |names| && Less(names[k], n)
      invariant k <= |names|
      invariant forall i :: 0 <= i < k ==> Less(names[i], n)
    {
      k := k + 1;
    }
    r := names[..k] + [n] + names[k..];
    forall i | k <= i < |names| ensures Less(n, names[i]) {
      LessTotal(names[k], n);
      if i > k {
        LessTrans(n, names[k], names[i]);
      }
    }
  }

  /** The keys of a map, collected in any order and sorted. */
  method SortedKeys(keys: set<string>) returns (names: seq<string>)
    ensures Enumerates(names, keys)
  {
    names := [];
    var todo := keys;
    while todo != {}
      invariant todo <= keys && Enumerates(names, keys - todo)
    {
      var n :| n in todo;
      names := Insert(names, n);
      todo := todo - {n};
    }
    assert keys - todo == keys;
  }

  /** The valid candidates for one model, in the order the providers are walked. */
  function Offers(data: Catalogue, providers: seq<string>, m: string): seq<Candidate> {
    if providers == [] then []
    else
      var p := providers[|providers| - 1];
      var rest := Offers(data, providers[..|providers| - 1], m);
      if p in data && m in data[p] && BuildCandidate(p, data[p][m]).Some?
      then rest + [BuildCandidate(p, data[p][m]).value]
      else rest
  }

  lemma {:induction false} OffersAscend(data: Catalogue, providers: seq<string>, m: string)
    requires Sorted(providers)
    ensures Ascending(Offers(data, providers, m))
    ensures forall c :: c in Offers(data, providers, m) ==> c.input >= 0.0 && c.provider in providers
  {
    if providers != [] {
      var k := |providers| - 1;
      OffersAscend(data, providers[..k], m);
      var before := Offers(data, providers[..k], m);
      forall c | c in before ensures Less(c.provider, providers[k]) {
        var i :| 0 <= i < k && providers[..k][i] == c.provider;
        assert Less(providers[i], providers[k]);
      }
    }
  }

  /** Every valid entry of the catalogue is an offer. */
  lemma {:induction false} OffersComplete(data: Catalogue, providers: seq<string>, m: string, p: string)
    requires p in providers && p in data && m in data[p] && BuildCandidate(p, data[p][m]).Some?
    ensures BuildCandidate(p, data[p][m]).value in Offers(data, providers, m)
  {
    var k := |providers| - 1;
    if p != providers[k] {
      assert p in providers[..k];
      OffersComplete(data, providers[..k], m, p);
    }
  }

  ghost predicate SelectedIs(selected: map<string, Candidate>, data: Catalogue, providers: seq<string>, m: string) {
    match Pick(Offers(data, providers, m))
    case None => m !in selected
    case Some(c) => m in selected && selected[m] == c
  }

  ghost predicate Selection(selected: map<string, Candidate>, data: Catalogue, providers: seq<string>) {
    forall m :: SelectedIs(selected, data, providers, m)
  }

  /** Models in `names` have seen provider `k`, the others only the providers before it. */
  ghost predicate Partial(selected: map<string, Candidate>, data: Catalogue, providers: seq<string>, k: nat,
                          names: set<string>)
    requires k < |providers|
  {
    forall m :: SelectedIs(selected, data, if m in names then providers[..k + 1] else providers[..k], m)
  }

  lemma OfferOne(selected: map<string, Candidate>, data: Catalogue, providers: seq<string>, k: nat, names: set<string>,
                 m: string)
    requires k < |providers| && providers[k] in data && m !in names && m in data[providers[k]]
    requires Partial(selected, data, providers, k, names)
    ensures var c := BuildCandidate(providers[k], data[providers[k]][m]);
            Partial(if c.Some? && (m !in selected || ShouldReplace(selected[m], c.value))
                    then selected[m := c.value] else selected,
                    data, providers, k, names + {m})
  {
    assert SelectedIs(selected, data, providers[..k], m);
    OneMore(data, providers, k, m);
  }

  lemma OffersDone(selected: map<string, Candidate>, data: Catalogue, providers: seq<string>, k: nat)
    requires k < |providers| && providers[k] in data && Partial(selected, data, providers, k, data[providers[k]].Keys)
    ensures Selection(selected, data, providers[..k + 1])
  {
    var done := providers[..k + 1];
    forall m ensures SelectedIs(selected, data, done, m) {
      assert SelectedIs(selected, data, if m in data[providers[k]].Keys then providers[..k + 1] else providers[..k], m);
      OneMore(data, providers, k, m);
    }
  }

  /** One provider's models offered to the selection. */
  method OfferProvider(data: Catalogue, providers: seq<string>, k: nat, old_: map<string, Candidate>)
    returns (selected: map<string, Candidate>)
    requires k < |providers| && providers[k] in data && Selection(old_, data, providers[..k])
    ensures Selection(selected, data, providers[..k + 1])
  {
    var p := providers[k];
    selected := old_;
    var modelNames := SortedKeys(data[p].Keys);
    for j := 0 to |modelNames|
      invariant Partial(selected, data, providers, k, Prefix(modelNames, j))
    {
      var m := modelNames[j];
      PrefixGrows(modelNames, j);
      OfferOne(selected, data, providers, k, Prefix(modelNames, j), m);
      var candidate := BuildCandidate(p, data[p][m]);
      if candidate.Some? && (m !in selected || ShouldReplace(selected[m], candidate.value)) {
        selected := selected[m := candidate.value];
      }
    }
    assert Prefix(modelNames, |modelNames|) == data[p].Keys;
    OffersDone(selected, data, providers, k);
  }

  ghost function Prefix(names: seq<string>, j: nat): set<string>
    requires j <= |names|
  {
    set i | 0 <= i < j :: names[i]
  }

  lemma PrefixGrows(names: seq<string>, j: nat)
    requires Sorted(names) && j < |names|
    ensures names[j] !in Prefix(names, j) && Prefix(names, j + 1) == Prefix(names, j) + {names[j]}
  {
    forall i | 0 <= i < j ensures names[i] != names[j] {
      LessTotal(names[i], names[j]);
    }
  }

  lemma OneMore(data: Catalogue, providers: seq<string>, k: nat, m: string)
    requires k < |providers| && providers[k] in data
    ensures var p, before := providers[k], Pick(Offers(data, providers[..k], m));
            Pick(Offers(data, providers[..k + 1], m)) ==
            if m in data[p] && BuildCandidate(p, data[p][m]).Some? &&
               (before == None || ShouldReplace(before.value, BuildCandidate(p, data[p][m]).value))
            then BuildCandidate(p, data[p][m]) else before
  {
    assert providers[..k + 1][..k] == providers[..k];
    var offers := Offers(data, providers[..k], m);
    var p := providers[k];
    if m in data[p] && BuildCandidate(p, data[p][m]).Some? {
      var c := BuildCandidate(p, data[p][m]).value;
      assert (offers + [c])[..|offers|] == offers;
    }
  }

  method SelectCandidates(data: Catalogue) returns (selected: map<string, Candidate>, ghost providers: seq<string>)
    ensures Enumerates(providers, data.Keys) && Selection(selected, data, providers)
  {
    var names := SortedKeys(data.Keys);
    selected := map[];
    for k := 0 to |names|
      invariant Selection(selected, data, names[..k])
    {
      assert names[k] in data;
      selected := OfferProvider(data, names, k, selected);
    }
    assert names[..|names|] == names;
    providers := names;
  }

  /** A valid entry exists for model `m` at provider `p`. */
  ghost predicate Valid(data: Catalogue, p: string, m: string) {
    p in data && m in data[p] && BuildCandidate(p, data[p][m]).Some?
  }

  /** The selection against the catalogue itself: a model is selected iff some provider has a valid entry for it; the
      selected entry is one of them; it has a positive cost whenever any of them has; and its cost is less than EPSILON
      above theirs. */
  lemma SelectionMeaning(selected: map<string, Candidate>, data: Catalogue, providers: seq<string>, m: string)
    requires Enumerates(providers, data.Keys) && Selection(selected, data, providers)
    ensures m in selected <==> exists p :: Valid(data, p, m)
    ensures m in selected ==>
              var c := selected[m];
              && Valid(data, c.provider, m) && BuildCandidate(c.provider, data[c.provider][m]) == Some(c)
              && forall p :: Valid(data, p, m) && data[p][m].input.value > 0.0 ==>
                   c.input > 0.0 && c.input < data[p][m].input.value + EPSILON
  {
    assert SelectedIs(selected, data, providers, m);
    var offers := Offers(data, providers, m);
    OffersAscend(data, providers, m);
    if p :| Valid(data, p, m) {
      OffersComplete(data, providers, m, p);
    }
    if offers != [] {
      PickIsBest(offers);
      OffersSound(data, providers, m);
      forall p | Valid(data, p, m) && data[p][m].input.value > 0.0
        ensures selected[m].input > 0.0 && selected[m].input < data[p][m].input.value + EPSILON
      {
        OffersComplete(data, providers, m, p);
      }
    }
  }

  lemma {:induction false} OffersSound(data: Catalogue, providers: seq<string>, m: string)
    ensures forall c :: c in Offers(data, providers, m) ==>
              Valid(data, c.provider, m) && BuildCandidate(c.provider, data[c.provider][m]) == Some(c)
  {
    if providers != [] {
      OffersSound(data, providers[..|providers| - 1], m);
    }
  }

  /** The selection does not depend on the order in which the source's maps are iterated. */
  lemma SelectionUnique(a: map<string, Candidate>, b: map<string, Candidate>, data: Catalogue, ps: seq<string>,
                        qs: seq<string>)
    requires Enumerates(ps, data.Keys) && Selection(a, data, ps)
    requires Enumerates(qs, data.Keys) && Selection(b, data, qs)
    ensures a == b
  {
    EnumerationUnique(ps, qs, data.Keys);
    forall m ensures (m in a <==> m in b) && (m in a ==> a[m] == b[m]) {
      assert SelectedIs(a, data, ps, m) && SelectedIs(b, data, ps, m);
    }
  }

  // ----- ratios -----

  /** The ratios derived for one model. */
  datatype Ratios = Ratios(model: real, completion: Option<real>, cache: Option<real>)

  /** The three output tables. */
  datatype RatioData = RatioData(model: map<string, real>, completion: map<string, real>, cache: map<string, real>)

  const NO_RATIOS: RatioData := RatioData(map[], map[], map[])

  /** math.Round: the nearest integer, halves away from zero. */
  function Nearest(x: real): int {
    if x >= 0.0 then (x + 0.5).Floor else -(0.5 - x).Floor
  }

  /** math.Round(value * 1e6) / 1e6. */
  function RoundRatio(value: real): real {
    Nearest(value * 1000000.0) as real / 1000000.0
  }

  lemma NearestMeaning(x: real, y: real)
    ensures var n := Nearest(x);
      && (if x >= 0.0 then -0.5 < n as real - x <= 0.5 else -0.5 <= n as real - x < 0.5)
      && Nearest(n as real) == n && Nearest(-x) == -n && (x <= y ==> n <= Nearest(y))
  {
  }

  /** The result is the multiple of 1e-6 nearest to the value, halves going away from zero; a ratio already rounded is
      left alone, and the order of two ratios is never reversed. */
  lemma RoundRatioMeaning(value: real, other: real)
    ensures var n, r := Nearest(value * 1000000.0), RoundRatio(value);
      && r * 1000000.0 == n as real
      && (if value >= 0.0 then -0.5 < n as real - value * 1000000.0 <= 0.5
          else -0.5 <= n as real - value * 1000000.0 < 0.5)
      && RoundRatio(r) == r && RoundRatio(-value) == -r
      && (value <= other ==> r <= RoundRatio(other))
  {
    NearestMeaning(value * 1000000.0, other * 1000000.0);
    assert (-value) * 1000000.0 == -(value * 1000000.0);
  }

  function CandidateRatios(c: Candidate): Ratios {
    if c.input == 0.0 then Ratios(0.0, None, None)
    else
      Ratios(RoundRatio(c.input * USD / 1000.0),
             if c.output.Some? then Some(RoundRatio(c.output.value / c.input)) else None,
             if c.cacheRead.Some? then Some(RoundRatio(c.cacheRead.value / c.input)) else None)
  }

  function Put(d: RatioData, m: string, r: Ratios): RatioData {
    RatioData(d.model[m := r.model],
              if r.completion.Some? then d.completion[m := r.completion.value] else d.completion,
              if r.cache.Some? then d.cache[m := r.cache.value] else d.cache)
  }

  /** The row of `d` for `m`, if any. */
  function RowOf(d: RatioData, m: string): Option<Ratios> {
    if m !in d.model then None
    else
      Some(Ratios(d.model[m],
                  if m in d.completion then Some(d.completion[m]) else None,
                  if m in d.cache then Some(d.cache[m]) else None))
  }

  /** No stray completion or cache ratio without a model ratio. */
  ghost predicate Tidy(d: RatioData) {
    d.completion.Keys <= d.model.Keys && d.cache.Keys <= d.model.Keys
  }

  lemma TidyEqual(d: RatioData, e: RatioData)
    requires Tidy(d) && Tidy(e) && forall m :: RowOf(d, m) == RowOf(e, m)
    ensures d == e
  {
    forall m ensures
        && (m in d.model <==> m in e.model) && (m in d.completion <==> m in e.completion)
        && (m in d.cache <==> m in e.cache)
        && (m in d.model ==> d.model[m] == e.model[m])
        && (m in d.completion ==> d.completion[m] == e.completion[m]) && (m in d.cache ==> d.cache[m] == e.cache[m])
    {
      assert RowOf(d, m) == RowOf(e, m);
    }
  }

  /** What the models.dev converter owes for model `m`. */
  ghost function ModelsDevRow(selected: map<string, Candidate>, m: string): Option<Ratios> {
    if m in selected then Some(CandidateRatios(selected[m])) else None
  }

  method RatiosFromSelection(selected: map<string, Candidate>) returns (d: RatioData)
    ensures Tidy(d) && forall m :: RowOf(d, m) == ModelsDevRow(selected, m)
  {
    d := NO_RATIOS;
    var todo := selected.Keys;
    while todo != {}
      invariant todo <= selected.Keys && Tidy(d)
      invariant forall m :: RowOf(d, m) == if m in todo then None else ModelsDevRow(selected, m)
    {
      var m :| m in todo;
      d := Put(d, m, CandidateRatios(selected[m]));
      todo := todo - {m};
    }
  }

  datatype Outcome = Converted(data: RatioData) | EmptyResponse | NoValidEntries

  ghost predicate OutcomeOf(selected: map<string, Candidate>, r: Outcome) {
    if selected == map[] then r == NoValidEntries
    else r.Converted? && Tidy(r.data) && forall m :: RowOf(r.data, m) == ModelsDevRow(selected, m)
  }

  ghost predicate IsModelsDevOutcome(data: Catalogue, r: Outcome) {
    if data == map[] then r == EmptyResponse
    else
      exists selected, providers ::
        Enumerates(providers, data.Keys) && Selection(selected, data, providers) && OutcomeOf(selected, r)
  }

  /** convertModelsDevToRatioData after decoding. */
  method ConvertModelsDev(data: Catalogue) returns (r: Outcome)
    ensures IsModelsDevOutcome(data, r)
  {
    if |data| == 0 {
      return EmptyResponse;
    }
    var selected, providers := SelectCandidates(data);
    if |selected| == 0 {
      r := NoValidEntries;
    } else {
      var d := RatiosFromSelection(selected);
      r := Converted(d);
    }
    assert OutcomeOf(selected, r);
  }

  /** One catalogue has one outcome, whatever the map iteration order. */
  lemma OutcomeUnique(data: Catalogue, r: Outcome, s: Outcome)
    requires IsModelsDevOutcome(data, r) && IsModelsDevOutcome(data, s)
    ensures r == s
  {
    if data != map[] {
      var a, ps :| Enumerates(ps, data.Keys) && Selection(a, data, ps) && OutcomeOf(a, r);
      var b, qs :| Enumerates(qs, data.Keys) && Selection(b, data, qs) && OutcomeOf(b, s);
      SelectionUnique(a, b, data, ps, qs);
      if a != map[] {
        TidyEqual(r.data, s.data);
      }
    }
  }

  // ----- OpenRouter -----

  /** One OpenRouter entry with its three prices as parsed, per token. */
  datatype Entry = Entry(id: string, prompt: Option<real>, completion: Option<real>, cacheRead: Option<real>)

  function OrZero(v: Option<real>): real {
    if v.Some? then v.value else 0.0
  }

  function EntryRatios(e: Entry): Option<Ratios> {
    var p, c := OrZero(e.prompt), OrZero(e.completion);
    if e.prompt == None && e.completion == None then None
    else if p < 0.0 || c < 0.0 then None
    else if p == 0.0 && c == 0.0 then Some(Ratios(0.0, None, None))
    else if p <= 0.0 then None
    else
      Some(Ratios(RoundRatio(p * 1000.0 * USD), Some(RoundRatio(c / p)),
                  if e.cacheRead.Some? && e.cacheRead.value >= 0.0 then Some(RoundRatio(e.cacheRead.value / p))
                  else None))
  }

  ghost predicate UniqueIds(es: seq<Entry>) {
    forall i, j :: 0 <= i < j < |es| ==> es[i].id != es[j].id
  }

  ghost predicate IsOpenRouterData(es: seq<Entry>, d: RatioData) {
    && Tidy(d)
    && (forall i :: 0 <= i < |es| ==> RowOf(d, es[i].id) == EntryRatios(es[i]))
    && (forall m :: m in d.model ==> exists i :: 0 <= i < |es| && es[i].id == m)
  }

  /** The loop body of convertOpenRouterToRatioData. */
  method ConvertEntry(d: RatioData, e: Entry) returns (d': RatioData)
    ensures d' == match EntryRatios(e) case None => d case Some(r) => Put(d, e.id, r)
  {
    d' := d;
    if e.prompt == None && e.completion == None {
      return;
    }
    var p, c := OrZero(e.prompt), OrZero(e.completion);
    if p < 0.0 || c < 0.0 {
      return;
    }
    if p == 0.0 && c == 0.0 {
      d' := d'.(model := d'.model[e.id := 0.0]);
      return;
    }
    if p <= 0.0 {
      return;
    }
    d' := d'.(model := d'.model[e.id := RoundRatio(p * 1000.0 * USD)],
              completion := d'.completion[e.id := RoundRatio(c / p)]);
    if e.cacheRead.Some? && e.cacheRead.value >= 0.0 {
      d' := d'.(cache := d'.cache[e.id := RoundRatio(e.cacheRead.value / p)]);
    }
  }

  function OpenRouterData(es: seq<Entry>): RatioData {
    if es == [] then NO_RATIOS
    else
      var k := |es| - 1;
      match EntryRatios(es[k])
      case None => OpenRouterData(es[..k])
      case Some(r) => Put(OpenRouterData(es[..k]), es[k].id, r)
  }

  /** convertOpenRouterToRatioData after decoding. */
  method ConvertOpenRouter(es: seq<Entry>) returns (d: RatioData)
    ensures d == OpenRouterData(es)
  {
    d := NO_RATIOS;
    for k := 0 to |es|
      invariant d == OpenRouterData(es[..k])
    {
      assert es[..k + 1][..k] == es[..k];
      d := ConvertEntry(d, es[k]);
    }
    assert es[..|es|] == es;
  }

  lemma PutRow(d: RatioData, m: string, r: Ratios)
    requires Tidy(d) && m !in d.model
    ensures Tidy(Put(d, m, r)) && forall n :: RowOf(Put(d, m, r), n) == if n == m then Some(r) else RowOf(d, n)
  {
  }

  /** With unique ids, each entry's row is its own conversion and nothing else is listed. */
  lemma {:induction false} OpenRouterMeaning(es: seq<Entry>)
    requires UniqueIds(es)
    ensures IsOpenRouterData(es, OpenRouterData(es))
  {
    if es != [] {
      var k := |es| - 1;
      var before := es[..k];
      OpenRouterMeaning(before);
      var d, d' := OpenRouterData(before), OpenRouterData(es);
      assert forall i :: 0 <= i < |before| ==> before[i].id != es[k].id;
      if EntryRatios(es[k]).Some? {
        PutRow(d, es[k].id, EntryRatios(es[k]).value);
      }
      forall i | 0 <= i < |es| ensures RowOf(d', es[i].id) == EntryRatios(es[i]) {
        if i < k {
          assert before[i] == es[i] && es[i].id != es[k].id;
        }
      }
      forall m | m in d'.model ensures exists i :: 0 <= i < |es| && es[i].id == m {
        if m != es[k].id {
          assert RowOf(d', m) == RowOf(d, m);
          var i :| 0 <= i < |before| && before[i].id == m;
          assert es[i].id == m;
        }
      }
    }
  }

  // ----- the two converters on one price list -----

  const MILLION: real := 1000000.0

  function PerMillion(v: Option<real>): Option<real> {
    if v.Some? then Some(v.value * MILLION) else None
  }

  /** The models.dev cost record of an OpenRouter entry: the same prices per million tokens. */
  function CostOf(e: Entry): Cost {
    Cost(PerMillion(e.prompt), PerMillion(e.completion), PerMillion(e.cacheRead))
  }

  /** What models.dev conversion makes of the entry when one provider lists it. */
  function ViaModelsDev(p: string, e: Entry): Option<Ratios> {
    match BuildCandidate(p, CostOf(e))
    case None => None
    case Some(c) => Some(CandidateRatios(c))
  }

  /** The entries on which the two converters differ: a free completion price without a prompt price, and a paid prompt
      price without a completion price. */
  predicate Compatible(e: Entry) {
    && !(e.prompt == None && e.completion == Some(0.0))
    && !(e.prompt.Some? && e.prompt.value > 0.0 && e.completion == None)
  }

  lemma ScaledQuotient(a: real, b: real)
    requires b > 0.0
    ensures (a * MILLION) / (b * MILLION) == a / b
  {
    var q := a / b;
    assert q * b == a;
    assert q * (b * MILLION) == a * MILLION;
  }

  /** Entry by entry, the two conversions agree exactly on the compatible entries. */
  lemma EntryAgreement(p: string, e: Entry)
    ensures EntryRatios(e) == ViaModelsDev(p, e) <==> Compatible(e)
  {
    if e.prompt.Some? && e.prompt.value > 0.0 && e.completion.Some? && e.completion.value >= 0.0 {
      var x, c := e.prompt.value, e.completion.value;
      ScaledQuotient(c, x);
      assert x * MILLION * USD / 1000.0 == x * 1000.0 * USD;
      if e.cacheRead.Some? {
        ScaledQuotient(e.cacheRead.value, x);
      }
    }
  }

  /** The catalogue in which provider `p` lists exactly the entries `es`. */
  ghost predicate SoleProvider(data: Catalogue, p: string, es: seq<Entry>) {
    && data.Keys == {p}
    && (forall i :: 0 <= i < |es| ==> es[i].id in data[p] && data[p][es[i].id] == CostOf(es[i]))
    && (forall m :: m in data[p] ==> exists i :: 0 <= i < |es| && es[i].id == m)
  }

  lemma SoleSelection(data: Catalogue, p: string, es: seq<Entry>, selected: map<string, Candidate>,
                      providers: seq<string>, m: string)
    requires SoleProvider(data, p, es) && Enumerates(providers, data.Keys) && Selection(selected, data, providers)
    ensures m in selected <==> m in data[p] && BuildCandidate(p, data[p][m]).Some?
    ensures m in selected ==> BuildCandidate(p, data[p][m]) == Some(selected[m])
  {
    SelectionMeaning(selected, data, providers, m);
    if m in data[p] && BuildCandidate(p, data[p][m]).Some? {
      assert Valid(data, p, m);
    }
  }

  lemma SoleRow(data: Catalogue, p: string, es: seq<Entry>, selected: map<string, Candidate>, providers: seq<string>,
                i: nat)
    requires SoleProvider(data, p, es) && Enumerates(providers, data.Keys) && Selection(selected, data, providers)
    requires i < |es|
    ensures ModelsDevRow(selected, es[i].id) == ViaModelsDev(p, es[i])
  {
    SoleSelection(data, p, es, selected, providers, es[i].id);
  }

  /** The two converters on one price list: for a single models.dev provider and unique model ids, the models.dev result
      is the OpenRouter result (and "no valid entries" when that is empty) exactly when every entry is compatible. */
  lemma ConvertersAgree(data: Catalogue, p: string, es: seq<Entry>, r: Outcome, d: RatioData)
    requires SoleProvider(data, p, es) && UniqueIds(es)
    requires IsModelsDevOutcome(data, r) && d == OpenRouterData(es)
    ensures r == (if d == NO_RATIOS then NoValidEntries else Converted(d))
            <==> forall i :: 0 <= i < |es| ==> Compatible(es[i])
  {
    OpenRouterMeaning(es);
    var selected, providers :|
      Enumerates(providers, data.Keys) && Selection(selected, data, providers) && OutcomeOf(selected, r);
    forall i | 0 <= i < |es|
      ensures ModelsDevRow(selected, es[i].id) == RowOf(d, es[i].id) <==> Compatible(es[i])
    {
      SoleRow(data, p, es, selected, providers, i);
      EntryAgreement(p, es[i]);
    }
    forall m | (forall i :: 0 <= i < |es| ==> es[i].id != m) ensures ModelsDevRow(selected, m) == RowOf(d, m) == None {
      SoleSelection(data, p, es, selected, providers, m);
    }
    AgreementFromRows(es, selected, r, d);
  }

  lemma AgreementFromRows(es: seq<Entry>, selected: map<string, Candidate>, r: Outcome, d: RatioData)
    requires OutcomeOf(selected, r) && Tidy(d)
    requires forall i :: 0 <= i < |es| ==>
              (ModelsDevRow(selected, es[i].id) == RowOf(d, es[i].id) <==> Compatible(es[i]))
    requires forall m :: (forall i :: 0 <= i < |es| ==> es[i].id != m) ==> ModelsDevRow(selected, m) == RowOf(d, m)
    ensures r == (if d == NO_RATIOS then NoValidEntries else Converted(d))
            <==> forall i :: 0 <= i < |es| ==> Compatible(es[i])
  {
    if forall i :: 0 <= i < |es| ==> Compatible(es[i]) {
      forall m ensures ModelsDevRow(selected, m) == RowOf(d, m) {
        if i :| 0 <= i < |es| && es[i].id == m {
          assert Compatible(es[i]);
        }
      }
      if d == NO_RATIOS {
        assert selected == map[] by {
          forall m ensures m !in selected { assert RowOf(d, m) == None; }
        }
      } else {
        assert selected != map[] by {
          if selected == map[] {
            forall m ensures RowOf(d, m) == RowOf(NO_RATIOS, m) { assert ModelsDevRow(selected, m) == None; }
            TidyEqual(d, NO_RATIOS);
          }
        }
        TidyEqual(r.data, d);
      }
    } else {
      var i :| 0 <= i < |es| && !Compatible(es[i]);
      assert ModelsDevRow(selected, es[i].id) != RowOf(d, es[i].id);
    }
  }
}