/**
  Name lists of controller/channel_upstream_update.go: trimming, normal form, the ordered
  set algebra on them, and the comma-joined form in which a channel stores its models.
*/
module ModelNames {

  /** unicode.IsSpace, as strings.TrimSpace uses it. */
  predicate IsSpace(c: char) {
    || c == ' ' || '\U{0009}' <= c <= '\U{000D}' || c == '\U{0085}' || c == '\U{00A0}' || c == '\U{1680}'
    || '\U{2000}' <= c <= '\U{200A}' || c == '\U{2028}' || c == '\U{2029}'
    || c == '\U{202F}' || c == '\U{205F}' || c == '\U{3000}'
  }

  function TrimLeft(s: string): (t: string)
    ensures forall c :: c in t ==> c in s
    ensures t == [] || !IsSpace(t[0])
  {
    if s != [] && IsSpace(s[0]) then TrimLeft(s[1..]) else s
  }

  function TrimRight(s: string): (t: string)
    ensures t <= s
    ensures t == [] || !IsSpace(t[|t| - 1])
  {
    if s != [] && IsSpace(s[|s| - 1]) then TrimRight(s[..|s| - 1]) else s
  }

  /** strings.TrimSpace. */
  function Trim(s: string): (t: string)
    ensures forall c :: c in t ==> c in s
    ensures Trimmed(t)
  {
    TrimRight(TrimLeft(s))
  }

  predicate Trimmed(s: string) {
    s == [] || (!IsSpace(s[0]) && !IsSpace(s[|s| - 1]))
  }

  /** In normal form: non-blank trimmed names, each once. */
  ghost predicate Normal(names: seq<string>) {
    && (forall i :: 0 <= i < |names| ==> names[i] != [] && Trimmed(names[i]))
    && (forall i, j :: 0 <= i < j < |names| ==> names[i] != names[j])
  }

  /** normalizeModelNames: trim, drop blanks, keep first occurrences. */
  function Normalize(names: seq<string>): seq<string> {
    if names == [] then []
    else
      var r, t := Normalize(names[..|names| - 1]), Trim(names[|names| - 1]);
      if t == [] || t in r then r else r + [t]
  }

  lemma {:induction false} NormalizeMeaning(names: seq<string>)
    ensures Normal(Normalize(names))
    ensures forall m :: m in Normalize(names) <==> m != [] && exists i :: 0 <= i < |names| && Trim(names[i]) == m
  {
    if names != [] {
      var k := |names| - 1;
      NormalizeMeaning(names[..k]);
      assert forall i :: 0 <= i < k ==> names[..k][i] == names[i];
      var r, t := Normalize(names[..k]), Trim(names[k]);
      if t != [] && t !in r { NormalConcat(r, [t]); }
    }
  }

  lemma TrimFixed(s: string)
    requires Trimmed(s)
    ensures Trim(s) == s
  {
  }

  /** A list in normal form is left alone, order included. */
  lemma {:induction false} NormalizeFixed(names: seq<string>)
    requires Normal(names)
    ensures Normalize(names) == names
  {
    if names != [] {
      var k := |names| - 1;
      NormalizeFixed(names[..k]);
      TrimFixed(names[k]);
      assert names == names[..k] + [names[k]];
    }
  }

  /** Normalising twice changes nothing. */
  lemma NormalizeTwice(names: seq<string>)
    ensures Normal(Normalize(names)) && Normalize(Normalize(names)) == Normalize(names)
  {
    NormalizeMeaning(names);
    NormalizeFixed(Normalize(names));
  }

  /** The names of a list outside a set, in order. */
  function Without(names: seq<string>, drop: set<string>): seq<string> {
    if names == [] then []
    else
      var k := |names| - 1;
      var r := Without(names[..k], drop);
      if names[k] in drop then r else r + [names[k]]
  }

  lemma {:induction false} WithoutMembers(names: seq<string>, drop: set<string>)
    ensures forall m :: m in Without(names, drop) <==> m in names && m !in drop
  {
    if names != [] {
      var k := |names| - 1;
      WithoutMembers(names[..k], drop);
      assert names == names[..k] + [names[k]];
    }
  }

  lemma {:induction false} WithoutNormal(names: seq<string>, drop: set<string>)
    requires Normal(names)
    ensures Normal(Without(names, drop))
  {
    if names != [] {
      var k := |names| - 1;
      WithoutNormal(names[..k], drop);
      WithoutMembers(names[..k], drop);
      assert names[k] !in names[..k];
      if names[k] !in drop { NormalConcat(Without(names[..k], drop), [names[k]]); }
    }
  }

  lemma {:induction false} WithoutNothing(names: seq<string>, drop: set<string>)
    requires forall i :: 0 <= i < |names| ==> names[i] !in drop
    ensures Without(names, drop) == names
  {
    if names != [] {
      var k := |names| - 1;
      WithoutNothing(names[..k], drop);
      assert names == names[..k] + [names[k]];
    }
  }

  lemma WithoutMeaning(names: seq<string>, drop: set<string>)
    ensures forall m :: m in Without(names, drop) <==> m in names && m !in drop
    ensures Normal(names) ==> Normal(Without(names, drop))
    ensures (forall m :: m in names ==> m !in drop) ==> Without(names, drop) == names
  {
    WithoutMembers(names, drop);
    if Normal(names) { WithoutNormal(names, drop); }
    if forall m :: m in names ==> m !in drop { WithoutNothing(names, drop); }
  }

  function Elements(names: seq<string>): set<string> {
    set m | m in names
  }

  lemma NormalConcat(a: seq<string>, b: seq<string>)
    requires Normal(a) && Normal(b) && forall m :: m in b ==> m !in a
    ensures Normal(a + b)
  {
    forall i, j | 0 <= i < j < |a + b| ensures (a + b)[i] != (a + b)[j] {
      if i < |a| <= j {
        assert b[j - |a|] in b;
      }
    }
  }

  /** mergeModelNames: the base, then the appended names it lacks. */
  function Merge(base: seq<string>, appended: seq<string>): seq<string> {
    Normalize(base) + Without(Normalize(appended), Elements(Normalize(base)))
  }

  lemma MergeMeaning(base: seq<string>, appended: seq<string>)
    ensures Normal(Merge(base, appended))
    ensures forall m :: m in Merge(base, appended) <==> m in Normalize(base) || m in Normalize(appended)
  {
    NormalizeMeaning(base);
    NormalizeMeaning(appended);
    WithoutMeaning(Normalize(appended), Elements(Normalize(base)));
    NormalConcat(Normalize(base), Without(Normalize(appended), Elements(Normalize(base))));
  }

  function Subtract(base: seq<string>, removed: seq<string>): seq<string> {
    Without(Normalize(base), Elements(Normalize(removed)))
  }

  lemma SubtractMeaning(base: seq<string>, removed: seq<string>)
    ensures Normal(Subtract(base, removed))
    ensures forall m :: m in Subtract(base, removed) <==> m in Normalize(base) && m !in Normalize(removed)
  {
    NormalizeMeaning(base);
    WithoutMeaning(Normalize(base), Elements(Normalize(removed)));
  }

  function Intersect(base: seq<string>, allowed: seq<string>): seq<string> {
    Without(Normalize(base), Elements(Normalize(base)) - Elements(Normalize(allowed)))
  }

  lemma IntersectMeaning(base: seq<string>, allowed: seq<string>)
    ensures Normal(Intersect(base, allowed))
    ensures forall m :: m in Intersect(base, allowed) <==> m in Normalize(base) && m in Normalize(allowed)
  {
    NormalizeMeaning(base);
    WithoutMeaning(Normalize(base), Elements(Normalize(base)) - Elements(Normalize(allowed)));
  }

  method MergeModelNames(base: seq<string>, appended: seq<string>) returns (merged: seq<string>)
    ensures merged == Merge(base, appended)
  {
    merged := Normalize(base);
    var more := Normalize(appended);
    NormalizeMeaning(appended);
    var seen := Elements(merged);
    ghost var baseSet := Elements(merged);
    ghost var kept := [];
    for i := 0 to |more|
      invariant kept == Without(more[..i], baseSet) && merged == Normalize(base) + kept
      invariant seen == baseSet + Elements(more[..i])
    {
      WithoutOneMore(more, i, baseSet);
      if more[i] in seen {
        continue;
      }
      seen := seen + {more[i]};
      kept := kept + [more[i]];
      merged := merged + [more[i]];
    }
    assert more[..|more|] == more;
  }

  lemma WithoutOneMore(names: seq<string>, i: nat, drop: set<string>)
    requires i < |names| && Normal(names)
    ensures Without(names[..i + 1], drop) == Without(names[..i], drop) + if names[i] in drop then [] else [names[i]]
    ensures Elements(names[..i + 1]) == Elements(names[..i]) + {names[i]} && names[i] !in Elements(names[..i])
  {
    assert names[..i + 1][..i] == names[..i];
    assert names[..i + 1] == names[..i] + [names[i]];
  }

  /** applySelectedModelChanges. */
  function ApplySelected(origin: seq<string>, add: seq<string>, remove: seq<string>): seq<string> {
    var normalizedAdd := Normalize(add);
    var normalizedRemove := Subtract(Normalize(remove), normalizedAdd);
    Subtract(Merge(origin, normalizedAdd), normalizedRemove)
  }

  /** Add wins when a name is both added and removed. */
  lemma ApplySelectedMeaning(origin: seq<string>, add: seq<string>, remove: seq<string>)
    ensures Normal(ApplySelected(origin, add, remove))
    ensures forall m :: m in ApplySelected(origin, add, remove) <==>
              m in Normalize(add) || (m in Normalize(origin) && m !in Normalize(remove))
  {
    var normalizedAdd := Normalize(add);
    var normalizedRemove := Subtract(Normalize(remove), normalizedAdd);
    NormalizeTwice(add);
    NormalizeTwice(remove);
    SubtractMeaning(Normalize(remove), normalizedAdd);
    NormalizeFixed(normalizedRemove);
    MergeMeaning(origin, normalizedAdd);
    NormalizeFixed(Merge(origin, normalizedAdd));
    SubtractMeaning(Merge(origin, normalizedAdd), normalizedRemove);
  }

  // ----- the stored form -----

  /** strings.Join(names, ","). */
  function Join(names: seq<string>): string {
    if names == [] then ""
    else if |names| == 1 then names[0]
    else names[0] + "," + Join(names[1..])
  }

  /** strings.Split(s, ","). */
  function Split(s: string): (parts: seq<string>)
    ensures |parts| > 0 && forall p :: p in parts ==> ',' !in p
  {
    if s == [] then [""]
    else
      var rest := Split(s[1..]);
      if s[0] == ',' then [""] + rest
      else [[s[0]] + rest[0]] + rest[1..]
  }

  function TrimCommas(s: string): string {
    if s != [] && s[0] == ',' then TrimCommas(s[1..])
    else if s != [] && s[|s| - 1] == ',' then TrimCommas(s[..|s| - 1])
    else s
  }

  /** Channel.GetModels. */
  function GetModels(models: string): (names: seq<string>)
    ensures forall m :: m in names ==> ',' !in m
  {
    if models == "" then [] else Split(TrimCommas(models))
  }

  ghost predicate CommaFree(names: seq<string>) {
    forall i :: 0 <= i < |names| ==> ',' !in names[i]
  }

  ghost predicate NonBlank(names: seq<string>) {
    forall i :: 0 <= i < |names| ==> names[i] != []
  }

  lemma {:induction false} SplitPrefix(p: string, s: string)
    requires ',' !in p
    ensures Split(p + s) == [p + Split(s)[0]] + Split(s)[1..]
  {
    if p == [] {
      assert p + s == s;
      assert Split(s) == [Split(s)[0]] + Split(s)[1..];
      assert p + Split(s)[0] == Split(s)[0];
    } else {
      SplitPrefix(p[1..], s);
      assert (p + s)[1..] == p[1..] + s && (p + s)[0] == p[0];
      assert [p[0]] + (p[1..] + Split(s)[0]) == p + Split(s)[0];
    }
  }

  lemma {:induction false} SplitJoin(names: seq<string>)
    requires names != [] && CommaFree(names)
    ensures Split(Join(names)) == names
  {
    if |names| == 1 {
      SplitPrefix(names[0], "");
      assert names[0] + "" == names[0];
      assert names == [names[0]];
    } else {
      SplitJoin(names[1..]);
      var rest := "," + Join(names[1..]);
      assert rest[1..] == Join(names[1..]);
      assert Split(rest) == [""] + names[1..];
      SplitPrefix(names[0], rest);
      assert Join(names) == names[0] + rest;
      assert names[0] + "" == names[0] && Split(rest)[1..] == names[1..];
      assert names == [names[0]] + names[1..];
    }
  }

  lemma {:induction false} JoinEnds(names: seq<string>)
    requires names != [] && CommaFree(names) && NonBlank(names)
    ensures Join(names) != [] && Join(names)[0] != ',' && Join(names)[|Join(names)| - 1] != ','
  {
    if |names| > 1 {
      JoinEnds(names[1..]);
    }
    assert names[0][0] in names[0] && names[0][|names[0]| - 1] in names[0];
  }

  /** Storing comma-free names and reading them back is the identity. */
  lemma StoreRoundTrip(names: seq<string>)
    requires CommaFree(names) && NonBlank(names)
    ensures GetModels(Join(names)) == names
  {
    if names != [] {
      JoinEnds(names);
      SplitJoin(names);
    }
  }
}
