/**
  `buildDifferences` of controller/ratio_sync.go: compare the local price tables with the
  tables fetched from several channels and report, per model and field, what differs.

  Floating point numbers are reals, and every numeric JSON kind is `Num`. A table maps a field
  to its per-model values; a missing field, or one that is not an object, is an absent key.
  The marker for an equal value is the string "same", exactly as in the source, so an
  upstream value that is literally "same" cannot be told from it.
*/
module PriceSync {

  datatype Value = Null | Num(r: real) | Str(s: string) | Bool(b: bool)

  type Table = map<string, map<string, Value>>

  datatype Channel = Channel(name: string, data: Table)

  /** The inputs of one synchronisation. */
  datatype Sync = Sync(fields: seq<string>, local: Table, chs: seq<Channel>)

  datatype Item = Item(current: Value, upstreams: map<string, Value>, confidence: map<string, bool>)

  type Report = map<string, map<string, Item>>

  const EPSILON: real := 0.000000001

  const SAME: Value := Str("same")

  const PRICING_SYNC_FIELDS: seq<string> :=
    ["model_ratio", "completion_ratio", "cache_ratio", "create_cache_ratio", "image_ratio",
     "audio_ratio", "audio_completion_ratio", "model_price", "billing_mode", "billing_expr"]

  predicate NearlyEqual(a: real, b: real) {
    if a > b then a - b < EPSILON else b - a < EPSILON
  }

  predicate ValuesEqual(a: Value, b: Value) {
    if a.Num? && b.Num? then NearlyEqual(a.r, b.r) else a == b
  }

  predicate Supplies(t: Table, f: string, m: string) {
    f in t && m in t[f]
  }

  /** The value a table holds; an absent entry and a JSON null both read as nil. */
  function Lookup(t: Table, f: string, m: string): Value {
    if Supplies(t, f, m) then t[f][m] else Null
  }

  // ----- specification, read off the inputs -----

  predicate Mentions(fields: seq<string>, t: Table, m: string) {
    exists f :: f in fields && Supplies(t, f, m)
  }

  ghost predicate Known(x: Sync, m: string) {
    Mentions(x.fields, x.local, m) || exists i :: 0 <= i < |x.chs| && Mentions(x.fields, x.chs[i].data, m)
  }

  predicate Named(chs: seq<Channel>, n: string) {
    exists i :: 0 <= i < |chs| && chs[i].name == n
  }

  function Names(chs: seq<Channel>): (names: set<string>)
    ensures forall n :: n in names <==> Named(chs, n)
  {
    set i | 0 <= i < |chs| :: chs[i].name
  }

  lemma NamedPrefix(chs: seq<Channel>, n: string)
    requires Named(chs, n) && chs[|chs| - 1].name != n
    ensures Named(chs[..|chs| - 1], n)
  {
    var i :| 0 <= i < |chs| && chs[i].name == n;
    assert chs[..|chs| - 1][i].name == n;
  }

  /** The table reported under name `n`: that of the last channel so named. */
  function TableOf(chs: seq<Channel>, n: string): (t: Table)
    requires Named(chs, n)
    ensures exists i :: 0 <= i < |chs| && chs[i].name == n && chs[i].data == t
  {
    if chs[|chs| - 1].name == n then chs[|chs| - 1].data
    else
      NamedPrefix(chs, n);
      TableOf(chs[..|chs| - 1], n)
  }

  /** What one channel's cell shows: nil when it has no value, "same" when it agrees, else the value. */
  function Cell(local: Value, t: Table, f: string, m: string): Value {
    if local == Null && Lookup(t, f, m) == Null then SAME
    else if Supplies(t, f, m) && ValuesEqual(local, t[f][m]) then SAME
    else Lookup(t, f, m)
  }

  /** Data that looks like a pricing endpoint's placeholder is not trusted. */
  predicate Trusted(t: Table, m: string) {
    var ratio, completion := Lookup(t, "model_ratio", m), Lookup(t, "completion_ratio", m);
    !(ratio.Num? && completion.Num? && NearlyEqual(ratio.r, 37.5) && NearlyEqual(completion.r, 1.0))
  }

  predicate Clashes(local: Value, t: Table, f: string, m: string) {
    Supplies(t, f, m) && (local == Null || !ValuesEqual(local, t[f][m]))
  }

  ghost predicate Included(x: Sync, f: string, m: string) {
    exists i :: 0 <= i < |x.chs| && Clashes(Lookup(x.local, f, m), x.chs[i].data, f, m)
  }

  predicate Shown(v: Value) {
    v != Null && v != SAME
  }

  /** The cell in column `n` of row (`f`, `m`). */
  function CellOf(x: Sync, n: string, f: string, m: string): Value
    requires Named(x.chs, n)
  {
    Cell(Lookup(x.local, f, m), TableOf(x.chs, n), f, m)
  }

  ghost predicate Flagged(x: Sync, n: string) {
    Named(x.chs, n) && exists f, m :: f in x.fields && Included(x, f, m) && Shown(CellOf(x, n, f, m))
  }

  ghost function FlaggedNames(x: Sync): set<string> {
    set n | n in Names(x.chs) && Flagged(x, n)
  }

  ghost predicate Kept(x: Sync, f: string, m: string) {
    && f in x.fields && Included(x, f, m)
    && exists n :: n in FlaggedNames(x) && CellOf(x, n, f, m) != SAME
  }

  /** `item` shows the local value and one cell and one confidence mark for each name in `names`. */
  ghost predicate Describes(item: Item, x: Sync, f: string, m: string, names: set<string>) {
    && item.current == Lookup(x.local, f, m)
    && item.upstreams.Keys == names && item.confidence.Keys == names
    && forall n :: n in names ==>
         && Named(x.chs, n)
         && item.upstreams[n] == CellOf(x, n, f, m)
         && item.confidence[n] == Trusted(TableOf(x.chs, n), m)
  }

  ghost predicate CellIsRight(d: Report, x: Sync, f: string, m: string) {
    && (m in d && f in d[m] <==> Kept(x, f, m))
    && (m in d && f in d[m] ==> Describes(d[m][f], x, f, m, FlaggedNames(x)))
  }

  /** What `buildDifferences` must return, stated without any of its phases. */
  ghost predicate IsReport(d: Report, x: Sync) {
    (forall m :: m in d ==> |d[m]| > 0) && forall f, m :: CellIsRight(d, x, f, m)
  }

  // ----- phase 1: the models to look at -----

  method CollectFrom(fields: seq<string>, t: Table) returns (models: set<string>)
    ensures forall m :: m in models <==> Mentions(fields, t, m)
  {
    models := {};
    for k := 0 to |fields|
      invariant forall m :: m in models <==> exists j :: 0 <= j < k && Supplies(t, fields[j], m)
    {
      if fields[k] in t {
        models := models + t[fields[k]].Keys;
      }
    }
    forall m ensures m in models <==> Mentions(fields, t, m) {
      if Mentions(fields, t, m) {
        var f :| f in fields && Supplies(t, f, m);
        var j :| 0 <= j < |fields| && fields[j] == f;
        assert Supplies(t, fields[j], m);
      }
    }
  }

  method CollectModels(x: Sync) returns (models: set<string>)
    ensures forall m :: m in models <==> Known(x, m)
  {
    models := CollectFrom(x.fields, x.local);
    for i := 0 to |x.chs|
      invariant forall m :: m in models <==>
                  Mentions(x.fields, x.local, m) || exists j :: 0 <= j < i && Mentions(x.fields, x.chs[j].data, m)
    {
      var more := CollectFrom(x.fields, x.chs[i].data);
      models := models + more;
    }
  }

  // ----- phase 2: confidence -----

  lemma LastNamed(chs: seq<Channel>, i: nat)
    requires i < |chs|
    ensures Names(chs[..i + 1]) == Names(chs[..i]) + {chs[i].name}
    ensures Named(chs[..i + 1], chs[i].name) && TableOf(chs[..i + 1], chs[i].name) == chs[i].data
    ensures forall n :: n != chs[i].name && Named(chs[..i], n) ==>
              Named(chs[..i + 1], n) && TableOf(chs[..i + 1], n) == TableOf(chs[..i], n)
  {
    var p, q := chs[..i], chs[..i + 1];
    assert q[..i] == p && q[i] == chs[i];
    forall n ensures n in Names(q) <==> n == chs[i].name || n in Names(p) {
      if Named(p, n) {
        var j :| 0 <= j < |p| && p[j].name == n;
        assert q[j].name == n;
      }
      if Named(q, n) && n != chs[i].name {
        NamedPrefix(q, n);
      }
    }
  }

  /** The per-model confidence marks of one channel. */
  method Confidence(t: Table, models: set<string>) returns (marks: map<string, bool>)
    ensures marks.Keys == models
    ensures forall m :: m in models ==> marks[m] == Trusted(t, m)
  {
    marks := map[];
    var ratios := if "model_ratio" in t then t["model_ratio"] else map[];
    var completions := if "completion_ratio" in t then t["completion_ratio"] else map[];
    var todo := models;
    while todo != {}
      invariant todo <= models && marks.Keys == models - todo
      invariant forall m :: m in marks ==> marks[m] == Trusted(t, m)
    {
      var m :| m in todo;
      marks := marks[m := true];
      if |ratios| > 0 && |completions| > 0 {
        if m in ratios && m in completions {
          var ratio, completion := ratios[m], completions[m];
          if ratio.Num? && completion.Num? && NearlyEqual(ratio.r, 37.5) && NearlyEqual(completion.r, 1.0) {
            marks := marks[m := false];
          }
        }
      }
      todo := todo - {m};
    }
  }

  ghost predicate MarksOf(marks: map<string, bool>, t: Table, models: set<string>) {
    forall m :: m in models ==> m in marks && marks[m] == Trusted(t, m)
  }

  ghost predicate ConfidenceOf(conf: map<string, map<string, bool>>, chs: seq<Channel>, models: set<string>) {
    conf.Keys == Names(chs) && forall n :: n in Names(chs) ==> MarksOf(conf[n], TableOf(chs, n), models)
  }

  lemma ConfidenceAfter(conf: map<string, map<string, bool>>, chs: seq<Channel>, i: nat, models: set<string>,
                        marks: map<string, bool>)
    requires i < |chs| && ConfidenceOf(conf, chs[..i], models) && MarksOf(marks, chs[i].data, models)
    ensures ConfidenceOf(conf[chs[i].name := marks], chs[..i + 1], models)
  {
    LastNamed(chs, i);
    var conf' := conf[chs[i].name := marks];
    forall n | n in Names(chs[..i + 1]) ensures n in conf' && MarksOf(conf'[n], TableOf(chs[..i + 1], n), models) {
      if n != chs[i].name {
        assert n in Names(chs[..i]);
      }
    }
  }

  method Preprocess(chs: seq<Channel>, models: set<string>) returns (conf: map<string, map<string, bool>>)
    ensures ConfidenceOf(conf, chs, models)
  {
    conf := map[];
    for i := 0 to |chs|
      invariant ConfidenceOf(conf, chs[..i], models)
    {
      var marks := Confidence(chs[i].data, models);
      ConfidenceAfter(conf, chs, i, models, marks);
      conf := conf[chs[i].name := marks];
    }
    assert chs[..|chs|] == chs;
  }

  // ----- phase 3: classify every row -----

  /** One channel's value against the local one, branch by branch. */
  method Classify(local: Value, t: Table, f: string, m: string) returns (cell: Value, supplied: bool, differs: bool)
    ensures cell == Cell(local, t, f, m)
    ensures supplied == Supplies(t, f, m)
    ensures local != Null ==> differs == Clashes(local, t, f, m)
  {
    cell, supplied, differs := Null, false, false;
    if Supplies(t, f, m) {
      cell := t[f][m];
      supplied := true;
      if local != Null && !ValuesEqual(local, cell) {
        differs := true;
      } else if ValuesEqual(local, cell) {
        cell := SAME;
      }
    }
    if cell == Null && local == Null {
      cell := SAME;
    }
    if local == Null && cell != Null && cell != SAME {
      differs := true;
    }
  }

  /** The cells of one row as the loop builds them: a later channel overwrites an earlier one of its name. */
  function Cells(local: Value, chs: seq<Channel>, f: string, m: string): map<string, Value> {
    if chs == [] then map[]
    else Cells(local, chs[..|chs| - 1], f, m)[chs[|chs| - 1].name := Cell(local, chs[|chs| - 1].data, f, m)]
  }

  lemma {:induction false} CellsAt(local: Value, chs: seq<Channel>, f: string, m: string)
    ensures Cells(local, chs, f, m).Keys == Names(chs)
    ensures forall n :: n in Names(chs) ==> Cells(local, chs, f, m)[n] == Cell(local, TableOf(chs, n), f, m)
  {
    if chs != [] {
      var k := |chs| - 1;
      CellsAt(local, chs[..k], f, m);
      LastNamed(chs, k);
      assert chs[..k + 1] == chs;
    }
  }

  /** Some channel's value has to be reported: with a local value, one that differs; without, any. */
  predicate Wanted(local: Value, chs: seq<Channel>, f: string, m: string) {
    chs != [] && (Clashes(local, chs[|chs| - 1].data, f, m) || Wanted(local, chs[..|chs| - 1], f, m))
  }

  lemma {:induction false} WantedMeans(x: Sync, k: nat, f: string, m: string)
    requires k <= |x.chs|
    ensures Wanted(Lookup(x.local, f, m), x.chs[..k], f, m) <==>
            exists i :: 0 <= i < k && Clashes(Lookup(x.local, f, m), x.chs[i].data, f, m)
  {
    if k > 0 {
      WantedMeans(x, k - 1, f, m);
      assert x.chs[..k][..k - 1] == x.chs[..k - 1];
    }
  }

  /** One (model, field) row over all channels. */
  method Row(local: Value, chs: seq<Channel>, conf: map<string, map<string, bool>>, f: string, m: string)
    returns (wanted: bool, item: Item)
    requires forall n :: n in Names(chs) ==> n in conf && m in conf[n]
    ensures wanted == Wanted(local, chs, f, m)
    ensures item.current == local && item.upstreams == Cells(local, chs, f, m)
    ensures item.confidence.Keys == item.upstreams.Keys
    ensures forall n :: n in item.confidence ==> n in conf && m in conf[n] && item.confidence[n] == conf[n][m]
  {
    var upstreams: map<string, Value>, confidence: map<string, bool> := map[], map[];
    var hasUpstreamValue, hasDifference := false, false;
    for i := 0 to |chs|
      invariant upstreams == Cells(local, chs[..i], f, m)
      invariant confidence.Keys == upstreams.Keys
      invariant forall n :: n in confidence ==> n in conf && m in conf[n] && confidence[n] == conf[n][m]
      invariant local != Null ==> hasDifference == Wanted(local, chs[..i], f, m)
      invariant local == Null ==> hasUpstreamValue == Wanted(local, chs[..i], f, m)
    {
      var cell, supplied, differs := Classify(local, chs[i].data, f, m);
      assert chs[..i + 1][..i] == chs[..i];
      assert Named(chs, chs[i].name);
      hasUpstreamValue := hasUpstreamValue || supplied;
      hasDifference := hasDifference || differs;
      upstreams := upstreams[chs[i].name := cell];
      confidence := confidence[chs[i].name := conf[chs[i].name][m]];
    }
    assert chs[..|chs|] == chs;
    wanted := if local != Null then hasDifference else hasUpstreamValue;
    item := Item(local, upstreams, confidence);
  }

  lemma RowDescribes(x: Sync, conf: map<string, map<string, bool>>, models: set<string>, f: string, m: string,
                     item: Item)
    requires m in models && ConfidenceOf(conf, x.chs, models)
    requires item.current == Lookup(x.local, f, m) && item.upstreams == Cells(Lookup(x.local, f, m), x.chs, f, m)
    requires item.confidence.Keys == item.upstreams.Keys
    requires forall n :: n in item.confidence ==> n in conf && m in conf[n] && item.confidence[n] == conf[n][m]
    ensures Describes(item, x, f, m, Names(x.chs))
  {
    CellsAt(Lookup(x.local, f, m), x.chs, f, m);
    assert forall n :: n in Names(x.chs) ==> MarksOf(conf[n], TableOf(x.chs, n), models);
  }

  ghost predicate RowsOf(rows: map<string, Item>, x: Sync, m: string, fields: set<string>, names: set<string>) {
    rows.Keys == fields && forall f :: f in rows ==> Describes(rows[f], x, f, m, names)
  }

  ghost function IncludedFields(x: Sync, m: string, k: nat): set<string>
    requires k <= |x.fields|
  {
    set f | f in x.fields[..k] && Included(x, f, m)
  }

  method BuildRows(x: Sync, conf: map<string, map<string, bool>>, models: set<string>, m: string)
    returns (rows: map<string, Item>)
    requires m in models && ConfidenceOf(conf, x.chs, models)
    ensures RowsOf(rows, x, m, IncludedFields(x, m, |x.fields|), Names(x.chs))
  {
    rows := map[];
    assert forall n :: n in Names(x.chs) ==> MarksOf(conf[n], TableOf(x.chs, n), models);
    for k := 0 to |x.fields|
      invariant RowsOf(rows, x, m, IncludedFields(x, m, k), Names(x.chs))
    {
      var f := x.fields[k];
      var wanted, item := Row(Lookup(x.local, f, m), x.chs, conf, f, m);
      RowDescribes(x, conf, models, f, m, item);
      assert x.chs[..|x.chs|] == x.chs;
      WantedMeans(x, |x.chs|, f, m);
      assert x.fields[..k + 1] == x.fields[..k] + [f];
      if wanted {
        rows := rows[f := item];
      }
    }
  }

  ghost function AllIncluded(x: Sync, m: string): set<string> {
    IncludedFields(x, m, |x.fields|)
  }

  /** The unpruned report over the models in `models`. */
  ghost predicate Draft(d: Report, x: Sync, models: set<string>) {
    && (forall m :: m in d <==> m in models && AllIncluded(x, m) != {})
    && (forall m :: m in d ==> RowsOf(d[m], x, m, AllIncluded(x, m), Names(x.chs)))
  }

  method BuildDraft(x: Sync, conf: map<string, map<string, bool>>, models: set<string>) returns (d: Report)
    requires ConfidenceOf(conf, x.chs, models)
    ensures Draft(d, x, models)
  {
    d := map[];
    var todo := models;
    while todo != {}
      invariant todo <= models && Draft(d, x, models - todo)
    {
      var m :| m in todo;
      var rows := BuildRows(x, conf, models, m);
      if rows != map[] {
        d := d[m := rows];
      }
      assert models - (todo - {m}) == (models - todo) + {m};
      todo := todo - {m};
    }
    assert models - todo == models;
  }

  // ----- phase 4: which channels differ anywhere -----

  ghost function ShownIn(cells: map<string, Value>): set<string> {
    set n | n in cells && Shown(cells[n])
  }

  ghost predicate ShownInRows(rows: map<string, Item>, n: string) {
    exists f :: f in rows && n in ShownIn(rows[f].upstreams)
  }

  method MarkCells(cells: map<string, Value>, marks: set<string>) returns (marks': set<string>)
    ensures marks' == marks + ShownIn(cells)
  {
    marks' := marks;
    var todo := cells.Keys;
    while todo != {}
      invariant todo <= cells.Keys
      invariant marks' == marks + set n | n in ShownIn(cells) && n !in todo
    {
      var n :| n in todo;
      if cells[n] != Null && cells[n] != SAME {
        marks' := marks' + {n};
      }
      todo := todo - {n};
    }
  }

  method MarkRows(rows: map<string, Item>, marks: set<string>) returns (marks': set<string>)
    ensures forall n :: n in marks' <==> n in marks || ShownInRows(rows, n)
  {
    marks' := marks;
    var todo := rows.Keys;
    while todo != {}
      invariant todo <= rows.Keys
      invariant forall n :: n in marks' <==>
                  n in marks || exists f :: f in rows && f !in todo && n in ShownIn(rows[f].upstreams)
    {
      var f :| f in todo;
      marks' := MarkCells(rows[f].upstreams, marks');
      todo := todo - {f};
    }
  }

  method MarkChannels(d: Report) returns (marks: set<string>)
    ensures forall n :: n in marks <==> exists m :: m in d && ShownInRows(d[m], n)
  {
    marks := {};
    var todo := d.Keys;
    while todo != {}
      invariant todo <= d.Keys
      invariant forall n :: n in marks <==> exists m :: m in d && m !in todo && ShownInRows(d[m], n)
    {
      var m :| m in todo;
      marks := MarkRows(d[m], marks);
      todo := todo - {m};
    }
  }

  // ----- phase 5: prune columns, rows and models -----

  function Restrict(item: Item, names: set<string>): Item {
    Item(item.current,
         map n | n in item.upstreams && n in names :: item.upstreams[n],
         map n | n in item.confidence && n in names :: item.confidence[n])
  }

  ghost predicate AllSame(cells: map<string, Value>) {
    forall n :: n in cells ==> cells[n] == SAME
  }

  method PruneItem(item: Item, flagged: set<string>) returns (item': Item, drop: bool)
    requires item.confidence.Keys == item.upstreams.Keys
    ensures item' == Restrict(item, flagged)
    ensures drop == AllSame(item'.upstreams)
  {
    item' := item;
    var todo := item.upstreams.Keys;
    while todo != {}
      invariant todo <= item.upstreams.Keys
      invariant item' == Restrict(item, flagged + todo)
    {
      var n :| n in todo;
      if n !in flagged {
        item' := Item(item'.current, item'.upstreams - {n}, item'.confidence - {n});
      }
      todo := todo - {n};
    }
    assert flagged + todo == flagged;
    var allSame := true;
    todo := item'.upstreams.Keys;
    while todo != {} && allSame
      invariant todo <= item'.upstreams.Keys
      invariant allSame ==> forall n :: n in item'.upstreams && n !in todo ==> item'.upstreams[n] == SAME
      invariant !allSame ==> !AllSame(item'.upstreams)
      decreases todo
    {
      var n :| n in todo;
      if item'.upstreams[n] != SAME {
        allSame := false;
      }
      todo := todo - {n};
    }
    drop := |item'.upstreams| == 0 || allSame;
  }

  ghost predicate Survives(item: Item, flagged: set<string>) {
    !AllSame(Restrict(item, flagged).upstreams)
  }

  ghost predicate PrunedRow(rows: map<string, Item>, rows': map<string, Item>, flagged: set<string>, f: string) {
    && (f in rows' <==> f in rows && Survives(rows[f], flagged))
    && (f in rows' ==> rows'[f] == Restrict(rows[f], flagged))
  }

  ghost predicate PrunedRows(rows: map<string, Item>, rows': map<string, Item>, flagged: set<string>) {
    forall f :: PrunedRow(rows, rows', flagged, f)
  }

  ghost predicate Rectangular(rows: map<string, Item>) {
    forall f :: f in rows ==> rows[f].confidence.Keys == rows[f].upstreams.Keys
  }

  method PruneRows(rows: map<string, Item>, flagged: set<string>) returns (rows': map<string, Item>)
    requires Rectangular(rows)
    ensures PrunedRows(rows, rows', flagged)
  {
    rows' := rows;
    var todo := rows.Keys;
    while todo != {}
      invariant todo <= rows.Keys
      invariant forall f :: f !in todo ==> PrunedRow(rows, rows', flagged, f)
      invariant forall f :: f in todo ==> f in rows' && rows'[f] == rows[f]
    {
      var f :| f in todo;
      var item, drop := PruneItem(rows'[f], flagged);
      rows' := if drop then rows' - {f} else rows'[f := item];
      todo := todo - {f};
    }
  }

  ghost function RowsAt(d: Report, m: string): map<string, Item> {
    if m in d then d[m] else map[]
  }

  lemma RowsAtAfter(d: Report, m: string, rows: map<string, Item>)
    ensures var d' := if |rows| == 0 then d - {m} else d[m := rows];
            RowsAt(d', m) == rows && forall p :: p != m ==> RowsAt(d', p) == RowsAt(d, p)
  {
  }

  method Prune(d: Report, flagged: set<string>) returns (d': Report)
    requires forall m :: m in d ==> Rectangular(d[m])
    ensures forall m :: PrunedRows(RowsAt(d, m), RowsAt(d', m), flagged)
    ensures forall m :: m in d' ==> |d'[m]| > 0
  {
    d' := d;
    var todo := d.Keys;
    while todo != {}
      invariant todo <= d.Keys
      invariant forall m :: m !in todo ==> PrunedRows(RowsAt(d, m), RowsAt(d', m), flagged)
      invariant forall m :: m in d' && m !in todo ==> |d'[m]| > 0
      invariant forall m :: m in todo ==> m in d' && d'[m] == d[m]
    {
      var m :| m in todo;
      var rows := PruneRows(d'[m], flagged);
      RowsAtAfter(d', m, rows);
      d' := if |rows| == 0 then d' - {m} else d'[m := rows];
      todo := todo - {m};
    }
  }

  // ----- the phases together -----

  lemma IncludedIsKnown(x: Sync, f: string, m: string)
    requires f in x.fields && Included(x, f, m)
    ensures Known(x, m) && f in AllIncluded(x, m)
  {
    var i :| 0 <= i < |x.chs| && Clashes(Lookup(x.local, f, m), x.chs[i].data, f, m);
    assert Mentions(x.fields, x.chs[i].data, m);
    assert x.fields[..|x.fields|] == x.fields;
  }

  ghost predicate FullDraft(d: Report, x: Sync) {
    exists models :: (forall m :: m in models <==> Known(x, m)) && Draft(d, x, models)
  }

  lemma DraftCell(d: Report, x: Sync, f: string, m: string)
    requires FullDraft(d, x)
    ensures m in d && f in d[m] <==> f in x.fields && Included(x, f, m)
    ensures m in d && f in d[m] ==> Describes(d[m][f], x, f, m, Names(x.chs))
  {
    assert x.fields[..|x.fields|] == x.fields;
    if f in x.fields && Included(x, f, m) {
      IncludedIsKnown(x, f, m);
    }
  }

  /** The marks of phase 4 are exactly the flagged names. */
  lemma MarksAreFlags(d: Report, x: Sync, marks: set<string>)
    requires FullDraft(d, x)
    requires forall n :: n in marks <==> exists m :: m in d && ShownInRows(d[m], n)
    ensures marks == FlaggedNames(x)
  {
    forall n ensures n in marks <==> n in FlaggedNames(x) {
      if n in marks {
        var m :| m in d && ShownInRows(d[m], n);
        var f :| f in d[m] && n in ShownIn(d[m][f].upstreams);
        DraftCell(d, x, f, m);
      }
      if n in FlaggedNames(x) {
        var f, m :| f in x.fields && Included(x, f, m) && Shown(CellOf(x, n, f, m));
        DraftCell(d, x, f, m);
        assert n in ShownIn(d[m][f].upstreams);
        assert ShownInRows(d[m], n);
      }
    }
  }

  lemma SurvivesIsKept(d: Report, x: Sync, f: string, m: string)
    requires FullDraft(d, x) && m in d && f in d[m]
    ensures Survives(d[m][f], FlaggedNames(x)) <==> Kept(x, f, m)
    ensures Describes(Restrict(d[m][f], FlaggedNames(x)), x, f, m, FlaggedNames(x))
  {
    DraftCell(d, x, f, m);
    var cut := Restrict(d[m][f], FlaggedNames(x));
    assert cut.upstreams.Keys == FlaggedNames(x);
  }

  lemma PrunedCell(d: Report, x: Sync, d': Report, f: string, m: string)
    requires FullDraft(d, x) && PrunedRows(RowsAt(d, m), RowsAt(d', m), FlaggedNames(x))
    ensures CellIsRight(d', x, f, m)
  {
    DraftCell(d, x, f, m);
    assert PrunedRow(RowsAt(d, m), RowsAt(d', m), FlaggedNames(x), f);
    if m in d && f in d[m] {
      SurvivesIsKept(d, x, f, m);
    }
  }

  /** The report is sound and complete: exactly the kept rows, each with exactly the flagged columns. */
  method BuildDifferences(x: Sync) returns (d: Report)
    ensures IsReport(d, x)
  {
    var models := CollectModels(x);
    var conf := Preprocess(x.chs, models);
    var draft := BuildDraft(x, conf, models);
    var marks := MarkChannels(draft);
    MarksAreFlags(draft, x, marks);
    d := Prune(draft, marks);
    forall f, m ensures CellIsRight(d, x, f, m) {
      PrunedCell(draft, x, d, f, m);
    }
  }

  /** The call made by FetchUpstreamRatios, with the source's own field list. */
  method PricingDifferences(local: Table, chs: seq<Channel>) returns (d: Report)
    ensures IsReport(d, Sync(PRICING_SYNC_FIELDS, local, chs))
  {
    d := BuildDifferences(Sync(PRICING_SYNC_FIELDS, local, chs));
  }

  // ----- what the report means -----

  lemma SameMaps<T>(a: map<string, T>, b: map<string, T>)
    requires a.Keys == b.Keys && forall n :: n in a.Keys ==> a[n] == b[n]
    ensures a == b
  {
  }

  lemma ItemUnique(a: Item, b: Item, x: Sync, f: string, m: string, names: set<string>)
    requires Describes(a, x, f, m, names) && Describes(b, x, f, m, names)
    ensures a == b
  {
    SameMaps(a.upstreams, b.upstreams);
    SameMaps(a.confidence, b.confidence);
  }

  lemma CellUnique(d: Report, e: Report, x: Sync, f: string, m: string)
    requires CellIsRight(d, x, f, m) && CellIsRight(e, x, f, m) && m in d && f in d[m]
    ensures m in e && f in e[m] && d[m][f] == e[m][f]
  {
    ItemUnique(d[m][f], e[m][f], x, f, m, FlaggedNames(x));
  }

  lemma SameRows(rows: map<string, Item>, rows': map<string, Item>)
    requires forall f :: f in rows ==> f in rows' && rows[f] == rows'[f]
    requires forall f :: f in rows' ==> f in rows
    ensures rows == rows'
  {
  }

  lemma SameModels(d: Report, e: Report, x: Sync, m: string)
    requires IsReport(d, x) && IsReport(e, x) && m in d
    ensures m in e && d[m] == e[m]
  {
    assert d[m].Keys != {};
    var g :| g in d[m].Keys;
    assert CellIsRight(d, x, g, m) && CellIsRight(e, x, g, m);
    CellUnique(d, e, x, g, m);
    var rows, rows' := d[m], e[m];
    forall f | f in rows ensures f in rows' && rows[f] == rows'[f] {
      assert CellIsRight(d, x, f, m) && CellIsRight(e, x, f, m);
      CellUnique(d, e, x, f, m);
    }
    forall f | f in rows' ensures f in rows {
      assert CellIsRight(d, x, f, m) && CellIsRight(e, x, f, m);
    }
    SameRows(rows, rows');
  }

  /** A report is determined by the inputs, so the order in which maps are walked does not matter. */
  lemma ReportUnique(d: Report, e: Report, x: Sync)
    requires IsReport(d, x) && IsReport(e, x)
    ensures d == e
  {
    forall m ensures m in d.Keys <==> m in e.Keys {
      if m in d { SameModels(d, e, x, m); }
      if m in e { SameModels(e, d, x, m); }
    }
    forall m | m in d.Keys ensures d[m] == e[m] { SameModels(d, e, x, m); }
    SameMaps(d, e);
  }

  /** The channel reported as `n` really differs at (`f`, `m`): it supplies a value other than null
      and the literal "same", and the local value is missing or different. */
  predicate Genuine(x: Sync, n: string, f: string, m: string)
    requires Named(x.chs, n)
  {
    var v := Lookup(TableOf(x.chs, n), f, m);
    Shown(v) && !ValuesEqual(Lookup(x.local, f, m), v)
  }

  lemma GenuineIsShown(x: Sync, n: string, f: string, m: string)
    requires Named(x.chs, n)
    ensures Shown(CellOf(x, n, f, m)) <==> Genuine(x, n, f, m)
    ensures Genuine(x, n, f, m) ==> Included(x, f, m)
  {
    var i :| 0 <= i < |x.chs| && x.chs[i].name == n && x.chs[i].data == TableOf(x.chs, n);
    assert Genuine(x, n, f, m) ==> Clashes(Lookup(x.local, f, m), x.chs[i].data, f, m);
  }

  /** A channel's column survives iff that channel really differs somewhere. */
  lemma ColumnIff(x: Sync, n: string)
    ensures n in FlaggedNames(x) <==> n in Names(x.chs) && exists f, m :: f in x.fields && Genuine(x, n, f, m)
  {
    if n in Names(x.chs) {
      if f, m :| f in x.fields && Genuine(x, n, f, m) {
        GenuineIsShown(x, n, f, m);
      }
      if n in FlaggedNames(x) {
        var f, m :| f in x.fields && Included(x, f, m) && Shown(CellOf(x, n, f, m));
        GenuineIsShown(x, n, f, m);
      }
    }
  }

  /** A row that no channel's column justifies: the local value exists, some channel clashed with a null, a
      literal "same" or a value overwritten by a namesake, and a surviving column is blank here. */
  ghost predicate Spurious(x: Sync, f: string, m: string) {
    && Lookup(x.local, f, m) != Null && Included(x, f, m)
    && exists n :: n in FlaggedNames(x) && Lookup(TableOf(x.chs, n), f, m) == Null
  }

  /** For all inputs, a row is reported iff some channel really differs there, or it is spurious. */
  lemma RowIff(x: Sync, f: string, m: string)
    ensures Kept(x, f, m) <==>
            f in x.fields && ((exists n :: n in Names(x.chs) && Genuine(x, n, f, m)) || Spurious(x, f, m))
  {
    if f in x.fields {
      if n :| n in Names(x.chs) && Genuine(x, n, f, m) {
        GenuineIsShown(x, n, f, m);
        ColumnIff(x, n);
        assert n in FlaggedNames(x) && CellOf(x, n, f, m) != SAME;
      } else if Spurious(x, f, m) {
        var n :| n in FlaggedNames(x) && Lookup(TableOf(x.chs, n), f, m) == Null;
        assert CellOf(x, n, f, m) != SAME;
      }
      if Kept(x, f, m) {
        var n :| n in FlaggedNames(x) && CellOf(x, n, f, m) != SAME;
        GenuineIsShown(x, n, f, m);
      }
    }
  }

  /** No upstream value is null or the literal "same", and channel names are distinct. */
  ghost predicate Clean(x: Sync) {
    && (forall i, j :: 0 <= i < j < |x.chs| ==> x.chs[i].name != x.chs[j].name)
    && (forall i, f, m :: 0 <= i < |x.chs| && Supplies(x.chs[i].data, f, m) ==> Shown(x.chs[i].data[f][m]))
  }

  lemma CleanTable(x: Sync, i: nat)
    requires Clean(x) && i < |x.chs|
    ensures Named(x.chs, x.chs[i].name) && TableOf(x.chs, x.chs[i].name) == x.chs[i].data
  {
  }

  /** Channel `i` supplies a value somewhere that is missing locally or differs. */
  ghost predicate ClashesSomewhere(x: Sync, i: nat)
    requires i < |x.chs|
  {
    exists f, m :: f in x.fields && Clashes(Lookup(x.local, f, m), x.chs[i].data, f, m)
  }

  lemma CleanColumn(x: Sync, i: nat)
    requires Clean(x) && i < |x.chs|
    ensures x.chs[i].name in FlaggedNames(x) <==> ClashesSomewhere(x, i)
  {
    CleanTable(x, i);
    var n := x.chs[i].name;
    ColumnIff(x, n);
    if ClashesSomewhere(x, i) {
      var f, m :| f in x.fields && Clashes(Lookup(x.local, f, m), x.chs[i].data, f, m);
      assert Genuine(x, n, f, m);
    }
    if n in FlaggedNames(x) {
      var f, m :| f in x.fields && Genuine(x, n, f, m);
      assert Clashes(Lookup(x.local, f, m), x.chs[i].data, f, m);
    }
  }

  lemma CleanRow(x: Sync, f: string, m: string)
    requires Clean(x)
    ensures Kept(x, f, m) <==> f in x.fields && Included(x, f, m)
  {
    RowIff(x, f, m);
    if Included(x, f, m) {
      var i :| 0 <= i < |x.chs| && Clashes(Lookup(x.local, f, m), x.chs[i].data, f, m);
      CleanTable(x, i);
      assert Genuine(x, x.chs[i].name, f, m);
    }
  }

  /** On clean inputs the report is the one-line specification: a row appears iff some channel supplies a value that is
      missing locally or differs, and a column survives iff its channel does so somewhere. */
  lemma CleanReport(d: Report, x: Sync)
    requires IsReport(d, x) && Clean(x)
    ensures forall f, m :: m in d && f in d[m] <==> f in x.fields && Included(x, f, m)
    ensures forall f, m, i :: m in d && f in d[m] && 0 <= i < |x.chs| ==>
              (x.chs[i].name in d[m][f].upstreams <==> ClashesSomewhere(x, i))
  {
    forall f, m ensures m in d && f in d[m] <==> f in x.fields && Included(x, f, m) {
      assert CellIsRight(d, x, f, m);
      CleanRow(x, f, m);
    }
    forall f, m, i | m in d && f in d[m] && 0 <= i < |x.chs|
      ensures x.chs[i].name in d[m][f].upstreams <==> ClashesSomewhere(x, i)
    {
      assert CellIsRight(d, x, f, m);
      CleanColumn(x, i);
    }
  }

  /** Spurious rows do occur: a JSON null upstream reports a row in which no channel offers a value. */
  lemma SpuriousRow()
    ensures var x := Sync(["a", "b"], map["a" := map["m" := Num(1.0)]],
                          [Channel("c", map["a" := map["m" := Null], "b" := map["m" := Num(2.0)]])]);
            Kept(x, "a", "m") && !exists n :: n in Names(x.chs) && Genuine(x, n, "a", "m")
  {
    var x := Sync(["a", "b"], map["a" := map["m" := Num(1.0)]],
                  [Channel("c", map["a" := map["m" := Null], "b" := map["m" := Num(2.0)]])]);
    assert x.chs[0].name == "c" && Named(x.chs, "c");
    assert TableOf(x.chs, "c") == x.chs[0].data;
    assert Clashes(Num(1.0), x.chs[0].data, "a", "m");
    assert Genuine(x, "c", "b", "m") && "b" in x.fields;
    ColumnIff(x, "c");
    assert Spurious(x, "a", "m");
    RowIff(x, "a", "m");
  }
}
