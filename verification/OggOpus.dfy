/**
  The Ogg page walker behind `getOpusDuration` in common/audio.go. Page layout follows
  section 6 of RFC 3533: "OggS", version, flags, an 8-byte little-endian granule position,
  12 more header bytes, the number of segments, the segment table and the segments.
*/
module OggOpus {

  type Byte = x: int | 0 <= x < 256

  const CAPTURE: seq<Byte> := [79, 103, 103, 83]   // "OggS"

  const HEADER: int := 27

  function Max(a: int, b: int): int {
    if a < b then b else a
  }

  function Sum(s: seq<Byte>): nat {
    if s == [] then 0 else Sum(s[..|s| - 1]) + s[|s| - 1]
  }

  // ----- 64-bit little-endian -----

  function Pow256(k: nat): (p: nat)
    ensures p > 0
  {
    if k == 0 then 1 else 256 * Pow256(k - 1)
  }

  /** binary.LittleEndian.Uint64, for any width. */
  function Decode(s: seq<Byte>): nat {
    if s == [] then 0 else s[0] + 256 * Decode(s[1..])
  }

  function Encode(n: nat, k: nat): (s: seq<Byte>)
    ensures |s| == k
  {
    if k == 0 then [] else [n % 256] + Encode(n / 256, k - 1)
  }

  lemma {:induction false} DecodeEncode(n: nat, k: nat)
    requires n < Pow256(k)
    ensures Decode(Encode(n, k)) == n
  {
    if k > 0 {
      DecodeEncode(n / 256, k - 1);
      assert Encode(n, k)[1..] == Encode(n / 256, k - 1);
    }
  }

  const TWO63: int := 0x8000_0000_0000_0000

  const TWO64: int := 0x1_0000_0000_0000_0000

  /** The conversion int64(x) of an unsigned 64-bit value. */
  function Signed(u: int): int {
    if u >= TWO63 then u - TWO64 else u
  }

  function Unsigned(g: int): int {
    if g < 0 then g + TWO64 else g
  }

  /** Every int64 survives encoding and decoding. */
  lemma Int64RoundTrip(g: int)
    requires -TWO63 <= g < TWO63
    ensures Signed(Decode(Encode(Unsigned(g), 8))) == g
  {
    assert Pow256(8) == TWO64 by {
      assert Pow256(4) == 0x1_0000_0000;
      assert Pow256(6) == 65536 * Pow256(4);
      assert Pow256(8) == 65536 * Pow256(6);
    }
    DecodeEncode(Unsigned(g), 8);
  }

  // ----- the walk -----

  predicate Captured(data: seq<Byte>, pos: nat) {
    pos + 4 <= |data| && data[pos..pos + 4] == CAPTURE
  }

  function GranuleAt(data: seq<Byte>, pos: nat): int
    requires pos + HEADER <= |data|
  {
    Signed(Decode(data[pos + 6..pos + 14]))
  }

  /** A capture pattern at `pos` with a complete header and segment table. */
  predicate PageAt(data: seq<Byte>, pos: nat) {
    pos + HEADER <= |data| && Captured(data, pos) && pos + HEADER + data[pos + 26] <= |data|
  }

  /** Where the page at `pos` ends, payload included. */
  function PageEnd(data: seq<Byte>, pos: nat): nat
    requires PageAt(data, pos)
  {
    var body := pos + HEADER + data[pos + 26];
    body + Sum(data[pos + HEADER..body])
  }

  /** The largest granule position from `pos` on, starting from `total`, as the loop finds it. */
  function Walk(data: seq<Byte>, pos: nat, total: int): int
    decreases |data| - pos
  {
    if pos + HEADER > |data| then total
    else if !Captured(data, pos) then Walk(data, pos + 1, total)
    else
      var total' := Max(total, GranuleAt(data, pos));
      if !PageAt(data, pos) then total' else Walk(data, PageEnd(data, pos), total')
  }

  lemma SubSlice(data: seq<Byte>, pos: nat, n: nat, i: nat, j: nat)
    requires pos + n <= |data| && i <= j <= n
    ensures data[pos..pos + n][i..j] == data[pos + i..pos + j]
  {
    var a, b := data[pos..pos + n][i..j], data[pos + i..pos + j];
    assert |a| == |b|;
    forall k | 0 <= k < |a| ensures a[k] == b[k] { assert a[k] == data[pos + i + k]; }
  }

  /** What a full 27-byte read says about the page at its position. */
  lemma HeaderRead(data: seq<Byte>, pos: nat, buf: seq<Byte>)
    requires pos + HEADER <= |data| && buf == data[pos..pos + HEADER]
    ensures buf[0..4] == CAPTURE <==> Captured(data, pos)
    ensures Signed(Decode(buf[6..14])) == GranuleAt(data, pos) && buf[26] == data[pos + 26]
  {
    SubSlice(data, pos, HEADER, 0, 4);
    SubSlice(data, pos, HEADER, 6, 14);
  }

  /** getOpusDuration: 27-byte reads with a one-byte resynchronisation step. */
  method OpusDuration(data: seq<Byte>) returns (granule: int, seconds: real)
    ensures granule == Walk(data, 0, 0)
    ensures seconds == granule as real / 48000.0
  {
    var pos, total := 0, 0;
    while true
      invariant 0 <= pos && Walk(data, pos, total) == Walk(data, 0, 0)
      decreases |data| - pos
    {
      if pos >= |data| {
        break;
      }
      var n := if |data| - pos < HEADER then |data| - pos else HEADER;
      var buf := data[pos..pos + n];
      ghost var at := pos;
      pos := pos + n;
      if n < HEADER {
        assert Walk(data, at, total) == total;
        break;
      }
      HeaderRead(data, at, buf);
      if buf[0..4] != CAPTURE {
        pos := pos - 26;
        continue;
      }
      var granulePos := Signed(Decode(buf[6..14]));
      if granulePos > total {
        total := granulePos;
      }
      var numSegments := buf[26];
      if pos + numSegments > |data| {
        return total, total as real / 48000.0;
      }
      var segmentTable := data[pos..pos + numSegments];
      pos := pos + numSegments;
      var pageSize := SumTable(segmentTable);
      pos := pos + pageSize;
    }
    granule, seconds := total, total as real / 48000.0;
  }

  method SumTable(table: seq<Byte>) returns (size: nat)
    ensures size == Sum(table)
  {
    size := 0;
    for i := 0 to |table|
      invariant size == Sum(table[..i])
    {
      assert table[..i + 1][..i] == table[..i];
      size := size + table[i];
    }
    assert table[..|table|] == table;
  }

  // ----- well-formed streams -----

  /** From `pos` on, the pages of `data` start exactly at `starts`: before each, and after the last, no byte position
      where a whole header would fit shows the capture pattern. */
  ghost predicate PagesFrom(data: seq<Byte>, pos: nat, starts: seq<nat>)
    decreases |starts|
  {
    if starts == [] then forall p: nat :: pos <= p && p + HEADER <= |data| ==> !Captured(data, p)
    else
      && pos <= starts[0] && (forall p: nat :: pos <= p < starts[0] ==> !Captured(data, p))
      && PageAt(data, starts[0]) && PagesFrom(data, PageEnd(data, starts[0]), starts[1..])
  }

  /** The maximum of `total` and the granule positions at `starts`. */
  ghost function Largest(data: seq<Byte>, starts: seq<nat>, total: int): int {
    if starts == [] then total
    else Largest(data, starts[1..],
                  if starts[0] + HEADER <= |data| then Max(total, GranuleAt(data, starts[0])) else total)
  }

  lemma {:induction false} SkipJunk(data: seq<Byte>, pos: nat, to: nat, total: int)
    requires pos <= to && to + HEADER <= |data| && forall p: nat :: pos <= p < to ==> !Captured(data, p)
    ensures Walk(data, pos, total) == Walk(data, to, total)
    decreases |data| - pos
  {
    if pos < to {
      SkipJunk(data, pos + 1, to, total);
    }
  }

  lemma {:induction false} SkipTail(data: seq<Byte>, pos: nat, total: int)
    requires forall p: nat :: pos <= p && p + HEADER <= |data| ==> !Captured(data, p)
    ensures Walk(data, pos, total) == total
    decreases |data| - pos
  {
    if pos + HEADER <= |data| {
      SkipTail(data, pos + 1, total);
    }
  }

  /** The walk visits every page and returns the largest granule position. */
  lemma {:induction false} WalkFindsAll(data: seq<Byte>, pos: nat, starts: seq<nat>, total: int)
    requires PagesFrom(data, pos, starts)
    ensures Walk(data, pos, total) == Largest(data, starts, total)
    decreases |starts|
  {
    if starts == [] {
      SkipTail(data, pos, total);
    } else {
      var s := starts[0];
      SkipJunk(data, pos, s, total);
      WalkFindsAll(data, PageEnd(data, s), starts[1..], Max(total, GranuleAt(data, s)));
    }
  }

  // ----- encoded pages -----

  /** A page as section 6 of RFC 3533 lays it out: `flags` is version and header type, `middle` serial number, sequence
      number and checksum. */
  datatype Page = Page(flags: seq<Byte>, granule: int, middle: seq<Byte>, table: seq<Byte>, payload: seq<Byte>) {
    ghost predicate WellFormed() {
      |flags| == 2 && |middle| == 12 && |table| < 256 && |payload| == Sum(table) && -TWO63 <= granule < TWO63
    }

    ghost function Bytes(): seq<Byte>
      requires WellFormed()
    {
      CAPTURE + flags + Encode(Unsigned(granule), 8) + middle + [|table| as Byte] + table + payload
    }
  }

  lemma PageBytesAt(data: seq<Byte>, pos: nat, p: Page)
    requires p.WellFormed() && LiesAt(data, pos, p.Bytes())
    ensures PageAt(data, pos) && GranuleAt(data, pos) == p.granule && PageEnd(data, pos) == pos + |p.Bytes()|
  {
    Layout(p);
    Int64RoundTrip(p.granule);
    var b := p.Bytes();
    PageFrom(data, pos, b, p.table);
    GranuleFrom(data, pos, b);
  }

  /** `b` lies in `data` at `pos`. */
  ghost predicate LiesAt(data: seq<Byte>, pos: nat, b: seq<Byte>) {
    pos + |b| <= |data| && data[pos..pos + |b|] == b
  }

  lemma GranuleFrom(data: seq<Byte>, pos: nat, b: seq<Byte>)
    requires LiesAt(data, pos, b) && |b| >= HEADER
    ensures GranuleAt(data, pos) == Signed(Decode(b[6..14])) && data[pos + 26] == b[26]
  {
    SubSlice(data, pos, |b|, 6, 14);
  }

  lemma CapturedFrom(data: seq<Byte>, pos: nat, b: seq<Byte>)
    requires LiesAt(data, pos, b) && |b| >= HEADER && b[0..4] == CAPTURE
    ensures Captured(data, pos)
  {
    SubSlice(data, pos, |b|, 0, 4);
  }

  /** Bytes laid out as a page are a page where they lie. */
  lemma PageFrom(data: seq<Byte>, pos: nat, b: seq<Byte>, table: seq<Byte>)
    requires LiesAt(data, pos, b) && |b| == HEADER + |table| + Sum(table)
    requires b[0..4] == CAPTURE && b[26] == |table| && b[HEADER..HEADER + |table|] == table
    ensures PageAt(data, pos) && PageEnd(data, pos) == pos + |b|
  {
    CapturedFrom(data, pos, b);
    SubSlice(data, pos, |b|, HEADER, HEADER + |table|);
    assert data[pos + 26] == b[26];
  }

  /** Where the fields of a page lie. */
  lemma Layout(p: Page)
    requires p.WellFormed()
    ensures var b, k := p.Bytes(), HEADER + |p.table|;
      && |b| == k + Sum(p.table) && b[0..4] == CAPTURE && b[6..14] == Encode(Unsigned(p.granule), 8)
      && b[26] == |p.table| && b[HEADER..k] == p.table
  {
    var head := CAPTURE + p.flags;
    var front := head + Encode(Unsigned(p.granule), 8);
    var fixed := front + p.middle;
    var sized := fixed + [|p.table| as Byte];
    assert |head| == 6 && |front| == 14 && |fixed| == 26 && |sized| == 27;
    var b := p.Bytes();
    assert b == sized + p.table + p.payload;
    assert b[6..14] == front[6..14];
  }

  /** A page preceded by bytes that belong to no page. */
  datatype Part = Part(junk: seq<Byte>, page: Page)

  ghost predicate AllWellFormed(parts: seq<Part>) {
    forall i :: 0 <= i < |parts| ==> parts[i].page.WellFormed()
  }

  ghost function StreamBytes(parts: seq<Part>, tail: seq<Byte>): seq<Byte>
    requires AllWellFormed(parts)
  {
    if parts == [] then tail else parts[0].junk + parts[0].page.Bytes() + StreamBytes(parts[1..], tail)
  }

  ghost function Starts(parts: seq<Part>, pos: nat): seq<nat>
    requires AllWellFormed(parts)
  {
    if parts == [] then []
    else
      var s := pos + |parts[0].junk|;
      [s] + Starts(parts[1..], s + |parts[0].page.Bytes()|)
  }

  /** No junk byte, and no tail byte with room for a header, shows the capture pattern. */
  ghost predicate Quiet(data: seq<Byte>, parts: seq<Part>, pos: nat)
    requires AllWellFormed(parts)
  {
    if parts == [] then forall p: nat :: pos <= p && p + HEADER <= |data| ==> !Captured(data, p)
    else
      var s := pos + |parts[0].junk|;
      && (forall p: nat :: pos <= p < s ==> !Captured(data, p))
      && Quiet(data, parts[1..], s + |parts[0].page.Bytes()|)
  }

  ghost function LargestGranule(parts: seq<Part>, total: int): int {
    if parts == [] then total else LargestGranule(parts[1..], Max(total, parts[0].page.granule))
  }

  lemma Slices(data: seq<Byte>, pos: nat, a: seq<Byte>, b: seq<Byte>, c: seq<Byte>)
    requires pos <= |data| && data[pos..] == a + b + c
    ensures pos + |a| + |b| <= |data|
    ensures data[pos + |a|..pos + |a| + |b|] == b && data[pos + |a| + |b|..] == c
  {
    var d := data[pos..];
    assert |d| == |data| - pos && d[|a|..|a| + |b|] == b && d[|a| + |b|..] == c;
    assert d[|a|..|a| + |b|] == data[pos + |a|..pos + |a| + |b|];
    assert d[|a| + |b|..] == data[pos + |a| + |b|..];
  }

  /** A page in front of other pages. */
  lemma PageFirst(data: seq<Byte>, pos: nat, s: nat, rest: seq<nat>, total: int)
    requires pos <= s && PageAt(data, s) && PagesFrom(data, PageEnd(data, s), rest)
    requires forall p: nat :: pos <= p < s ==> !Captured(data, p)
    ensures PagesFrom(data, pos, [s] + rest)
    ensures Largest(data, [s] + rest, total) == Largest(data, rest, Max(total, GranuleAt(data, s)))
  {
    assert ([s] + rest)[1..] == rest;
  }

  /** The first page of a stream and where the rest of the stream begins. */
  lemma FirstPage(data: seq<Byte>, parts: seq<Part>, tail: seq<Byte>, pos: nat)
    requires AllWellFormed(parts) && parts != [] && pos <= |data| && data[pos..] == StreamBytes(parts, tail)
    ensures AllWellFormed(parts[1..])
    ensures var page, s := parts[0].page, pos + |parts[0].junk|;
      && PageAt(data, s) && GranuleAt(data, s) == page.granule && PageEnd(data, s) == s + |page.Bytes()| <= |data|
      && data[PageEnd(data, s)..] == StreamBytes(parts[1..], tail)
  {
    var junk, page := parts[0].junk, parts[0].page;
    var b := page.Bytes();
    Slices(data, pos, junk, b, StreamBytes(parts[1..], tail));
    PageBytesAt(data, pos + |junk|, page);
  }

  lemma {:induction false} StreamPages(data: seq<Byte>, parts: seq<Part>, tail: seq<Byte>, pos: nat, total: int)
    requires AllWellFormed(parts) && pos <= |data| && data[pos..] == StreamBytes(parts, tail) && Quiet(data, parts, pos)
    ensures PagesFrom(data, pos, Starts(parts, pos))
    ensures Largest(data, Starts(parts, pos), total) == LargestGranule(parts, total)
    decreases |parts|
  {
    if parts != [] {
      var s := pos + |parts[0].junk|;
      FirstPage(data, parts, tail, pos);
      var e := PageEnd(data, s);
      var rest := Starts(parts[1..], e);
      StreamPages(data, parts[1..], tail, e, Max(total, parts[0].page.granule));
      PageFirst(data, pos, s, rest, total);
      assert Starts(parts, pos) == [s] + rest;
    }
  }

  ghost predicate IsMaximum(m: int, parts: seq<Part>, total: int) {
    && m >= total && (forall i :: 0 <= i < |parts| ==> m >= parts[i].page.granule)
    && (m == total || exists i :: 0 <= i < |parts| && m == parts[i].page.granule)
  }

  lemma {:induction false} LargestIsMaximum(parts: seq<Part>, total: int)
    ensures IsMaximum(LargestGranule(parts, total), parts, total)
  {
    if parts != [] {
      LargestIsMaximum(parts[1..], Max(total, parts[0].page.granule));
    }
  }

  /** For any sequence of well-formed pages, with anything between them that does not look like a page, the duration is
      the maximum of 0 and all granule positions; the -1 of a page on which no packet ends never counts. */
  lemma DurationOfStream(parts: seq<Part>, tail: seq<Byte>)
    requires AllWellFormed(parts) && Quiet(StreamBytes(parts, tail), parts, 0)
    ensures IsMaximum(Walk(StreamBytes(parts, tail), 0, 0), parts, 0)
  {
    var data := StreamBytes(parts, tail);
    assert data[0..] == data;
    StreamPages(data, parts, tail, 0, 0);
    WalkFindsAll(data, 0, Starts(parts, 0), 0);
    LargestIsMaximum(parts, 0);
  }
}