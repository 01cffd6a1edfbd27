/**
 control/room_profile.py: a Room's light surface, fixtures laid end to end.

 `TilesExactly`: the sort-and-walk check over a fixture's blocks accepts exactly the blocks
 that partition its pixels. `ZonesAreDisjoint` and `SlicesPartition` carry that to the
 concatenated surface: namespaced zones never share a pixel, the slices of a rendered frame
 follow one another from 0 to its width, and a zone's channels lie in its fixture's slice.
 */
module RoomProfiles {
  const MAX_PROFILE_PIXELS := 170
  const CHANNELS_PER_PIXEL := 4

  /** A block or a zone: a named run of pixels. */
  datatype Run = Run(name: string, start: int, count: int) {
    function End(): int { start + count }
    predicate Holds(p: int) { start <= p < End() }
  }

  datatype Fixture = Fixture(name: string, blocks: seq<Run>, zones: seq<Run>)

  function Total(runs: seq<Run>): int { if runs == [] then 0 else Total(runs[..|runs| - 1]) + runs[|runs| - 1].count }

  function PixelCount(f: Fixture): int { Total(f.blocks) }

  // ---- sorted spans -------------------------------------------------------------------

  /** Python's order on (start, end). */
  predicate Before(a: Run, b: Run) { a.start < b.start || (a.start == b.start && a.End() <= b.End()) }

  function Insert(x: Run, s: seq<Run>): seq<Run> {
    if s == [] then [x]
    else if Before(s[|s| - 1], x) then s + [x]
    else Insert(x, s[..|s| - 1]) + [s[|s| - 1]]
  }

  function Sorted(s: seq<Run>): seq<Run> { if s == [] then [] else Insert(s[|s| - 1], Sorted(s[..|s| - 1])) }

  lemma {:induction false} InsertContents(x: Run, s: seq<Run>)
    ensures multiset(Insert(x, s)) == multiset(s) + multiset{x} && |Insert(x, s)| == |s| + 1
  {
    if s != [] {
      var front := s[..|s| - 1];
      assert s == front + [s[|s| - 1]];
      InsertContents(x, front);
    }
  }

  lemma TotalSnoc(s: seq<Run>, x: Run)
    ensures Total(s + [x]) == Total(s) + x.count
  {
    assert (s + [x])[..|s|] == s;
  }

  lemma {:induction false} InsertTotal(x: Run, s: seq<Run>)
    ensures Total(Insert(x, s)) == Total(s) + x.count
  {
    TotalSnoc(s, x);
    if s == [] {
      assert [x] == s + [x];
    } else {
      InsertTotal(x, s[..|s| - 1]);
      TotalSnoc(Insert(x, s[..|s| - 1]), s[|s| - 1]);
    }
  }

  lemma {:induction false} SortedContents(s: seq<Run>)
    ensures multiset(Sorted(s)) == multiset(s) && |Sorted(s)| == |s| && Total(Sorted(s)) == Total(s)
  {
    if s != [] {
      var front, last := s[..|s| - 1], s[|s| - 1];
      assert s == front + [last];
      SortedContents(front);
      InsertContents(last, Sorted(front));
      InsertTotal(last, Sorted(front));
    }
  }

  ghost predicate Ascending(s: seq<Run>) { forall i, j :: 0 <= i < j < |s| ==> Before(s[i], s[j]) }

  lemma {:induction false} InsertAscends(x: Run, s: seq<Run>)
    requires Ascending(s)
    ensures Ascending(Insert(x, s))
  {
    if s != [] && !Before(s[|s| - 1], x) {
      var front, last := s[..|s| - 1], s[|s| - 1];
      InsertAscends(x, front);
      InsertContents(x, front);
      var r := Insert(x, front);
      forall i | 0 <= i < |r| ensures Before(r[i], last) {
        assert r[i] in multiset(r);
        assert r[i] == x || r[i] in front;
      }
    } else if s != [] {
      forall i | 0 <= i < |s| ensures Before(s[i], x) {
        assert i < |s| - 1 ==> Before(s[i], s[|s| - 1]);
      }
    }
  }

  lemma {:induction false} SortedAscends(s: seq<Run>)
    ensures Ascending(Sorted(s))
    ensures |Sorted(s)| == |s| && Total(Sorted(s)) == Total(s)
    ensures forall x :: x in Sorted(s) <==> x in s
  {
    SortedContents(s);
    if s != [] {
      SortedAscends(s[..|s| - 1]);
      InsertAscends(s[|s| - 1], Sorted(s[..|s| - 1]));
    }
    forall x ensures x in Sorted(s) <==> x in s {
      assert x in multiset(Sorted(s)) <==> x in multiset(s);
    }
  }

  // ---- pairs ------------------------------------------------------------------------------

  /** The earlier of the two ends before the later starts. */
  predicate Clear(a: Run, b: Run) { if Before(a, b) then a.End() <= b.start else b.End() <= a.start }

  ghost predicate AllClear(s: seq<Run>) { forall i, j :: 0 <= i < j < |s| ==> Clear(s[i], s[j]) && Clear(s[j], s[i]) }

  ghost predicate ClearOf(x: Run, s: seq<Run>) { forall y :: y in s ==> Clear(x, y) && Clear(y, x) }

  lemma ClearSnoc(s: seq<Run>, x: Run)
    ensures AllClear(s + [x]) <==> AllClear(s) && ClearOf(x, s)
  {
    var all := s + [x];
    if AllClear(all) {
      forall y | y in s ensures Clear(x, y) && Clear(y, x) {
        var i :| 0 <= i < |s| && s[i] == y;
        assert all[i] == y && all[|s|] == x;
      }
      forall i, j | 0 <= i < j < |s| ensures Clear(s[i], s[j]) && Clear(s[j], s[i]) {
        assert all[i] == s[i] && all[j] == s[j];
      }
    }
  }

  lemma {:induction false} ClearInsert(x: Run, s: seq<Run>)
    ensures AllClear(Insert(x, s)) <==> AllClear(s) && ClearOf(x, s)
  {
    ClearSnoc(s, x);
    if s == [] {
      assert s + [x] == [x];
    } else if !Before(s[|s| - 1], x) {
      var front, last := s[..|s| - 1], s[|s| - 1];
      assert s == front + [last];
      ClearInsert(x, front);
      ClearSnoc(front, last);
      ClearSnoc(Insert(x, front), last);
      InsertHolds(x, front);
      assert ClearOf(last, Insert(x, front)) <==> ClearOf(last, front) && Clear(last, x) && Clear(x, last);
      assert ClearOf(x, s) <==> ClearOf(x, front) && Clear(last, x) && Clear(x, last);
      hide AllClear;
      hide ClearOf;
      hide Insert;
    }
  }

  lemma InsertHolds(x: Run, s: seq<Run>)
    ensures forall y :: y in Insert(x, s) <==> y == x || y in s
  {
    InsertContents(x, s);
    forall y ensures y in Insert(x, s) <==> y == x || y in s {
      assert y in Insert(x, s) <==> y in multiset(Insert(x, s));
    }
  }

  lemma {:induction false} ClearSorted(s: seq<Run>)
    ensures AllClear(Sorted(s)) <==> AllClear(s)
  {
    if s != [] {
      var front, last := s[..|s| - 1], s[|s| - 1];
      assert s == front + [last];
      ClearSorted(front);
      SortedAscends(front);
      ClearInsert(last, Sorted(front));
      ClearSnoc(front, last);
      assert ClearOf(last, Sorted(front)) <==> ClearOf(last, front);
      hide AllClear;
      hide ClearOf;
    }
  }

  predicate NeighboursClear(s: seq<Run>) { forall i :: 1 <= i < |s| ==> s[i - 1].End() <= s[i].start }

  /** Each span ends before the next starts, exactly when every span is clear of every other. */
  lemma NeighboursExactly(s: seq<Run>)
    requires Ascending(s)
    ensures NeighboursClear(s) <==> AllClear(s)
  {
    if NeighboursClear(s) {
      forall i, j | 0 <= i < j < |s| ensures Clear(s[i], s[j]) && Clear(s[j], s[i]) {
        assert s[i + 1 - 1].End() <= s[i + 1].start;
        assert i + 1 < j ==> Before(s[i + 1], s[j]);
        assert Before(s[i], s[j]);
      }
    }
    if AllClear(s) {
      forall i | 1 <= i < |s| ensures s[i - 1].End() <= s[i].start {
        assert Before(s[i - 1], s[i]) && Clear(s[i - 1], s[i]);
      }
    }
  }

  // ---- blocks tile ----------------------------------------------------------------------------

  predicate Counted(blocks: seq<Run>) { forall i :: 0 <= i < |blocks| ==> 0 < blocks[i].count <= MAX_PROFILE_PIXELS }

  ghost predicate Within(s: seq<Run>, n: int) { forall x :: x in s ==> 0 <= x.start && x.End() <= n }

  /** Each span starts where those before it end, from 0. */
  predicate Contiguous(s: seq<Run>) {
    s == [] || (Contiguous(s[..|s| - 1]) && s[|s| - 1].start == Total(s[..|s| - 1]))
  }

  lemma {:induction false} ContiguousFront(s: seq<Run>, i: nat)
    requires Contiguous(s) && i <= |s|
    ensures Contiguous(s[..i]) && (i < |s| ==> s[i].start == Total(s[..i]))
  {
    if i == |s| {
      assert s[..i] == s;
    } else {
      ContiguousFront(s[..|s| - 1], i);
      assert s[..|s| - 1][..i] == s[..i];
    }
  }

  lemma {:induction false} TotalGrows(s: seq<Run>, i: nat)
    requires i <= |s| && forall x :: x in s ==> x.count >= 0
    ensures Total(s[..i]) <= Total(s)
  {
    if i == |s| {
      assert s[..i] == s;
    } else {
      var front := s[..|s| - 1];
      assert front[..i] == s[..i];
      assert s[|s| - 1] in s;
      assert forall x :: x in front ==> x in s;
      TotalGrows(front, i);
    }
  }

  lemma {:induction false} GapsGrow(s: seq<Run>, k: nat)
    requires NeighboursClear(s) && k <= |s| && Within(s, Total(s))
    ensures k > 0 ==> s[k - 1].End() >= Total(s[..k])
  {
    if k > 0 {
      GapsGrow(s, k - 1);
      assert s[..k][..k - 1] == s[..k - 1];
      assert s[k - 1] in s;
    }
  }

  lemma {:induction false} GapsFit(s: seq<Run>, k: nat)
    requires NeighboursClear(s) && k <= |s| && Within(s, Total(s))
    ensures k > 0 ==> s[k - 1].End() <= Total(s[..k])
    decreases |s| - k
  {
    if k == |s| {
      assert s[..k] == s;
      assert k > 0 ==> s[k - 1] in s;
    } else {
      GapsFit(s, k + 1);
      assert s[..k + 1][..k] == s[..k];
    }
  }

  /** Spans one after another within their own total leave no gap. */
  lemma {:induction false} PackedIsContiguous(s: seq<Run>, i: nat)
    requires NeighboursClear(s) && Within(s, Total(s)) && i <= |s|
    ensures Contiguous(s[..i])
  {
    if i > 0 {
      PackedIsContiguous(s, i - 1);
      GapsGrow(s, i - 1);
      GapsFit(s, i - 1);
      GapsGrow(s, i);
      GapsFit(s, i);
      assert s[..i][..i - 1] == s[..i - 1];
    }
  }

  predicate Once(names: seq<string>) { forall i, j :: 0 <= i < j < |names| ==> names[i] != names[j] }

  function NamesOf(runs: seq<Run>): (ns: seq<string>)
    ensures |ns| == |runs|
  {
    seq(|runs|, i requires 0 <= i < |runs| => runs[i].name)
  }

  /** What `__post_init__` asks of a fixture's blocks. */
  predicate BlocksPass(blocks: seq<Run>) {
    var s := Sorted(blocks);
    blocks != [] && Once(NamesOf(blocks)) && Counted(blocks) && NeighboursClear(s) && Contiguous(s)
  }

  /** What it asks of its zones. */
  predicate ZonesPass(f: Fixture) {
    var s := Sorted(f.zones);
    (forall i :: 0 <= i < |s| ==> 0 <= s[i].start && s[i].End() <= PixelCount(f)) && NeighboursClear(s)
  }

  lemma ContiguousIsClear(s: seq<Run>)
    requires Contiguous(s)
    ensures NeighboursClear(s)
  {
    forall i | 1 <= i < |s| ensures s[i - 1].End() <= s[i].start {
      ContiguousFront(s, i);
    }
  }

  lemma ContiguousIsWithin(s: seq<Run>)
    requires Contiguous(s) && Counted(s)
    ensures Within(s, Total(s))
  {
    forall x | x in s ensures x.count > 0 {
    }
    forall x | x in s ensures 0 <= x.start && x.End() <= Total(s) {
      var i :| 0 <= i < |s| && s[i] == x;
      SpanIsWithin(s, i);
    }
  }

  lemma SpanIsWithin(s: seq<Run>, i: nat)
    requires Contiguous(s) && i < |s| && forall x :: x in s ==> x.count >= 0
    ensures 0 <= s[i].start && s[i].End() <= Total(s)
  {
    ContiguousFront(s, i);
    TotalGrows(s, i + 1);
    assert s[..i + 1][..i] == s[..i];
    assert forall x :: x in s[..i] ==> x in s;
    TotalGrows(s[..i], 0);
    assert s[..i][..0] == [];
  }

  lemma CountedSorted(blocks: seq<Run>)
    ensures Counted(Sorted(blocks)) <==> Counted(blocks)
    ensures Within(Sorted(blocks), Total(blocks)) <==> Within(blocks, Total(blocks))
  {
    SortedAscends(blocks);
    var s := Sorted(blocks);
    hide Sorted;
    hide Total;
    if Counted(blocks) {
      forall i | 0 <= i < |s| ensures 0 < s[i].count <= MAX_PROFILE_PIXELS {
        assert s[i] in s;
      }
    }
    if Counted(s) {
      forall i | 0 <= i < |blocks| ensures 0 < blocks[i].count <= MAX_PROFILE_PIXELS {
        assert blocks[i] in blocks;
      }
    }
  }

  /**
   The check passes exactly for named blocks of 1 to 170 pixels that lie within their own
   total and clear of one another, in whatever order they are declared.
   */
  lemma TilesExactly(blocks: seq<Run>)
    ensures BlocksPass(blocks) <==>
      blocks != [] && Once(NamesOf(blocks)) && Counted(blocks) && Within(blocks, Total(blocks)) && AllClear(blocks)
  {
    hide Insert;
    hide Total;
    var s := Sorted(blocks);
    SortedAscends(blocks);
    ClearSorted(blocks);
    NeighboursExactly(s);
    CountedSorted(blocks);
    if Counted(s) && Contiguous(s) {
      ContiguousIsWithin(s);
      ContiguousIsClear(s);
    }
    if NeighboursClear(s) && Within(s, Total(s)) {
      PackedIsContiguous(s, |s|);
      assert s[..|s|] == s;
    }
    hide AllClear;
    hide NeighboursClear;
    hide Within;
    hide Contiguous;
    hide Counted;
    hide Sorted;
    hide Once;
  }

  /** Then every pixel below the total is one block's, and only one's, and no other pixel is. */
  lemma {:induction false} BlocksPartition(blocks: seq<Run>, p: int)
    requires BlocksPass(blocks)
    ensures 0 <= p < Total(blocks) <==> exists i :: 0 <= i < |blocks| && blocks[i].Holds(p)
    ensures forall i, j :: 0 <= i < j < |blocks| ==> !(blocks[i].Holds(p) && blocks[j].Holds(p))
  {
    var s := Sorted(blocks);
    TilesExactly(blocks);
    SortedAscends(blocks);
    if 0 <= p < Total(blocks) {
      SomeSpanHolds(s, p);
      var x :| x in s && x.Holds(p);
      var i :| 0 <= i < |blocks| && blocks[i] == x;
    }
    if exists i :: 0 <= i < |blocks| && blocks[i].Holds(p) {
      var i :| 0 <= i < |blocks| && blocks[i].Holds(p);
      assert blocks[i] in blocks;
    }
    forall i, j | 0 <= i < j < |blocks| ensures !(blocks[i].Holds(p) && blocks[j].Holds(p)) {
      assert Clear(blocks[i], blocks[j]);
    }
  }

  lemma {:induction false} SomeSpanHolds(s: seq<Run>, p: int)
    requires Contiguous(s) && 0 <= p < Total(s)
    ensures exists x :: x in s && x.Holds(p)
  {
    var front, last := s[..|s| - 1], s[|s| - 1];
    if p < Total(front) {
      SomeSpanHolds(front, p);
      var x :| x in front && x.Holds(p);
      assert x in s;
    } else {
      assert last in s && last.Holds(p);
    }
  }

  /**
   The check passes exactly for zones that lie within the fixture's pixels and clear of one
   another, in whatever order they are declared; they need not cover the fixture.
   */
  lemma ZonesPassExactly(f: Fixture)
    ensures ZonesPass(f) <==>
      && (forall i :: 0 <= i < |f.zones| ==> 0 <= f.zones[i].start && f.zones[i].End() <= PixelCount(f))
      && AllClear(f.zones)
  {
    var s, n := Sorted(f.zones), PixelCount(f);
    SortedAscends(f.zones);
    ClearSorted(f.zones);
    NeighboursExactly(s);
    SameWithin(s, f.zones, n);
    hide AllClear;
    hide NeighboursClear;
    hide Sorted;
    hide PixelCount;
  }

  lemma SameWithin(a: seq<Run>, b: seq<Run>, n: int)
    requires forall x :: x in a <==> x in b
    ensures (forall i :: 0 <= i < |a| ==> 0 <= a[i].start && a[i].End() <= n) <==>
            (forall i :: 0 <= i < |b| ==> 0 <= b[i].start && b[i].End() <= n)
  {
    assert Within(a, n) <==> Within(b, n);
    assert forall i :: 0 <= i < |a| ==> a[i] in a;
    assert forall i :: 0 <= i < |b| ==> b[i] in b;
    assert Within(a, n) <==> forall i :: 0 <= i < |a| ==> 0 <= a[i].start && a[i].End() <= n;
    assert Within(b, n) <==> forall i :: 0 <= i < |b| ==> 0 <= b[i].start && b[i].End() <= n;
  }

  // ---- end to end ----------------------------------------------------------------------------

  predicate Accepted(fixtures: seq<Fixture>) {
    && fixtures != [] && Once(seq(|fixtures|, i requires 0 <= i < |fixtures| => fixtures[i].name))
    && forall i :: 0 <= i < |fixtures| ==> BlocksPass(fixtures[i].blocks) && ZonesPass(fixtures[i])
  }

  /** Pixels of the first `n` fixtures. */
  function Offset(fixtures: seq<Fixture>, n: nat): int
    requires n <= |fixtures|
  {
    if n == 0 then 0 else Offset(fixtures, n - 1) + PixelCount(fixtures[n - 1])
  }

  /** The zones of the first `n` fixtures, each with its fixture's index. */
  function Namespaced(fixtures: seq<Fixture>, n: nat): seq<(nat, Run)>
    requires n <= |fixtures|
  {
    if n == 0 then [] else Namespaced(fixtures, n - 1) + Shifted(fixtures[n - 1], n - 1, Offset(fixtures, n - 1))
  }

  function Shifted(f: Fixture, i: nat, offset: int): (zs: seq<(nat, Run)>)
    ensures |zs| == |f.zones|
  {
    seq(|f.zones|, k requires 0 <= k < |f.zones| =>
      (i, Run(f.name + "." + f.zones[k].name, offset + f.zones[k].start, f.zones[k].count)))
  }

  /** How many zones the first `n` fixtures declare. */
  function ZonesBefore(fixtures: seq<Fixture>, n: nat): nat
    requires n <= |fixtures|
  {
    if n == 0 then 0 else ZonesBefore(fixtures, n - 1) + |fixtures[n - 1].zones|
  }

  /**
   Every zone of every fixture is listed, in declaration order and nothing else, under its
   fixture's name and its own, as long as it was, and as far from the first pixel of its
   fixture's slice as it was from the fixture's.
   */
  lemma {:induction false} ZonesAreKept(fixtures: seq<Fixture>, n: nat)
    requires n <= |fixtures|
    ensures |Namespaced(fixtures, n)| == ZonesBefore(fixtures, n)
    ensures forall i: nat, k: nat :: i < n && k < |fixtures[i].zones| ==> ZoneIsKept(fixtures, n, i, k)
  {
    if n > 0 {
      ZonesAreKept(fixtures, n - 1);
      forall i: nat, k: nat | i < n && k < |fixtures[i].zones| ensures ZoneIsKept(fixtures, n, i, k) {
        assert i < n - 1 ==> ZoneIsKept(fixtures, n - 1, i, k);
        hide PixelCount;
      }
    }
  }

  /** The k-th zone of the i-th fixture has its place among those of the first `n`. */
  ghost predicate ZoneIsKept(fixtures: seq<Fixture>, n: nat, i: nat, k: nat)
    requires i < n <= |fixtures| && k < |fixtures[i].zones|
  {
    var p, z := ZonesBefore(fixtures, i) + k, fixtures[i].zones[k];
    && p < |Namespaced(fixtures, n)| && Namespaced(fixtures, n)[p].0 == i
    && var kept := Namespaced(fixtures, n)[p].1;
       && kept.name == fixtures[i].name + "." + z.name && kept.count == z.count
       && CHANNELS_PER_PIXEL * (kept.start - z.start) == SlicesOf(fixtures)[i].start
  }

  lemma {:induction false} OffsetsGrow(fixtures: seq<Fixture>, i: nat, n: nat)
    requires Accepted(fixtures) && i <= n <= |fixtures|
    ensures 0 <= Offset(fixtures, i) <= Offset(fixtures, n)
    decreases n
  {
    hide BlocksPass;
    hide ZonesPass;
    hide Total;
    if i < n {
      PixelsArePositive(fixtures[n - 1].blocks);
      OffsetsGrow(fixtures, i, n - 1);
    } else if 0 < n {
      OffsetsGrow(fixtures, n - 1, n - 1);
      PixelsArePositive(fixtures[n - 1].blocks);
    }
  }

  lemma PixelsArePositive(blocks: seq<Run>)
    requires BlocksPass(blocks)
    ensures Total(blocks) > 0
  {
    TilesExactly(blocks);
    assert blocks[0] in blocks;
  }

  lemma ShiftedHome(f: Fixture, i: nat, offset: int)
    requires ZonesPass(f)
    ensures forall z :: z in Shifted(f, i, offset) ==>
        z.0 == i && offset <= z.1.start && z.1.End() <= offset + PixelCount(f)
  {
    SortedAscends(f.zones);
    var zs := Shifted(f, i, offset);
    forall z | z in zs ensures z.0 == i && offset <= z.1.start && z.1.End() <= offset + PixelCount(f) {
      var k :| 0 <= k < |f.zones| && zs[k] == z;
      assert f.zones[k] in f.zones;
      var l :| 0 <= l < |f.zones| && Sorted(f.zones)[l] == f.zones[k];
    }
  }

  /** A namespaced zone keeps within its own fixture's stretch of the surface. */
  lemma {:induction false} ZonesStayHome(fixtures: seq<Fixture>, n: nat)
    requires Accepted(fixtures) && n <= |fixtures|
    ensures forall z :: z in Namespaced(fixtures, n) ==>
      z.0 < n && Offset(fixtures, z.0) <= z.1.start && z.1.End() <= Offset(fixtures, z.0 + 1)
  {
    hide BlocksPass;
    hide ZonesPass;
    hide Total;
    hide Shifted;
    if n > 0 {
      ZonesStayHome(fixtures, n - 1);
      ShiftedHome(fixtures[n - 1], n - 1, Offset(fixtures, n - 1));
      hide Accepted;
      hide Shifted;
      hide PixelCount;
    }
  }

  ghost predicate NoSharedPixel(zs: seq<(nat, Run)>) {
    forall i, j, p :: 0 <= i < j < |zs| ==> !(zs[i].1.Holds(p) && zs[j].1.Holds(p))
  }

  lemma ShiftedDisjoint(f: Fixture, i: nat, offset: int)
    requires ZonesPass(f)
    ensures NoSharedPixel(Shifted(f, i, offset))
  {
    SortedAscends(f.zones);
    NeighboursExactly(Sorted(f.zones));
    ClearSorted(f.zones);
    var zs := Shifted(f, i, offset);
    forall k, l, p | 0 <= k < l < |zs| ensures !(zs[k].1.Holds(p) && zs[l].1.Holds(p)) {
      assert Clear(f.zones[k], f.zones[l]);
    }
  }

  /** No two namespaced zones of the whole surface share a pixel. */
  lemma {:induction false} ZonesAreDisjoint(fixtures: seq<Fixture>, n: nat)
    requires Accepted(fixtures) && n <= |fixtures|
    ensures NoSharedPixel(Namespaced(fixtures, n))
  {
    hide BlocksPass;
    hide ZonesPass;
    hide Total;
    hide Shifted;
    if n > 0 {
      ZonesAreDisjoint(fixtures, n - 1);
      ZonesStayHome(fixtures, n - 1);
      var before, mine := Namespaced(fixtures, n - 1), Shifted(fixtures[n - 1], n - 1, Offset(fixtures, n - 1));
      ShiftedDisjoint(fixtures[n - 1], n - 1, Offset(fixtures, n - 1));
      ShiftedHome(fixtures[n - 1], n - 1, Offset(fixtures, n - 1));
      forall z | z in before ensures z.1.End() <= Offset(fixtures, n - 1) {
        OffsetsGrow(fixtures, z.0 + 1, n - 1);
      }
      hide Accepted;
      hide Shifted;
      hide NoSharedPixel;
      JoinedDisjoint(before, mine, Offset(fixtures, n - 1));
    }
  }

  lemma JoinedDisjoint(a: seq<(nat, Run)>, b: seq<(nat, Run)>, at: int)
    requires NoSharedPixel(a) && NoSharedPixel(b)
    requires (forall z :: z in a ==> z.1.End() <= at) && forall z :: z in b ==> at <= z.1.start
    ensures NoSharedPixel(a + b)
  {
    forall i, j, p | 0 <= i < j < |a + b| ensures !((a + b)[i].1.Holds(p) && (a + b)[j].1.Holds(p)) {
      if i < |a| <= j {
        assert a[i] in a && b[j - |a|] in b;
      }
    }
  }

  datatype Slice = Slice(name: string, start: int, width: int)

  function SlicesOf(fixtures: seq<Fixture>): (s: seq<Slice>)
    ensures |s| == |fixtures|
  {
    seq(|fixtures|, i requires 0 <= i < |fixtures| =>
      Slice(fixtures[i].name, CHANNELS_PER_PIXEL * Offset(fixtures, i), CHANNELS_PER_PIXEL * PixelCount(fixtures[i])))
  }

  /**
   The slices of a frame, in declaration order: none empty, each starting where the one
   before ends, from 0 to the frame's width, with every zone's channels in its own
   fixture's slice.
   */
  lemma SlicesPartition(fixtures: seq<Fixture>)
    requires Accepted(fixtures)
    ensures var s, frame := SlicesOf(fixtures), CHANNELS_PER_PIXEL * Offset(fixtures, |fixtures|);
      && s[0].start == 0 && s[|s| - 1].start + s[|s| - 1].width == frame
      && (forall i :: 0 <= i < |s| ==> s[i].name == fixtures[i].name && s[i].width > 0)
      && (forall i :: 0 <= i < |s| - 1 ==> s[i].start + s[i].width == s[i + 1].start)
      && forall z, p :: z in Namespaced(fixtures, |fixtures|) && z.1.Holds(p) ==>
           z.0 < |s| && s[z.0].start <= CHANNELS_PER_PIXEL * p
           && CHANNELS_PER_PIXEL * p + CHANNELS_PER_PIXEL <= s[z.0].start + s[z.0].width
  {
    hide BlocksPass;
    hide ZonesPass;
    hide Total;
    hide Namespaced;
    var s := SlicesOf(fixtures);
    forall i | 0 <= i < |s|
      ensures s[i].name == fixtures[i].name && s[i].width > 0
              && s[i].start + s[i].width == CHANNELS_PER_PIXEL * Offset(fixtures, i + 1)
    {
      PixelsArePositive(fixtures[i].blocks);
    }
    ZonesStayHome(fixtures, |fixtures|);
    forall z, p | z in Namespaced(fixtures, |fixtures|) && z.1.Holds(p)
      ensures z.0 < |s| && s[z.0].start <= CHANNELS_PER_PIXEL * p
              && CHANNELS_PER_PIXEL * p + CHANNELS_PER_PIXEL <= s[z.0].start + s[z.0].width
    {
      assert s[z.0].start == CHANNELS_PER_PIXEL * Offset(fixtures, z.0);
      assert s[z.0].start + s[z.0].width == CHANNELS_PER_PIXEL * Offset(fixtures, z.0 + 1);
    }
  }

  // ---- the loops ------------------------------------------------------------------------------

  method Zones(fixtures: seq<Fixture>) returns (out: seq<Run>)
    ensures |out| == |Namespaced(fixtures, |fixtures|)|
    ensures forall k :: 0 <= k < |out| ==> out[k] == Namespaced(fixtures, |fixtures|)[k].1
  {
    out := [];
    var offset := 0;
    for i := 0 to |fixtures|
      invariant offset == Offset(fixtures, i)
      invariant |out| == |Namespaced(fixtures, i)|
      invariant forall k :: 0 <= k < |out| ==> out[k] == Namespaced(fixtures, i)[k].1
    {
      var f := fixtures[i];
      ghost var before, mine := Namespaced(fixtures, i), Shifted(f, i, offset);
      ghost var all: seq<(nat, Run)> := before + mine;
      for j := 0 to |f.zones|
        invariant |out| == |before| + j
        invariant forall k :: 0 <= k < |out| ==> out[k] == all[k].1
      {
        var z := f.zones[j];
        out := out + [Run(f.name + "." + z.name, offset + z.start, z.count)];
      }
      var pixels := Count(f.blocks);
      offset := offset + pixels;
    }
  }

  method Count(runs: seq<Run>) returns (total: int)
    ensures total == Total(runs)
  {
    total := 0;
    for i := 0 to |runs|
      invariant total == Total(runs[..i])
    {
      assert runs[..i + 1][..i] == runs[..i];
      total := total + runs[i].count;
    }
    assert runs[..|runs|] == runs;
  }

  method FixtureSlices(fixtures: seq<Fixture>) returns (out: seq<Slice>)
    ensures out == SlicesOf(fixtures)
  {
    out := [];
    var offset := 0;
    for i := 0 to |fixtures|
      invariant offset == CHANNELS_PER_PIXEL * Offset(fixtures, i) && out == SlicesOf(fixtures)[..i]
    {
      var pixels := Count(fixtures[i].blocks);
      out := out + [Slice(fixtures[i].name, offset, pixels * CHANNELS_PER_PIXEL)];
      offset := offset + pixels * CHANNELS_PER_PIXEL;
    }
  }

  /** `__post_init__`'s checks on one fixture's blocks. */
  method CheckBlocks(blocks: seq<Run>) returns (ok: bool)
    ensures ok == BlocksPass(blocks)
  {
    if blocks == [] || !Once(NamesOf(blocks)) {
      return false;
    }
    for i := 0 to |blocks|
      invariant forall k :: 0 <= k < i ==> 0 < blocks[k].count <= MAX_PROFILE_PIXELS
    {
      if blocks[i].count <= 0 || blocks[i].count > MAX_PROFILE_PIXELS {
        return false;
      }
    }
    var spans := Sorted(blocks);
    hide Sorted;
    hide Contiguous;
    var clear := SpansClear(spans);
    if !clear {
      return false;
    }
    ok := SpansTile(spans);
  }

  method SpansTile(spans: seq<Run>) returns (ok: bool)
    ensures ok == Contiguous(spans)
  {
    var expected := 0;
    for i := 0 to |spans|
      invariant Contiguous(spans[..i]) && expected == Total(spans[..i])
    {
      assert spans[..i + 1][..i] == spans[..i];
      if spans[i].start != expected {
        if Contiguous(spans) {
          ContiguousFront(spans, i);
        }
        return false;
      }
      expected := spans[i].End();
    }
    assert spans[..|spans|] == spans;
    ok := true;
  }

  method SpansClear(spans: seq<Run>) returns (ok: bool)
    ensures ok == NeighboursClear(spans)
  {
    var i := 1;
    while i < |spans|
      invariant 1 <= i && forall k :: 1 <= k < i && k < |spans| ==> spans[k - 1].End() <= spans[k].start
    {
      if spans[i].start < spans[i - 1].End() {
        return false;
      }
      i := i + 1;
    }
    ok := true;
  }

  method CheckZones(f: Fixture) returns (ok: bool)
    ensures ok == ZonesPass(f)
  {
    var spans := Sorted(f.zones);
    hide Sorted;
    hide Total;
    var pixels := Count(f.blocks);
    for i := 0 to |spans|
      invariant forall k :: 0 <= k < i ==> 0 <= spans[k].start && spans[k].End() <= pixels
    {
      if spans[i].start < 0 || spans[i].End() > pixels {
        return false;
      }
    }
    ok := SpansClear(spans);
  }
}
