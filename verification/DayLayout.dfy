/** `layout_day`: side-by-side columns for one day's timed occurrences. */
module DayLayout {
  import opened Options

  const DEFAULT_MINUTES := 30

  /** One occurrence of the day; times are minutes since midnight. */
  datatype Occ = Occ(eventId: int, allDay: bool, startTime: Option<nat>, endTime: Option<nat>)

  /** An occurrence with the minutes the grid draws. */
  datatype Block = Block(occ: Occ, start: int, end: int)

  datatype Placed = Placed(block: Block, col: nat, ncols: nat, left: real, width: real)

  predicate IsTimed(o: Occ) {
    !o.allDay && o.startTime.Some?
  }

  /** A block in terms of its occurrence: from its start to its end when that is later, for half an hour when
      it is missing or not. */
  ghost predicate DrawnAsGiven(b: Block) {
    && !b.occ.allDay && b.occ.startTime.Some? && b.start == b.occ.startTime.value
    && (b.occ.endTime.Some? && b.occ.endTime.value > b.start ==> b.end == b.occ.endTime.value)
    && (b.occ.endTime.None? || b.occ.endTime.value <= b.start ==> b.end == b.start + 30)
  }

  /** A missing or non-positive end becomes a half-hour block. */
  function BlockOf(o: Occ): (b: Block)
    requires IsTimed(o)
    ensures b.occ == o && b.start < b.end && DrawnAsGiven(b)
  {
    var s := o.startTime.value;
    Block(o, s, if o.endTime.Some? && o.endTime.value > s then o.endTime.value else s + DEFAULT_MINUTES)
  }

  predicate KeyLeq(a: Block, b: Block) {
    a.start < b.start || (a.start == b.start && a.end <= b.end)
  }

  ghost predicate Ordered(bs: seq<Block>) {
    && (forall i :: 0 <= i < |bs| ==> bs[i].start < bs[i].end)
    && forall i, j :: 0 <= i < j < |bs| ==> KeyLeq(bs[i], bs[j])
  }

  predicate Overlap(a: Block, b: Block) {
    a.start < b.end && b.start < a.end
  }

  /** Puts b behind every block whose key is not larger, as a stable sort does. */
  function Insert(bs: seq<Block>, b: Block): seq<Block> {
    if bs == [] || !KeyLeq(bs[0], b) then [b] + bs else [bs[0]] + Insert(bs[1..], b)
  }

  lemma ConsOrdered(x: Block, tail: seq<Block>)
    requires Ordered(tail) && x.start < x.end && forall y :: y in tail ==> KeyLeq(x, y)
    ensures Ordered([x] + tail)
  {
  }

  lemma {:induction false} InsertMembers(bs: seq<Block>, b: Block)
    ensures forall y :: y in Insert(bs, b) ==> y in bs || y == b
  {
    if bs != [] && KeyLeq(bs[0], b) {
      InsertMembers(bs[1..], b);
    }
  }

  lemma {:induction false} InsertOrders(bs: seq<Block>, b: Block)
    requires Ordered(bs) && b.start < b.end
    ensures Ordered(Insert(bs, b)) && multiset(Insert(bs, b)) == multiset(bs) + multiset{b}
  {
    if bs == [] {
    } else if !KeyLeq(bs[0], b) {
      assert forall j :: 0 < j < |bs| ==> KeyLeq(bs[0], bs[j]);
      ConsOrdered(b, bs);
    } else {
      var rest := bs[1..];
      assert bs == [bs[0]] + rest;
      assert forall y :: y in rest ==> KeyLeq(bs[0], y);
      InsertOrders(rest, b);
      InsertMembers(rest, b);
      ConsOrdered(bs[0], Insert(rest, b));
    }
  }

  /** The blocks of the timed occurrences, in input order; the rest is dropped. */
  function TimedBlocks(occs: seq<Occ>): seq<Block> {
    if occs == [] then []
    else
      var front, last := TimedBlocks(occs[..|occs| - 1]), occs[|occs| - 1];
      if IsTimed(last) then front + [BlockOf(last)] else front
  }

  /** Every block is an occurrence drawn as given, and every timed occurrence is there as often as given. */
  lemma {:induction false} TimedBlocksAre(occs: seq<Occ>, b: Block)
    ensures multiset(TimedBlocks(occs))[b] == if DrawnAsGiven(b) then multiset(occs)[b.occ] else 0
  {
    if occs != [] {
      TimedBlocksAre(occs[..|occs| - 1], b);
      assert occs == occs[..|occs| - 1] + [occs[|occs| - 1]];
    }
  }

  /** Filters, fills in ends and sorts: the first part of `layout_day`. */
  method SortedBlocks(occs: seq<Occ>) returns (items: seq<Block>)
    ensures Ordered(items) && multiset(items) == multiset(TimedBlocks(occs))
  {
    items := [];
    for i := 0 to |occs|
      invariant Ordered(items) && multiset(items) == multiset(TimedBlocks(occs[..i]))
    {
      assert occs[..i + 1][..i] == occs[..i];
      if IsTimed(occs[i]) {
        var b := BlockOf(occs[i]);
        InsertOrders(items, b);
        items := Insert(items, b);
      }
    }
    assert occs[..|occs|] == occs;
  }

  // ----- clusters are the connected components of the overlap graph -----

  /** Every earlier block has ended when block k starts. */
  ghost predicate Gap(items: seq<Block>, k: int)
    requires 0 <= k < |items|
  {
    forall j :: 0 <= j < k ==> items[j].end <= items[k].start
  }

  /** Cluster numbers along the sorted list: a new one exactly at each gap. */
  ghost predicate Clustered(items: seq<Block>, group: seq<nat>) {
    && |group| == |items|
    && (|group| > 0 ==> group[0] == 0)
    && forall k {:trigger NumberedAt(items, group, k)} :: NumberedAt(items, group, k)
  }

  ghost predicate NumberedAt(items: seq<Block>, group: seq<nat>, k: int) {
    1 <= k < |items| && |group| == |items| ==>
      group[k] == if Gap(items, k) then group[k - 1] + 1 else group[k - 1]
  }

  /** A walk along overlapping blocks. */
  ghost predicate Walk(items: seq<Block>, p: seq<int>) {
    && p != []
    && (forall k :: 0 <= k < |p| ==> 0 <= p[k] < |items|)
    && forall k :: 0 <= k < |p| - 1 ==> Overlap(items[p[k]], items[p[k + 1]])
  }

  ghost predicate Linked(items: seq<Block>, i: int, j: int) {
    exists p :: Walk(items, p) && p[0] == i && p[|p| - 1] == j
  }

  lemma LinkedSelf(items: seq<Block>, i: int)
    requires 0 <= i < |items|
    ensures Linked(items, i, i)
  {
    assert Walk(items, [i]);
  }

  lemma LinkedThen(items: seq<Block>, i: int, j: int, k: int)
    requires Linked(items, i, j) && 0 <= k < |items| && Overlap(items[j], items[k])
    ensures Linked(items, i, k)
  {
    var p :| Walk(items, p) && p[0] == i && p[|p| - 1] == j;
    assert Walk(items, p + [k]);
  }

  lemma {:induction false} LinkedJoin(items: seq<Block>, i: int, j: int, p: seq<int>)
    requires Linked(items, i, j) && Walk(items, p) && p[0] == j
    ensures Linked(items, i, p[|p| - 1])
  {
    if |p| > 1 {
      var front := p[..|p| - 1];
      assert Walk(items, front);
      LinkedJoin(items, i, j, front);
      assert Overlap(items[p[|p| - 2]], items[p[|p| - 2 + 1]]);
      LinkedThen(items, i, front[|front| - 1], p[|p| - 1]);
    }
  }

  lemma {:induction false} LinkedBack(items: seq<Block>, p: seq<int>)
    requires Walk(items, p)
    ensures Linked(items, p[|p| - 1], p[0])
  {
    if |p| == 1 {
      LinkedSelf(items, p[0]);
    } else {
      var rest := p[1..];
      assert Walk(items, rest);
      LinkedBack(items, rest);
      assert Overlap(items[p[0]], items[p[0 + 1]]);
      LinkedThen(items, p[|p| - 1], p[1], p[0]);
    }
  }

  /** Across a cluster boundary nothing overlaps. */
  lemma {:induction false} BoundarySeparates(items: seq<Block>, group: seq<nat>, i: int, j: int)
    requires Ordered(items) && Clustered(items, group) && 0 <= i < j < |items|
    ensures group[i] <= group[j]
    ensures group[i] < group[j] ==> items[i].end <= items[j].start
    decreases j
  {
    if i < j - 1 {
      BoundarySeparates(items, group, i, j - 1);
    }
    assert KeyLeq(items[j - 1], items[j]);
    assert NumberedAt(items, group, j);
  }

  lemma OverlapSharesCluster(items: seq<Block>, group: seq<nat>, i: int, j: int)
    requires Ordered(items) && Clustered(items, group) && 0 <= i < |items| && 0 <= j < |items|
    requires Overlap(items[i], items[j])
    ensures group[i] == group[j]
  {
    if i < j {
      BoundarySeparates(items, group, i, j);
    } else if j < i {
      BoundarySeparates(items, group, j, i);
    }
  }

  /** Inside a cluster every block is linked to the one the cluster starts with. */
  lemma {:induction false} LinkedToFirst(items: seq<Block>, group: seq<nat>, first: int, k: int)
    requires Ordered(items) && Clustered(items, group) && 0 <= first <= k < |items|
    requires group[first] == group[k] && (first == 0 || group[first - 1] < group[first])
    ensures Linked(items, first, k)
    decreases k
  {
    if k == first {
      LinkedSelf(items, k);
    } else {
      BoundarySeparates(items, group, first, k);
      if first < k - 1 {
        BoundarySeparates(items, group, first, k - 1);
      }
      BoundarySeparates(items, group, k - 1, k);
      assert NumberedAt(items, group, k);
      assert !Gap(items, k);
      var j :| 0 <= j < k && items[j].end > items[k].start;
      BoundarySeparates(items, group, j, k);
      if j < first {
        BoundarySeparates(items, group, j, first);
        if j < first - 1 {
          BoundarySeparates(items, group, j, first - 1);
        }
        assert false;
      }
      assert KeyLeq(items[j], items[k]);
      LinkedToFirst(items, group, first, j);
      LinkedThen(items, first, j, k);
    }
  }

  lemma {:induction false} FirstOf(group: seq<nat>, k: int) returns (first: int)
    requires 0 <= k < |group|
    ensures 0 <= first <= k && group[first] == group[k]
    ensures first == 0 || group[first - 1] != group[first]
  {
    if k > 0 && group[k - 1] == group[k] {
      first := FirstOf(group, k - 1);
    } else {
      first := k;
    }
  }

  lemma {:induction false} WalkStays(items: seq<Block>, group: seq<nat>, p: seq<int>)
    requires Ordered(items) && Clustered(items, group) && Walk(items, p)
    ensures group[p[0]] == group[p[|p| - 1]]
  {
    if |p| > 1 {
      var front := p[..|p| - 1];
      assert Walk(items, front);
      WalkStays(items, group, front);
      assert Overlap(items[p[|p| - 2]], items[p[|p| - 2 + 1]]);
      OverlapSharesCluster(items, group, p[|p| - 2], p[|p| - 1]);
    }
  }

  /** The clusters are exactly the connected components of the overlap graph. */
  lemma ClustersAreComponents(items: seq<Block>, group: seq<nat>, i: int, j: int)
    requires Ordered(items) && Clustered(items, group) && 0 <= i <= j < |items|
    ensures group[i] == group[j] <==> Linked(items, i, j)
  {
    if Linked(items, i, j) {
      var p :| Walk(items, p) && p[0] == i && p[|p| - 1] == j;
      WalkStays(items, group, p);
    }
    if group[i] == group[j] {
      var first := FirstOf(group, i);
      if first > 0 {
        BoundarySeparates(items, group, first - 1, first);
      }
      LinkedToFirst(items, group, first, i);
      LinkedToFirst(items, group, first, j);
      var p :| Walk(items, p) && p[0] == first && p[|p| - 1] == i;
      LinkedBack(items, p);
      var q :| Walk(items, q) && q[0] == first && q[|q| - 1] == j;
      LinkedJoin(items, i, first, q);
    }
  }

  /** Cluster g is the index range from cuts[g] up to cuts[g + 1]. */
  predicate InCut(cuts: seq<nat>, g: int, i: int) {
    0 <= g && g + 1 < |cuts| && cuts[g] <= i < cuts[g + 1]
  }

  ghost predicate CutAt(cuts: seq<nat>, g: int, n: int) {
    0 <= g && g + 1 < |cuts| && cuts[g] < cuts[g + 1] <= n
  }

  /** The ranges are non-empty and follow each other, and group numbers them. */
  ghost predicate Ranges(cuts: seq<nat>, group: seq<nat>, n: int) {
    && |cuts| >= 1 && cuts[0] == 0 && cuts[|cuts| - 1] == n == |group|
    && (forall g :: 0 <= g < |cuts| - 1 ==> CutAt(cuts, g, n))
    && forall g, i :: InCut(cuts, g, i) && 0 <= i < n ==> group[i] == g
  }

  /** The clustering loop. Clusters are index ranges of the sorted list: cuts[g] up to cuts[g + 1]. */
  method Cluster(items: seq<Block>) returns (cuts: seq<nat>, ghost group: seq<nat>)
    requires Ordered(items)
    ensures Clustered(items, group)
    ensures Ranges(cuts, group, |items|)
  {
    cuts, group := [0], [];
    var curEnd: Option<int> := None;
    for k := 0 to |items|
      invariant |group| == k && Clustered(items[..k], group)
      invariant curEnd.Some? <==> k > 0
      invariant forall j :: 0 <= j < k ==> items[j].end <= curEnd.value
      invariant k > 0 ==> exists j :: 0 <= j < k && items[j].end == curEnd.value
      invariant |cuts| >= 1 && cuts[0] == 0 && cuts[|cuts| - 1] <= k
      invariant k == 0 ==> cuts == [0]
      invariant k > 0 ==> cuts[|cuts| - 1] < k
      invariant Ranges(cuts + (if k == 0 then [] else [k]), group, k)
    {
      var o := items[k];
      if curEnd.Some? {
        assert o.start < curEnd.value <==> !Gap(items, k);
        LastInCut(cuts, group, k);
        RangesGrow(cuts, group, k, o.start < curEnd.value);
        if o.start >= curEnd.value {
          cuts := cuts + [k];
        }
      }
      ClusteredGrows(items, group, k, |cuts| - 1);
      group := group + [|cuts| - 1];
      curEnd := Some(if curEnd.Some? && curEnd.value > o.end then curEnd.value else o.end);
    }
    assert items[..|items|] == items;
    if |items| > 0 {
      cuts := cuts + [|items|];
    } else {
      assert cuts + [] == cuts;
    }
  }

  lemma LastInCut(cuts: seq<nat>, group: seq<nat>, k: int)
    requires |cuts| >= 1 && k > 0 && cuts[|cuts| - 1] < k && Ranges(cuts + [k], group, k)
    ensures group[k - 1] == |cuts| - 1
  {
    assert InCut(cuts + [k], |cuts| - 1, k - 1);
  }

  /** One more element extends the open range, or closes it and opens the next. */
  lemma RangesGrow(cuts: seq<nat>, group: seq<nat>, k: int, joins: bool)
    requires |cuts| >= 1 && k > 0 && cuts[|cuts| - 1] < k && Ranges(cuts + [k], group, k)
    ensures joins ==> Ranges(cuts + [k + 1], group + [|cuts| - 1], k + 1)
    ensures !joins ==> Ranges(cuts + [k] + [k + 1], group + [|cuts|], k + 1)
  {
    var open := cuts + [k];
    var now := if joins then cuts + [k + 1] else cuts + [k] + [k + 1];
    var group' := group + [if joins then |cuts| - 1 else |cuts|];
    var n := k + 1;
    forall g | 0 <= g < |now| - 1 ensures CutAt(now, g, n) {
      assert g < |open| - 1 ==> CutAt(open, g, k);
    }
    forall g, i | InCut(now, g, i) && 0 <= i < k + 1 ensures group'[i] == g {
      if i < k {
        assert InCut(open, g, i);
      } else {
        assert g < |open| - 1 ==> CutAt(open, g, k);
      }
    }
  }

  lemma ClusteredGrows(items: seq<Block>, group: seq<nat>, k: nat, next: nat)
    requires k < |items| && |group| == k && Clustered(items[..k], group)
    requires k == 0 ==> next == 0
    requires k > 0 ==> next == if Gap(items, k) then group[k - 1] + 1 else group[k - 1]
    ensures Clustered(items[..k + 1], group + [next])
  {
    var now, was := items[..k + 1], items[..k];
    forall m ensures NumberedAt(now, group + [next], m) {
      if 1 <= m < k + 1 {
        assert Gap(now, m) <==> Gap(items, m);
        if m < k {
          assert NumberedAt(was, group, m);
          assert Gap(was, m) <==> Gap(items, m);
        }
      }
    }
  }

  // ----- columns -----

  /** The blocks of a range that are on screen at minute t. */
  ghost function Alive(items: seq<Block>, lo: int, hi: int, t: int): set<int>
    requires 0 <= lo <= hi <= |items|
  {
    set i | lo <= i < hi && items[i].start <= t < items[i].end
  }

  /** A column assignment for the range lo..hi, with cols[i - lo] the column of block i. */
  ghost predicate ProperColumns(items: seq<Block>, lo: int, hi: int, cols: seq<nat>)
    requires 0 <= lo <= hi <= |items|
  {
    && |cols| == hi - lo
    && forall i, j :: lo <= i < j < hi && Overlap(items[i], items[j]) ==> cols[i - lo] != cols[j - lo]
  }

  /** Distinct positions are no more than the set they lie in. */
  lemma {:induction false} DistinctFit(w: seq<int>, s: set<int>)
    requires forall c :: 0 <= c < |w| ==> w[c] in s
    requires forall c, d :: 0 <= c < d < |w| ==> w[c] != w[d]
    ensures |w| <= |s|
  {
    if w != [] {
      var last := w[|w| - 1];
      var front := w[..|w| - 1];
      forall c | 0 <= c < |front| ensures front[c] in s - {last} {
        assert w[c] != w[|w| - 1];
      }
      DistinctFit(front, s - {last});
    }
  }

  /** A set on which a column assignment is injective has no more members than columns. */
  lemma {:induction false} PigeonHole(s: set<int>, lo: int, cols: seq<nat>, n: nat)
    requires forall i :: i in s ==> lo <= i < lo + |cols| && cols[i - lo] < n
    requires forall i, j :: i in s && j in s && i != j ==> cols[i - lo] != cols[j - lo]
    ensures |s| <= n
  {
    if n == 0 {
      assert forall i :: i !in s;
      assert s == {};
    } else if i :| i in s && cols[i - lo] == n - 1 {
      PigeonHole(s - {i}, lo, cols, n - 1);
    } else {
      PigeonHole(s, lo, cols, n - 1);
    }
  }

  lemma DepthWithinColumns(items: seq<Block>, lo: int, hi: int, cols: seq<nat>, n: nat, t: int)
    requires 0 <= lo <= hi <= |items| && ProperColumns(items, lo, hi, cols)
    requires forall k :: 0 <= k < |cols| ==> cols[k] < n
    ensures |Alive(items, lo, hi, t)| <= n
  {
    var alive := Alive(items, lo, hi, t);
    forall i, j | i in alive && j in alive && i != j ensures cols[i - lo] != cols[j - lo] {
      if i < j {
        assert Overlap(items[i], items[j]);
      } else {
        assert Overlap(items[j], items[i]);
      }
    }
    PigeonHole(alive, lo, cols, n);
  }

  /** An earlier block in column c is still on screen when block i starts. */
  ghost predicate Blocked(items: seq<Block>, lo: int, i: int, cols: seq<nat>, c: int)
    requires 0 <= lo <= i < |items| && i - lo < |cols|
  {
    exists j :: lo <= j < i && cols[j - lo] == c && Overlap(items[j], items[i])
  }

  /** Block i stands as far left as the earlier blocks let it. */
  ghost predicate Leftmost(items: seq<Block>, lo: int, i: int, cols: seq<nat>)
    requires 0 <= lo <= i < |items| && i - lo < |cols|
  {
    forall c :: 0 <= c < cols[i - lo] ==> Blocked(items, lo, i, cols, c)
  }

  /** The leftmost column whose last block has ended. */
  method FirstFree(colEnd: seq<int>, start: int) returns (c: nat)
    ensures c <= |colEnd|
    ensures forall d :: 0 <= d < c ==> colEnd[d] > start
    ensures c < |colEnd| ==> colEnd[c] <= start
  {
    c := 0;
    while c < |colEnd| && colEnd[c] > start
      invariant c <= |colEnd|
      invariant forall d :: 0 <= d < c ==> colEnd[d] > start
    {
      c := c + 1;
    }
  }

  /** last[c] is the newest block of column c, and colEnd[c] its end. */
  ghost predicate Newest(items: seq<Block>, lo: int, i: int, cols: seq<nat>, colEnd: seq<int>, last: seq<int>)
    requires 0 <= lo <= i <= |items| && |cols| == i - lo
  {
    && |last| == |colEnd|
    && forall c :: 0 <= c < |last| ==> lo <= last[c] < i && cols[last[c] - lo] == c && colEnd[c] == items[last[c]].end
  }

  ghost predicate BoundedAt(items: seq<Block>, lo: int, j: int, cols: seq<nat>, colEnd: seq<int>)
    requires 0 <= lo <= j < |items| && j - lo < |cols|
  {
    cols[j - lo] < |colEnd| && items[j].end <= colEnd[cols[j - lo]]
  }

  /** Every placed block has a column, and has ended when its column is free again. */
  ghost predicate Bounded(items: seq<Block>, lo: int, i: int, cols: seq<nat>, colEnd: seq<int>)
    requires 0 <= lo <= i <= |items| && |cols| == i - lo
  {
    forall j :: lo <= j < i ==> BoundedAt(items, lo, j, cols, colEnd)
  }

  /** What holds of the columns once blocks lo..i are placed. */
  ghost predicate Columns(items: seq<Block>, lo: int, i: int, cols: seq<nat>, colEnd: seq<int>, last: seq<int>)
    requires 0 <= lo <= i <= |items|
  {
    && ProperColumns(items, lo, i, cols)
    && Newest(items, lo, i, cols, colEnd, last)
    && Bounded(items, lo, i, cols, colEnd)
  }

  lemma PlacedApart(items: seq<Block>, lo: int, i: int, cols: seq<nat>, colEnd: seq<int>, last: seq<int>, c: nat)
    requires Ordered(items) && 0 <= lo <= i < |items| && Columns(items, lo, i, cols, colEnd, last)
    requires c < |colEnd| ==> colEnd[c] <= items[i].start
    ensures ProperColumns(items, lo, i + 1, cols + [c])
  {
    var cols' := cols + [c];
    forall j, k | lo <= j < k < i + 1 && Overlap(items[j], items[k]) ensures cols'[j - lo] != cols'[k - lo] {
      if k == i {
        assert BoundedAt(items, lo, j, cols, colEnd);
      }
    }
  }

  lemma NewestMoves(items: seq<Block>, lo: int, i: int, cols: seq<nat>, colEnd: seq<int>, last: seq<int>, c: nat)
    requires 0 <= lo <= i < |items| && |cols| == i - lo && Newest(items, lo, i, cols, colEnd, last)
    ensures c < |colEnd| ==> Newest(items, lo, i + 1, cols + [c], colEnd[c := items[i].end], last[c := i])
    ensures c == |colEnd| ==> Newest(items, lo, i + 1, cols + [c], colEnd + [items[i].end], last + [i])
  {
  }

  lemma BoundMoves(items: seq<Block>, lo: int, i: int, cols: seq<nat>, colEnd: seq<int>, c: nat)
    requires Ordered(items) && 0 <= lo <= i < |items| && |cols| == i - lo && Bounded(items, lo, i, cols, colEnd)
    requires c < |colEnd| ==> colEnd[c] <= items[i].start
    ensures c < |colEnd| ==> Bounded(items, lo, i + 1, cols + [c], colEnd[c := items[i].end])
    ensures c == |colEnd| ==> Bounded(items, lo, i + 1, cols + [c], colEnd + [items[i].end])
  {
    var now := if c < |colEnd| then colEnd[c := items[i].end] else colEnd + [items[i].end];
    if c <= |colEnd| {
      forall j | lo <= j < i + 1 ensures BoundedAt(items, lo, j, cols + [c], now) {
        assert j < i ==> BoundedAt(items, lo, j, cols, colEnd);
      }
    }
  }

  /** When every column is busy, one block of each and the next block are alive together. */
  lemma NewColumnIsNeeded(items: seq<Block>, lo: int, hi: int, i: int, cols: seq<nat>, colEnd: seq<int>, last: seq<int>)
    requires Ordered(items) && 0 <= lo <= i < hi <= |items| && Columns(items, lo, i, cols, colEnd, last)
    requires forall c :: 0 <= c < |colEnd| ==> colEnd[c] > items[i].start
    ensures |Alive(items, lo, hi, items[i].start)| >= |colEnd| + 1
  {
    var t := items[i].start;
    var w := last + [i];
    forall c | 0 <= c < |w| ensures w[c] in Alive(items, lo, hi, t) {
      if c < |last| {
        assert KeyLeq(items[last[c]], items[i]);
      }
    }
    forall c, d | 0 <= c < d < |w| ensures w[c] != w[d] {
      if d < |last| {
        assert cols[last[c] - lo] != cols[last[d] - lo];
      }
    }
    DistinctFit(w, Alive(items, lo, hi, t));
  }

  /** Places block i: its column, and the ends and newest blocks that follow from it. */
  method PlaceBlock(items: seq<Block>, lo: nat, i: nat, ghost cols: seq<nat>, colEnd: seq<int>, ghost last: seq<int>)
    returns (c: nat, colEnd': seq<int>, ghost last': seq<int>)
    requires Ordered(items) && lo <= i < |items| && Columns(items, lo, i, cols, colEnd, last)
    ensures Columns(items, lo, i + 1, cols + [c], colEnd', last')
    ensures Leftmost(items, lo, i, cols + [c])
    ensures if c == |colEnd| then |colEnd'| == |colEnd| + 1 && forall d :: 0 <= d < c ==> colEnd[d] > items[i].start
            else c < |colEnd| == |colEnd'|
  {
    var o := items[i];
    c := FirstFree(colEnd, o.start);
    ChosenLeftmost(items, lo, i, cols, colEnd, last, c);
    PlacedApart(items, lo, i, cols, colEnd, last, c);
    NewestMoves(items, lo, i, cols, colEnd, last, c);
    BoundMoves(items, lo, i, cols, colEnd, c);
    if c == |colEnd| {
      colEnd', last' := colEnd + [o.end], last + [i];
    } else {
      colEnd', last' := colEnd[c := o.end], last[c := i];
    }
  }

  /** Greedy first-fit over one cluster. The number of columns is the largest number of blocks alive
      at one instant: no layout can use fewer. */
  method AssignColumns(items: seq<Block>, lo: nat, hi: nat) returns (cols: seq<nat>, ncols: nat)
    requires Ordered(items) && lo < hi <= |items|
    ensures ProperColumns(items, lo, hi, cols)
    ensures forall k :: 0 <= k < |cols| ==> cols[k] < ncols
    ensures ncols > 0 && Depth(items, lo, hi, ncols)
    ensures forall i :: lo <= i < hi ==> Leftmost(items, lo, i, cols)
  {
    cols := [];
    var colEnd: seq<int> := [];
    ghost var last: seq<int> := [];
    ghost var busiest := 0;
    for i := lo to hi
      invariant Columns(items, lo, i, cols, colEnd, last)
      invariant i > lo ==> |colEnd| > 0
      invariant |colEnd| > 0 ==> |Alive(items, lo, hi, busiest)| >= |colEnd|
      invariant forall k :: lo <= k < i ==> Leftmost(items, lo, k, cols)
    {
      ghost var was, wasEnd, wasLast := cols, colEnd, last;
      var c;
      c, colEnd, last := PlaceBlock(items, lo, i, cols, colEnd, last);
      if |colEnd| > |wasEnd| {
        NewColumnIsNeeded(items, lo, hi, i, was, wasEnd, wasLast);
        busiest := items[i].start;
      }
      cols := cols + [c];
      assert Leftmost(items, lo, i, cols);
      forall k | lo <= k < i ensures Leftmost(items, lo, k, cols) {
        LeftmostKept(items, lo, k, was, cols);
      }
    }
    ncols := |colEnd|;
    BusiestIsDepth(items, lo, hi, cols, colEnd, last, busiest);
  }

  lemma BusiestIsDepth(items: seq<Block>, lo: int, hi: int, cols: seq<nat>, colEnd: seq<int>, last: seq<int>,
                       busiest: int)
    requires 0 <= lo < hi <= |items| && Columns(items, lo, hi, cols, colEnd, last)
    requires |Alive(items, lo, hi, busiest)| >= |colEnd|
    ensures forall k :: 0 <= k < |cols| ==> cols[k] < |colEnd|
    ensures Depth(items, lo, hi, |colEnd|)
  {
    forall k | 0 <= k < |cols| ensures cols[k] < |colEnd| {
      assert BoundedAt(items, lo, k + lo, cols, colEnd);
    }
    forall t: int ensures |Alive(items, lo, hi, t)| <= |colEnd| {
      DepthWithinColumns(items, lo, hi, cols, |colEnd|, t);
    }
    assert |Alive(items, lo, hi, busiest)| == |colEnd|;
  }

  lemma LeftmostKept(items: seq<Block>, lo: int, k: int, was: seq<nat>, cols: seq<nat>)
    requires 0 <= lo <= k < |items| && k - lo < |was| && was <= cols && Leftmost(items, lo, k, was)
    ensures Leftmost(items, lo, k, cols)
  {
    forall c | 0 <= c < cols[k - lo] ensures Blocked(items, lo, k, cols, c) {
      assert Blocked(items, lo, k, was, c);
      var j :| lo <= j < k && was[j - lo] == c && Overlap(items[j], items[k]);
      assert cols[j - lo] == c;
    }
  }

  lemma ChosenLeftmost(items: seq<Block>, lo: int, i: int, cols: seq<nat>, colEnd: seq<int>, last: seq<int>, c: nat)
    requires Ordered(items) && 0 <= lo <= i < |items| && Columns(items, lo, i, cols, colEnd, last)
    requires c <= |colEnd| && forall d :: 0 <= d < c ==> colEnd[d] > items[i].start
    ensures Leftmost(items, lo, i, cols + [c])
  {
    var cols' := cols + [c];
    forall d | 0 <= d < c ensures Blocked(items, lo, i, cols', d) {
      assert KeyLeq(items[last[d]], items[i]);
      assert cols'[last[d] - lo] == d;
    }
  }

  function Place(b: Block, col: nat, ncols: nat): (p: Placed)
    requires col < ncols
    ensures 0.0 <= p.left && p.left + p.width <= 1.0 && p.width > 0.0
  {
    var n := ncols as real;
    assert (col as real + 1.0) / n <= 1.0;
    Placed(b, col, ncols, col as real / n, 1.0 / n)
  }

  /** The columns of a cluster are equally wide, fill the grid, and stand in order. */
  lemma ColumnsFill(b: Block, col: nat, ncols: nat)
    requires col < ncols
    ensures Place(b, col, ncols).width * ncols as real == 1.0
    ensures Place(b, col, ncols).left == Place(b, col, ncols).width * col as real
    ensures Place(b, col, ncols).block == b
  {
    var n := ncols as real;
    assert (1.0 / n) * n == 1.0 && (col as real / n) * n == col as real;
    assert ((1.0 / n) * col as real) * n == col as real;
    SameQuotient(col as real / n, (1.0 / n) * col as real, n);
  }

  lemma SameQuotient(x: real, y: real, n: real)
    requires n > 0.0 && x * n == y * n
    ensures x == y
  {
    assert (x - y) * n == 0.0;
  }

  /** Different columns of one cluster are drawn side by side. */
  lemma ColumnsAreDisjoint(b: Block, d: Block, c1: nat, c2: nat, n: nat)
    requires c1 < c2 < n
    ensures Place(b, c1, n).left + Place(b, c1, n).width <= Place(d, c2, n).left
  {
    assert (c1 as real + 1.0) / n as real <= c2 as real / n as real;
  }

  /** Cluster g is laid out: proper columns, all drawn with one width, and as few as possible. */
  ghost predicate LaidOut(items: seq<Block>, lo: nat, hi: nat, placed: seq<Placed>)
    requires lo < hi <= |items| && hi <= |placed|
  {
    var n := placed[lo].ncols;
    && (forall i :: lo <= i < hi ==> placed[i].col < n && placed[i] == Place(items[i], placed[i].col, n))
    && (forall i, j :: lo <= i < j < hi && Overlap(items[i], items[j]) ==> placed[i].col != placed[j].col)
    && Depth(items, lo, hi, n)
  }

  /** n is the largest number of blocks of the range alive at one instant. */
  ghost predicate Depth(items: seq<Block>, lo: nat, hi: nat, n: nat)
    requires lo <= hi <= |items|
  {
    && (forall t: int :: |Alive(items, lo, hi, t)| <= n)
    && exists t: int :: |Alive(items, lo, hi, t)| == n
  }

  ghost predicate LaidOutAll(items: seq<Block>, cuts: seq<nat>, placed: seq<Placed>, upTo: int) {
    forall g :: 0 <= g < upTo && CutAt(cuts, g, |items|) && cuts[g + 1] <= |placed| ==>
      LaidOut(items, cuts[g], cuts[g + 1], placed)
  }

  /** The drawing loop of one cluster. */
  method DrawCluster(items: seq<Block>, lo: nat, hi: nat, before: seq<Placed>) returns (placed: seq<Placed>)
    requires Ordered(items) && lo < hi <= |items| && |before| == lo
    ensures |placed| == hi && before <= placed
    ensures LaidOut(items, lo, hi, placed)
  {
    var cols, ncols := AssignColumns(items, lo, hi);
    placed := before;
    for i := lo to hi
      invariant |placed| == i && before <= placed
      invariant forall k :: lo <= k < i ==> cols[k - lo] < ncols && placed[k] == Place(items[k], cols[k - lo], ncols)
    {
      placed := placed + [Place(items[i], cols[i - lo], ncols)];
    }
    DrawnIsLaidOut(items, lo, hi, cols, ncols, placed);
  }

  lemma DrawnIsLaidOut(items: seq<Block>, lo: nat, hi: nat, cols: seq<nat>, n: nat, placed: seq<Placed>)
    requires lo < hi <= |items| && hi <= |placed| && n > 0
    requires ProperColumns(items, lo, hi, cols) && Depth(items, lo, hi, n)
    requires forall k :: lo <= k < hi ==> cols[k - lo] < n && placed[k] == Place(items[k], cols[k - lo], n)
    ensures LaidOut(items, lo, hi, placed)
  {
    assert placed[lo].ncols == n;
    assert forall k :: lo <= k < hi ==> placed[k].col == cols[k - lo];
  }

  /** The layout cluster by cluster: ranges of the sorted blocks, numbered by `group`. */
  method LayoutClusters(occs: seq<Occ>)
    returns (placed: seq<Placed>, ghost items: seq<Block>, ghost cuts: seq<nat>, ghost group: seq<nat>)
    ensures Ordered(items) && multiset(items) == multiset(TimedBlocks(occs))
    ensures |placed| == |items|
    ensures Clustered(items, group) && Ranges(cuts, group, |items|)
    ensures LaidOutAll(items, cuts, placed, |cuts| - 1)
  {
    var blocks := SortedBlocks(occs);
    var ranges;
    ranges, group := Cluster(blocks);
    items, cuts := blocks, ranges;
    placed := [];
    for g := 0 to |ranges| - 1
      invariant |placed| == ranges[g]
      invariant LaidOutAll(blocks, ranges, placed, g)
    {
      assert CutAt(ranges, g, |blocks|);
      ghost var before := placed;
      placed := DrawCluster(blocks, ranges[g], ranges[g + 1], placed);
      forall h | 0 <= h < g + 1 && CutAt(ranges, h, |blocks|) && ranges[h + 1] <= |placed|
        ensures LaidOut(blocks, ranges[h], ranges[h + 1], placed)
      {
        if h < g {
          CutsAscend(ranges, group, |blocks|, h + 1, g);
          LayoutKept(blocks, ranges[h], ranges[h + 1], before, placed);
        }
      }
    }
  }

  lemma {:induction false} CutsAscend(cuts: seq<nat>, group: seq<nat>, n: int, g: int, h: int)
    requires Ranges(cuts, group, n) && 0 <= g <= h < |cuts|
    ensures cuts[g] <= cuts[h]
    decreases h
  {
    if g < h {
      CutsAscend(cuts, group, n, g, h - 1);
      assert CutAt(cuts, h - 1, n);
    }
  }

  lemma LayoutKept(items: seq<Block>, lo: nat, hi: nat, before: seq<Placed>, placed: seq<Placed>)
    requires lo < hi <= |items| && hi <= |before| && before <= placed && LaidOut(items, lo, hi, before)
    ensures LaidOut(items, lo, hi, placed)
  {
  }

  lemma {:induction false} RangeOf(cuts: seq<nat>, i: int, n: nat) returns (g: nat)
    requires |cuts| >= 1 && cuts[0] == 0 <= i < n == cuts[|cuts| - 1]
    ensures g + 1 < |cuts| && cuts[g] <= i < cuts[g + 1]
  {
    g := 0;
    while cuts[g + 1] <= i
      invariant g + 1 < |cuts| && cuts[g] <= i
      decreases |cuts| - g
    {
      g := g + 1;
    }
  }

  // ----- the layout, in terms of its input and result only -----

  function Blocks(placed: seq<Placed>): (bs: seq<Block>)
    ensures |bs| == |placed| && forall i :: 0 <= i < |bs| ==> bs[i] == placed[i].block
  {
    seq(|placed|, i requires 0 <= i < |placed| => placed[i].block)
  }

  /** Which blocks of the component of block i are on screen at minute t. */
  ghost function AliveWith(items: seq<Block>, i: int, t: int): set<int> {
    set j | 0 <= j < |items| && Linked(items, i, j) && items[j].start <= t < items[j].end
  }

  /** Block i is drawn in one of as many columns as its component has blocks at its busiest minute. */
  ghost predicate OptimalAt(items: seq<Block>, placed: seq<Placed>, i: int) {
    0 <= i < |placed| && |items| == |placed| ==>
      && placed[i].col < placed[i].ncols
      && placed[i] == Place(items[i], placed[i].col, placed[i].ncols)
      && (forall t: int :: |AliveWith(items, i, t)| <= placed[i].ncols)
      && exists t: int :: |AliveWith(items, i, t)| == placed[i].ncols
  }

  /** Two blocks are drawn with one width, in different columns, side by side. */
  predicate SideBySide(p: Placed, q: Placed) {
    && p.ncols == q.ncols && p.width == q.width && p.col != q.col
    && (p.left + p.width <= q.left || q.left + q.width <= p.left)
  }

  ghost predicate ApartAt(items: seq<Block>, placed: seq<Placed>, i: int, j: int) {
    0 <= i < j < |placed| && |items| == |placed| && Overlap(items[i], items[j]) ==> SideBySide(placed[i], placed[j])
  }

  /** A component, seen from any of its blocks, is the range its cluster was cut to. */
  lemma AliveWithCluster(items: seq<Block>, cuts: seq<nat>, group: seq<nat>, g: int, i: int, t: int)
    requires Ordered(items) && Clustered(items, group) && Ranges(cuts, group, |items|)
    requires InCut(cuts, g, i) && CutAt(cuts, g, |items|) && 0 <= i < |items|
    ensures AliveWith(items, i, t) == Alive(items, cuts[g], cuts[g + 1], t)
  {
    forall j | 0 <= j < |items| ensures Linked(items, i, j) <==> cuts[g] <= j < cuts[g + 1] {
      LinkedIsSameGroup(items, group, i, j);
      var h := RangeOf(cuts, j, |items|);
      assert InCut(cuts, h, j);
      assert cuts[g] <= j < cuts[g + 1] ==> InCut(cuts, g, j);
    }
  }

  lemma LinkedIsSameGroup(items: seq<Block>, group: seq<nat>, i: int, j: int)
    requires Ordered(items) && Clustered(items, group) && 0 <= i < |items| && 0 <= j < |items|
    ensures Linked(items, i, j) <==> group[i] == group[j]
  {
    if i <= j {
      ClustersAreComponents(items, group, i, j);
    } else {
      ClustersAreComponents(items, group, j, i);
      if Linked(items, i, j) {
        var p :| Walk(items, p) && p[0] == i && p[|p| - 1] == j;
        LinkedBack(items, p);
      }
      if Linked(items, j, i) {
        var p :| Walk(items, p) && p[0] == j && p[|p| - 1] == i;
        LinkedBack(items, p);
      }
    }
  }

  /** What the cluster of block i says about it. */
  lemma DrawnInCluster(items: seq<Block>, cuts: seq<nat>, placed: seq<Placed>, group: seq<nat>, i: int) returns (g: nat)
    requires Ranges(cuts, group, |items|) && |placed| == |items| && LaidOutAll(items, cuts, placed, |cuts| - 1)
    requires 0 <= i < |items|
    ensures InCut(cuts, g, i) && CutAt(cuts, g, |items|) && group[i] == g
    ensures LaidOut(items, cuts[g], cuts[g + 1], placed) && placed[i].ncols == placed[cuts[g]].ncols
    ensures placed[i].col < placed[i].ncols && placed[i] == Place(items[i], placed[i].col, placed[i].ncols)
  {
    g := RangeOf(cuts, i, |items|);
    assert InCut(cuts, g, i) && CutAt(cuts, g, |items|);
  }

  lemma ClusterIsOptimal(items: seq<Block>, cuts: seq<nat>, placed: seq<Placed>, group: seq<nat>, i: int)
    requires Ordered(items) && Clustered(items, group) && Ranges(cuts, group, |items|)
    requires |placed| == |items| && LaidOutAll(items, cuts, placed, |cuts| - 1)
    ensures OptimalAt(items, placed, i)
  {
    if 0 <= i < |items| {
      var g := DrawnInCluster(items, cuts, placed, group, i);
      var n := placed[i].ncols;
      assert Depth(items, cuts[g], cuts[g + 1], n);
      forall t: int ensures |AliveWith(items, i, t)| <= n {
        AliveWithCluster(items, cuts, group, g, i, t);
      }
      var t: int :| |Alive(items, cuts[g], cuts[g + 1], t)| == n;
      AliveWithCluster(items, cuts, group, g, i, t);
    }
  }

  lemma OverlapsAreApart(items: seq<Block>, cuts: seq<nat>, placed: seq<Placed>, group: seq<nat>, i: int, j: int)
    requires Ordered(items) && Clustered(items, group) && Ranges(cuts, group, |items|)
    requires |placed| == |items| && LaidOutAll(items, cuts, placed, |cuts| - 1)
    ensures ApartAt(items, placed, i, j)
  {
    if 0 <= i < j < |items| && Overlap(items[i], items[j]) {
      OverlapSharesCluster(items, group, i, j);
      var g := DrawnInCluster(items, cuts, placed, group, i);
      var h := DrawnInCluster(items, cuts, placed, group, j);
      var a, b, n := placed[i].col, placed[j].col, placed[i].ncols;
      if a < b {
        ColumnsAreDisjoint(items[i], items[j], a, b, n);
      } else {
        ColumnsAreDisjoint(items[j], items[i], b, a, n);
      }
    }
  }

  /** The two occurrences have later ends and share a minute. */
  ghost predicate Clash(a: Occ, b: Occ) {
    && a.startTime.Some? && a.endTime.Some? && b.startTime.Some? && b.endTime.Some?
    && a.startTime.value < a.endTime.value && b.startTime.value < b.endTime.value
    && a.startTime.value < b.endTime.value && b.startTime.value < a.endTime.value
  }

  /** `layout_day`: each timed occurrence once, drawn as given, in key order; every block in one of exactly as many
      columns as its connected component of overlapping blocks needs at its busiest minute, so no layout
      of that component can use fewer; and any two overlapping blocks side by side. */
  method LayoutDay(occs: seq<Occ>) returns (placed: seq<Placed>)
    ensures Ordered(Blocks(placed)) && multiset(Blocks(placed)) == multiset(TimedBlocks(occs))
    ensures forall i :: 0 <= i < |placed| ==> OptimalAt(Blocks(placed), placed, i)
    ensures forall i, j :: 0 <= i < j < |placed| ==> ApartAt(Blocks(placed), placed, i, j)
    ensures forall i, j :: 0 <= i < j < |placed| ==> placed[i].block.start <= placed[j].block.start
    ensures forall i, j :: 0 <= i < j < |placed| && placed[i].block.start == placed[j].block.start ==>
                             placed[i].block.end <= placed[j].block.end
    ensures forall b :: multiset(Blocks(placed))[b] == if DrawnAsGiven(b) then multiset(occs)[b.occ] else 0
    ensures forall i, j :: 0 <= i < j < |placed| && Clash(placed[i].block.occ, placed[j].block.occ) ==>
                             SideBySide(placed[i], placed[j])
  {
    ghost var items, cuts, group;
    placed, items, cuts, group := LayoutClusters(occs);
    forall i | 0 <= i < |items| ensures placed[i].block == items[i] {
      var g := DrawnInCluster(items, cuts, placed, group, i);
    }
    assert Blocks(placed) == items;
    forall i | 0 <= i < |placed| ensures OptimalAt(items, placed, i) {
      ClusterIsOptimal(items, cuts, placed, group, i);
    }
    forall i, j | 0 <= i < j < |placed| ensures ApartAt(items, placed, i, j) {
      OverlapsAreApart(items, cuts, placed, group, i, j);
    }
    BlocksAreGiven(occs, items);
    forall i, j | 0 <= i < j < |placed| && Clash(placed[i].block.occ, placed[j].block.occ)
      ensures SideBySide(placed[i], placed[j])
    {
      ClashesOverlap(items[i], items[j]);
      assert ApartAt(items, placed, i, j);
    }
  }

  /** What the sorted blocks are, in terms of the occurrences. */
  lemma BlocksAreGiven(occs: seq<Occ>, items: seq<Block>)
    requires Ordered(items) && multiset(items) == multiset(TimedBlocks(occs))
    ensures forall b :: multiset(items)[b] == if DrawnAsGiven(b) then multiset(occs)[b.occ] else 0
    ensures forall i :: 0 <= i < |items| ==> DrawnAsGiven(items[i])
    ensures forall i, j :: 0 <= i < j < |items| ==> items[i].start <= items[j].start
    ensures forall i, j :: 0 <= i < j < |items| && items[i].start == items[j].start ==> items[i].end <= items[j].end
  {
    forall b ensures multiset(items)[b] == if DrawnAsGiven(b) then multiset(occs)[b.occ] else 0 {
      TimedBlocksAre(occs, b);
    }
    forall i | 0 <= i < |items| ensures DrawnAsGiven(items[i]) {
      assert items[i] in multiset(items);
    }
    assert forall i, j :: 0 <= i < j < |items| ==> KeyLeq(items[i], items[j]);
  }

  lemma ClashesOverlap(a: Block, b: Block)
    requires DrawnAsGiven(a) && DrawnAsGiven(b) && Clash(a.occ, b.occ)
    ensures Overlap(a, b)
  {
  }

  /** No assignment of columns that keeps overlapping blocks of a component apart has fewer columns than
      the layout uses: the number drawn is the optimum. */
  lemma NoLayoutIsNarrower(items: seq<Block>, placed: seq<Placed>, i: int, cols: seq<nat>, n: nat)
    requires |items| == |placed| == |cols| && 0 <= i < |items| && OptimalAt(items, placed, i)
    requires forall j, k :: 0 <= j < k < |items| && Overlap(items[j], items[k]) ==> cols[j] != cols[k]
    requires forall j :: 0 <= j < |items| && Linked(items, i, j) ==> cols[j] < n
    ensures placed[i].ncols <= n
  {
    var t: int :| |AliveWith(items, i, t)| == placed[i].ncols;
    var s := AliveWith(items, i, t);
    forall j, k | j in s && k in s && j != k ensures cols[j - 0] != cols[k - 0] {
      assert Overlap(items[j], items[k]) && Overlap(items[k], items[j]);
    }
    PigeonHole(s, 0, cols, n);
  }
}
