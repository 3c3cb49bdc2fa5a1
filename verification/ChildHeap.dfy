/** The tournament tree a coupling keeps over the next-event times of its children.

    Level 0 holds one cell per child; every level but the last is padded to an even length with a cell
    whose time is 1e100; each cell above holds the winner of its two children.  Updates walk from a
    leaf to the root and stop early when the parent already names the sibling that wins. */
module ChildHeaps {
  import opened Collections

  type Positive = n: int | n > 0 witness 1

  // The ticks of one second: any number of them.
  const SECOND: Positive

  const E50: int := 100_000_000_000_000_000_000_000_000_000_000_000_000_000_000_000_000

  const PADDING_TIME: int := E50 * E50 * SECOND  // 1e100

  datatype ModelTime = ModelTime(model: nat, tn: int)

  const SCAN_START: int := 10 * E50 * SECOND  // 10e50

  const PADDING := ModelTime(0, PADDING_TIME)

  // ---------- Shape ----------

  /** ceil(log2(n)), for n > 0. */
  function CeilLog2(n: nat): nat { if n <= 1 then 0 else 1 + CeilLog2((n + 1) / 2) }

  function Pow2(k: nat): nat { if k == 0 then 1 else 2 * Pow2(k - 1) }

  lemma {:induction false} CeilLog2Is(n: nat)
    requires n > 0
    ensures n <= Pow2(CeilLog2(n)) < 2 * n
  {
    if n > 1 { CeilLog2Is((n + 1) / 2); }
  }

  /** Cells of level i that stand for children. */
  function Count(n: nat, i: nat): nat { if i == 0 then n else (Count(n, i - 1) + 1) / 2 }

  function Even(n: nat): nat { n + n % 2 }

  function LevelSize(n: nat, i: nat): nat { if i == CeilLog2(n) then Count(n, i) else Even(Count(n, i)) }

  /** First child below cell j of level i; the cell stands for the children from there to Low(i, j + 1). */
  function Low(i: nat, j: nat): nat { if i == 0 then j else Low(i - 1, 2 * j) }

  lemma {:induction false} CountShift(n: nat, i: nat)
    ensures Count(n, i + 1) == Count((n + 1) / 2, i)
  {
    if i > 0 { CountShift(n, i - 1); }
  }

  lemma {:induction false} CountBelowTop(n: nat, i: nat)
    requires n > 0 && i <= CeilLog2(n)
    ensures if i == CeilLog2(n) then Count(n, i) == 1 else Count(n, i) >= 2
  {
    if i > 0 { CountShift(n, i - 1); CountBelowTop((n + 1) / 2, i - 1); }
  }

  lemma {:induction false} LowGrows(i: nat, j: nat, k: nat)
    requires j <= k
    ensures Low(i, j) <= Low(i, k) && (j < k ==> Low(i, j) < Low(i, k))
    decreases i
  {
    if i > 0 { LowGrows(i - 1, 2 * j, 2 * k); }
  }

  lemma {:induction false} LowInside(n: nat, i: nat, j: nat)
    ensures j < Count(n, i) <==> Low(i, j) < n
    decreases i
  {
    if i > 0 { LowInside(n, i - 1, 2 * j); }
  }

  // ---------- What a cell stands for ----------

  function Min(a: int, b: int): int { if a <= b then a else b }

  ghost predicate LowestMin(leaf: seq<int>, lo: nat, hi: int, k: nat)
  {
    && lo <= k < hi <= |leaf|
    && (forall c :: lo <= c < hi ==> leaf[k] <= leaf[c])
    && (forall c :: lo <= c < k ==> leaf[k] < leaf[c])
  }

  ghost predicate AllPastPadding(leaf: seq<int>, lo: nat, hi: int)
  {
    forall c :: lo <= c < hi && c < |leaf| ==> leaf[c] >= PADDING_TIME
  }

  // Either the first earliest child of the range, or, where the range runs past the last child, the
  // padding cell when no child there is earlier than it.
  ghost predicate Covers(cell: ModelTime, leaf: seq<int>, lo: nat, hi: nat)
  {
    || (LowestMin(leaf, lo, Min(hi, |leaf|), cell.model) && cell.tn == leaf[cell.model] &&
      (hi > |leaf| ==> cell.tn <= PADDING_TIME))
    || (hi > |leaf| && cell == PADDING && AllPastPadding(leaf, lo, hi))
  }

  ghost predicate Won(w: ModelTime, l: ModelTime, r: ModelTime)
  {
    if l.tn < r.tn then w == l else if l.tn > r.tn then w == r else w == l || (r == PADDING && w == r)
  }

  lemma WinnerCovers(w: ModelTime, l: ModelTime, r: ModelTime, leaf: seq<int>, lo: nat, mid: nat, hi: nat)
    requires lo < mid < hi && Covers(l, leaf, lo, mid) && Covers(r, leaf, mid, hi) && Won(w, l, r)
    ensures Covers(w, leaf, lo, hi)
  {
  }

  // ---------- The tree ----------

  ghost predicate Shaped(heap: seq<seq<ModelTime>>, n: nat)
  {
    && (if n == 0 then heap == [] else |heap| == CeilLog2(n) + 1)
    && forall i :: 0 <= i < |heap| ==> |heap[i]| == LevelSize(n, i)
  }

  ghost predicate Leaves(level: seq<ModelTime>, leaf: seq<int>)
  {
    |leaf| <= |level| && forall c :: 0 <= c < |leaf| ==> level[c] == ModelTime(c, leaf[c])
  }

  ghost predicate Padded(level: seq<ModelTime>, count: nat)
  {
    forall j :: count <= j < |level| ==> level[j] == PADDING
  }

  ghost predicate Played(level: seq<ModelTime>, above: seq<ModelTime>)
  {
    |above| >= |level| / 2 && forall j :: 0 <= j < |level| / 2 ==> Won(above[j], level[2 * j], level[2 * j + 1])
  }

  // The last match: an early exit may leave the old time in the top cell, never the wrong child.
  ghost predicate Finale(level: seq<ModelTime>, top: seq<ModelTime>)
  {
    |level| >= 2 && |top| >= 1 && exists w: ModelTime :: Won(w, level[0], level[1]) && top[0].model == w.model
  }

  ghost predicate Tournament(heap: seq<seq<ModelTime>>, leaf: seq<int>)
  {
    && Shaped(heap, |leaf|)
    && (heap != [] ==> Leaves(heap[0], leaf))
    && (forall i :: 0 <= i < |heap| - 1 ==> Padded(heap[i], Count(|leaf|, i)))
    && (forall i :: 0 <= i < |heap| - 2 ==> Played(heap[i], heap[i + 1]))
    && (|heap| >= 2 ==> Finale(heap[|heap| - 2], heap[|heap| - 1]))
  }

  lemma LeafCovers(leaf: seq<int>, c: nat)
    requires c < |leaf|
    ensures Covers(ModelTime(c, leaf[c]), leaf, c, c + 1)
  {
  }

  lemma PaddingCovers(leaf: seq<int>, lo: nat, hi: nat)
    requires |leaf| <= lo < hi
    ensures Covers(PADDING, leaf, lo, hi)
  {
  }

  lemma CellCovers(heap: seq<seq<ModelTime>>, leaf: seq<int>, i: nat, j: nat)
    requires Tournament(heap, leaf) && i < |heap| && j < |heap[i]| && (i == 0 || i < |heap| - 1)
    ensures Covers(heap[i][j], leaf, Low(i, j), Low(i, j + 1))
  {
    hide Won, Covers, Finale, LevelSize, Leaves, Padded, Played;
    if i == |heap| - 1 { CellCoversAlone(heap, leaf, j); } else { CellCoversBelow(heap, leaf, i, j); }
  }

  lemma CellCoversAlone(heap: seq<seq<ModelTime>>, leaf: seq<int>, j: nat)
    requires Shaped(heap, |leaf|) && |heap| == 1 && Leaves(heap[0], leaf) && j < |heap[0]|
    ensures Covers(heap[0][j], leaf, Low(0, j), Low(0, j + 1))
  {
    LeafCovers(leaf, j);
  }

  // The tree while it is being built: the first `played` levels have been played.
  ghost predicate Foundation(heap: seq<seq<ModelTime>>, leaf: seq<int>, played: nat)
  {
    && leaf != [] && Shaped(heap, |leaf|)
    && Leaves(heap[0], leaf)
    && (forall k :: 0 <= k < |heap| - 1 ==> Padded(heap[k], Count(|leaf|, k)))
    && (forall k :: 0 <= k < played && k < |heap| - 1 ==> Played(heap[k], heap[k + 1]))
  }

  lemma InnerCovers(level: seq<ModelTime>, above: seq<ModelTime>, leaf: seq<int>, i: nat, j: nat)
    requires Played(level, above) && 2 * j + 1 < |level| && j < |above|
    requires Covers(level[2 * j], leaf, Low(i, 2 * j), Low(i, 2 * j + 1))
    requires Covers(level[2 * j + 1], leaf, Low(i, 2 * j + 1), Low(i, 2 * j + 2))
    ensures Covers(above[j], leaf, Low(i + 1, j), Low(i + 1, j + 1))
  {
    hide Covers;
    LowGrows(i, 2 * j, 2 * j + 1);
    LowGrows(i, 2 * j + 1, 2 * j + 2);
    WinnerCovers(above[j], level[2 * j], level[2 * j + 1], leaf, Low(i, 2 * j), Low(i, 2 * j + 1), Low(i, 2 * j + 2));
  }

  lemma {:induction false} CellCoversBelow(heap: seq<seq<ModelTime>>, leaf: seq<int>, i: nat, j: nat)
    requires Foundation(heap, leaf, i) && i + 1 < |heap| && j < |heap[i]|
    ensures Covers(heap[i][j], leaf, Low(i, j), Low(i, j + 1))
    decreases i
  {
    hide Won, Covers, CeilLog2, Low, Played;
    LowInside(|leaf|, i, j);
    LowGrows(i, j, j + 1);
    if j >= Count(|leaf|, i) {
      PaddingCovers(leaf, Low(i, j), Low(i, j + 1));
    } else if i == 0 {
      LowZero(j);
      LowZero(j + 1);
      LeafCovers(leaf, j);
    } else {
      CellCoversBelow(heap, leaf, i - 1, 2 * j);
      CellCoversBelow(heap, leaf, i - 1, 2 * j + 1);
      InnerCovers(heap[i - 1], heap[i], leaf, i - 1, j);
    }
  }

  lemma LowZero(j: nat)
    ensures Low(0, j) == j
  {
  }

  // ---------- What next() returns ----------

  /** The first child with the smallest time. */
  function Earliest(leaf: seq<int>): (k: nat)
    requires leaf != []
    ensures LowestMin(leaf, 0, |leaf|, k)
  {
    if |leaf| == 1 then 0
    else
      var k := Earliest(leaf[..|leaf| - 1]);
      if leaf[|leaf| - 1] < leaf[k] then |leaf| - 1 else k
  }

  lemma EarliestUnique(leaf: seq<int>, k: nat)
    requires LowestMin(leaf, 0, |leaf|, k)
    ensures k == Earliest(leaf)
  {
  }

  lemma {:induction false} LowIs(i: nat, j: nat)
    ensures Low(i, j) == j * Pow2(i)
    decreases i
  {
    if i > 0 { LowIs(i - 1, 2 * j); }
  }

  // A full tree has no padding cell at any level.
  predicate FullTree(n: nat) { n == Pow2(CeilLog2(n)) }

  function NextOf(heap: seq<seq<ModelTime>>): int
  {
    if heap == [] || heap[|heap| - 1] == [] then -1 else heap[|heap| - 1][0].model
  }

  lemma TopCovers(heap: seq<seq<ModelTime>>, leaf: seq<int>) returns (w: ModelTime)
    requires Tournament(heap, leaf) && leaf != []
    ensures NextOf(heap) == w.model && Covers(w, leaf, 0, Pow2(CeilLog2(|leaf|)))
  {
    var n, top := |leaf|, |heap| - 1;
    CountBelowTop(n, top);
    LowIs(top, 0);
    LowIs(top, 1);
    if top == 0 {
      CellCovers(heap, leaf, 0, 0);
      w := heap[0][0];
    } else {
      CountBelowTop(n, top - 1);
      w :| Won(w, heap[top - 1][0], heap[top - 1][1]) && heap[top][0].model == w.model;
      CellCovers(heap, leaf, top - 1, 0);
      CellCovers(heap, leaf, top - 1, 1);
      LowGrows(top - 1, 0, 1);
      LowGrows(top - 1, 1, 2);
      WinnerCovers(w, heap[top - 1][0], heap[top - 1][1], leaf, Low(top - 1, 0), Low(top - 1, 1), Low(top - 1, 2));
    }
  }

  /** The tree names the first earliest child exactly when some child is due before the padding time,
      or there is no padding, or that child is the first one; the one time left open is an earliest
      time equal to the padding time, where the answer is that child or child 0. */
  lemma NextIsEarliest(heap: seq<seq<ModelTime>>, leaf: seq<int>)
    requires Tournament(heap, leaf) && leaf != []
    ensures var k := Earliest(leaf);
      && (leaf[k] != PADDING_TIME ==>
           (NextOf(heap) == k <==> leaf[k] < PADDING_TIME || FullTree(|leaf|) || k == 0))
      && (NextOf(heap) == k || NextOf(heap) == 0)
  {
    CeilLog2Is(|leaf|);
    var w := TopCovers(heap, leaf);
    if LowestMin(leaf, 0, Min(Pow2(CeilLog2(|leaf|)), |leaf|), w.model) { EarliestUnique(leaf, w.model); }
  }

  /** Three children past the padding time: the padding wins the last match and the tree names child 0,
      although child 1 is the earliest. */
  lemma PastPadding()
    ensures var p := PADDING_TIME;
      var leaf := [p + 2, p + 1, p + 3];
      var heap := [[ModelTime(0, p + 2), ModelTime(1, p + 1), ModelTime(2, p + 3), PADDING],
        [ModelTime(1, p + 1), PADDING], [PADDING]];
      Tournament(heap, leaf) && NextOf(heap) == 0 && Earliest(leaf) == 1
  {
    var p := PADDING_TIME;
    ThreeChildren(p + 2, p + 1, p + 3, ModelTime(1, p + 1), PADDING, PADDING);
    MiddleIsEarliest([p + 2, p + 1, p + 3]);
  }

  /** An earliest time equal to the padding time leaves the choice open: two complete trees for the same
      three times. In the first the padding won the tie of the last pair, as when the tree is built, and
      it names child 0; in the second child 2 won it, as when child 2 was updated last. */
  lemma TieWithPadding()
    ensures var p := PADDING_TIME;
      var leaf := [p + 1, p + 2, p];
      var level := [ModelTime(0, p + 1), ModelTime(1, p + 2), ModelTime(2, p), PADDING];
      var built := [level, [ModelTime(0, p + 1), PADDING], [PADDING]];
      var updated := [level, [ModelTime(0, p + 1), ModelTime(2, p)], [ModelTime(2, p)]];
      && Tournament(built, leaf) && NextOf(built) == 0
      && Tournament(updated, leaf) && NextOf(updated) == 2
  {
    var p := PADDING_TIME;
    ThreeChildren(p + 1, p + 2, p, ModelTime(0, p + 1), PADDING, PADDING);
    ThreeChildren(p + 1, p + 2, p, ModelTime(0, p + 1), ModelTime(2, p), ModelTime(2, p));
  }

  lemma ThreeChildren(a: int, b: int, c: int, left: ModelTime, right: ModelTime, top: ModelTime)
    requires Won(left, ModelTime(0, a), ModelTime(1, b)) && Won(right, ModelTime(2, c), PADDING)
    requires Won(top, left, right)
    ensures Tournament([[ModelTime(0, a), ModelTime(1, b), ModelTime(2, c), PADDING], [left, right], [top]], [a, b, c])
  {
    hide CeilLog2, Count, Won, Tournament;
    var heap := [[ModelTime(0, a), ModelTime(1, b), ModelTime(2, c), PADDING], [left, right], [top]];
    ThreeLevels(heap, [a, b, c]);
  }

  lemma ThreeLevels(heap: seq<seq<ModelTime>>, leaf: seq<int>)
    requires |leaf| == 3 && |heap| == 3 && |heap[0]| == 4 && |heap[1]| == 2 && |heap[2]| == 1
    requires Leaves(heap[0], leaf) && heap[0][3] == PADDING && Played(heap[0], heap[1])
    requires Won(heap[2][0], heap[1][0], heap[1][1])
    ensures Tournament(heap, leaf)
  {
    hide Leaves, Played, Won, CeilLog2, Count, LevelSize;
    SizesOfThree();
  }

  lemma SizesOfThree()
    ensures CeilLog2(3) == 2 && LevelSize(3, 0) == 4 && LevelSize(3, 1) == 2 && LevelSize(3, 2) == 1
    ensures Count(3, 0) == 3 && Count(3, 1) == 2
  {
    assert Count(3, 2) == 1;
  }

  lemma MiddleIsEarliest(leaf: seq<int>)
    requires |leaf| == 3 && leaf[1] < leaf[0] && leaf[1] <= leaf[2]
    ensures Earliest(leaf) == 1
  {
    hide Earliest;
    EarliestUnique(leaf, 1);
  }

  /** The scan that the tree replaces: it starts from 10e50 and keeps the first smaller time. */
  function Scan(leaf: seq<int>): Option<nat>
  {
    if leaf == [] then None
    else
      var i, best := |leaf| - 1, Scan(leaf[..|leaf| - 1]);
      var bound := if best.Some? && best.value < i then leaf[best.value] else SCAN_START;
      if leaf[i] < bound then Some(i) else best
  }

  lemma {:induction false} ScanFinds(leaf: seq<int>)
    requires leaf != []
    ensures Scan(leaf) == if leaf[Earliest(leaf)] < SCAN_START then Some(Earliest(leaf)) else None
  {
    if |leaf| > 1 { ScanFinds(leaf[..|leaf| - 1]); }
  }

  /** The tree and the scan agree whenever the scan finds anything. */
  lemma TreeAgreesWithScan(heap: seq<seq<ModelTime>>, leaf: seq<int>)
    requires Tournament(heap, leaf) && Scan(leaf).Some?
    ensures NextOf(heap) == Scan(leaf).value
  {
    ScanFinds(leaf);
    NextIsEarliest(heap, leaf);
  }

  // ---------- An early exit loses nothing ----------

  /** Below the last match, two sibling cells that name the same child are both padding. */
  lemma SiblingsDiffer(heap: seq<seq<ModelTime>>, leaf: seq<int>, i: nat, q: nat)
    requires Tournament(heap, leaf) && i + 2 < |heap| && 2 * q + 1 < |heap[i]|
    requires heap[i][2 * q].model == heap[i][2 * q + 1].model
    ensures heap[i][2 * q] == heap[i][2 * q + 1]
  {
    CellCovers(heap, leaf, i, 2 * q);
    CellCovers(heap, leaf, i, 2 * q + 1);
    LowGrows(i, 2 * q, 2 * q + 1);
    LowGrows(i, 2 * q + 1, 2 * q + 2);
    LowGrows(i, 0, 2 * q);
    CountBelowTop(|leaf|, i + 1);
    LowInside(|leaf|, i + 1, 1);
  }

  ghost predicate Match(heap: seq<seq<ModelTime>>, i: nat, j: nat)
    requires i + 1 < |heap| && j < |heap[i]| / 2
  {
    j < |heap[i + 1]| && Won(heap[i + 1][j], heap[i][2 * j], heap[i][2 * j + 1])
  }

  // A tournament in which only the match that fills cell q of the level above may be out of date.
  ghost predicate PlayedExcept(heap: seq<seq<ModelTime>>, level: int, q: int)
  {
    forall i, j :: 0 <= i < |heap| - 2 && 0 <= j < |heap[i]| / 2 && (i != level || j != q) ==> Match(heap, i, j)
  }

  ghost predicate Partial(heap: seq<seq<ModelTime>>, leaf: seq<int>, level: int, q: int)
  {
    && Shaped(heap, |leaf|) && leaf != []
    && Leaves(heap[0], leaf)
    && (forall i :: 0 <= i < |heap| - 1 ==> Padded(heap[i], Count(|leaf|, i)))
    && PlayedExcept(heap, level, q)
    && (|heap| >= 2 && level != |heap| - 2 ==> Finale(heap[|heap| - 2], heap[|heap| - 1]))
  }

  lemma Settled(heap: seq<seq<ModelTime>>, leaf: seq<int>, level: int, q: int)
    requires Partial(heap, leaf, level, q) && level >= |heap| - 1
    ensures Tournament(heap, leaf)
  {
    forall i | 0 <= i < |heap| - 2 ensures Played(heap[i], heap[i + 1]) {
      CountBelowTop(|leaf|, i);
      forall j | 0 <= j < |heap[i]| / 2 ensures Won(heap[i + 1][j], heap[i][2 * j], heap[i][2 * j + 1]) {
        assert Match(heap, i, j);
      }
    }
  }

  lemma LeafChanged(heap: seq<seq<ModelTime>>, leaf: seq<int>, child: nat, tn: int)
    requires Tournament(heap, leaf) && child < |leaf|
    ensures Partial(heap[0 := heap[0][child := ModelTime(child, tn)]], leaf[child := tn], 0, child / 2)
  {
    var h := heap[0 := heap[0][child := ModelTime(child, tn)]];
    forall i, j | 0 <= i < |h| - 2 && 0 <= j < |h[i]| / 2 && (i != 0 || j != child / 2)
      ensures Match(h, i, j)
    {
      assert Played(heap[i], heap[i + 1]);
    }
  }

  // The two children of a cell on the way up from a real child are there.
  lemma PairInside(n: nat, level: nat, p: nat)
    requires n > 0 && level < CeilLog2(n) && p < Count(n, level)
    ensures 2 * (p / 2) + 1 < LevelSize(n, level) && p / 2 < Count(n, level + 1) <= LevelSize(n, level + 1)
    ensures LevelSize(n, level) / 2 == Count(n, level + 1)
  {
    CountBelowTop(n, level);
  }

  lemma MatchesReplayed(heap: seq<seq<ModelTime>>, level: nat, q: nat, w: ModelTime)
    requires PlayedExcept(heap, level, q) && level + 1 < |heap|
    requires 2 * q + 1 < |heap[level]| && q < |heap[level + 1]| && Won(w, heap[level][2 * q], heap[level][2 * q + 1])
    ensures PlayedExcept(heap[level + 1 := heap[level + 1][q := w]], level + 1, q / 2)
  {
    hide Won;
    var h := heap[level + 1 := heap[level + 1][q := w]];
    forall i, j | 0 <= i < |h| - 2 && 0 <= j < |h[i]| / 2 && (i != level + 1 || j != q / 2)
      ensures Match(h, i, j)
    {
      if i != level || j != q { assert Match(heap, i, j); }
    }
  }

  lemma FinaleReplayed(heap: seq<seq<ModelTime>>, w: ModelTime)
    requires |heap| >= 2 && |heap[|heap| - 2]| >= 2 && |heap[|heap| - 1]| >= 1
    requires Won(w, heap[|heap| - 2][0], heap[|heap| - 2][1]) && heap[|heap| - 1][0] == w
    ensures Finale(heap[|heap| - 2], heap[|heap| - 1])
  {
  }

  lemma Replayed(heap: seq<seq<ModelTime>>, leaf: seq<int>, level: nat, p: nat, w: ModelTime)
    requires Partial(heap, leaf, level, p / 2) && level + 1 < |heap| && p < Count(|leaf|, level)
    requires 2 * (p / 2) + 1 < |heap[level]| && p / 2 < |heap[level + 1]|
    requires Won(w, heap[level][2 * (p / 2)], heap[level][2 * (p / 2) + 1])
    ensures Partial(heap[level + 1 := heap[level + 1][p / 2 := w]], leaf, level + 1, p / 2 / 2)
  {
    hide PlayedExcept, Finale, Won;
    PairInside(|leaf|, level, p);
    CountBelowTop(|leaf|, level + 1);
    MatchesReplayed(heap, level, p / 2, w);
    if level + 2 == |heap| { FinaleReplayed(heap[level + 1 := heap[level + 1][p / 2 := w]], w); }
  }

  lemma PlayMatch(heap: seq<seq<ModelTime>>, leaf: seq<int>, level: nat, p: nat, w: ModelTime)
    requires Partial(heap, leaf, level, p / 2) && level + 1 < |heap| && p < Count(|leaf|, level)
    requires 2 * (p / 2) + 1 < |heap[level]| && p / 2 < |heap[level + 1]|
    requires var l, r := heap[level][2 * (p / 2)], heap[level][2 * (p / 2) + 1];
      w == if r.tn < l.tn then r else l
    ensures Partial(heap[level + 1 := heap[level + 1][p / 2 := w]], leaf, level + 1, p / 2 / 2)
  {
    Replayed(heap, leaf, level, p, w);
  }

  function Sibling(p: nat): nat { if p % 2 == 0 then p + 1 else p - 1 }

  /** Below the top, a parent that names the sibling's child holds the sibling's cell. */
  lemma ParentHolds(heap: seq<seq<ModelTime>>, leaf: seq<int>, level: nat, p: nat)
    requires Tournament(heap, leaf) && level + 2 < |heap| && 2 * (p / 2) + 1 < |heap[level]| &&
      p / 2 < |heap[level + 1]|
    requires heap[level][Sibling(p)].model == heap[level + 1][p / 2].model
    ensures heap[level][Sibling(p)] == heap[level + 1][p / 2]
  {
    var q := p / 2;
    assert Played(heap[level], heap[level + 1]) && q < |heap[level]| / 2;
    assert Won(heap[level + 1][q], heap[level][2 * q], heap[level][2 * q + 1]);
    if heap[level][2 * q].model == heap[level][2 * q + 1].model { SiblingsDiffer(heap, leaf, level, q); }
  }

  /** When the parent already names the sibling that wins, nothing above it changes. */
  lemma EarlyExit(before: seq<seq<ModelTime>>, leaf0: seq<int>, heap: seq<seq<ModelTime>>, leaf: seq<int>, level: nat,
      p: nat)
    requires leaf != [] && Tournament(before, leaf0) && |leaf0| == |leaf| && Partial(heap, leaf, level, p / 2)
    requires level + 1 < |heap| && p < Count(|leaf|, level)
    requires 2 * (p / 2) + 1 < |heap[level]| && p / 2 < |heap[level + 1]|
    requires heap[level + 1] == before[level + 1] && heap[level][Sibling(p)] == before[level][Sibling(p)]
    requires heap[level][p].tn > heap[level][Sibling(p)].tn
    requires heap[level][Sibling(p)].model == heap[level + 1][p / 2].model
    ensures Tournament(heap, leaf)
  {
    hide Tournament, Partial, PlayedExcept, Finale;
    var q, w := p / 2, heap[level][Sibling(p)];
    assert Won(w, heap[level][2 * q], heap[level][2 * q + 1]);
    ShapeOf(before, leaf0, level, q);
    ShapeOf(heap, leaf, level, q);
    if level + 2 < |heap| {
      ParentHolds(before, leaf0, level, p);
      CompleteBelow(heap, leaf, level, q);
    } else {
      PairInside(|leaf|, level, p);
      CountBelowTop(|leaf|, level + 1);
      CompleteTop(heap, leaf, level, w);
    }
  }

  lemma CompleteBelow(heap: seq<seq<ModelTime>>, leaf: seq<int>, level: nat, q: nat)
    requires Partial(heap, leaf, level, q) && level + 2 < |heap|
    requires 2 * q + 1 < |heap[level]| && q < |heap[level + 1]|
    requires Won(heap[level + 1][q], heap[level][2 * q], heap[level][2 * q + 1])
    ensures Tournament(heap, leaf)
  {
    hide Won, Finale, Leaves, Padded, Tournament;
    assert Match(heap, level, q);
    Settled(heap, leaf, |heap|, 0);
  }

  lemma CompleteTop(heap: seq<seq<ModelTime>>, leaf: seq<int>, level: nat, w: ModelTime)
    requires Partial(heap, leaf, level, 0) && level + 2 == |heap|
    requires |heap[level]| >= 2 && |heap[level + 1]| >= 1
    requires Won(w, heap[level][0], heap[level][1]) && heap[level + 1][0].model == w.model
    ensures Tournament(heap, leaf)
  {
    hide Leaves, Padded, Tournament, Match, Shaped, LevelSize, Count, CeilLog2;
    Settled(heap, leaf, |heap|, 0);
  }

  lemma ShapeOf(heap: seq<seq<ModelTime>>, leaf: seq<int>, level: nat, q: nat)
    requires leaf != [] && (Tournament(heap, leaf) || Partial(heap, leaf, level, q))
    ensures |heap| == CeilLog2(|leaf|) + 1 && |heap[0]| >= |leaf| == Count(|leaf|, 0)
    ensures forall i :: 0 <= i < |heap| ==> |heap[i]| == LevelSize(|leaf|, i)
  {
    hide PlayedExcept, Finale, Won, Played, Padded;
  }

  // ---------- Building the tree ----------

  // A pair whose left cell is preferred on a tie by its model number, or whose right cell is padding.
  ghost predicate OrderedPair(level: seq<ModelTime>, j: nat)
    requires 2 * j + 1 < |level|
  {
    level[2 * j].model < level[2 * j + 1].model || level[2 * j + 1] == PADDING
  }

  ghost predicate Ordered(level: seq<ModelTime>)
  {
    forall j :: 0 <= j < |level| / 2 ==> OrderedPair(level, j)
  }

  lemma LevelSizeIs(n: nat, i: nat)
    ensures n > 0 && i <= CeilLog2(n) ==>
      LevelSize(n, i) == if i == CeilLog2(n) then Count(n, i) else Count(n, i) + Count(n, i) % 2
    ensures CeilLog2(0) == 0
  {
  }

  lemma LastIsPadding(level: seq<ModelTime>, count: nat)
    requires |level| <= count + 1 && |level| > 0 && level[|level| - 1] == PADDING
    ensures Padded(level, count)
  {
  }

  lemma SizesOf(heap: seq<seq<ModelTime>>, n: nat)
    requires Shaped(heap, n) && n > 0
    ensures |heap| == CeilLog2(n) + 1 && |heap[0]| >= n
    ensures forall i :: 0 <= i < |heap| ==>
      |heap[i]| == if i == |heap| - 1 then Count(n, i) else Count(n, i) + Count(n, i) % 2
  {
  }

  lemma FoundationSizes(heap: seq<seq<ModelTime>>, leaf: seq<int>, i: nat)
    requires Foundation(heap, leaf, i)
    ensures |heap| == CeilLog2(|leaf|) + 1
    ensures i + 1 < |heap| ==>
      |heap[i]| % 2 == 0 && |heap[i]| / 2 == Count(|leaf|, i + 1) && |heap[i + 1]| >= Count(|leaf|, i + 1)
  {
    SizesOf(heap, |leaf|);
  }

  lemma EmptyTournament(heap: seq<seq<ModelTime>>)
    requires Shaped(heap, 0)
    ensures Tournament(heap, [])
  {
  }

  lemma CellSet(was: seq<seq<ModelTime>>, n: nat, i: nat, c: nat, heap: seq<seq<ModelTime>>)
    requires Shaped(was, n) && i < |was| && c < |was[i]| && c < Count(n, i)
    requires forall k :: 0 <= k < |was| - 1 ==> Padded(was[k], Count(n, k))
    requires |heap| == |was| && |heap[i]| == |was[i]| && forall k :: 0 <= k < |was| && k != i ==> heap[k] == was[k]
    requires forall k :: 0 <= k < |was[i]| && k != c ==> heap[i][k] == was[i][k]
    ensures Shaped(heap, n) && forall k :: 0 <= k < |heap| - 1 ==> Padded(heap[k], Count(n, k))
  {
    hide CeilLog2, LevelSize;
  }

  lemma LevelSet(was: seq<seq<ModelTime>>, n: nat, i: nat, heap: seq<seq<ModelTime>>)
    requires Shaped(was, n) && i < |was|
    requires forall k :: 0 <= k < |was| - 1 ==> Padded(was[k], Count(n, k))
    requires |heap| == |was| && |heap[i]| == |was[i]| && forall k :: 0 <= k < |was| && k != i ==> heap[k] == was[k]
    requires |was[i]| >= Count(n, i) && heap[i][Count(n, i)..] == was[i][Count(n, i)..]
    ensures Shaped(heap, n) && forall k :: 0 <= k < |heap| - 1 ==> Padded(heap[k], Count(n, k))
  {
    hide CeilLog2, LevelSize;
    forall k | Count(n, i) <= k < |was[i]| ensures heap[i][k] == was[i][k] {
      assert heap[i][Count(n, i)..][k - Count(n, i)] == heap[i][k];
    }
  }

  // While level i is being played, the levels below are final: a tie goes to the lower model.
  lemma LevelOrdered(heap: seq<seq<ModelTime>>, leaf: seq<int>, i: nat)
    requires Foundation(heap, leaf, i) && i + 1 < |heap|
    ensures Ordered(heap[i])
  {
    hide Covers, CeilLog2, Won, Played, Leaves, Padded, Low, OrderedPair;
    SizesOf(heap, |leaf|);
    forall j | 0 <= j < |heap[i]| / 2 ensures OrderedPair(heap[i], j) {
      CellCoversBelow(heap, leaf, i, 2 * j);
      CellCoversBelow(heap, leaf, i, 2 * j + 1);
      LowGrows(i, 2 * j, 2 * j + 1);
      LowGrows(i, 2 * j + 1, 2 * j + 2);
      LowInside(|leaf|, i, 2 * j);
      CoveredInOrder(heap[i], j, leaf, Low(i, 2 * j), Low(i, 2 * j + 1), Low(i, 2 * j + 2));
    }
  }

  lemma CoveredInOrder(level: seq<ModelTime>, j: nat, leaf: seq<int>, lo: nat, mid: nat, hi: nat)
    requires 2 * j + 1 < |level| && lo < mid < hi && lo < |leaf|
    requires Covers(level[2 * j], leaf, lo, mid) && Covers(level[2 * j + 1], leaf, mid, hi)
    ensures OrderedPair(level, j)
  {
  }

  lemma LevelPlayed(was: seq<seq<ModelTime>>, leaf: seq<int>, i: nat, heap: seq<seq<ModelTime>>)
    requires Foundation(was, leaf, i) && i + 1 < |was|
    requires |heap| == |was| && |heap[i + 1]| == |was[i + 1]| && forall k :: 0 <= k < |was| && k != i + 1 ==>
      heap[k] == was[k]
    requires |was[i + 1]| >= Count(|leaf|, i + 1) &&
      heap[i + 1][Count(|leaf|, i + 1)..] == was[i + 1][Count(|leaf|, i + 1)..]
    requires Played(heap[i], heap[i + 1])
    ensures Foundation(heap, leaf, i + 1)
  {
    hide CeilLog2, LevelSize, Played, Won, Leaves;
    LevelSet(was, |leaf|, i + 1, heap);
  }

  lemma Crowned(heap: seq<seq<ModelTime>>, leaf: seq<int>, played: nat)
    requires Foundation(heap, leaf, played) && played >= |heap| - 1
    ensures Tournament(heap, leaf)
  {
    hide CeilLog2, Leaves, Padded;
    if |heap| >= 2 {
      SizesOf(heap, |leaf|);
      CountBelowTop(|leaf|, |heap| - 2);
      CountBelowTop(|leaf|, |heap| - 1);
      assert Played(heap[|heap| - 2], heap[|heap| - 1]);
      assert Won(heap[|heap| - 1][0], heap[|heap| - 2][0], heap[|heap| - 2][1]);
    }
  }

  class ChildHeap {
    var heap: seq<seq<ModelTime>>
    ghost var leaf: seq<int>  // the times of the children, as last reported

    ghost predicate Valid()
      reads this
    {
      Tournament(heap, leaf)
    }

    constructor ()
      ensures heap == [] && leaf == [] && Valid()
    {
      heap, leaf := [], [];
    }

    // The levels, empty but for their last cells, which get the padding time.
    method MakeLevels(size: nat)
      modifies `heap
      ensures Shaped(heap, size)
      ensures forall i :: 0 <= i < |heap| - 1 ==> Padded(heap[i], Count(size, i))
    {
      hide LevelSize, CeilLog2, Padded;
      var logSize := if size == 0 then 0 else CeilLog2(size) + 1;
      var s := size;
      heap := [];
      for i := 0 to logSize
        invariant |heap| == i && (i < logSize ==> s == Count(size, i))
        invariant forall k :: 0 <= k < i ==> |heap[k]| == LevelSize(size, k)
      {
        CountBelowTop(size, i);
        LevelSizeIs(size, i);
        if i + 1 != logSize {
          s := s + s % 2;
        }
        heap := heap + [seq(s, _ => ModelTime(0, 0))];
        s := s / 2;
      }
      assert Shaped(heap, size) by { LevelSizeIs(0, 0); }
      for i := 0 to logSize
        invariant |heap| == logSize
        invariant forall k :: 0 <= k < logSize ==> |heap[k]| == LevelSize(size, k)
        invariant forall k :: 0 <= k < i && k < logSize - 1 ==> Padded(heap[k], Count(size, k))
      {
        CountBelowTop(size, i);
        LevelSizeIs(size, i);
        var last := |heap[i]| - 1;
        heap := heap[i := heap[i][last := ModelTime(0, PADDING_TIME)]];
        LastIsPadding(heap[i], Count(size, i));
      }
    }

    // The times of the children, on the lowest level.
    method FillLeaves(times: seq<int>)
      requires times != [] && Shaped(heap, |times|)
      requires forall i :: 0 <= i < |heap| - 1 ==> Padded(heap[i], Count(|times|, i))
      modifies `heap
      ensures Foundation(heap, times, 0)
    {
      hide Padded, Shaped, CeilLog2;
      ghost var n := |times|;
      SizesOf(heap, n);
      for c := 0 to |times|
        invariant Shaped(heap, n) && |heap| == CeilLog2(n) + 1 && n <= |heap[0]|
        invariant forall i :: 0 <= i < |heap| - 1 ==> Padded(heap[i], Count(n, i))
        invariant forall k :: 0 <= k < c ==> heap[0][k] == ModelTime(k, times[k])
      {
        ghost var was := heap;
        heap := heap[0 := heap[0][c := ModelTime(c, times[c])]];
        CellSet(was, n, 0, c, heap);
      }
    }

    // The winners of level i, written into the level above.
    method PlayLevel(i: nat)
      requires i + 1 < |heap| && |heap[i]| % 2 == 0 && |heap[i + 1]| >= |heap[i]| / 2
      requires Ordered(heap[i])
      modifies `heap
      ensures |heap| == |old(heap)| && forall k :: 0 <= k < |heap| && k != i + 1 ==> heap[k] == old(heap)[k]
      ensures |heap[i + 1]| == |old(heap)[i + 1]| && Played(heap[i], heap[i + 1])
      ensures heap[i + 1][|heap[i]| / 2..] == old(heap[i + 1])[|heap[i]| / 2..]
    {
      ghost var was, above := heap, heap[i + 1];
      var j := 0;
      while j < |heap[i]|
        invariant |heap| == |was| && forall k :: 0 <= k < |heap| && k != i + 1 ==> heap[k] == was[k]
        invariant |heap[i + 1]| == |above|
        invariant 0 <= j <= |heap[i]| && j % 2 == 0
        invariant forall k :: 0 <= k < j / 2 ==> Won(heap[i + 1][k], heap[i][2 * k], heap[i][2 * k + 1])
        invariant forall k :: |heap[i]| / 2 <= k < |above| ==> heap[i + 1][k] == above[k]
      {
        var l, r := heap[i][j], heap[i][j + 1];
        assert OrderedPair(was[i], j / 2);
        if l.tn < r.tn {
          heap := heap[i + 1 := heap[i + 1][j / 2 := l]];
        } else if l.tn > r.tn {
          heap := heap[i + 1 := heap[i + 1][j / 2 := r]];
        } else {
          if l.model < r.model {
            heap := heap[i + 1 := heap[i + 1][j / 2 := l]];
          } else {
            heap := heap[i + 1 := heap[i + 1][j / 2 := r]];
          }
        }
        j := j + 2;
      }
    }

    method Create(times: seq<int>)
      modifies this
      ensures Valid() && leaf == times
    {
      hide Padded, Shaped, Foundation, Tournament, Played, CeilLog2, Ordered, Count, LevelSize, Won, Leaves;
      MakeLevels(|times|);
      leaf := times;
      if |times| == 0 {
        EmptyTournament(heap);
        return;
      }
      FillLeaves(times);
      FoundationSizes(heap, times, 0);
      for i := 0 to |heap| - 1
        invariant leaf == times && |heap| == CeilLog2(|times|) + 1 && Foundation(heap, times, i)
      {
        FoundationSizes(heap, times, i);
        LevelOrdered(heap, times, i);
        ghost var was := heap;
        PlayLevel(i);
        LevelPlayed(was, times, i, heap);
      }
      Crowned(heap, times, |heap| - 1);
    }

    method Next() returns (k: int)
      requires Valid()
      ensures k == NextOf(heap)
    {
      if |heap| > 0 {
        if leaf != [] { CountBelowTop(|leaf|, |heap| - 1); }
        k := heap[|heap| - 1][0].model;
      } else {
        k := -1;
      }
    }

    method Update(child: nat, tn: int)
      requires Valid() && child < |leaf|
      modifies this
      ensures Valid() && leaf == old(leaf)[child := tn]
    {
      hide Tournament, Partial, CeilLog2, LevelSize, Count, Won;
      ghost var before := heap;
      ShapeOf(before, leaf, 0, 0);
      heap := heap[0 := heap[0][child := ModelTime(child, tn)]];
      leaf := leaf[child := tn];
      LeafChanged(before, old(leaf), child, tn);
      var level: nat, p: nat, b := 0, child, true;
      while b && level < |heap| - 1
        invariant leaf == old(leaf)[child := tn] && |heap| == |before|
        invariant 0 <= level < |heap| && p < Count(|leaf|, level)
        invariant if b then Partial(heap, leaf, level, p / 2) else Tournament(heap, leaf)
        invariant b ==> forall i :: level < i < |heap| ==> heap[i] == before[i]
        invariant b ==> forall j :: 0 <= j < |heap[level]| && j != p ==>
          j < |before[level]| && heap[level][j] == before[level][j]
        decreases |heap| - level
      {
        b := false;
        ShapeOf(before, old(leaf), 0, 0);
        ShapeOf(heap, leaf, level, p / 2);
        PairInside(|leaf|, level, p);
        var o := if p % 2 == 0 then p + 1 else p - 1;
        if heap[level][p].tn < heap[level][o].tn {
          PlayMatch(heap, leaf, level, p, heap[level][p]);
          heap := heap[level + 1 := heap[level + 1][p / 2 := heap[level][p]]];
          b := true;
        } else if heap[level][p].tn == heap[level][o].tn {
          var mn := if p < o then p else o;
          PlayMatch(heap, leaf, level, p, heap[level][mn]);
          heap := heap[level + 1 := heap[level + 1][p / 2 := heap[level][mn]]];
          b := true;
        } else if heap[level][o].model != heap[level + 1][p / 2].model {
          PlayMatch(heap, leaf, level, p, heap[level][o]);
          heap := heap[level + 1 := heap[level + 1][p / 2 := heap[level][o]]];
          b := true;
        } else {
          EarlyExit(before, old(leaf), heap, leaf, level, p);
        }
        level := level + 1;
        p := p / 2;
      }
      if b { Settled(heap, leaf, level, p / 2); }
    }
  }
}
