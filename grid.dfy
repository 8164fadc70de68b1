/**
 * The card grid of the front end: the terminal is cut into G x G equal cards, G being the
 * smallest side in 1..3 whose square holds every GPU, and GPU `id` is drawn in card
 * `(id // G, id % G)`.
 */
module Grid {
  import opened Wrappers

  /** A window as `curses.newwin(height, width, top, left)` creates it. */
  datatype Rect = Rect(top: int, left: int, height: int, width: int)

  /** `[i - num_gpus for i in powers]`, where `powers` are the squares 1, 4, 9. */
  function Diffs(numGpus: int): seq<int> {
    [1 - numGpus, 4 - numGpus, 9 - numGpus]
  }

  /** `(val, idx) for (idx, val) in enumerate(diffs) if val >= 0`, in order. */
  function Candidates(diffs: seq<int>): (pairs: seq<(int, int)>)
    ensures forall p :: p in pairs <==> 0 <= p.1 < |diffs| && p.0 == diffs[p.1] && p.0 >= 0
    decreases |diffs|
  {
    if diffs == [] then []
    else
      var n := |diffs| - 1;
      var rest := Candidates(diffs[..n]);
      assert forall k :: 0 <= k < n ==> diffs[..n][k] == diffs[k];
      rest + (if diffs[n] >= 0 then [(diffs[n], n)] else [])
  }

  /** Python's ordering of pairs: by first component, then by second. */
  predicate PairLeq(a: (int, int), b: (int, int)) {
    a.0 < b.0 || (a.0 == b.0 && a.1 <= b.1)
  }

  /** `min` over a non-empty sequence of pairs. */
  function MinPair(pairs: seq<(int, int)>): (m: (int, int))
    requires |pairs| > 0
    ensures m in pairs
    ensures forall p :: p in pairs ==> PairLeq(m, p)
    decreases |pairs|
  {
    if |pairs| == 1 then pairs[0]
    else
      var rest := MinPair(pairs[1..]);
      assert forall p :: p in pairs ==> p == pairs[0] || p in pairs[1..];
      if PairLeq(pairs[0], rest) then pairs[0] else rest
  }

  /**
   * `win_rows = idx + 1` for the minimal candidate; `None` where `min` over no candidate
   * raises `ValueError`.
   */
  function GridSide(numGpus: int): (side: Option<int>)
    ensures side.None? <==> numGpus > 9
    ensures side.Some? ==> 1 <= side.value <= 3 && side.value * side.value >= numGpus
  {
    var pairs := Candidates(Diffs(numGpus));
    if pairs == [] then
      assert numGpus <= 9 ==> (9 - numGpus, 2) in pairs;
      None
    else
      var m := MinPair(pairs);
      assert m.1 == 0 || m.1 == 1 || m.1 == 2;
      Some(m.1 + 1)
  }

  /** The intended side: the smallest of 1, 2, 3 whose square holds the GPUs. */
  predicate SmallestSide(numGpus: int, side: int) {
    1 <= side <= 3 && side * side >= numGpus && forall s :: 1 <= s < side ==> s * s < numGpus
  }

  /** The candidates are the squares that hold the GPUs, each paired with its index, in order. */
  lemma CandidatesOfDiffs(numGpus: int)
    ensures Candidates(Diffs(numGpus))
      == (if numGpus <= 1 then [(1 - numGpus, 0)] else [])
       + (if numGpus <= 4 then [(4 - numGpus, 1)] else [])
       + (if numGpus <= 9 then [(9 - numGpus, 2)] else [])
  {
    var diffs := Diffs(numGpus);
    var one := if numGpus <= 1 then [(1 - numGpus, 0)] else [];
    var two := if numGpus <= 4 then [(4 - numGpus, 1)] else [];
    assert diffs[..2][..1] == [1 - numGpus] && [1 - numGpus][..0] == [];
    assert Candidates([1 - numGpus]) == one;
    assert diffs[..2] == [1 - numGpus, 4 - numGpus];
    assert Candidates(diffs[..2]) == one + two;
  }

  /** A grid exists exactly for at most nine GPUs, and its side is the smallest that holds them all. */
  lemma GridSideIsSmallest(numGpus: int)
    ensures GridSide(numGpus).Some? <==> numGpus <= 9
    ensures GridSide(numGpus).Some? ==> SmallestSide(numGpus, GridSide(numGpus).value)
  {
    CandidatesOfDiffs(numGpus);
    var pairs := Candidates(Diffs(numGpus));
    if numGpus <= 1 {
      assert MinPair(pairs) == pairs[0];
    } else if numGpus <= 4 {
      assert MinPair(pairs) == pairs[0];
    } else if numGpus <= 9 {
      assert MinPair(pairs) == pairs[0];
    }
  }

  /** `(self.rows // win_rows) - 1`: the height of one card (and the width, from the columns). */
  function CardSize(extent: int, side: int): (size: int)
    requires side >= 1
    ensures side * (size + 1) <= extent < side * (size + 2)
  {
    extent / side - 1
  }

  /** The window array: card `(i, j)` of a `side x side` grid starts at `(i * height, j * width)`. */
  function Tiling(side: nat, height: int, width: int): (grid: seq<seq<Rect>>)
    ensures |grid| == side && forall i :: 0 <= i < side ==> |grid[i]| == side
    ensures forall i, j :: 0 <= i < side && 0 <= j < side ==> grid[i][j] == Rect(i * height, j * width, height, width)
  {
    seq(side, i requires 0 <= i < side => seq(side, j requires 0 <= j < side => Rect(i * height, j * width, height, width)))
  }

  /** Two windows share a cell. */
  predicate Overlap(a: Rect, b: Rect) {
    a.top < b.top + b.height && b.top < a.top + a.height
    && a.left < b.left + b.width && b.left < a.left + a.width
  }

  /** A window lies inside a `rows x cols` terminal. */
  predicate Inside(r: Rect, rows: int, cols: int) {
    0 <= r.top && r.top + r.height <= rows && 0 <= r.left && r.left + r.width <= cols
  }

  lemma MulStep(a: int, b: int, size: int)
    requires 0 <= a < b && size >= 0
    ensures a * size + size <= b * size
  {
    assert (b - a) * size >= size by {
      assert b - a >= 1;
    }
  }

  /**
   * With the card sizes derived from the terminal, the cards of the grid do not overlap and
   * all end inside the terminal.
   */
  lemma TilingTiles(rows: int, cols: int, side: int)
    requires 1 <= side
    requires CardSize(rows, side) >= 0 && CardSize(cols, side) >= 0
    ensures var grid := Tiling(side, CardSize(rows, side), CardSize(cols, side));
      (forall i, j :: 0 <= i < side && 0 <= j < side ==> Inside(grid[i][j], rows, cols))
      && forall i, j, k, l :: 0 <= i < side && 0 <= j < side && 0 <= k < side && 0 <= l < side
          && (i, j) != (k, l) && CardSize(rows, side) > 0 && CardSize(cols, side) > 0
          ==> !Overlap(grid[i][j], grid[k][l])
  {
    var h := CardSize(rows, side);
    var w := CardSize(cols, side);
    var grid := Tiling(side, h, w);
    forall i, j | 0 <= i < side && 0 <= j < side
      ensures Inside(grid[i][j], rows, cols)
    {
      MulStep(i, side, h);
      MulStep(j, side, w);
    }
    forall i, j, k, l | 0 <= i < side && 0 <= j < side && 0 <= k < side && 0 <= l < side
        && (i, j) != (k, l) && h > 0 && w > 0
      ensures !Overlap(grid[i][j], grid[k][l])
    {
      if i < k {
        MulStep(i, k, h);
      } else if k < i {
        MulStep(k, i, h);
      } else if j < l {
        MulStep(j, l, w);
      } else {
        MulStep(l, j, w);
      }
    }
  }

  /** `(gpu_id // win_rows, gpu_id % win_rows)`: the card a GPU is drawn in. */
  function CardOf(id: int, side: int): (card: (int, int))
    requires side >= 1
    ensures card.0 * side + card.1 == id && 0 <= card.1 < side
  {
    (id / side, id % side)
  }

  /** Every GPU the grid was sized for lands in a card of the grid, and no two share one. */
  lemma CardOfInRange(id: int, numGpus: int, side: int)
    requires side >= 1 && 0 <= id < numGpus <= side * side
    ensures 0 <= CardOf(id, side).0 < side && 0 <= CardOf(id, side).1 < side
  {
    var card := CardOf(id, side);
    if card.0 >= side {
      MulStep(side - 1, card.0, side);
    }
  }

  lemma CardOfInjective(a: int, b: int, side: int)
    requires side >= 1 && a != b
    ensures CardOf(a, side) != CardOf(b, side)
  {
  }

  /** A GPU beyond the `side x side` cards has a row index past the grid (an `IndexError` when drawn). */
  lemma CardOfBeyondGrid(id: int, side: int)
    requires side >= 1 && id >= side * side
    ensures CardOf(id, side).0 >= side
  {
    var card := CardOf(id, side);
    if card.0 < side {
      MulStep(card.0, side, side);
    }
  }

  /** Three GPUs on a 40 x 120 terminal: a 2 x 2 grid of 19 x 59 cards, GPU 2 in the bottom-left card. */
  lemma ThreeGpuExample()
    ensures GridSide(3) == Some(2)
    ensures CardSize(40, 2) == 19 && CardSize(120, 2) == 59
    ensures CardOf(2, 2) == (1, 0)
    ensures Tiling(2, 19, 59)[1][0] == Rect(19, 0, 19, 59)
  {
    GridSideIsSmallest(3);
  }
}
