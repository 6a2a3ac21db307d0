/** The tank map (main.py:190-252 and 320-341): its blocks, and the collision test that
    samples a grid of points. */
module TankMap {
  /** A block: centre, width and height. */
  datatype Block = Block(cx: real, cy: real, w: real, h: real)

  const WIDTH := 48.0
  const HEIGHT := 48.0

  const BLOCK_CFG := [
    Block(13.5, 2.0, 1.0, 4.0),
    Block(13.5, 12.0, 1.0, 2.0),
    Block(12.5, 13.5, 3.0, 1.0),
    Block(2.0, 13.5, 4.0, 1.0),
    Block(11.5, 15.0, 1.0, 2.0),
    Block(11.5, 23.5, 1.0, 5.0),
    Block(10.0, 26.5, 4.0, 1.0),
    Block(6.0, 26.5, 4.0, 1.0),
    Block(2.0, 34.5, 4.0, 1.0),
    Block(12.5, 34.5, 3.0, 1.0),
    Block(13.5, 36.0, 1.0, 2.0),
    Block(15.0, 36.5, 2.0, 1.0),
    Block(13.5, 46.0, 1.0, 4.0),
    Block(23.5, 36.5, 5.0, 1.0),
    Block(26.5, 38.0, 1.0, 4.0),
    Block(26.5, 42.0, 1.0, 4.0),
    Block(34.5, 46.0, 1.0, 4.0),
    Block(34.5, 36.0, 1.0, 2.0),
    Block(35.5, 34.5, 3.0, 1.0),
    Block(36.5, 33.0, 1.0, 2.0),
    Block(46.0, 34.5, 4.0, 1.0),
    Block(36.5, 24.5, 1.0, 5.0),
    Block(38.0, 21.5, 4.0, 1.0),
    Block(42.0, 21.5, 4.0, 1.0),
    Block(46.0, 13.5, 4.0, 1.0),
    Block(35.5, 13.5, 3.0, 1.0),
    Block(34.5, 12.0, 1.0, 2.0),
    Block(33.0, 11.5, 2.0, 1.0),
    Block(34.5, 2.0, 1.0, 4.0),
    Block(24.5, 11.5, 5.0, 1.0),
    Block(21.5, 10.0, 1.0, 4.0),
    Block(21.5, 6.0, 1.0, 4.0),
    Block(18.5, 22.0, 1.0, 6.0),
    Block(19.0, 18.5, 2.0, 1.0),
    Block(26.0, 18.5, 6.0, 1.0),
    Block(29.5, 19.0, 1.0, 2.0),
    Block(29.5, 26.0, 1.0, 6.0),
    Block(29.0, 29.5, 2.0, 1.0),
    Block(22.0, 29.5, 6.0, 1.0),
    Block(18.5, 29.0, 1.0, 2.0)
  ]

  // ---------------------------------------------------------------- geometry

  predicate InSquare(px: real, py: real, x: real, y: real, r: real) {
    x - r <= px <= x + r && y - r <= py <= y + r
  }

  predicate InInterior(px: real, py: real, b: Block) {
    b.cx - b.w / 2.0 < px < b.cx + b.w / 2.0 && b.cy - b.h / 2.0 < py < b.cy + b.h / 2.0
  }

  /** The closed square of half-width r about (x, y) has a point inside the block. */
  ghost predicate Meets(x: real, y: real, r: real, b: Block) {
    exists px, py :: InSquare(px, py, x, y, r) && InInterior(px, py, b)
  }

  predicate Outside(x: real, y: real, r: real) {
    x - r <= 0.0 || x + r >= WIDTH || y - r <= 0.0 || y + r >= HEIGHT
  }

  /** The exact test: the square is not strictly inside the map, or it overlaps a block. */
  ghost predicate Blocked(x: real, y: real, r: real) {
    Outside(x, y, r) || exists k :: 0 <= k < |BLOCK_CFG| && Meets(x, y, r, BLOCK_CFG[k])
  }

  predicate Wide(b: Block) {
    b.w >= 1.0 && b.h >= 1.0
  }

  predicate InsideMap(b: Block) {
    b.cx - b.w / 2.0 >= 0.0 && b.cx + b.w / 2.0 <= WIDTH && b.cy - b.h / 2.0 >= 0.0 && b.cy + b.h / 2.0 <= HEIGHT
  }

  lemma BlocksAreWide()
    ensures forall k :: 0 <= k < |BLOCK_CFG| ==> Wide(BLOCK_CFG[k]) && InsideMap(BLOCK_CFG[k])
  {
  }

  // --------------------------------------------------------------- stepRange

  function Steps(cur: real, maxNum: real): (r: seq<real>)
    ensures r != []
    decreases (maxNum - cur) * 10.0
  {
    if cur >= maxNum then [maxNum] else [cur] + Steps(cur + 0.1, maxNum)
  }

  function Samples(minNum: real, maxNum: real): (r: seq<real>)
    ensures r != []
  {
    [minNum] + Steps(minNum + 0.1, maxNum)
  }

  method StepRange(minNum: real, maxNum: real) returns (ret: seq<real>)
    ensures ret == Samples(minNum, maxNum)
  {
    ret := [minNum];
    var step := 0.1;
    var curVal := minNum + step;
    while true
      invariant ret + Steps(curVal, maxNum) == Samples(minNum, maxNum)
      decreases (maxNum - curVal) * 10.0
    {
      if curVal >= maxNum {
        ret := ret + [maxNum];
        break;
      }
      assert ret + Steps(curVal, maxNum) == (ret + [curVal]) + Steps(curVal + step, maxNum);
      ret := ret + [curVal];
      curVal := curVal + step;
    }
  }

  /** Ends included, everything in between, gaps of at most 0.1. */
  predicate Spans(s: seq<real>, a: real, b: real) {
    && s != [] && s[0] == a && s[|s| - 1] == b
    && (forall i :: 0 <= i < |s| ==> a <= s[i] <= b)
    && (forall i :: 0 < i < |s| ==> s[i - 1] <= s[i] <= s[i - 1] + 0.1)
  }

  lemma SpansCons(a: real, c: real, b: real, t: seq<real>)
    requires Spans(t, c, b) && a <= c <= a + 0.1
    ensures Spans([a] + t, a, b)
  {
    var s := [a] + t;
    forall i | 0 < i < |s| ensures s[i - 1] <= s[i] <= s[i - 1] + 0.1 {
      assert s[i] == t[i - 1];
      if i > 1 {
        assert s[i - 1] == t[i - 2];
      }
    }
  }

  lemma {:induction false} StepsSpan(cur: real, maxNum: real)
    ensures Spans(Steps(cur, maxNum), if cur <= maxNum then cur else maxNum, maxNum)
    decreases (maxNum - cur) * 10.0
  {
    if cur < maxNum {
      StepsSpan(cur + 0.1, maxNum);
      SpansCons(cur, if cur + 0.1 <= maxNum then cur + 0.1 else maxNum, maxNum, Steps(cur + 0.1, maxNum));
    }
  }

  lemma SamplesSpan(minNum: real, maxNum: real)
    requires minNum <= maxNum
    ensures Spans(Samples(minNum, maxNum), minNum, maxNum)
  {
    StepsSpan(minNum + 0.1, maxNum);
    SpansCons(minNum, if minNum + 0.1 <= maxNum then minNum + 0.1 else maxNum, maxNum, Steps(minNum + 0.1, maxNum));
  }

  /** A walk in steps of at most 0.1 from at or below lo to above lo lands in any open
      interval above lo wider than a step. */
  lemma {:induction false} WalkHits(s: seq<real>, n: nat, lo: real, hi: real) returns (i: nat)
    requires n < |s| && s[0] <= lo < s[n] && hi - lo > 0.1
    requires forall k :: 0 < k <= n ==> s[k] <= s[k - 1] + 0.1
    ensures i <= n && lo < s[i] < hi
    decreases n
  {
    if s[n - 1] <= lo {
      i := n;
    } else {
      i := WalkHits(s, n - 1, lo, hi);
    }
  }

  /** One axis: some sample of [a, b] lies in the open interval exactly when the whole closed
      interval meets it. */
  lemma AxisExact(a: real, b: real, lo: real, hi: real)
    requires a <= b && hi - lo > 0.1
    ensures (exists i :: 0 <= i < |Samples(a, b)| && lo < Samples(a, b)[i] < hi) <==> a < hi && lo < b
  {
    var s := Samples(a, b);
    SamplesSpan(a, b);
    if a < hi && lo < b {
      if a > lo {
        assert lo < s[0] < hi;
      } else {
        var i := WalkHits(s, |s| - 1, lo, hi);
      }
    }
  }

  // ----------------------------------------------------------------- isBlock

  /** Some grid point lies inside the block. */
  ghost predicate GridHit(xs: seq<real>, ys: seq<real>, b: Block) {
    exists i, j :: 0 <= i < |xs| && 0 <= j < |ys| && InInterior(xs[i], ys[j], b)
  }

  lemma HitMeets(x: real, y: real, r: real, b: Block)
    requires r >= 0.0 && GridHit(Samples(x - r, x + r), Samples(y - r, y + r), b)
    ensures Meets(x, y, r, b)
  {
    var xs, ys := Samples(x - r, x + r), Samples(y - r, y + r);
    SamplesSpan(x - r, x + r);
    SamplesSpan(y - r, y + r);
    var i, j :| 0 <= i < |xs| && 0 <= j < |ys| && InInterior(xs[i], ys[j], b);
    assert InSquare(xs[i], ys[j], x, y, r);
  }

  lemma MeetsHits(x: real, y: real, r: real, b: Block)
    requires r >= 0.0 && Wide(b) && Meets(x, y, r, b)
    ensures GridHit(Samples(x - r, x + r), Samples(y - r, y + r), b)
  {
    var xs, ys := Samples(x - r, x + r), Samples(y - r, y + r);
    AxisExact(x - r, x + r, b.cx - b.w / 2.0, b.cx + b.w / 2.0);
    AxisExact(y - r, y + r, b.cy - b.h / 2.0, b.cy + b.h / 2.0);
    var px, py :| InSquare(px, py, x, y, r) && InInterior(px, py, b);
    var i :| 0 <= i < |xs| && b.cx - b.w / 2.0 < xs[i] < b.cx + b.w / 2.0;
    var j :| 0 <= j < |ys| && b.cy - b.h / 2.0 < ys[j] < b.cy + b.h / 2.0;
    assert InInterior(xs[i], ys[j], b);
  }

  /** In the plane: the grid hits the inside of the block exactly when the square meets it. */
  lemma GridExact(x: real, y: real, r: real, b: Block)
    requires r >= 0.0 && Wide(b)
    ensures GridHit(Samples(x - r, x + r), Samples(y - r, y + r), b) <==> Meets(x, y, r, b)
  {
    if GridHit(Samples(x - r, x + r), Samples(y - r, y + r), b) {
      HitMeets(x, y, r, b);
    }
    if Meets(x, y, r, b) {
      MeetsHits(x, y, r, b);
    }
  }

  function MaxZero(v: real): real {
    if v > 0.0 then v else 0.0
  }

  /** The two inner loops of isBlock, for one block. */
  method SearchGrid(minX: real, maxX: real, minY: real, maxY: real, b: Block) returns (found: bool)
    requires minX > 0.0 && minY > 0.0
    ensures found <==> GridHit(Samples(minX, maxX), Samples(minY, maxY), b)
  {
    var xs := StepRange(MaxZero(minX), maxX);
    var i := 0;
    while i < |xs|
      invariant i <= |xs|
      invariant forall p, q :: 0 <= p < i && 0 <= q < |Samples(minY, maxY)| ==> !InInterior(xs[p], Samples(minY, maxY)[q], b)
    {
      var ys := StepRange(MaxZero(minY), maxY);
      var j := 0;
      while j < |ys|
        invariant j <= |ys|
        invariant forall q :: 0 <= q < j ==> !InInterior(xs[i], ys[q], b)
      {
        if InInterior(xs[i], ys[j], b) {
          return true;
        }
        j := j + 1;
      }
      i := i + 1;
    }
    return false;
  }

  /** MapObj.isBlock: for every real position and non-negative radius the grid search is the
      exact geometric test. */
  method IsBlock(xItem: real, yItem: real, radius: real) returns (blocked: bool)
    ensures radius >= 0.0 ==> (blocked <==> Blocked(xItem, yItem, radius))
  {
    var minX := xItem - radius;
    var maxX := xItem + radius;
    var minY := yItem - radius;
    var maxY := yItem + radius;
    if minX <= 0.0 || maxX >= WIDTH || minY <= 0.0 || maxY >= HEIGHT {
      return true;
    }
    BlocksAreWide();
    var k := 0;
    while k < |BLOCK_CFG|
      invariant k <= |BLOCK_CFG|
      invariant radius >= 0.0 ==> forall b :: 0 <= b < k ==> !Meets(xItem, yItem, radius, BLOCK_CFG[b])
    {
      var found := SearchGrid(minX, maxX, minY, maxY, BLOCK_CFG[k]);
      if radius >= 0.0 {
        GridExact(xItem, yItem, radius, BLOCK_CFG[k]);
      }
      if found {
        return true;
      }
      k := k + 1;
    }
    return false;
  }
}
