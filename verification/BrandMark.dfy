/** The connected glyph and the bounds of the brand mark (tools/prepare-brand-assets.py). */
module BrandMark {
  import opened Protocol

  datatype Point = Point(x: int, y: int)

  /** An image: its size, and which pixels meet a colour test. */
  datatype Image = Image(width: nat, height: nat, marked: (int, int) -> bool) {
    predicate Open(p: Point) {
      0 <= p.x < width && 0 <= p.y < height && marked(p.x, p.y)
    }
  }

  function Neighbours(p: Point): seq<Point> {
    [Point(p.x - 1, p.y), Point(p.x + 1, p.y), Point(p.x, p.y - 1), Point(p.x, p.y + 1)]
  }

  /** The neighbours of a pixel share an edge with it. */
  lemma AdjacentIff(p: Point, q: Point)
    ensures q in Neighbours(p) <==>
            (q.y == p.y && (q.x - p.x == 1 || p.x - q.x == 1)) || (q.x == p.x && (q.y - p.y == 1 || p.y - q.y == 1))
  {
    var around := Neighbours(p);
    assert around[0] == Point(p.x - 1, p.y) && around[1] == Point(p.x + 1, p.y);
    assert around[2] == Point(p.x, p.y - 1) && around[3] == Point(p.x, p.y + 1);
    assert forall n :: n in around <==> n == around[0] || n == around[1] || n == around[2] || n == around[3];
  }

  // ----- Reachability -----

  /** A path of open pixels, each a neighbour of the one before. */
  ghost predicate IsPath(image: Image, path: seq<Point>) {
    && path != [] && (forall i :: 0 <= i < |path| ==> image.Open(path[i]))
    && forall i :: 0 < i < |path| ==> path[i] in Neighbours(path[i - 1])
  }

  ghost predicate Connects(image: Image, path: seq<Point>, seed: Point, p: Point) {
    IsPath(image, path) && path[0] == seed && path[|path| - 1] == p
  }

  ghost predicate Reachable(image: Image, seed: Point, p: Point) {
    exists path :: Connects(image, path, seed, p)
  }

  lemma SeedReachable(image: Image, seed: Point)
    requires image.Open(seed)
    ensures Reachable(image, seed, seed)
  {
    assert Connects(image, [seed], seed, seed);
  }

  lemma NextReachable(image: Image, seed: Point, p: Point, next: Point)
    requires Reachable(image, seed, p) && next in Neighbours(p) && image.Open(next)
    ensures Reachable(image, seed, next)
  {
    var path :| Connects(image, path, seed, p);
    var longer := path + [next];
    forall i | 0 < i < |longer| ensures longer[i] in Neighbours(longer[i - 1]) {
      if i < |path| { assert longer[i] == path[i] && longer[i - 1] == path[i - 1]; }
    }
    assert Connects(image, longer, seed, next);
  }

  /** Every open neighbour of a point of `inner` is in `outer`. */
  ghost predicate Closed(image: Image, inner: set<Point>, outer: set<Point>) {
    forall p, n :: p in inner && n in Neighbours(p) && image.Open(n) ==> n in outer
  }

  /** A closed set around the seed holds everything reachable. */
  lemma {:induction false} ClosedHoldsPath(image: Image, path: seq<Point>, visited: set<Point>)
    requires IsPath(image, path) && path[0] in visited && Closed(image, visited, visited)
    ensures path[|path| - 1] in visited
  {
    if |path| > 1 {
      var init := path[..|path| - 1];
      assert forall i :: 0 <= i < |init| ==> init[i] == path[i];
      ClosedHoldsPath(image, init, visited);
      assert path[|path| - 1] in Neighbours(init[|init| - 1]);
    }
  }

  lemma ClosedHoldsReachable(image: Image, seed: Point, visited: set<Point>)
    requires seed in visited && Closed(image, visited, visited)
    ensures forall p :: Reachable(image, seed, p) ==> p in visited
  {
    forall p | Reachable(image, seed, p) ensures p in visited {
      var path :| Connects(image, path, seed, p);
      ClosedHoldsPath(image, path, visited);
    }
  }

  // ----- The flood fill -----

  ghost function Pixels(image: Image): set<Point> {
    set x, y | 0 <= x < image.width && 0 <= y < image.height :: Point(x, y)
  }

  ghost function Waiting(queue: seq<Point>): set<Point> {
    set p | p in queue
  }

  ghost predicate NoRepeats(points: seq<Point>) {
    forall i, j :: 0 <= i < j < |points| ==> points[i] != points[j]
  }

  /** What the search knows: reachable pixels, those of the queue still to be expanded. */
  ghost predicate Searching(image: Image, seed: Point, visited: set<Point>, queue: seq<Point>, enqueued: seq<Point>) {
    && seed in visited && (forall p :: p in visited ==> image.Open(p) && Reachable(image, seed, p))
    && NoRepeats(queue) && (forall p :: p in queue ==> p in visited)
    && NoRepeats(enqueued) && (forall p :: p in enqueued <==> p in visited)
  }

  lemma Enqueue(image: Image, seed: Point, from: Point, point: Point, visited: set<Point>, queue: seq<Point>,
                enqueued: seq<Point>)
    requires Searching(image, seed, visited, queue, enqueued) && from in visited
    requires point in Neighbours(from) && image.Open(point) && point !in visited
    ensures Searching(image, seed, visited + {point}, queue + [point], enqueued + [point])
  {
    NextReachable(image, seed, from, point);
    hide Reachable;
    forall i | 0 <= i < |queue| ensures queue[i] != point { assert queue[i] in queue; }
    forall i | 0 <= i < |enqueued| ensures enqueued[i] != point { assert enqueued[i] in enqueued; }
  }

  lemma Dequeue(image: Image, seed: Point, visited: set<Point>, queue: seq<Point>, enqueued: seq<Point>)
    requires Searching(image, seed, visited, queue, enqueued) && queue != []
    ensures Searching(image, seed, visited, queue[1..], enqueued)
    ensures queue[0] in visited && Waiting(queue) == Waiting(queue[1..]) + {queue[0]} && queue[0] !in queue[1..]
  {
    hide Reachable;
    assert queue == [queue[0]] + queue[1..];
    forall i | 0 <= i < |queue[1..]| ensures queue[1..][i] != queue[0] {
      assert queue[1..][i] == queue[i + 1];
    }
  }

  /** The body of the inner loop: look at the four neighbours of one pixel. */
  method Expand(image: Image, p: Point, visited: set<Point>, queue: seq<Point>, ghost seed: Point,
                ghost enqueued: seq<Point>)
    returns (visited': set<Point>, queue': seq<Point>, ghost enqueued': seq<Point>)
    requires Searching(image, seed, visited, queue, enqueued) && p in visited
    ensures Searching(image, seed, visited', queue', enqueued')
    ensures visited <= visited' && (forall n :: n in Neighbours(p) && image.Open(n) ==> n in visited')
    ensures Waiting(queue') == Waiting(queue) + (visited' - visited)
    ensures visited' == visited ==> queue' == queue
  {
    visited', queue', enqueued' := visited, queue, enqueued;
    var points := Neighbours(p);
    for i := 0 to |points|
      invariant Searching(image, seed, visited', queue', enqueued') && visited <= visited'
      invariant forall n :: n in points[..i] && image.Open(n) ==> n in visited'
      invariant Waiting(queue') == Waiting(queue) + (visited' - visited)
      invariant visited' == visited ==> queue' == queue
    {
      hide Searching;
      var point := points[i];
      assert points[..i + 1] == points[..i] + [point];
      if image.Open(point) && point !in visited' {
        Enqueue(image, seed, p, point, visited', queue', enqueued');
        visited', queue', enqueued' := visited' + {point}, queue' + [point], enqueued' + [point];
      }
    }
    assert points[..|points|] == points;
  }

  lemma FewerLeft(image: Image, seed: Point, visited: set<Point>, visited': set<Point>, queue: seq<Point>,
                  enqueued: seq<Point>)
    requires Searching(image, seed, visited', queue, enqueued) && visited <= visited'
    ensures visited' <= Pixels(image) && (visited' == visited || |Pixels(image) - visited'| < |Pixels(image) - visited|)
  {
    hide Reachable;
    forall p | p in visited' ensures p in Pixels(image) {
      assert image.Open(p);
      assert p == Point(p.x, p.y);
    }
    if visited' != visited {
      assert Pixels(image) - visited' < Pixels(image) - visited;
      SmallerSet(Pixels(image) - visited', Pixels(image) - visited);
    }
  }

  lemma {:induction false} SmallerSet(a: set<Point>, b: set<Point>)
    requires a < b
    ensures |a| < |b|
  {
    var x :| x in b && x !in a;
    SubsetSize(a, b - {x});
  }

  lemma {:induction false} SubsetSize(a: set<Point>, b: set<Point>)
    requires a <= b
    ensures |a| <= |b|
    decreases a
  {
    if a != {} {
      var x :| x in a;
      SubsetSize(a - {x}, b - {x});
    }
  }

  /** The fill marks exactly the pixels that open paths reach from the seed, and puts
      every pixel into the queue at most once. */
  /** The marks in the image: 255 for what was visited and is no longer waiting. */
  ghost predicate Marked(image: Image, glyph: array2<int>, visited: set<Point>, queue: seq<Point>)
    reads glyph
  {
    && glyph.Length0 == image.width && glyph.Length1 == image.height
    && forall x, y {:trigger glyph[x, y]} :: 0 <= x < image.width && 0 <= y < image.height ==>
         glyph[x, y] == if Point(x, y) in visited && Point(x, y) !in queue then 255 else 0
  }

  method FloodFill(image: Image, seed: Point) returns (glyph: array2<int>, ghost enqueued: seq<Point>)
    requires image.Open(seed)
    ensures fresh(glyph) && glyph.Length0 == image.width && glyph.Length1 == image.height
    ensures forall x, y {:trigger glyph[x, y]} :: 0 <= x < image.width && 0 <= y < image.height ==>
              glyph[x, y] == if Reachable(image, seed, Point(x, y)) then 255 else 0
    ensures NoRepeats(enqueued)
  {
    glyph := new int[image.width, image.height]((_, _) => 0);
    var visited := {seed};
    var queue := [seed];
    enqueued := [seed];
    SeedReachable(image, seed);
    while queue != []
      invariant Searching(image, seed, visited, queue, enqueued)
      invariant Closed(image, visited - Waiting(queue), visited)
      invariant Marked(image, glyph, visited, queue)
      decreases |Pixels(image) - visited|, |queue|
    {
      hide Searching, Reachable, Closed, Marked;
      visited, queue, enqueued := Visit(image, seed, glyph, visited, queue, enqueued);
    }
    AllVisited(image, seed, visited, queue, enqueued);
  }

  /** Mark the pixel at the front of the queue and enqueue its unvisited neighbours. */
  method Visit(image: Image, ghost seed: Point, glyph: array2<int>, visited: set<Point>, queue: seq<Point>,
               ghost enqueued: seq<Point>)
    returns (visited': set<Point>, queue': seq<Point>, ghost enqueued': seq<Point>)
    requires queue != [] && Searching(image, seed, visited, queue, enqueued)
    requires Closed(image, visited - Waiting(queue), visited) && Marked(image, glyph, visited, queue)
    modifies glyph
    ensures Searching(image, seed, visited', queue', enqueued')
    ensures Closed(image, visited' - Waiting(queue'), visited') && Marked(image, glyph, visited', queue')
    ensures |Pixels(image) - visited'| < |Pixels(image) - visited|
            || (|Pixels(image) - visited'| == |Pixels(image) - visited| && |queue'| < |queue|)
  {
    hide Searching, Reachable, Closed;
    var p := queue[0];
    Dequeue(image, seed, visited, queue, enqueued);
    OpenInImage(image, seed, visited, queue, enqueued, p);
    glyph[p.x, p.y] := 255;
    visited', queue', enqueued' := Expand(image, p, visited, queue[1..], seed, enqueued);
    FewerLeft(image, seed, visited, visited', queue', enqueued');
    ClosedMore(image, visited, queue, visited', queue', p);
    StillUnmarked(visited, queue, visited', queue', p);
  }

  lemma OpenInImage(image: Image, seed: Point, visited: set<Point>, queue: seq<Point>, enqueued: seq<Point>, p: Point)
    requires Searching(image, seed, visited, queue, enqueued) && p in visited
    ensures image.Open(p)
  {
  }

  lemma ClosedMore(image: Image, before: set<Point>, waiting: seq<Point>, visited: set<Point>, queue: seq<Point>,
                   p: Point)
    requires waiting != [] && p == waiting[0] && before <= visited && p !in waiting[1..]
    requires Closed(image, before - Waiting(waiting), before)
    requires forall n :: n in Neighbours(p) && image.Open(n) ==> n in visited
    requires Waiting(queue) == Waiting(waiting[1..]) + (visited - before)
    ensures Closed(image, visited - Waiting(queue), visited)
  {
    assert waiting == [p] + waiting[1..];
    forall q | q in visited - Waiting(queue) ensures q == p || q in before - Waiting(waiting) {
      assert q !in waiting[1..] by { assert q !in Waiting(queue); }
    }
  }

  lemma StillUnmarked(before: set<Point>, waiting: seq<Point>, visited: set<Point>, queue: seq<Point>, p: Point)
    requires waiting != [] && p == waiting[0] && before <= visited && p in before && p !in waiting[1..]
    requires Waiting(queue) == Waiting(waiting[1..]) + (visited - before)
    ensures forall q :: (q in visited && q !in queue) <==> q == p || (q in before && q !in waiting)
  {
    assert waiting == [p] + waiting[1..];
    forall q ensures (q in visited && q !in queue) <==> q == p || (q in before && q !in waiting) {
      assert q in queue <==> q in Waiting(queue);
      assert q in waiting[1..] <==> q in Waiting(waiting[1..]);
    }
  }

  lemma AllVisited(image: Image, seed: Point, visited: set<Point>, queue: seq<Point>, enqueued: seq<Point>)
    requires Searching(image, seed, visited, queue, enqueued) && queue == []
             && Closed(image, visited - Waiting(queue), visited)
    ensures forall p :: p in visited <==> Reachable(image, seed, p)
    ensures NoRepeats(enqueued)
  {
    assert visited - Waiting(queue) == visited;
    ClosedHoldsReachable(image, seed, visited);
  }

  // ----- The bounds of the lime square -----

  datatype Box = Box(left: int, top: int, right: int, bottom: int)

  const INSET := 3

  ghost predicate InColumn(image: Image, x: int) {
    exists y :: image.Open(Point(x, y))
  }

  ghost predicate InRow(image: Image, y: int) {
    exists x :: image.Open(Point(x, y))
  }

  ghost predicate Touches(image: Image, left: int, top: int, right: int, bottom: int) {
    InColumn(image, left) && InColumn(image, right) && InRow(image, top) && InRow(image, bottom)
  }

  function Clamped(image: Image, left: int, top: int, right: int, bottom: int): Box {
    Box(if left - INSET < 0 then 0 else left - INSET, if top - INSET < 0 then 0 else top - INSET,
        if right + INSET + 1 > image.width then image.width else right + INSET + 1,
        if bottom + INSET + 1 > image.height then image.height else bottom + INSET + 1)
  }

  /** The clamped box holds the pixels of the image that are at most three away from the bounds. */
  lemma ClampedHolds(image: Image, left: int, top: int, right: int, bottom: int, p: Point)
    ensures var box := Clamped(image, left, top, right, bottom);
            && (box.left <= p.x < box.right <==> 0 <= p.x < image.width && left - 3 <= p.x <= right + 3)
            && (box.top <= p.y < box.bottom <==> 0 <= p.y < image.height && top - 3 <= p.y <= bottom + 3)
  {
  }

  /** The bounds of the matching pixels among the rows above `row` and its first pixels. */
  ghost predicate Bounded(image: Image, box: Box, row: nat, column: nat) {
    && (forall p :: image.Open(p) && (p.y < row || (p.y == row && p.x < column)) ==>
          box.left <= p.x <= box.right && box.top <= p.y <= box.bottom)
    && (box == Box(image.width, image.height, -1, -1) || Touches(image, box.left, box.top, box.right, box.bottom))
  }

  function Widened(box: Box, x: int, y: int): Box {
    Box(if x < box.left then x else box.left, if y < box.top then y else box.top,
        if x > box.right then x else box.right, if y > box.bottom then y else box.bottom)
  }

  lemma BoundedStep(image: Image, box: Box, row: nat, column: nat)
    requires Bounded(image, box, row, column) && row < image.height && column < image.width
    ensures Bounded(image, if image.marked(column, row) then Widened(box, column, row) else box, row, column + 1)
  {
    if image.marked(column, row) {
      assert image.Open(Point(column, row));
      assert InColumn(image, column) && InRow(image, row);
      hide InColumn, InRow;
      var wider := Widened(box, column, row);
      assert Touches(image, wider.left, wider.top, wider.right, wider.bottom);
      forall p | image.Open(p) && (p.y < row || (p.y == row && p.x < column + 1))
        ensures wider.left <= p.x <= wider.right && wider.top <= p.y <= wider.bottom
      {
        assert p.y < row || p.x < column || p == Point(column, row);
      }
    } else {
      hide InColumn, InRow;
      forall p | image.Open(p) && (p.y < row || (p.y == row && p.x < column + 1))
        ensures box.left <= p.x <= box.right && box.top <= p.y <= box.bottom
      {
        assert p == Point(p.x, p.y);
      }
    }
  }

  /** Reject an image without a matching pixel; otherwise the smallest box around all
      matching pixels, widened by the inset and cut at the edges of the image. */
  method LimeBounds(image: Image) returns (box: Option<Box>)
    ensures box.None? <==> forall p :: !image.Open(p)
    ensures box.Some? ==> exists left, top, right, bottom ::
              && Touches(image, left, top, right, bottom)
              && (forall p :: image.Open(p) ==> left <= p.x <= right && top <= p.y <= bottom)
              && box.value == Clamped(image, left, top, right, bottom)
  {
    var left, top, right, bottom: int := image.width, image.height, -1, -1;
    for y := 0 to image.height
      invariant Bounded(image, Box(left, top, right, bottom), y, 0)
    {
      hide Bounded, Touches;
      for x := 0 to image.width
        invariant Bounded(image, Box(left, top, right, bottom), y, x)
      {
        BoundedStep(image, Box(left, top, right, bottom), y, x);
        if image.marked(x, y) {
          left := if x < left then x else left;
          top := if y < top then y else top;
          right := if x > right then x else right;
          bottom := if y > bottom then y else bottom;
        }
      }
    }
    if right < left || bottom < top {
      return None;
    }
    return Some(Clamped(image, left, top, right, bottom));
  }
}
