/**
  The diagram generator's geometry: edge routing (`lib/scene.js`) and the checks on the routed scene
  (`build.mjs`), over real coordinates.
 */
module Diagram {
  import opened Prelude

  datatype Point = Point(x: real, y: real)

  datatype Node = Node(id: string, x: real, y: real, w: real, h: real)

  datatype Side = Top | Bottom | Left | Right

  datatype Edge = Edge(from: string, to: string, fromSide: Option<Side>, toSide: Option<Side>,
                       fromT: Option<real>, toT: Option<real>, elbow: Option<real>, straight: bool)

  datatype Routed = Routed(edge: Edge, points: seq<Point>, labelAt: Point)

  const ARROW_GAP := 6.0
  const INSET := 3.0

  function Abs(r: real): real {
    if r < 0.0 then -r else r
  }

  function GetOr<T>(o: Option<T>, default: T): T {
    if o.Some? then o.value else default
  }

  // ----- Routing ----------------------------------------------------------------------------------

  function SidePoint(n: Node, side: Side, t: real): Point {
    match side
    case Top => Point(n.x + n.w * t, n.y - ARROW_GAP)
    case Bottom => Point(n.x + n.w * t, n.y + n.h + ARROW_GAP)
    case Left => Point(n.x - ARROW_GAP, n.y + n.h * t)
    case Right => Point(n.x + n.w + ARROW_GAP, n.y + n.h * t)
  }

  function Opposite(side: Side): Side {
    match side
    case Top => Bottom
    case Bottom => Top
    case Left => Right
    case Right => Left
  }

  function AutomaticSide(a: Node, b: Node): Side {
    if b.y >= a.y + a.h then Bottom
    else if a.y >= b.y + b.h then Top
    else if b.x >= a.x + a.w then Right
    else if a.x >= b.x + b.w then Left
    else
      var dx := (b.x + b.w / 2.0) - (a.x + a.w / 2.0);
      var dy := (b.y + b.h / 2.0) - (a.y + a.h / 2.0);
      if Abs(dy) >= Abs(dx) then (if dy > 0.0 then Bottom else Top)
      else if dx > 0.0 then Right else Left
  }

  function ResolveSides(a: Node, b: Node, edge: Edge): (Side, Side) {
    if edge.fromSide.Some? && edge.toSide.Some? then (edge.fromSide.value, edge.toSide.value)
    else
      var from := GetOr(edge.fromSide, AutomaticSide(a, b));
      (from, GetOr(edge.toSide, Opposite(from)))
  }

  predicate IsVertical(side: Side) {
    side.Top? || side.Bottom?
  }

  function Start(a: Node, b: Node, edge: Edge): Point {
    SidePoint(a, ResolveSides(a, b, edge).0, GetOr(edge.fromT, 0.5))
  }

  function End(a: Node, b: Node, edge: Edge): Point {
    SidePoint(b, ResolveSides(a, b, edge).1, GetOr(edge.toT, 0.5))
  }

  predicate Misaligned(vertical: bool, start: Point, end: Point) {
    if vertical then Abs(start.x - end.x) > 2.0 else Abs(start.y - end.y) > 2.0
  }

  /** The value a fraction `t` of the way from `u` to `v`. */
  function Lerp(u: real, v: real, t: real): real {
    u + (v - u) * t
  }

  function RoutePoints(vertical: bool, start: Point, end: Point, edge: Edge): (points: seq<Point>)
    ensures |points| >= 2
  {
    if !Misaligned(vertical, start, end) || edge.straight then [start, end]
    else
      var t := GetOr(edge.elbow, 0.5);
      if vertical then
        var mid := Lerp(start.y, end.y, t);
        [start, Point(start.x, mid), Point(end.x, mid), end]
      else
        var mid := Lerp(start.x, end.x, t);
        [start, Point(mid, start.y), Point(mid, end.y), end]
  }

  function Midpoint(p: Point, q: Point): Point {
    Point((p.x + q.x) / 2.0, (p.y + q.y) / 2.0)
  }

  function Route(a: Node, b: Node, edge: Edge): Routed {
    var points := RoutePoints(IsVertical(ResolveSides(a, b, edge).0), Start(a, b, edge), End(a, b, edge), edge);
    var middle := (|points| - 1) / 2;
    Routed(edge, points, Midpoint(points[middle], points[middle + 1]))
  }

  /** A `Map` built from the list: of several nodes with one id the last counts. */
  function Lookup(nodes: seq<Node>, id: string): Option<Node> {
    if nodes == [] then None
    else if nodes[|nodes| - 1].id == id then Some(nodes[|nodes| - 1])
    else Lookup(nodes[..|nodes| - 1], id)
  }

  datatype UnknownNode = UnknownNode(id: string)

  function ResolveEdges(nodes: seq<Node>, edges: seq<Edge>): Result<seq<Routed>, UnknownNode> {
    if edges == [] then Ok([])
    else
      var edge := edges[|edges| - 1];
      var before := ResolveEdges(nodes, edges[..|edges| - 1]);
      if before.Err? then before
      else if Lookup(nodes, edge.from).None? then Err(UnknownNode(edge.from))
      else if Lookup(nodes, edge.to).None? then Err(UnknownNode(edge.to))
      else Ok(before.value + [Route(Lookup(nodes, edge.from).value, Lookup(nodes, edge.to).value, edge)])
  }

  /** The node found is the last one with the id; none is found exactly when there is none. */
  lemma {:induction false} LookupFindsTheLast(nodes: seq<Node>, id: string)
    ensures Lookup(nodes, id).None? <==> forall n :: n in nodes ==> n.id != id
    ensures Lookup(nodes, id).Some? ==>
              exists i :: 0 <= i < |nodes| && nodes[i] == Lookup(nodes, id).value && nodes[i].id == id
                          && forall j :: i < j < |nodes| ==> nodes[j].id != id
  {
    if nodes != [] {
      LookupFindsTheLast(nodes[..|nodes| - 1], id);
      assert nodes == nodes[..|nodes| - 1] + [nodes[|nodes| - 1]];
    }
  }

  predicate IsKnown(nodes: seq<Node>, id: string) {
    exists n :: n in nodes && n.id == id
  }

  predicate HasBothNodes(nodes: seq<Node>, edge: Edge) {
    IsKnown(nodes, edge.from) && IsKnown(nodes, edge.to)
  }

  lemma FoundExactlyWhenKnown(nodes: seq<Node>, edge: Edge)
    ensures Lookup(nodes, edge.from).Some? == IsKnown(nodes, edge.from)
    ensures (Lookup(nodes, edge.from).Some? && Lookup(nodes, edge.to).Some?) == HasBothNodes(nodes, edge)
  {
    LookupFindsTheLast(nodes, edge.from);
    LookupFindsTheLast(nodes, edge.to);
  }

  lemma ResolvesOneMore(nodes: seq<Node>, edges: seq<Edge>)
    requires edges != []
    ensures ResolveEdges(nodes, edges).Ok? ==
            (ResolveEdges(nodes, edges[..|edges| - 1]).Ok? && HasBothNodes(nodes, edges[|edges| - 1]))
  {
    FoundExactlyWhenKnown(nodes, edges[|edges| - 1]);
  }

  predicate AllHaveBothNodes(nodes: seq<Node>, edges: seq<Edge>) {
    forall i :: 0 <= i < |edges| ==> HasBothNodes(nodes, edges[i])
  }

  lemma AllButTheLast(nodes: seq<Node>, edges: seq<Edge>)
    requires edges != []
    ensures AllHaveBothNodes(nodes, edges) ==
            (AllHaveBothNodes(nodes, edges[..|edges| - 1]) && HasBothNodes(nodes, edges[|edges| - 1]))
  {
    var before := edges[..|edges| - 1];
    if AllHaveBothNodes(nodes, edges) {
      assert forall i :: 0 <= i < |before| ==> before[i] == edges[i];
    } else {
      var i :| 0 <= i < |edges| && !HasBothNodes(nodes, edges[i]);
      assert i < |before| ==> before[i] == edges[i];
    }
  }

  /** A scene resolves exactly when every edge has both its nodes. */
  lemma {:induction false} ResolvesExactlyWhen(nodes: seq<Node>, edges: seq<Edge>)
    ensures ResolveEdges(nodes, edges).Ok? == AllHaveBothNodes(nodes, edges)
  {
    if edges != [] {
      ResolvesExactlyWhen(nodes, edges[..|edges| - 1]);
      ResolvesOneMore(nodes, edges);
      AllButTheLast(nodes, edges);
    }
  }

  /** Otherwise it names the missing node of the first edge that lacks one, its source before its target. */
  lemma {:induction false} FailureNamesTheFirst(nodes: seq<Node>, edges: seq<Edge>) returns (i: nat)
    requires ResolveEdges(nodes, edges).Err?
    ensures i < |edges| && forall j :: 0 <= j < i ==> HasBothNodes(nodes, edges[j])
    ensures ResolveEdges(nodes, edges).error.id == if IsKnown(nodes, edges[i].from) then edges[i].to else edges[i].from
    ensures !IsKnown(nodes, ResolveEdges(nodes, edges).error.id)
  {
    var before, edge := edges[..|edges| - 1], edges[|edges| - 1];
    if ResolveEdges(nodes, before).Err? {
      i := FailureNamesTheFirst(nodes, before);
    } else {
      i := |before|;
      ResolvesExactlyWhen(nodes, before);
      FoundExactlyWhenKnown(nodes, edge);
      assert forall j :: 0 <= j < i ==> before[j] == edges[j];
    }
  }

  // ----- What a route looks like ------------------------------------------------------------------

  predicate AxisParallel(p: Point, q: Point) {
    p.x == q.x || p.y == q.y
  }

  function Manhattan(p: Point, q: Point): real {
    Abs(p.x - q.x) + Abs(p.y - q.y)
  }

  /** The run meets the face at a right angle. */
  predicate SquareTo(side: Side, p: Point, q: Point) {
    if IsVertical(side) then p.x == q.x else p.y == q.y
  }

  /** Three axis-parallel runs, the outer two square to the source's face. */
  predicate IsElbow(points: seq<Point>, from: Side) {
    && |points| == 4
    && (forall i :: 0 <= i < 3 ==> AxisParallel(points[i], points[i + 1]))
    && SquareTo(from, points[0], points[1]) && SquareTo(from, points[2], points[3])
  }

  lemma RouteIsOrthogonal(a: Node, b: Node, edge: Edge)
    ensures var (points, sides) := (Route(a, b, edge).points, ResolveSides(a, b, edge));
            && points[0] == Start(a, b, edge) && points[|points| - 1] == End(a, b, edge)
            && (if Misaligned(IsVertical(sides.0), Start(a, b, edge), End(a, b, edge)) && !edge.straight
                then IsElbow(points, sides.0) else |points| == 2)
            && (!edge.straight ==>
                  var start, end := points[0], points[|points| - 1];
                  |points| == 4 <==> (if sides.0.Top? || sides.0.Bottom? then Abs(end.x - start.x) else Abs(end.y - start.y)) > 2.0)
  {
  }

  /**
    The label is on the middle run, half way; without fractions so are the
    arrow's ends on their faces, and the elbow. A declared elbow is at its
    fraction of the way.
   */
  lemma DefaultsAreHalfWay(a: Node, b: Node, edge: Edge)
    ensures var (points, anchor) := (Route(a, b, edge).points, Route(a, b, edge).labelAt);
            && (|points| == 2 ==> anchor == At(points[0], points[1], 0.5))
            && (|points| == 4 ==> anchor == At(points[1], points[2], 0.5))
            && (edge.fromT.None? ==> IsHalfWay(points[0], a, ResolveSides(a, b, edge).0))
            && (edge.toT.None? ==> IsHalfWay(points[|points| - 1], b, ResolveSides(a, b, edge).1))
            && (edge.elbow.None? && |points| == 4 ==> Manhattan(points[0], points[1]) == Manhattan(points[2], points[3]))
            && (edge.elbow.Some? && |points| == 4 ==>
                  var turn := At(points[0], points[3], edge.elbow.value);
                  points[1].x == turn.x || points[1].y == turn.y)
  {
  }

  /** As far from one end of the face as from the other. */
  predicate IsHalfWay(p: Point, n: Node, side: Side) {
    if IsVertical(side) then p.x - n.x == n.x + n.w - p.x else p.y - n.y == n.y + n.h - p.y
  }

  /** Declared faces are kept; without one, the source has the automatic face and the target the opposite of the source's. */
  lemma DeclaredSidesAreKept(a: Node, b: Node, edge: Edge)
    ensures var (from, to) := (ResolveSides(a, b, edge).0, ResolveSides(a, b, edge).1);
            && from == (if edge.fromSide.Some? then edge.fromSide.value else AutomaticSide(a, b))
            && (edge.toSide.Some? ==> to == edge.toSide.value)
            && (edge.toSide.None? ==> to != from && (to.Top? || to.Bottom? <==> from.Top? || from.Bottom?))
  {
  }

  function Centre(n: Node): Point {
    Point(n.x + n.w / 2.0, n.y + n.h / 2.0)
  }

  /** The bands of the two boxes on one axis have no common inside. */
  predicate Apart(from: real, size: real, from': real, size': real) {
    from' >= from + size || from >= from' + size'
  }

  /**
    The automatic face looks towards the other box: up or down when one box is
    above the other, sideways when they are only side by side, and along the
    longer way between the centres when they overlap.
   */
  lemma AutomaticSideLooksAcross(a: Node, b: Node)
    requires a.w >= 0.0 && a.h >= 0.0 && b.w >= 0.0 && b.h >= 0.0
    ensures var (side, ca, cb) := (AutomaticSide(a, b), Centre(a), Centre(b));
            && (match side
                case Bottom => ca.y <= cb.y
                case Top => cb.y <= ca.y
                case Right => ca.x <= cb.x
                case Left => cb.x <= ca.x)
            && (IsVertical(side) <==>
                  Apart(a.y, a.h, b.y, b.h) || (!Apart(a.x, a.w, b.x, b.w) && Abs(cb.y - ca.y) >= Abs(cb.x - ca.x)))
  {
  }

  lemma ArrivesSquarelyExactlyWhen(a: Node, b: Node, edge: Edge)
    requires |Route(a, b, edge).points| == 4
    ensures var (points, sides) := (Route(a, b, edge).points, ResolveSides(a, b, edge));
            SquareTo(sides.1, points[2], points[3]) <==>
              IsVertical(sides.0) == IsVertical(sides.1) || points[2] == points[3]
  {
  }

  lemma ProductIsNotNegative(a: real, b: real)
    requires a >= 0.0 && b >= 0.0
    ensures a * b >= 0.0
  {
  }

  lemma LerpIsBetween(u: real, v: real, lo: real, hi: real, t: real)
    requires 0.0 <= t <= 1.0 && lo <= u <= hi && lo <= v <= hi
    ensures lo <= Lerp(u, v, t) <= hi
  {
    if u <= v {
      assert (v - u) * t >= 0.0 by { ProductIsNotNegative(v - u, t); }
      assert (v - u) * (1.0 - t) >= 0.0 by { ProductIsNotNegative(v - u, 1.0 - t); }
    } else {
      assert (u - v) * t >= 0.0 by { ProductIsNotNegative(u - v, t); }
      assert (u - v) * (1.0 - t) >= 0.0 by { ProductIsNotNegative(u - v, 1.0 - t); }
    }
  }

  lemma LerpIsMonotone(u: real, v: real, t0: real, t: real, t1: real)
    requires t0 <= t <= t1
    ensures Lerp(u, v, t0) <= Lerp(u, v, t) <= Lerp(u, v, t1) || Lerp(u, v, t1) <= Lerp(u, v, t) <= Lerp(u, v, t0)
  {
    if u <= v {
      assert (v - u) * (t - t0) >= 0.0 by { ProductIsNotNegative(v - u, t - t0); }
      assert (v - u) * (t1 - t) >= 0.0 by { ProductIsNotNegative(v - u, t1 - t); }
    } else {
      assert (u - v) * (t - t0) >= 0.0 by { ProductIsNotNegative(u - v, t - t0); }
      assert (u - v) * (t1 - t) >= 0.0 by { ProductIsNotNegative(u - v, t1 - t); }
    }
  }

  lemma LerpSplitsDistance(u: real, v: real, t: real)
    requires 0.0 <= t <= 1.0
    ensures Abs(u - Lerp(u, v, t)) + Abs(Lerp(u, v, t) - v) == Abs(u - v)
  {
    LerpIsBetween(u, v, if u <= v then u else v, if u <= v then v else u, t);
  }

  /** With its elbow inside the gap, the detour costs nothing: the runs add up to the Manhattan distance. */
  lemma ElbowIsShortest(a: Node, b: Node, edge: Edge)
    requires |Route(a, b, edge).points| == 4 && 0.0 <= GetOr(edge.elbow, 0.5) <= 1.0
    ensures Length3(Route(a, b, edge).points) == Manhattan(Start(a, b, edge), End(a, b, edge))
  {
    var start, end := Start(a, b, edge), End(a, b, edge);
    LerpSplitsDistance(start.y, end.y, GetOr(edge.elbow, 0.5));
    LerpSplitsDistance(start.x, end.x, GetOr(edge.elbow, 0.5));
  }

  function Length3(points: seq<Point>): real
    requires |points| == 4
  {
    Manhattan(points[0], points[1]) + Manhattan(points[1], points[2]) + Manhattan(points[2], points[3])
  }

  /** The boxes leave room for both arrow gaps on the automatic axis. */
  predicate Separated(a: Node, b: Node, side: Side) {
    match side
    case Bottom => b.y >= a.y + a.h + 2.0 * ARROW_GAP
    case Top => a.y >= b.y + b.h + 2.0 * ARROW_GAP
    case Right => b.x >= a.x + a.w + 2.0 * ARROW_GAP
    case Left => a.x >= b.x + b.w + 2.0 * ARROW_GAP
  }

  predicate Overlaps(n: Node, p: Point) {
    n.x < p.x < n.x + n.w && n.y < p.y < n.y + n.h
  }

  function At(p: Point, q: Point, t: real): Point {
    Point(Lerp(p.x, q.x, t), Lerp(p.y, q.y, t))
  }

  /** The band of points that the two faces leave free, on the axis of the source's face. */
  predicate InGap(a: Node, b: Node, side: Side, p: Point) {
    match side
    case Bottom => a.y + a.h + ARROW_GAP <= p.y <= b.y - ARROW_GAP
    case Top => b.y + b.h + ARROW_GAP <= p.y <= a.y - ARROW_GAP
    case Right => a.x + a.w + ARROW_GAP <= p.x <= b.x - ARROW_GAP
    case Left => b.x + b.w + ARROW_GAP <= p.x <= a.x - ARROW_GAP
  }

  lemma CornersInGap(a: Node, b: Node, edge: Edge, i: nat)
    requires edge.fromSide.None? && edge.toSide.None? && Separated(a, b, AutomaticSide(a, b))
    requires 0.0 <= GetOr(edge.elbow, 0.5) <= 1.0 && i < |Route(a, b, edge).points|
    ensures InGap(a, b, AutomaticSide(a, b), Route(a, b, edge).points[i])
  {
    var start, end, t := Start(a, b, edge), End(a, b, edge), GetOr(edge.elbow, 0.5);
    match AutomaticSide(a, b) {
      case Bottom => LerpIsBetween(start.y, end.y, start.y, end.y, t);
      case Top => LerpIsBetween(start.y, end.y, end.y, start.y, t);
      case Right => LerpIsBetween(start.x, end.x, start.x, end.x, t);
      case Left => LerpIsBetween(start.x, end.x, end.x, start.x, t);
    }
  }

  /** An automatic route between separated boxes stays in the gap, so it crosses neither of its own boxes. */
  lemma RouteStaysInTheGap(a: Node, b: Node, edge: Edge, i: nat, t: real)
    requires edge.fromSide.None? && edge.toSide.None? && Separated(a, b, AutomaticSide(a, b))
    requires 0.0 <= GetOr(edge.elbow, 0.5) <= 1.0 && i + 1 < |Route(a, b, edge).points| && 0.0 <= t <= 1.0
    ensures var p := At(Route(a, b, edge).points[i], Route(a, b, edge).points[i + 1], t);
            InGap(a, b, AutomaticSide(a, b), p) && !Overlaps(a, p) && !Overlaps(b, p)
  {
    var p, q := Route(a, b, edge).points[i], Route(a, b, edge).points[i + 1];
    CornersInGap(a, b, edge, i);
    CornersInGap(a, b, edge, i + 1);
    match AutomaticSide(a, b) {
      case Bottom => LerpIsBetween(p.y, q.y, a.y + a.h + ARROW_GAP, b.y - ARROW_GAP, t);
      case Top => LerpIsBetween(p.y, q.y, b.y + b.h + ARROW_GAP, a.y - ARROW_GAP, t);
      case Right => LerpIsBetween(p.x, q.x, a.x + a.w + ARROW_GAP, b.x - ARROW_GAP, t);
      case Left => LerpIsBetween(p.x, q.x, b.x + b.w + ARROW_GAP, a.x - ARROW_GAP, t);
    }
  }

  // ----- The crossing check -----------------------------------------------------------------------

  /** `Math.hypot`, in exact arithmetic. */
  predicate IsHypot(dx: real, dy: real, length: real) {
    length >= 0.0 && length * length == dx * dx + dy * dy
  }

  function Ceil(r: real): int {
    -(-r).Floor
  }

  function Steps(length: real): (steps: nat)
    ensures steps >= 2
  {
    if Ceil(length / 2.0) > 2 then Ceil(length / 2.0) else 2
  }

  predicate Inside(p: Point, n: Node) {
    n.x + INSET < p.x < n.x + n.w - INSET && n.y + INSET < p.y < n.y + n.h - INSET
  }

  function Sample(p: Point, q: Point, s: nat, steps: nat): Point
    requires steps > 0
  {
    At(p, q, s as real / steps as real)
  }

  /** One of the samples of the segment lies in the node's inset interior. */
  predicate Hits(p: Point, q: Point, length: real, n: Node) {
    exists s: nat :: s <= Steps(length) && Inside(Sample(p, q, s, Steps(length)), n)
  }

  predicate Near(tip: Point, target: Node) {
    target.x - 12.0 <= tip.x <= target.x + target.w + 12.0 && target.y - 12.0 <= tip.y <= target.y + target.h + 12.0
  }

  /** What the check needs of its routes, and every resolved scene has. */
  predicate IsRouted(routes: seq<Routed>, nodes: seq<Node>) {
    forall r :: r in routes ==> |r.points| >= 2 && Lookup(nodes, r.edge.to).Some?
  }

  datatype Problem = PassesThrough(from: string, to: string, node: string) | MissesTarget(from: string, to: string)

  /** The distance function is a parameter: the real square root is not computable. */
  class Geometry {
    const hypot: (real, real) -> real

    ghost predicate Valid() {
      forall dx, dy :: IsHypot(dx, dy, hypot(dx, dy))
    }

    constructor (hypot: (real, real) -> real)
      requires forall dx, dy :: IsHypot(dx, dy, hypot(dx, dy))
      ensures Valid() && this.hypot == hypot
    {
      this.hypot := hypot;
    }

    function Length(p: Point, q: Point): real {
      hypot(q.x - p.x, q.y - p.y)
    }

    /** The problems of one segment, node by node; the edge's own two nodes are skipped. */
    function OfSegment(edge: Edge, p: Point, q: Point, nodes: seq<Node>): seq<Problem> {
      if nodes == [] then []
      else
        var n := nodes[|nodes| - 1];
        OfSegment(edge, p, q, nodes[..|nodes| - 1])
        + if n.id != edge.from && n.id != edge.to && Hits(p, q, Length(p, q), n)
          then [PassesThrough(edge.from, edge.to, n.id)] else []
    }

    function OfRoute(edge: Edge, points: seq<Point>, nodes: seq<Node>): seq<Problem> {
      if |points| < 2 then []
      else OfRoute(edge, points[..|points| - 1], nodes) + OfSegment(edge, points[|points| - 2], points[|points| - 1], nodes)
    }

    /** Everything wrong with one edge: its crossings, then whether its tip is near the node it points at. */
    function OfEdge(route: Routed, nodes: seq<Node>): seq<Problem>
      requires |route.points| >= 2 && Lookup(nodes, route.edge.to).Some?
    {
      OfRoute(route.edge, route.points, nodes)
      + if Near(route.points[|route.points| - 1], Lookup(nodes, route.edge.to).value) then []
        else [MissesTarget(route.edge.from, route.edge.to)]
    }

    function OfScene(routes: seq<Routed>, nodes: seq<Node>): seq<Problem>
      requires IsRouted(routes, nodes)
    {
      if routes == [] then [] else OfScene(routes[..|routes| - 1], nodes) + OfEdge(routes[|routes| - 1], nodes)
    }

    lemma SceneGrows(routes: seq<Routed>, nodes: seq<Node>, i: nat)
      requires IsRouted(routes, nodes) && i < |routes|
      ensures OfScene(routes[..i + 1], nodes) == OfScene(routes[..i], nodes) + OfEdge(routes[i], nodes)
    {
      assert routes[..i + 1][..i] == routes[..i];
    }

    /** The inner loop: sample until one is inside. */
    method SampleSegment(p: Point, q: Point, n: Node) returns (inside: bool)
      ensures inside <==> Hits(p, q, Length(p, q), n)
    {
      var steps := Steps(Length(p, q));
      var s: nat := 0;
      while s <= steps
        invariant s <= steps + 1
        invariant forall i: nat :: i < s ==> !Inside(Sample(p, q, i, steps), n)
      {
        if Inside(Sample(p, q, s, steps), n) {
          return true;
        }
        s := s + 1;
      }
      inside := false;
    }

    /** The first half of the loop over the edges: every segment against every unrelated node. */
    method ValidateRoute(route: Routed, nodes: seq<Node>) returns (problems: seq<Problem>)
      requires |route.points| >= 2
      ensures problems == OfRoute(route.edge, route.points, nodes)
    {
      problems := [];
      var i := 0;
      while i < |route.points| - 1
        invariant 0 <= i <= |route.points| - 1
        invariant problems == OfRoute(route.edge, route.points[..i + 1], nodes)
      {
        var p, q := route.points[i], route.points[i + 1];
        ghost var before := problems;
        var k := 0;
        while k < |nodes|
          invariant 0 <= k <= |nodes|
          invariant problems == before + OfSegment(route.edge, p, q, nodes[..k])
        {
          var n := nodes[k];
          assert nodes[..k + 1][..k] == nodes[..k];
          if n.id != route.edge.from && n.id != route.edge.to {
            var inside := SampleSegment(p, q, n);
            if inside {
              problems := problems + [PassesThrough(route.edge.from, route.edge.to, n.id)];
            }
          }
          k := k + 1;
        }
        assert nodes[..k] == nodes;
        assert route.points[..i + 2][..i + 1] == route.points[..i + 1];
        i := i + 1;
      }
      assert route.points[..i + 1] == route.points;
    }

    /** One round of the loop over the edges. */
    method ValidateEdge(route: Routed, nodes: seq<Node>) returns (problems: seq<Problem>)
      requires |route.points| >= 2 && Lookup(nodes, route.edge.to).Some?
      ensures problems == OfEdge(route, nodes)
    {
      problems := ValidateRoute(route, nodes);
      var target := Lookup(nodes, route.edge.to).value;
      if !Near(route.points[|route.points| - 1], target) {
        problems := problems + [MissesTarget(route.edge.from, route.edge.to)];
      }
    }

    /** The loop over the edges of a routed scene; `ResolveEdges` returns no edge with an unknown node. */
    method ValidateGeometry(routes: seq<Routed>, nodes: seq<Node>) returns (problems: seq<Problem>)
      requires IsRouted(routes, nodes)
      ensures problems == OfScene(routes, nodes)
    {
      problems := [];
      var i := 0;
      while i < |routes|
        invariant 0 <= i <= |routes|
        invariant problems == OfScene(routes[..i], nodes)
      {
        var found := ValidateEdge(routes[i], nodes);
        SceneGrows(routes, nodes, i);
        problems := problems + found;
        i := i + 1;
      }
      assert routes[..i] == routes;
    }
  }

  /** Within the tolerance of each other on both axes. */
  predicate Touches(p: Point, q: Point) {
    -INSET <= q.x - p.x <= INSET && -INSET <= q.y - p.y <= INSET
  }

  /** The inset interior: the points all of whose surroundings, three units each way, lie within the box. */
  lemma InsideExactlyWhen(p: Point, n: Node)
    ensures Inside(p, n) <==> forall q :: Touches(p, q) ==> Overlaps(n, q)
  {
    if forall q :: Touches(p, q) ==> Overlaps(n, q) {
      assert Touches(p, Point(p.x - INSET, p.y - INSET)) && Touches(p, Point(p.x + INSET, p.y + INSET));
    }
  }

  // ----- Sound, and complete to two units ---------------------------------------------------------

  /** Everything between two points inside is inside. */
  lemma InsideIsConvex(p: Point, q: Point, n: Node, t0: real, t: real, t1: real)
    requires t0 <= t <= t1 && Inside(At(p, q, t0), n) && Inside(At(p, q, t1), n)
    ensures Inside(At(p, q, t), n)
  {
    LerpIsMonotone(p.x, q.x, t0, t, t1);
    LerpIsMonotone(p.y, q.y, t0, t, t1);
  }

  /** Samples are at most two units apart. */
  lemma SpacingIsAtMostTwo(length: real)
    requires length >= 0.0
    ensures length / Steps(length) as real <= 2.0
  {
    var steps := Steps(length) as real;
    assert steps >= length / 2.0;
    assert 2.0 * steps >= length;
  }

  /** Every report is a true crossing. */
  lemma ReportsAreCrossings(p: Point, q: Point, length: real, n: Node)
    requires Hits(p, q, length, n)
    ensures exists t :: 0.0 <= t <= 1.0 && Inside(At(p, q, t), n)
  {
    var steps := Steps(length);
    var s: nat :| s <= steps && Inside(Sample(p, q, s, steps), n);
    var t := s as real / steps as real;
    Divides(s as real, steps as real, 0.0, 1.0);
    assert Inside(At(p, q, t), n);
  }

  /** A segment that runs two units or more inside is reported. */
  lemma LongCrossingsAreReported(p: Point, q: Point, length: real, n: Node, t0: real, t1: real)
    requires length >= 0.0 && 0.0 <= t0 <= t1 <= 1.0 && (t1 - t0) * length >= 2.0
    requires Inside(At(p, q, t0), n) && Inside(At(p, q, t1), n)
    ensures Hits(p, q, length, n)
  {
    var steps := Steps(length);
    var s := SampleWithin(length, t0, t1);
    InsideIsConvex(p, q, n, t0, s as real / steps as real, t1);
    assert Inside(Sample(p, q, s, steps), n);
  }

  lemma SampleWithin(length: real, t0: real, t1: real) returns (s: nat)
    requires length >= 0.0 && 0.0 <= t0 <= t1 <= 1.0 && (t1 - t0) * length >= 2.0
    ensures s <= Steps(length) && t0 <= s as real / Steps(length) as real <= t1
  {
    var steps := Steps(length) as real;
    s := Ceil(t0 * steps);
    EnoughSteps(length, steps, t0, t1);
    Divides(s as real, steps, t0, t1);
  }

  lemma EnoughSteps(length: real, steps: real, t0: real, t1: real)
    requires 0.0 <= t0 <= t1 <= 1.0 && (t1 - t0) * length >= 2.0 && 2.0 * steps >= length && steps > 0.0
    ensures 0.0 <= t0 * steps && t0 * steps + 1.0 <= t1 * steps <= steps
  {
    assert (t1 - t0) * (2.0 * steps - length) >= 0.0 by { ProductIsNotNegative(t1 - t0, 2.0 * steps - length); }
    assert t0 * steps >= 0.0 by { ProductIsNotNegative(t0, steps); }
    assert (1.0 - t1) * steps >= 0.0 by { ProductIsNotNegative(1.0 - t1, steps); }
  }

  lemma Divides(s: real, steps: real, t0: real, t1: real)
    requires steps > 0.0 && t0 * steps <= s <= t1 * steps
    ensures t0 <= s / steps <= t1
  {
    var t := s / steps;
    assert t * steps == s;
  }

  /** The bound is sharp: for every length below two, a segment can run that far inside between two samples. */
  lemma ShortCrossingsCanHide(d: real)
    requires 0.0 < d < 2.0
    ensures var e := (2.0 - d) / 4.0;
            var p, q, n := Point(0.0, 0.0), Point(10.0, 0.0), Node("n", e - INSET, -5.0, 2.0 - 2.0 * e + 2.0 * INSET, 10.0);
            var t0, t1 := (2.0 - d) / 20.0, (2.0 + d) / 20.0;
            && IsHypot(10.0, 0.0, 10.0) && 0.0 <= t0 <= t1 <= 1.0 && (t1 - t0) * 10.0 == d
            && Inside(At(p, q, t0), n) && Inside(At(p, q, t1), n) && !Hits(p, q, 10.0, n)
  {
    assert Steps(10.0) == 5;
  }

  // ----- The checks on a whole scene --------------------------------------------------------------

  predicate Unrelated(edge: Edge, n: Node) {
    n.id != edge.from && n.id != edge.to
  }

  lemma {:induction false} SegmentReports(g: Geometry, edge: Edge, p: Point, q: Point, nodes: seq<Node>, problem: Problem)
    ensures problem in g.OfSegment(edge, p, q, nodes) <==>
              exists n :: n in nodes && Unrelated(edge, n) && Hits(p, q, g.Length(p, q), n)
                          && problem == PassesThrough(edge.from, edge.to, n.id)
  {
    if nodes != [] {
      SegmentReports(g, edge, p, q, nodes[..|nodes| - 1], problem);
      assert nodes == nodes[..|nodes| - 1] + [nodes[|nodes| - 1]];
    }
  }

  /** A problem of a route is a problem of one of its segments. */
  lemma {:induction false} RouteReports(g: Geometry, edge: Edge, points: seq<Point>, nodes: seq<Node>, problem: Problem)
    ensures problem in g.OfRoute(edge, points, nodes) <==>
              exists i :: 0 <= i < |points| - 1 && problem in g.OfSegment(edge, points[i], points[i + 1], nodes)
  {
    if |points| >= 2 {
      var shorter := points[..|points| - 1];
      RouteReports(g, edge, shorter, nodes, problem);
      assert forall i :: 0 <= i < |shorter| ==> shorter[i] == points[i];
    }
  }

  /** Run `k` of the route has the points at `t0` and `t1`, in this order, inside the node. */
  predicate RunsInside(route: Routed, k: nat, n: Node, t0: real, t1: real) {
    && k + 1 < |route.points| && 0.0 <= t0 <= t1 <= 1.0
    && Inside(At(route.points[k], route.points[k + 1], t0), n) && Inside(At(route.points[k], route.points[k + 1], t1), n)
  }

  function RunLength(g: Geometry, route: Routed, k: nat, t0: real, t1: real): real
    requires k + 1 < |route.points|
  {
    (t1 - t0) * g.Length(route.points[k], route.points[k + 1])
  }

  /** If the check finds nothing, no run of the route has two units or more in an unrelated node's inset interior. */
  lemma CleanRouteCrossesNothing(g: Geometry, route: Routed, nodes: seq<Node>, k: nat, n: Node, t0: real, t1: real)
    requires g.Valid() && g.OfRoute(route.edge, route.points, nodes) == []
    requires n in nodes && Unrelated(route.edge, n) && RunsInside(route, k, n, t0, t1)
    ensures RunLength(g, route, k, t0, t1) < 2.0
  {
    var p, q := route.points[k], route.points[k + 1];
    var problem := PassesThrough(route.edge.from, route.edge.to, n.id);
    assert IsHypot(q.x - p.x, q.y - p.y, g.Length(p, q));
    if (t1 - t0) * g.Length(p, q) >= 2.0 {
      LongCrossingsAreReported(p, q, g.Length(p, q), n, t0, t1);
      SegmentReports(g, route.edge, p, q, nodes, problem);
      RouteReports(g, route.edge, route.points, nodes, problem);
      assert false;
    }
  }

  lemma SegmentEndsAreSamples(p: Point, q: Point, length: real, n: Node)
    requires Inside(p, n) || Inside(q, n)
    ensures Hits(p, q, length, n)
  {
    var steps := Steps(length);
    assert Sample(p, q, 0, steps) == p && Sample(p, q, steps, steps) == q;
  }

  lemma RunEndsAreClear(g: Geometry, route: Routed, nodes: seq<Node>, i: nat, n: Node)
    requires g.OfRoute(route.edge, route.points, nodes) == [] && n in nodes && Unrelated(route.edge, n)
    requires i + 1 < |route.points|
    ensures !Inside(route.points[i], n) && !Inside(route.points[i + 1], n)
  {
    var p, q := route.points[i], route.points[i + 1];
    var problem := PassesThrough(route.edge.from, route.edge.to, n.id);
    if Inside(p, n) || Inside(q, n) {
      SegmentEndsAreSamples(p, q, g.Length(p, q), n);
      SegmentReports(g, route.edge, p, q, nodes, problem);
      RouteReports(g, route.edge, route.points, nodes, problem);
      assert false;
    }
  }

  /** And no corner or end of it lies there. */
  lemma CleanRouteHasClearCorners(g: Geometry, route: Routed, nodes: seq<Node>, k: nat, n: Node)
    requires g.OfRoute(route.edge, route.points, nodes) == [] && n in nodes && Unrelated(route.edge, n)
    requires |route.points| >= 2 && k < |route.points|
    ensures !Inside(route.points[k], n)
  {
    RunEndsAreClear(g, route, nodes, if k == 0 then 0 else k - 1, n);
  }

  predicate CrossesAt(route: Routed, i: nat, n: Node, t: real) {
    i + 1 < |route.points| && 0.0 <= t <= 1.0 && Inside(At(route.points[i], route.points[i + 1], t), n)
  }

  /** And whatever it reports, some unrelated node of that id holds a point of the route. */
  lemma EveryReportIsACrossing(g: Geometry, route: Routed, nodes: seq<Node>, problem: Problem)
    requires problem in g.OfRoute(route.edge, route.points, nodes)
    ensures exists i: nat, n, t ::
              && CrossesAt(route, i, n, t) && n in nodes && Unrelated(route.edge, n)
              && problem == PassesThrough(route.edge.from, route.edge.to, n.id)
  {
    RouteReports(g, route.edge, route.points, nodes, problem);
    var i: nat :| i + 1 < |route.points|
             && problem in g.OfSegment(route.edge, route.points[i], route.points[i + 1], nodes);
    var p, q := route.points[i], route.points[i + 1];
    SegmentReports(g, route.edge, p, q, nodes, problem);
    var n :| n in nodes && Unrelated(route.edge, n) && Hits(p, q, g.Length(p, q), n)
             && problem == PassesThrough(route.edge.from, route.edge.to, n.id);
    ReportsAreCrossings(p, q, g.Length(p, q), n);
    var t :| 0.0 <= t <= 1.0 && Inside(At(p, q, t), n);
    assert CrossesAt(route, i, n, t);
  }

  /** A resolved edge has both its nodes, and is routed between them. */
  lemma {:induction false} ResolvedEdgesAreRouted(nodes: seq<Node>, edges: seq<Edge>, i: nat)
    requires ResolveEdges(nodes, edges).Ok? && i < |edges|
    ensures |ResolveEdges(nodes, edges).value| == |edges|
    ensures Lookup(nodes, edges[i].from).Some? && Lookup(nodes, edges[i].to).Some?
    ensures ResolveEdges(nodes, edges).value[i]
         == Route(Lookup(nodes, edges[i].from).value, Lookup(nodes, edges[i].to).value, edges[i])
  {
    var shorter := edges[..|edges| - 1];
    if i < |shorter| {
      ResolvedEdgesAreRouted(nodes, shorter, i);
    } else if |shorter| > 0 {
      ResolvedEdgesAreRouted(nodes, shorter, 0);
    }
  }

  lemma RouteEndsAtEnd(a: Node, b: Node, edge: Edge)
    ensures var points := Route(a, b, edge).points; points[|points| - 1] == End(a, b, edge)
  {
  }

  function FaceSize(n: Node, side: Side): real {
    if IsVertical(side) then n.w else n.h
  }

  /** A fraction `t` of the face lies at most 12 beyond either end of it. */
  predicate NearFace(size: real, t: real) {
    -12.0 <= size * t <= size + 12.0
  }

  lemma SidePointIsNear(n: Node, side: Side, t: real)
    requires n.w >= 0.0 && n.h >= 0.0
    ensures Near(SidePoint(n, side, t), n) <==> NearFace(FaceSize(n, side), t)
  {
  }

  /**
    Every edge of a resolved scene runs from its source's face to its target's:
    straight, or by an elbow square to the source's face, and to the target's
    exactly when both faces point the same way or the last run has no length.
   */
  lemma ResolvedEdgesAreOrthogonal(nodes: seq<Node>, edges: seq<Edge>, i: nat)
    requires ResolveEdges(nodes, edges).Ok? && i < |edges|
    ensures |ResolveEdges(nodes, edges).value| == |edges|
    ensures Lookup(nodes, edges[i].from).Some? && Lookup(nodes, edges[i].to).Some?
    ensures var (a, b) := (Lookup(nodes, edges[i].from).value, Lookup(nodes, edges[i].to).value);
            var (points, sides) := (Route(a, b, edges[i]).points, ResolveSides(a, b, edges[i]));
            && ResolveEdges(nodes, edges).value[i].points == points
            && points[0] == Start(a, b, edges[i]) && points[|points| - 1] == End(a, b, edges[i])
            && (|points| == 2
                || (IsElbow(points, sides.0)
                    && (SquareTo(sides.1, points[2], points[3]) <==>
                          IsVertical(sides.0) == IsVertical(sides.1) || points[2] == points[3])))
  {
    ResolvedEdgesAreRouted(nodes, edges, i);
    var a, b := Lookup(nodes, edges[i].from).value, Lookup(nodes, edges[i].to).value;
    RouteIsOrthogonal(a, b, edges[i]);
    if |Route(a, b, edges[i]).points| == 4 {
      ArrivesSquarelyExactlyWhen(a, b, edges[i]);
    }
  }

  /** The tip of a routed edge passes the landing check exactly while `toT` keeps it within 12 of the face. */
  lemma TipLandsExactlyWhen(a: Node, b: Node, edge: Edge)
    requires b.w >= 0.0 && b.h >= 0.0
    ensures var points := Route(a, b, edge).points;
            Near(points[|points| - 1], b) <==> NearFace(FaceSize(b, ResolveSides(a, b, edge).1), GetOr(edge.toT, 0.5))
  {
    RouteEndsAtEnd(a, b, edge);
    SidePointIsNear(b, ResolveSides(a, b, edge).1, GetOr(edge.toT, 0.5));
  }

  /** So an edge that arrives on its face always lands. */
  lemma TipOnTheFaceLands(a: Node, b: Node, edge: Edge)
    requires b.w >= 0.0 && b.h >= 0.0 && 0.0 <= GetOr(edge.toT, 0.5) <= 1.0
    ensures Near(Route(a, b, edge).points[|Route(a, b, edge).points| - 1], b)
  {
    FractionOfFace(FaceSize(b, ResolveSides(a, b, edge).1), GetOr(edge.toT, 0.5));
    TipLandsExactlyWhen(a, b, edge);
  }

  lemma FractionOfFace(size: real, t: real)
    requires size >= 0.0 && 0.0 <= t <= 1.0
    ensures NearFace(size, t)
  {
    assert size * t >= 0.0 by { ProductIsNotNegative(size, t); }
    assert size * (1.0 - t) >= 0.0 by { ProductIsNotNegative(size, 1.0 - t); }
  }

  // ----- From the declared scene to the verdict ---------------------------------------------------

  lemma {:induction false} ResolvedScenesAreRouted(nodes: seq<Node>, edges: seq<Edge>)
    requires ResolveEdges(nodes, edges).Ok?
    ensures IsRouted(ResolveEdges(nodes, edges).value, nodes)
  {
    if edges != [] {
      ResolvedScenesAreRouted(nodes, edges[..|edges| - 1]);
    }
  }

  /** The problems of a scene are the problems of its edges, no more and no fewer. */
  lemma {:induction false} SceneReports(g: Geometry, routes: seq<Routed>, nodes: seq<Node>, problem: Problem)
    requires IsRouted(routes, nodes)
    ensures problem in g.OfScene(routes, nodes)
       <==> exists r :: r in routes && problem in g.OfEdge(r, nodes)
  {
    if routes != [] {
      var init, last := routes[..|routes| - 1], routes[|routes| - 1];
      SceneReports(g, init, nodes, problem);
      assert routes == init + [last];
    }
  }

  lemma CleanSceneHasCleanEdges(g: Geometry, routes: seq<Routed>, nodes: seq<Node>, r: Routed)
    requires IsRouted(routes, nodes) && g.OfScene(routes, nodes) == [] && r in routes
    ensures g.OfRoute(r.edge, r.points, nodes) == []
    ensures Near(r.points[|r.points| - 1], Lookup(nodes, r.edge.to).value)
  {
    if g.OfEdge(r, nodes) != [] {
      SceneReports(g, routes, nodes, g.OfEdge(r, nodes)[0]);
      assert false;
    }
  }

  /** The route of a declared edge between the nodes it names. */
  function RouteOf(nodes: seq<Node>, edge: Edge): Routed
    requires Lookup(nodes, edge.from).Some? && Lookup(nodes, edge.to).Some?
  {
    Route(Lookup(nodes, edge.from).value, Lookup(nodes, edge.to).value, edge)
  }

  /** The declared scene resolves, and the check of the resolved scene finds nothing. */
  ghost predicate PassesCheck(g: Geometry, nodes: seq<Node>, edges: seq<Edge>) {
    var resolved := ResolveEdges(nodes, edges);
    resolved.Ok? && (ResolvedScenesAreRouted(nodes, edges); g.OfScene(resolved.value, nodes) == [])
  }

  lemma PassedEdgesAreClean(g: Geometry, nodes: seq<Node>, edges: seq<Edge>, i: nat)
    requires PassesCheck(g, nodes, edges) && i < |edges|
    ensures Lookup(nodes, edges[i].from).Some? && Lookup(nodes, edges[i].to).Some?
    ensures var route := RouteOf(nodes, edges[i]);
            && g.OfRoute(edges[i], route.points, nodes) == []
            && Near(route.points[|route.points| - 1], Lookup(nodes, edges[i].to).value)
  {
    var routes := ResolveEdges(nodes, edges).value;
    ResolvedScenesAreRouted(nodes, edges);
    ResolvedEdgesAreRouted(nodes, edges, i);
    assert routes[i] == RouteOf(nodes, edges[i]);
    CleanSceneHasCleanEdges(g, routes, nodes, routes[i]);
  }

  /** Every edge of a scene that passes has less than two units of any run inside any node but its own two. */
  lemma PassedScenesCrossNothing(g: Geometry, nodes: seq<Node>, edges: seq<Edge>, i: nat, k: nat, n: Node, t0: real, t1: real)
    requires g.Valid() && PassesCheck(g, nodes, edges) && i < |edges|
    requires Lookup(nodes, edges[i].from).Some? && Lookup(nodes, edges[i].to).Some?
    requires n in nodes && Unrelated(edges[i], n) && RunsInside(RouteOf(nodes, edges[i]), k, n, t0, t1)
    ensures RunLength(g, RouteOf(nodes, edges[i]), k, t0, t1) < 2.0
  {
    PassedEdgesAreClean(g, nodes, edges, i);
    CleanRouteCrossesNothing(g, RouteOf(nodes, edges[i]), nodes, k, n, t0, t1);
  }

  /** None of its corners is inside one either. */
  lemma PassedScenesHaveClearCorners(g: Geometry, nodes: seq<Node>, edges: seq<Edge>, i: nat, k: nat, n: Node)
    requires PassesCheck(g, nodes, edges) && i < |edges|
    requires Lookup(nodes, edges[i].from).Some? && Lookup(nodes, edges[i].to).Some?
    requires n in nodes && Unrelated(edges[i], n) && k < |RouteOf(nodes, edges[i]).points|
    ensures !Inside(RouteOf(nodes, edges[i]).points[k], n)
  {
    PassedEdgesAreClean(g, nodes, edges, i);
    CleanRouteHasClearCorners(g, RouteOf(nodes, edges[i]), nodes, k, n);
  }

  /** And its tip lies within 12 of the face it was sent to. */
  lemma PassedScenesLand(g: Geometry, nodes: seq<Node>, edges: seq<Edge>, i: nat)
    requires PassesCheck(g, nodes, edges) && i < |edges|
    ensures Lookup(nodes, edges[i].from).Some? && Lookup(nodes, edges[i].to).Some?
    ensures var (a, b) := (Lookup(nodes, edges[i].from).value, Lookup(nodes, edges[i].to).value);
            b.w >= 0.0 && b.h >= 0.0 ==> NearFace(FaceSize(b, ResolveSides(a, b, edges[i]).1), GetOr(edges[i].toT, 0.5))
  {
    PassedEdgesAreClean(g, nodes, edges, i);
    var a, b := Lookup(nodes, edges[i].from).value, Lookup(nodes, edges[i].to).value;
    if b.w >= 0.0 && b.h >= 0.0 {
      TipLandsExactlyWhen(a, b, edges[i]);
    }
  }

  /** The problem is what it says: a point of the route inside an unrelated node, or a tip away from its target. */
  ghost predicate IsTrue(route: Routed, nodes: seq<Node>, problem: Problem)
    requires |route.points| >= 2 && Lookup(nodes, route.edge.to).Some?
  {
    match problem
    case PassesThrough(from, to, node) =>
      from == route.edge.from && to == route.edge.to
      && exists i: nat, n, t :: CrossesAt(route, i, n, t) && n in nodes && Unrelated(route.edge, n) && n.id == node
    case MissesTarget(from, to) =>
      from == route.edge.from && to == route.edge.to
      && !Near(route.points[|route.points| - 1], Lookup(nodes, route.edge.to).value)
  }

  /** Everything the check reports is true of some edge of the scene. */
  lemma EverySceneReportIsTrue(g: Geometry, routes: seq<Routed>, nodes: seq<Node>, problem: Problem)
    requires IsRouted(routes, nodes) && problem in g.OfScene(routes, nodes)
    ensures exists r :: r in routes && IsTrue(r, nodes, problem)
  {
    SceneReports(g, routes, nodes, problem);
    var r :| r in routes && problem in g.OfEdge(r, nodes);
    if problem in g.OfRoute(r.edge, r.points, nodes) {
      EveryReportIsACrossing(g, r, nodes, problem);
    }
    assert IsTrue(r, nodes, problem);
  }
}
