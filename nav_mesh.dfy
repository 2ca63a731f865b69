/**
 * The navigation mesh built from the level's "Structure" int-grid: one
 * Background node per empty tile and one edge node per side of an empty
 * tile that faces a wall or the border of the map, each linked to its
 * neighbours.
 *
 * Entity ids: tile i (counted row by row from the top-left corner, after
 * the row reversal of the tile storage) is `TileNode(i)`, and the edge
 * spawned on side s of tile i is `EdgeNode(i, s)`; spawned ids are fresh
 * and distinct, which this numbering captures.
 */
module NavMesh {
  import opened Common

  /** How an edge meets the next edge along the wall. */
  datatype EdgeNeighborKind = Straight | Concave | Convex

  const EMPTY: int := 2

  datatype NavNode<E> =
    | Background(up: E, left: E, down: E, right: E)
    | VerticalEdge(up: E, upKind: EdgeNeighborKind, down: E, downKind: EdgeNeighborKind,
                   back: E, isLeftSide: bool)
    | HorizontalEdge(left: E, leftKind: EdgeNeighborKind, right: E, rightKind: EdgeNeighborKind,
                     back: E, isUpSide: bool)
  {
    /** Every node has neighbours, so dividing by their number is safe. */
    function Neighbors(): (ns: seq<E>)
      ensures |ns| == (if Background? then 4 else 3)
      ensures !Background? ==> ns[2] == back
    {
      match this
      case Background(up, left, down, right) => [up, left, down, right]
      case VerticalEdge(up, _, down, _, back, _) => [up, down, back]
      case HorizontalEdge(left, _, right, _, back, _) => [left, right, back]
    }

    /** The two along-the-wall links of an edge node, with their kinds. */
    function EdgeLinks(): seq<(EdgeNeighborKind, E)>
    {
      match this
      case Background(_, _, _, _) => []
      case VerticalEdge(up, upKind, down, downKind, _, _) => [(upKind, up), (downKind, down)]
      case HorizontalEdge(left, leftKind, right, rightKind, _, _) => [(leftKind, left), (rightKind, right)]
    }
  }

  /** The four sides of a tile; rows are counted from the top, so Up is y - 1. */
  datatype Side = Up | Left | Down | Right
  {
    function Opposite(): Side
    {
      match this
      case Up => Down
      case Down => Up
      case Left => Right
      case Right => Left
    }

    predicate IsUpDown() { this == Up || this == Down }

    function Dx(): int { match this case Left => -1 case Right => 1 case _ => 0 }

    function Dy(): int { match this case Up => -1 case Down => 1 case _ => 0 }
  }

  predicate Perpendicular(a: Side, b: Side) { a.IsUpDown() != b.IsUpDown() }

  /** `a / w` and `a % w` are determined by any decomposition `y * w + x` with 0 <= x < w. */
  lemma DivModUnique(a: int, w: int, x: int, y: int)
    requires w > 0 && 0 <= x < w && a == y * w + x
    ensures a / w == y && a % w == x
  {
    var q, r := a / w, a % w;
    assert a == q * w + r && 0 <= r < w;
    assert (q - y) * w == x - r;
    if q > y {
      MulAtLeast(q - y, w);
    } else if q < y {
      MulAtLeast(y - q, w);
    }
  }

  lemma MulAtLeast(k: int, w: int)
    requires k >= 1 && w > 0
    ensures k * w >= w
  {
    if k > 1 {
      MulAtLeast(k - 1, w);
      assert k * w == (k - 1) * w + w;
    }
  }

  /** A tile index of a grid of the given size. */
  datatype Index2d = Index2d(index: int, gridWidth: int, gridHeight: int)
  {
    predicate Valid()
    {
      gridWidth > 0 && gridHeight > 0 && 0 <= index < gridWidth * gridHeight
    }

    function I(): nat
      requires Valid()
    {
      index
    }

    function X(): (x: int)
      requires Valid()
      ensures 0 <= x < gridWidth
    {
      index % gridWidth
    }

    function Y(): (y: int)
      requires Valid()
      ensures 0 <= y < gridHeight
      ensures index == y * gridWidth + X()
    {
      var y := index / gridWidth;
      assert y >= gridHeight ==> y * gridWidth >= gridHeight * gridWidth;
      y
    }

    /** The tile with the same dimensions at column x and row y. */
    static function At(x: int, y: int, w: int, h: int): (t: Index2d)
      requires w > 0 && h > 0 && 0 <= x < w && 0 <= y < h
      ensures t.Valid() && t.gridWidth == w && t.gridHeight == h
      ensures t.X() == x && t.Y() == y
    {
      assert y * w + x < w * h by {
        assert y * w <= (h - 1) * w;
      }
      DivModUnique(y * w + x, w, x, y);
      Index2d(y * w + x, w, h)
    }

    function Up(): (r: Option<Index2d>)
      requires Valid()
      ensures r.Some? ==> r.value.Valid() && r.value.gridWidth == gridWidth && r.value.gridHeight == gridHeight
    {
      if Y() == 0 then None
      else Some(Index2d(index - gridWidth, gridWidth, gridHeight))
    }

    function Left(): (r: Option<Index2d>)
      requires Valid()
      ensures r.Some? ==> r.value.Valid() && r.value.gridWidth == gridWidth && r.value.gridHeight == gridHeight
    {
      if X() == 0 then None
      else Some(Index2d(index - 1, gridWidth, gridHeight))
    }

    function Down(): (r: Option<Index2d>)
      requires Valid()
      ensures r.Some? ==> r.value.Valid() && r.value.gridWidth == gridWidth && r.value.gridHeight == gridHeight
    {
      if Y() == gridHeight - 1 then None
      else
        StepInGrid(index, gridWidth, gridHeight, X(), Y());
        Some(Index2d(index + gridWidth, gridWidth, gridHeight))
    }

    function Right(): (r: Option<Index2d>)
      requires Valid()
      ensures r.Some? ==> r.value.Valid() && r.value.gridWidth == gridWidth && r.value.gridHeight == gridHeight
    {
      if X() == gridWidth - 1 then None
      else
        StepInGrid(index, gridWidth, gridHeight, X(), Y());
        Some(Index2d(index + 1, gridWidth, gridHeight))
    }

    /** The adjacent tile on side s, if the grid has one. */
    function Neighbor(s: Side): (r: Option<Index2d>)
      requires Valid()
      ensures r.Some? ==> r.value.Valid() && r.value.gridWidth == gridWidth && r.value.gridHeight == gridHeight
    {
      match s
      case Up => Up()
      case Left => Left()
      case Down => Down()
      case Right => Right()
    }
  }

  /** One row down from a row above the last, or one column right of a column before the last, stays in the grid. */
  lemma StepInGrid(index: int, w: int, h: int, x: int, y: int)
    requires w > 0 && h > 0 && 0 <= x < w && 0 <= y < h && index == y * w + x
    ensures y < h - 1 ==> index + w < w * h
    ensures x < w - 1 ==> index + 1 < w * h
  {
    MulMonotone(y, h - 1, w);
    assert (h - 1) * w + w == w * h;
    assert (y + 1) * w == y * w + w;
    if y < h - 1 {
      MulMonotone(y + 1, h - 1, w);
    }
  }

  /** The neighbour on side s exists exactly inside the grid, at the coordinates one step away. */
  lemma NeighborFacts(t: Index2d, s: Side)
    requires t.Valid()
    ensures t.Neighbor(s).Some? <==> 0 <= t.X() + s.Dx() < t.gridWidth && 0 <= t.Y() + s.Dy() < t.gridHeight
    ensures t.Neighbor(s).Some? ==>
      t.Neighbor(s).value == Index2d.At(t.X() + s.Dx(), t.Y() + s.Dy(), t.gridWidth, t.gridHeight)
  {
  }

  /** Two tiles of one grid with the same coordinates are the same tile. */
  lemma SameCoords(a: Index2d, b: Index2d)
    requires a.Valid() && b.Valid()
    requires a.gridWidth == b.gridWidth && a.gridHeight == b.gridHeight
    requires a.X() == b.X() && a.Y() == b.Y()
    ensures a == b
  {
  }

  /** Stepping to a neighbour and back returns to the start. */
  lemma NeighborInverse(t: Index2d, s: Side)
    requires t.Valid() && t.Neighbor(s).Some?
    ensures t.Neighbor(s).value.Neighbor(s.Opposite()) == Some(t)
  {
    var n := t.Neighbor(s).value;
    NeighborFacts(t, s);
    NeighborFacts(n, s.Opposite());
    SameCoords(n.Neighbor(s.Opposite()).value, t);
  }

  /** Two perpendicular steps commute. */
  lemma NeighborCorner(t: Index2d, a: Side, b: Side)
    requires t.Valid() && Perpendicular(a, b)
    requires t.Neighbor(a).Some? && t.Neighbor(a).value.Neighbor(b).Some?
    ensures t.Neighbor(b).Some?
    ensures t.Neighbor(b).value.Neighbor(a) == t.Neighbor(a).value.Neighbor(b)
  {
    var c := t.Neighbor(a).value.Neighbor(b).value;
    NeighborFacts(t, a);
    NeighborFacts(t.Neighbor(a).value, b);
    NeighborFacts(t, b);
    NeighborFacts(t.Neighbor(b).value, a);
    SameCoords(t.Neighbor(b).value.Neighbor(a).value, c);
  }

  /** The level's "Structure" layer: its size and int-grid, rows from the top. */
  datatype Level = Level(width: int, height: int, intGrid: seq<int>)
  {
    predicate Valid()
    {
      width > 0 && height > 0 && |intGrid| == width * height
    }

    predicate IsEmpty(i: nat)
      requires i < |intGrid|
    {
      intGrid[i] == EMPTY
    }

    predicate InGrid(t: Index2d)
    {
      t.Valid() && t.gridWidth == width && t.gridHeight == height
    }

    function TileAt(i: nat): (t: Index2d)
      requires Valid() && i < |intGrid|
      ensures InGrid(t) && t.I() == i
    {
      Index2d(i, width, height)
    }
  }

  /** The entity of every tile of the level, and of every edge spawned on a tile side. */
  datatype NodeId = TileNode(tile: nat) | EdgeNode(tile: nat, side: Side)

  /** The edges spawned for one tile, by side. */
  datatype TileEdges<E> = TileEdges(up: Option<E>, left: Option<E>, down: Option<E>, right: Option<E>)
  {
    function Get(s: Side): Option<E>
    {
      match s
      case Up => up
      case Left => left
      case Down => down
      case Right => right
    }
  }

  /** The entity of tile i if that tile exists and is empty. */
  function ExistsAndIsEmpty(g: Level, i: Option<Index2d>): (r: Option<NodeId>)
    requires g.Valid() && (i.Some? ==> g.InGrid(i.value))
  {
    if i.None? then None
    else if g.IsEmpty(i.value.I()) then Some(TileNode(i.value.I()))
    else None
  }

  /** The edge spawned on side s of tile i when the neighbour there is missing or not empty. */
  function SpawnEdge(g: Level, i: nat, s: Side): Option<NodeId>
    requires g.Valid() && i < |g.intGrid|
  {
    if ExistsAndIsEmpty(g, g.TileAt(i).Neighbor(s)).None? then Some(EdgeNode(i, s)) else None
  }

  function GridEdges(g: Level, i: nat): TileEdges<NodeId>
    requires g.Valid() && i < |g.intGrid|
  {
    if !g.IsEmpty(i) then TileEdges(None, None, None, None)
    else TileEdges(SpawnEdge(g, i, Up), SpawnEdge(g, i, Left), SpawnEdge(g, i, Down), SpawnEdge(g, i, Right))
  }

  predicate HasEdge(g: Level, i: nat, s: Side)
    requires g.Valid() && i < |g.intGrid|
  {
    GridEdges(g, i).Get(s).Some?
  }

  /**
   * A tile side carries an edge exactly when the tile is empty and the
   * neighbour on that side is off the map or not empty; the edge is the
   * entity spawned for that side.
   */
  lemma EdgeExists(g: Level, i: nat, s: Side)
    requires g.Valid() && i < |g.intGrid|
    ensures HasEdge(g, i, s) <==>
      g.IsEmpty(i) &&
      (g.TileAt(i).Neighbor(s).None? || !g.IsEmpty(g.TileAt(i).Neighbor(s).value.I()))
    ensures HasEdge(g, i, s) ==> GridEdges(g, i).Get(s) == Some(EdgeNode(i, s))
  {
  }

  /** The facts that make every unwrap of an along-the-wall link safe. */
  lemma LinkFacts(g: Level, i: nat, wall: Side, toward: Side)
    requires g.Valid() && i < |g.intGrid| && Perpendicular(wall, toward)
    requires HasEdge(g, i, wall) && !HasEdge(g, i, toward)
    ensures g.TileAt(i).Neighbor(toward).Some?
    ensures var n := g.TileAt(i).Neighbor(toward).value;
      g.InGrid(n) && g.IsEmpty(n.I()) &&
      (ExistsAndIsEmpty(g, n.Neighbor(wall)).Some? ==>
         HasEdge(g, n.Neighbor(wall).value.I(), toward.Opposite())) &&
      (ExistsAndIsEmpty(g, n.Neighbor(wall)).None? ==> HasEdge(g, n.I(), wall))
  {
    var t := g.TileAt(i);
    EdgeExists(g, i, wall);
    EdgeExists(g, i, toward);
    var n := t.Neighbor(toward).value;
    if ExistsAndIsEmpty(g, n.Neighbor(wall)).Some? {
      var c := n.Neighbor(wall).value;
      NeighborCorner(t, toward, wall);
      NeighborInverse(t.Neighbor(wall).value, toward);
      assert g.TileAt(c.I()) == c;
      EdgeExists(g, c.I(), toward.Opposite());
    } else {
      assert g.TileAt(n.I()) == n;
      EdgeExists(g, n.I(), wall);
    }
  }

  /**
   * The link of the edge on side `wall` of tile i towards side `toward`:
   * Concave to the tile's own edge on that side, Convex round the corner to
   * the diagonal tile's edge, Straight to the next tile's edge on the same wall.
   */
  function Link(g: Level, i: nat, wall: Side, toward: Side): (EdgeNeighborKind, NodeId)
    requires g.Valid() && i < |g.intGrid| && Perpendicular(wall, toward)
    requires HasEdge(g, i, wall)
  {
    var te := GridEdges(g, i);
    if te.Get(toward).Some? then (Concave, te.Get(toward).value)
    else
      LinkFacts(g, i, wall, toward);
      var n := g.TileAt(i).Neighbor(toward).value;
      if ExistsAndIsEmpty(g, n.Neighbor(wall)).Some? then
        (Convex, GridEdges(g, n.Neighbor(wall).value.I()).Get(toward.Opposite()).value)
      else
        (Straight, GridEdges(g, n.I()).Get(wall).value)
  }

  /** The side on which the edge reached by a link of kind k lies. */
  function LinkedSide(k: EdgeNeighborKind, wall: Side, toward: Side): Side
  {
    match k
    case Concave => toward
    case Convex => toward.Opposite()
    case Straight => wall
  }

  /** The direction in which that edge links back. */
  function BackToward(k: EdgeNeighborKind, wall: Side, toward: Side): Side
  {
    match k
    case Concave => wall
    case Convex => wall.Opposite()
    case Straight => toward.Opposite()
  }

  /**
   * Links along the walls are symmetric: the edge reached by a link of
   * kind k links back to the starting edge with the same kind k.
   */
  lemma LinkSymmetric(g: Level, i: nat, wall: Side, toward: Side)
    requires g.Valid() && i < |g.intGrid| && Perpendicular(wall, toward)
    requires HasEdge(g, i, wall)
    ensures var r := Link(g, i, wall, toward);
      r.1.EdgeNode? && r.1.tile < |g.intGrid| && r.1.side == LinkedSide(r.0, wall, toward) &&
      HasEdge(g, r.1.tile, r.1.side) &&
      Perpendicular(r.1.side, BackToward(r.0, wall, toward)) &&
      Link(g, r.1.tile, r.1.side, BackToward(r.0, wall, toward)) == (r.0, EdgeNode(i, wall))
  {
    var t := g.TileAt(i);
    if HasEdge(g, i, toward) {
      SymmetricConcave(g, i, wall, toward);
    } else {
      LinkFacts(g, i, wall, toward);
      var n := t.Neighbor(toward).value;
      if ExistsAndIsEmpty(g, n.Neighbor(wall)).Some? {
        SymmetricConvex(g, i, wall, toward, n, n.Neighbor(wall).value);
      } else {
        SymmetricStraight(g, i, wall, toward, n);
      }
    }
  }

  lemma SymmetricConcave(g: Level, i: nat, wall: Side, toward: Side)
    requires g.Valid() && i < |g.intGrid| && Perpendicular(wall, toward)
    requires HasEdge(g, i, wall) && HasEdge(g, i, toward)
    ensures var r := Link(g, i, wall, toward);
      r.1.EdgeNode? && r.1.tile < |g.intGrid| && r.1.side == LinkedSide(r.0, wall, toward) &&
      HasEdge(g, r.1.tile, r.1.side) &&
      Perpendicular(r.1.side, BackToward(r.0, wall, toward)) &&
      Link(g, r.1.tile, r.1.side, BackToward(r.0, wall, toward)) == (r.0, EdgeNode(i, wall))
  {
    LinkConcave(g, i, wall, toward);
    LinkConcave(g, i, toward, wall);
    var r := Link(g, i, wall, toward);
    assert r == (Concave, EdgeNode(i, toward));
    assert LinkedSide(r.0, wall, toward) == toward && BackToward(r.0, wall, toward) == wall;
  }

  lemma SymmetricConvex(g: Level, i: nat, wall: Side, toward: Side, n: Index2d, c: Index2d)
    requires g.Valid() && i < |g.intGrid| && Perpendicular(wall, toward)
    requires HasEdge(g, i, wall) && !HasEdge(g, i, toward)
    requires g.TileAt(i).Neighbor(toward) == Some(n) && n.Neighbor(wall) == Some(c)
    requires g.IsEmpty(c.I())
    ensures var r := Link(g, i, wall, toward);
      r.1.EdgeNode? && r.1.tile < |g.intGrid| && r.1.side == LinkedSide(r.0, wall, toward) &&
      HasEdge(g, r.1.tile, r.1.side) &&
      Perpendicular(r.1.side, BackToward(r.0, wall, toward)) &&
      Link(g, r.1.tile, r.1.side, BackToward(r.0, wall, toward)) == (r.0, EdgeNode(i, wall))
  {
    LinkConvex(g, i, wall, toward, n, c);
    ConvexLinksBack(g, i, wall, toward, n, c);
    var r := Link(g, i, wall, toward);
    assert r == (Convex, EdgeNode(c.I(), toward.Opposite()));
    assert LinkedSide(r.0, wall, toward) == toward.Opposite();
    assert BackToward(r.0, wall, toward) == wall.Opposite();
  }

  lemma SymmetricStraight(g: Level, i: nat, wall: Side, toward: Side, n: Index2d)
    requires g.Valid() && i < |g.intGrid| && Perpendicular(wall, toward)
    requires HasEdge(g, i, wall) && !HasEdge(g, i, toward)
    requires g.TileAt(i).Neighbor(toward) == Some(n)
    requires ExistsAndIsEmpty(g, n.Neighbor(wall)).None?
    ensures var r := Link(g, i, wall, toward);
      r.1.EdgeNode? && r.1.tile < |g.intGrid| && r.1.side == LinkedSide(r.0, wall, toward) &&
      HasEdge(g, r.1.tile, r.1.side) &&
      Perpendicular(r.1.side, BackToward(r.0, wall, toward)) &&
      Link(g, r.1.tile, r.1.side, BackToward(r.0, wall, toward)) == (r.0, EdgeNode(i, wall))
  {
    LinkStraight(g, i, wall, toward, n);
    StraightLinksBack(g, i, wall, toward, n);
    var r := Link(g, i, wall, toward);
    assert r == (Straight, EdgeNode(n.I(), wall));
    assert LinkedSide(r.0, wall, toward) == wall;
    assert BackToward(r.0, wall, toward) == toward.Opposite();
  }

  lemma LinkConcave(g: Level, i: nat, wall: Side, toward: Side)
    requires g.Valid() && i < |g.intGrid| && Perpendicular(wall, toward)
    requires HasEdge(g, i, wall) && HasEdge(g, i, toward)
    ensures Link(g, i, wall, toward) == (Concave, EdgeNode(i, toward))
  {
    EdgeExists(g, i, toward);
  }

  lemma LinkConvex(g: Level, i: nat, wall: Side, toward: Side, n: Index2d, c: Index2d)
    requires g.Valid() && i < |g.intGrid| && Perpendicular(wall, toward)
    requires HasEdge(g, i, wall) && !HasEdge(g, i, toward)
    requires g.TileAt(i).Neighbor(toward) == Some(n) && n.Neighbor(wall) == Some(c)
    requires g.IsEmpty(c.I())
    ensures Link(g, i, wall, toward) == (Convex, EdgeNode(c.I(), toward.Opposite()))
  {
    LinkFacts(g, i, wall, toward);
    EdgeExists(g, c.I(), toward.Opposite());
  }

  lemma LinkStraight(g: Level, i: nat, wall: Side, toward: Side, n: Index2d)
    requires g.Valid() && i < |g.intGrid| && Perpendicular(wall, toward)
    requires HasEdge(g, i, wall) && !HasEdge(g, i, toward)
    requires g.TileAt(i).Neighbor(toward) == Some(n)
    requires ExistsAndIsEmpty(g, n.Neighbor(wall)).None?
    ensures Link(g, i, wall, toward) == (Straight, EdgeNode(n.I(), wall))
  {
    LinkFacts(g, i, wall, toward);
    EdgeExists(g, n.I(), wall);
  }

  lemma ConvexLinksBack(g: Level, i: nat, wall: Side, toward: Side, n: Index2d, c: Index2d)
    requires g.Valid() && i < |g.intGrid| && Perpendicular(wall, toward)
    requires HasEdge(g, i, wall) && !HasEdge(g, i, toward)
    requires g.TileAt(i).Neighbor(toward) == Some(n) && n.Neighbor(wall) == Some(c)
    requires g.IsEmpty(c.I())
    ensures HasEdge(g, c.I(), toward.Opposite())
    ensures Link(g, c.I(), toward.Opposite(), wall.Opposite()) == (Convex, EdgeNode(i, wall))
  {
    var t := g.TileAt(i);
    LinkFacts(g, i, wall, toward);
    NeighborInverse(t, toward);
    NeighborInverse(n, wall);
    assert g.TileAt(c.I()) == c;
    EdgeExists(g, c.I(), wall.Opposite());
    LinkConvex(g, c.I(), toward.Opposite(), wall.Opposite(), n, t);
  }

  lemma StraightLinksBack(g: Level, i: nat, wall: Side, toward: Side, n: Index2d)
    requires g.Valid() && i < |g.intGrid| && Perpendicular(wall, toward)
    requires HasEdge(g, i, wall) && !HasEdge(g, i, toward)
    requires g.TileAt(i).Neighbor(toward) == Some(n)
    requires ExistsAndIsEmpty(g, n.Neighbor(wall)).None?
    ensures HasEdge(g, n.I(), wall)
    ensures Link(g, n.I(), wall, toward.Opposite()) == (Straight, EdgeNode(i, wall))
  {
    var t := g.TileAt(i);
    LinkFacts(g, i, wall, toward);
    NeighborInverse(t, toward);
    assert g.TileAt(n.I()) == n;
    EdgeExists(g, n.I(), toward.Opposite());
    EdgeExists(g, i, wall);
    LinkStraight(g, n.I(), wall, toward.Opposite(), t);
  }

  /** A tile or edge entity that the builder gives a NavNode. */
  predicate IsNode(g: Level, id: NodeId)
    requires g.Valid()
  {
    match id
    case TileNode(i) => i < |g.intGrid| && g.IsEmpty(i)
    case EdgeNode(i, s) => i < |g.intGrid| && HasEdge(g, i, s)
  }

  /** The Background link on side s: the tile's edge there, else the neighbour tile. */
  function BackgroundLink(g: Level, i: nat, s: Side): NodeId
    requires g.Valid() && i < |g.intGrid| && g.IsEmpty(i)
  {
    if GridEdges(g, i).Get(s).Some? then GridEdges(g, i).Get(s).value
    else
      EdgeExists(g, i, s);
      TileNode(g.TileAt(i).Neighbor(s).value.I())
  }

  function BackgroundOf(g: Level, i: nat): NavNode<NodeId>
    requires g.Valid() && i < |g.intGrid| && g.IsEmpty(i)
  {
    Background(BackgroundLink(g, i, Up), BackgroundLink(g, i, Left),
               BackgroundLink(g, i, Down), BackgroundLink(g, i, Right))
  }

  /** The node of the edge on side s of tile i; its back is the tile itself. */
  function EdgeOf(g: Level, i: nat, s: Side): NavNode<NodeId>
    requires g.Valid() && i < |g.intGrid| && HasEdge(g, i, s)
  {
    var back := TileNode(i);
    match s
    case Up =>
      var (leftKind, left) := Link(g, i, Up, Left);
      var (rightKind, right) := Link(g, i, Up, Right);
      HorizontalEdge(left, leftKind, right, rightKind, back, true)
    case Down =>
      var (leftKind, left) := Link(g, i, Down, Left);
      var (rightKind, right) := Link(g, i, Down, Right);
      HorizontalEdge(left, leftKind, right, rightKind, back, false)
    case Left =>
      var (downKind, down) := Link(g, i, Left, Down);
      var (upKind, up) := Link(g, i, Left, Up);
      VerticalEdge(up, upKind, down, downKind, back, true)
    case Right =>
      var (downKind, down) := Link(g, i, Right, Down);
      var (upKind, up) := Link(g, i, Right, Up);
      VerticalEdge(up, upKind, down, downKind, back, false)
  }

  function NodeOf(g: Level, id: NodeId): NavNode<NodeId>
    requires g.Valid() && IsNode(g, id)
  {
    match id
    case TileNode(i) => BackgroundOf(g, i)
    case EdgeNode(i, s) => EdgeOf(g, i, s)
  }

  /**
   * Builds the nav mesh of a level: the edges of every tile first, then the
   * nodes of every empty tile and of its edges.
   */
  method SpawnNavMesh(g: Level) returns (gridEdges: seq<TileEdges<NodeId>>, nodes: map<NodeId, NavNode<NodeId>>)
    requires g.Valid()
    ensures |gridEdges| == |g.intGrid|
    ensures forall i :: 0 <= i < |gridEdges| ==> gridEdges[i] == GridEdges(g, i)
    ensures forall id :: id in nodes <==> IsNode(g, id)
    ensures forall id :: id in nodes ==> IsNode(g, id) && nodes[id] == NodeOf(g, id)
  {
    gridEdges := SpawnEdges(g);
    nodes := SpawnNodes(g, gridEdges);
  }

  /** The edges of every tile, in tile order. */
  method SpawnEdges(g: Level) returns (gridEdges: seq<TileEdges<NodeId>>)
    requires g.Valid()
    ensures |gridEdges| == |g.intGrid|
    ensures forall i :: 0 <= i < |gridEdges| ==> gridEdges[i] == GridEdges(g, i)
  {
    gridEdges := [];
    var i := 0;
    while i < |g.intGrid|
      invariant 0 <= i <= |g.intGrid| && |gridEdges| == i
      invariant forall j :: 0 <= j < i ==> gridEdges[j] == GridEdges(g, j)
    {
      var edges := TileEdges(None, None, None, None);
      if g.IsEmpty(i) {
        edges := TileEdges(SpawnEdge(g, i, Up), SpawnEdge(g, i, Left),
                           SpawnEdge(g, i, Down), SpawnEdge(g, i, Right));
      }
      gridEdges := gridEdges + [edges];
      i := i + 1;
    }
  }

  /** The node of every empty tile and of each of its edges. */
  method SpawnNodes(g: Level, gridEdges: seq<TileEdges<NodeId>>) returns (nodes: map<NodeId, NavNode<NodeId>>)
    requires g.Valid()
    requires |gridEdges| == |g.intGrid|
    requires forall i :: 0 <= i < |gridEdges| ==> gridEdges[i] == GridEdges(g, i)
    ensures forall id :: id in nodes <==> IsNode(g, id)
    ensures forall id :: id in nodes ==> IsNode(g, id) && nodes[id] == NodeOf(g, id)
  {
    nodes := map[];
    var i := 0;
    while i < |g.intGrid|
      invariant 0 <= i <= |g.intGrid|
      invariant BuiltUpTo(g, nodes, i, {})
    {
      if !g.IsEmpty(i) {
        NextTile(g, nodes, i);
        i := i + 1;
        continue;
      }
      var tileEdges := gridEdges[i];
      nodes := InsertEdgeNode(g, nodes, i, {}, Up, tileEdges.up);
      nodes := InsertEdgeNode(g, nodes, i, {Up}, Down, tileEdges.down);
      nodes := InsertEdgeNode(g, nodes, i, {Up, Down}, Left, tileEdges.left);
      nodes := InsertEdgeNode(g, nodes, i, {Up, Down, Left}, Right, tileEdges.right);
      ghost var before := nodes;
      nodes := nodes[TileNode(i) := BackgroundOf(g, i)];
      InsertBackground(g, before, i, nodes);
      i := i + 1;
    }
  }

  /**
   * `nodes` holds exactly the nodes of the tiles before i, plus the edges of
   * tile i on the sides in `done`, each with its NodeOf value.
   */
  ghost predicate BuiltUpTo(g: Level, nodes: map<NodeId, NavNode<NodeId>>, i: nat, done: set<Side>)
    requires g.Valid()
  {
    (forall id :: id in nodes <==>
       IsNode(g, id) && (id.tile < i || (id.tile == i && id.EdgeNode? && id.side in done))) &&
    (forall id :: id in nodes ==> IsNode(g, id) && nodes[id] == NodeOf(g, id))
  }

  lemma NextTile(g: Level, nodes: map<NodeId, NavNode<NodeId>>, i: nat)
    requires g.Valid() && i < |g.intGrid| && !g.IsEmpty(i)
    requires BuiltUpTo(g, nodes, i, {})
    ensures BuiltUpTo(g, nodes, i + 1, {})
  {
    forall id | IsNode(g, id) && id.tile == i
      ensures false
    {
      if id.EdgeNode? {
        EdgeExists(g, i, id.side);
      }
    }
  }

  /** Gives the edge spawned on side s of tile i (if any) its node. */
  method InsertEdgeNode(g: Level, nodes: map<NodeId, NavNode<NodeId>>, i: nat, ghost done: set<Side>,
                        s: Side, edge: Option<NodeId>) returns (nodes': map<NodeId, NavNode<NodeId>>)
    requires g.Valid() && i < |g.intGrid| && g.IsEmpty(i)
    requires BuiltUpTo(g, nodes, i, done)
    requires edge == GridEdges(g, i).Get(s)
    ensures BuiltUpTo(g, nodes', i, done + {s})
  {
    EdgeExists(g, i, s);
    nodes' := nodes;
    if edge.Some? {
      nodes' := nodes[edge.value := EdgeOf(g, i, s)];
    }
  }

  lemma InsertBackground(g: Level, before: map<NodeId, NavNode<NodeId>>, i: nat,
                         after: map<NodeId, NavNode<NodeId>>)
    requires g.Valid() && i < |g.intGrid| && g.IsEmpty(i)
    requires BuiltUpTo(g, before, i, {Up, Down, Left, Right})
    requires after == before[TileNode(i) := BackgroundOf(g, i)]
    ensures BuiltUpTo(g, after, i + 1, {})
  {
    forall id
      ensures id in after <==> IsNode(g, id) && id.tile < i + 1
    {
      if id.EdgeNode? && id.tile == i {
        assert id.side in {Up, Down, Left, Right};
      }
    }
    forall id | id in after
      ensures after[id] == NodeOf(g, id)
    {
      if id != TileNode(i) {
        assert after[id] == before[id];
      }
    }
  }

  /** An edge links back to its own tile, and that tile's Background node links to the edge. */
  lemma BackLinks(g: Level, i: nat, s: Side)
    requires g.Valid() && i < |g.intGrid| && HasEdge(g, i, s)
    ensures IsNode(g, TileNode(i))
    ensures EdgeOf(g, i, s).back == TileNode(i)
    ensures BackgroundLink(g, i, s) == EdgeNode(i, s)
  {
    EdgeExists(g, i, s);
  }

  /** The along-the-wall links of an edge are its two links towards the perpendicular sides. */
  lemma EdgeLinksAreLinks(g: Level, i: nat, s: Side, k: EdgeNeighborKind, b: NodeId)
    requires g.Valid() && i < |g.intGrid| && HasEdge(g, i, s)
    ensures (k, b) in EdgeOf(g, i, s).EdgeLinks() <==>
      exists toward :: Perpendicular(s, toward) && Link(g, i, s, toward) == (k, b)
  {
    var links := EdgeOf(g, i, s).EdgeLinks();
    if s.IsUpDown() {
      assert links == [Link(g, i, s, Left), Link(g, i, s, Right)];
      if (k, b) in links {
        assert Link(g, i, s, Left) == (k, b) || Link(g, i, s, Right) == (k, b);
      }
      forall toward | Perpendicular(s, toward) && Link(g, i, s, toward) == (k, b)
        ensures (k, b) in links
      {
        assert toward == Left || toward == Right;
      }
    } else {
      assert links == [Link(g, i, s, Up), Link(g, i, s, Down)];
      if (k, b) in links {
        assert Link(g, i, s, Up) == (k, b) || Link(g, i, s, Down) == (k, b);
      }
      forall toward | Perpendicular(s, toward) && Link(g, i, s, toward) == (k, b)
        ensures (k, b) in links
      {
        assert toward == Up || toward == Down;
      }
    }
  }

  /**
   * Edge-to-edge links are symmetric with the same kind: if edge a reaches b
   * with kind k, b is an edge node that reaches a with kind k.
   */
  lemma EdgeLinksSymmetric(g: Level, a: NodeId, k: EdgeNeighborKind, b: NodeId)
    requires g.Valid() && IsNode(g, a)
    requires (k, b) in NodeOf(g, a).EdgeLinks()
    ensures IsNode(g, b) && (k, a) in NodeOf(g, b).EdgeLinks()
  {
    match a
    case EdgeNode(i, s) =>
      EdgeLinksAreLinks(g, i, s, k, b);
      var toward :| Perpendicular(s, toward) && Link(g, i, s, toward) == (k, b);
      LinkSymmetric(g, i, s, toward);
      var back := BackToward(k, s, toward);
      EdgeLinksAreLinks(g, b.tile, b.side, k, a);
  }

  /**
   * The nav mesh is closed and undirected: every neighbour of a node is a
   * node, and it has the first node among its own neighbours.
   */
  lemma NeighborsSymmetric(g: Level, a: NodeId, b: NodeId)
    requires g.Valid() && IsNode(g, a)
    requires b in NodeOf(g, a).Neighbors()
    ensures IsNode(g, b) && a in NodeOf(g, b).Neighbors()
  {
    match a
    case TileNode(i) =>
      var s :| b == BackgroundLink(g, i, s) by {
        assert NodeOf(g, a).Neighbors() == [BackgroundLink(g, i, Up), BackgroundLink(g, i, Left),
                                            BackgroundLink(g, i, Down), BackgroundLink(g, i, Right)];
      }
      BackgroundLinkSymmetric(g, i, s);
    case EdgeNode(i, s) =>
      EdgeNeighborSymmetric(g, i, s, b);
  }

  lemma BackgroundLinkSymmetric(g: Level, i: nat, s: Side)
    requires g.Valid() && i < |g.intGrid| && g.IsEmpty(i)
    ensures IsNode(g, BackgroundLink(g, i, s))
    ensures TileNode(i) in NodeOf(g, BackgroundLink(g, i, s)).Neighbors()
  {
    EdgeExists(g, i, s);
    var b := BackgroundLink(g, i, s);
    if HasEdge(g, i, s) {
      BackLinks(g, i, s);
      assert NodeOf(g, b).Neighbors()[2] == TileNode(i);
    } else {
      var t := g.TileAt(i);
      var n := t.Neighbor(s).value;
      NeighborInverse(t, s);
      assert g.TileAt(n.I()) == n;
      EdgeExists(g, n.I(), s.Opposite());
      assert b == TileNode(n.I());
      assert BackgroundLink(g, n.I(), s.Opposite()) == TileNode(i);
      assert NodeOf(g, b).Neighbors() == [BackgroundLink(g, n.I(), Up), BackgroundLink(g, n.I(), Left),
                                          BackgroundLink(g, n.I(), Down), BackgroundLink(g, n.I(), Right)];
    }
  }

  lemma EdgeNeighborSymmetric(g: Level, i: nat, s: Side, b: NodeId)
    requires g.Valid() && i < |g.intGrid| && HasEdge(g, i, s)
    requires b in EdgeOf(g, i, s).Neighbors()
    ensures IsNode(g, b) && EdgeNode(i, s) in NodeOf(g, b).Neighbors()
  {
    var a := EdgeNode(i, s);
    var node := EdgeOf(g, i, s);
    BackLinks(g, i, s);
    if b == node.back {
      assert NodeOf(g, b).Neighbors() == [BackgroundLink(g, i, Up), BackgroundLink(g, i, Left),
                                          BackgroundLink(g, i, Down), BackgroundLink(g, i, Right)];
    } else {
      var links := node.EdgeLinks();
      assert node.Neighbors() == [links[0].1, links[1].1, node.back];
      var k := if b == links[0].1 then links[0].0 else links[1].0;
      assert (k, b) in links;
      EdgeLinksSymmetric(g, a, k, b);
      var bl := NodeOf(g, b).EdgeLinks();
      assert NodeOf(g, b).Neighbors() == [bl[0].1, bl[1].1, NodeOf(g, b).back];
    }
  }

  /** The polyline collider of an edge node: first end, middle (the origin), last end. */
  function EdgeCollider(node: NavNode<NodeId>): (r: Option<seq<Vec2>>)
    ensures r.None? <==> node.Background?
    ensures r.Some? ==> |r.value| == 3 && r.value[1] == Vec2(0.0, 0.0)
  {
    match node
    case Background(_, _, _, _) => None
    case VerticalEdge(_, upKind, _, downKind, _, isLeftSide) =>
      var upPos :=
        match upKind
        case Straight => Vec2(0.0, 8.0)
        case Concave => Vec2(4.0, 4.0)
        case Convex => Vec2(-4.0, 4.0);
      var downPos :=
        match downKind
        case Straight => Vec2(0.0, -8.0)
        case Concave => Vec2(4.0, -4.0)
        case Convex => Vec2(-4.0, -4.0);
      var upPos := if !isLeftSide then upPos.(x := -upPos.x) else upPos;
      var downPos := if !isLeftSide then downPos.(x := -downPos.x) else downPos;
      Some([upPos, Vec2(0.0, 0.0), downPos])
    case HorizontalEdge(_, leftKind, _, rightKind, _, isUpSide) =>
      var leftPos :=
        match leftKind
        case Straight => Vec2(-8.0, 0.0)
        case Concave => Vec2(-4.0, -4.0)
        case Convex => Vec2(-4.0, 4.0);
      var rightPos :=
        match rightKind
        case Straight => Vec2(8.0, 0.0)
        case Concave => Vec2(4.0, -4.0)
        case Convex => Vec2(4.0, 4.0);
      var leftPos := if !isUpSide then leftPos.(y := -leftPos.y) else leftPos;
      var rightPos := if !isUpSide then rightPos.(y := -rightPos.y) else rightPos;
      Some([leftPos, Vec2(0.0, 0.0), rightPos])
  }

  /**
   * The collider bends with the kind of each link: a Concave end turns
   * towards the tile (inwards), a Convex end turns away from it, and a
   * Straight end runs along the wall; the right and down sides are the
   * mirror images of the left and up sides.
   */
  lemma EdgeColliderBends(node: NavNode<NodeId>)
    requires !node.Background?
    ensures var ends := EdgeCollider(node).value;
      var inward0 := if node.VerticalEdge? then (if node.isLeftSide then ends[0].x else -ends[0].x)
                     else (if node.isUpSide then -ends[0].y else ends[0].y);
      var inward2 := if node.VerticalEdge? then (if node.isLeftSide then ends[2].x else -ends[2].x)
                     else (if node.isUpSide then -ends[2].y else ends[2].y);
      var k0 := if node.VerticalEdge? then node.upKind else node.leftKind;
      var k2 := if node.VerticalEdge? then node.downKind else node.rightKind;
      (inward0 > 0.0 <==> k0 == Concave) && (inward0 < 0.0 <==> k0 == Convex) &&
      (inward2 > 0.0 <==> k2 == Concave) && (inward2 < 0.0 <==> k2 == Convex)
  {
  }

  /** Mirroring an edge to the other side of its tile mirrors its collider. */
  lemma EdgeColliderMirror(node: NavNode<NodeId>)
    requires !node.Background?
    ensures node.VerticalEdge? ==>
      var other := EdgeCollider(node.(isLeftSide := !node.isLeftSide)).value;
      var ends := EdgeCollider(node).value;
      forall j :: 0 <= j < 3 ==> other[j] == Vec2(-ends[j].x, ends[j].y)
    ensures node.HorizontalEdge? ==>
      var other := EdgeCollider(node.(isUpSide := !node.isUpSide)).value;
      var ends := EdgeCollider(node).value;
      forall j :: 0 <= j < 3 ==> other[j] == Vec2(ends[j].x, -ends[j].y)
  {
  }
}
