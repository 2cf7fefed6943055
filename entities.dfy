/** The entities of the play field: carried blocks, fixed stations and the
    players, with the player's per-frame movement and collision resolution. */
module Entities {
  import opened Wrappers
  import opened Geometry
  import opened Catalog

  /** No object occurs twice in `s`. */
  predicate Distinct<T(==)>(s: seq<T>)
  {
    forall i, j :: 0 <= i < j < |s| ==> s[i] != s[j]
  }

  const BlockSize: real := 32.0
  const PlayerSize: real := TileSize - 8.0
  const PlayerSpeed: real := 4.0
  /** Per-axis factor applied when both axes move. */
  const Diagonal: real := 0.707
  /** Per-axis factor applied while the SLOW chaos event is active. */
  const SlowFactor: real := 0.5

  /** A typed resource token. `isWrong` is set when it is dropped while the ticket does not need it. */
  class Block {
    const kind: Kind
    const w: real
    const h: real
    var x: real
    var y: real
    var isWrong: bool

    constructor (kind: Kind, x: real, y: real)
      ensures this.kind == kind && this.x == x && this.y == y
      ensures w == BlockSize && h == BlockSize && !isWrong
    {
      this.kind := kind;
      this.w := BlockSize;
      this.h := BlockSize;
      this.x := x;
      this.y := y;
      this.isWrong := false;
    }

    function Bounds(): Rect
      reads this`x, this`y
    {
      Rect(x, y, w, h)
    }
  }

  /** The kinds of station built by the level: a shelf is bound to one block kind. */
  datatype StationKind = Board | Desk | Bin | Shelf(blockType: Kind)

  /** A fixed fixture; only its highlight flag changes. */
  class Station {
    const kind: StationKind
    const x: real
    const y: real
    const w: real
    const h: real
    var highlight: bool

    constructor (kind: StationKind, x: real, y: real, w: real, h: real)
      ensures this.kind == kind && this.x == x && this.y == y && this.w == w && this.h == h
      ensures !highlight
    {
      this.kind := kind;
      this.x := x;
      this.y := y;
      this.w := w;
      this.h := h;
      this.highlight := false;
    }

    /** A shelf: one tile, handing out blocks of `blockType`. */
    constructor KnowledgeShelf(blockType: Kind, x: real, y: real)
      ensures kind == Shelf(blockType) && this.x == x && this.y == y && w == TileSize && h == TileSize
      ensures !highlight
    {
      this.kind := Shelf(blockType);
      this.x := x;
      this.y := y;
      this.w := TileSize;
      this.h := TileSize;
      this.highlight := false;
    }

    function Bounds(): Rect
    {
      Rect(x, y, w, h)
    }
  }

  /** The rectangles of `stations`, in order: the solids players cannot enter. */
  function StationRects(stations: seq<Station>): (r: seq<Rect>)
    ensures |r| == |stations| && forall i :: 0 <= i < |r| ==> r[i] == stations[i].Bounds()
  {
    seq(|stations|, i requires 0 <= i < |stations| => stations[i].Bounds())
  }

  datatype Role = Reader | Compiler

  /** Key codes bound to the four directions and the action. */
  datatype Controls = Controls(up: string, down: string, left: string, right: string, action: string)
  {
    predicate DistinctDirections()
    {
      up != down && up != left && up != right && down != left && down != right && left != right
    }
  }

  /** Facing direction; the source encodes these as 0, 1, 2 and 3. */
  datatype Facing = Down | Left | Up | Right

  datatype Velocity = Velocity(dx: real, dy: real)

  datatype Pose = Pose(x: real, y: real, facing: Facing)

  /** One velocity component: `speed` for the positive key minus `speed` for the negative one. */
  function Axis(negative: bool, positive: bool, speed: real): real
  {
    (if positive then speed else 0.0) - (if negative then speed else 0.0)
  }

  /** The controls as read this frame: REVERSE swaps left with right and up with down. */
  function Effective(c: Controls, chaos: Option<Chaos>): Controls
  {
    if chaos == Some(Reverse) then Controls(c.down, c.up, c.right, c.left, c.action) else c
  }

  /** The intended displacement for one frame. */
  function Steer(input: set<string>, c: Controls, chaos: Option<Chaos>, speed: real): Velocity
  {
    var e := Effective(c, chaos);
    var raw := Velocity(Axis(e.left in input, e.right in input, speed), Axis(e.up in input, e.down in input, speed));
    var paced := if chaos == Some(Slow) then Velocity(raw.dx * SlowFactor, raw.dy * SlowFactor) else raw;
    if paced.dx != 0.0 && paced.dy != 0.0 then Velocity(paced.dx * Diagonal, paced.dy * Diagonal) else paced
  }

  /** The player's rectangle leaves the map or overlaps a solid (`Player.checkCollision`). */
  predicate Blocked(r: Rect, b: Bounds, solids: seq<Rect>)
  {
    Outside(r, b) || HitsAny(r, solids)
  }

  /** Axis-separated resolution: the X move is tried at the old `y`, then the Y
      move at the resulting `x`; each is kept only when it is not blocked. */
  function Resolve(r: Rect, v: Velocity, b: Bounds, solids: seq<Rect>): Rect
  {
    var x := if Blocked(r.(x := r.x + v.dx), b, solids) then r.x else r.x + v.dx;
    var y := if Blocked(r.(x := x, y := r.y + v.dy), b, solids) then r.y else r.y + v.dy;
    r.(x := x, y := y)
  }

  /** Facing after a frame with intended displacement `v`. */
  function Turn(d: Facing, v: Velocity): Facing
  {
    if v.dx > 0.0 then Right
    else if v.dy < 0.0 then Up
    else if v.dx < 0.0 then Left
    else if v.dy > 0.0 then Down
    else d
  }

  /** Where `Player.update` leaves a player of rectangle `r` facing `d`. */
  function Move(r: Rect, d: Facing, input: set<string>, c: Controls, chaos: Option<Chaos>, speed: real,
                b: Bounds, solids: seq<Rect>): Pose
  {
    var v := Steer(input, c, chaos, speed);
    var m := Resolve(r, v, b, solids);
    Pose(m.x, m.y, Turn(d, v))
  }

  class Player {
    const id: int
    const role: Role
    const controls: Controls
    const speed: real
    const w: real
    const h: real
    var x: real
    var y: real
    var direction: Facing
    var holdingItem: Block?

    constructor (id: int, x: real, y: real, role: Role, controls: Controls)
      ensures this.id == id && this.x == x && this.y == y && this.role == role && this.controls == controls
      ensures w == PlayerSize && h == PlayerSize && speed == PlayerSpeed
      ensures direction == Down && holdingItem == null
    {
      this.id := id;
      this.role := role;
      this.controls := controls;
      this.speed := PlayerSpeed;
      this.w := PlayerSize;
      this.h := PlayerSize;
      this.x := x;
      this.y := y;
      this.direction := Down;
      this.holdingItem := null;
    }

    function Bounds(): Rect
      reads this`x, this`y
    {
      Rect(x, y, w, h)
    }

    /** The block in this player's hand, as a set of at most one. */
    function Held(): (s: set<Block>)
      reads this`holdingItem
      ensures s == (if holdingItem == null then {} else {holdingItem})
    {
      if holdingItem == null then {} else {holdingItem}
    }

    function At(): Pose
      reads this`x, this`y, this`direction
    {
      Pose(x, y, direction)
    }

    /** The held block, if any, sits 4 to the right of and 10 above the player's corner. */
    predicate Carries()
      reads this`x, this`y, this`holdingItem, Held()`x, Held()`y
    {
      holdingItem != null ==> holdingItem.x == x + 4.0 && holdingItem.y == y - 10.0
    }

    /** Whether this player placed at (`x`, `y`) would leave the map or overlap a solid. */
    method CheckCollision(x: real, y: real, bounds: Bounds, solids: seq<Rect>) returns (hit: bool)
      ensures hit <==> Blocked(Rect(x, y, w, h), bounds, solids)
    {
      if x < 0.0 || x + w > bounds.width || y < 0.0 || y + h > bounds.height {
        return true;
      }
      var me := Rect(x, y, w, h);
      for i := 0 to |solids|
        invariant forall j :: 0 <= j < i ==> !Intersects(me, solids[j])
      {
        if Intersects(me, solids[i]) {
          return true;
        }
      }
      return false;
    }

    /** The displacement this frame's keys ask for, accumulated key by key as
        the source does, then scaled for SLOW and for a diagonal move. */
    method Intent(input: set<string>, chaos: Option<Chaos>) returns (dx: real, dy: real)
      ensures Velocity(dx, dy) == Steer(input, controls, chaos, speed)
    {
      dx, dy := 0.0, 0.0;
      var leftKey, rightKey, upKey, downKey := controls.left, controls.right, controls.up, controls.down;
      if chaos == Some(Reverse) {
        leftKey, rightKey, upKey, downKey := controls.right, controls.left, controls.down, controls.up;
      }
      ghost var e := Effective(controls, chaos);
      assert leftKey == e.left && rightKey == e.right && upKey == e.up && downKey == e.down;
      if upKey in input { dy := dy - speed; }
      if downKey in input { dy := dy + speed; }
      assert dy == Axis(e.up in input, e.down in input, speed);
      if leftKey in input { dx := dx - speed; }
      if rightKey in input { dx := dx + speed; }
      assert dx == Axis(e.left in input, e.right in input, speed);
      if chaos == Some(Slow) {
        dx := dx * SlowFactor;
        dy := dy * SlowFactor;
      }
      ghost var raw := Velocity(Axis(e.left in input, e.right in input, speed), Axis(e.up in input, e.down in input, speed));
      ghost var paced := Velocity(dx, dy);
      assert paced == if chaos == Some(Slow) then Velocity(raw.dx * SlowFactor, raw.dy * SlowFactor) else raw;
      assert Steer(input, controls, chaos, speed) ==
        if paced.dx != 0.0 && paced.dy != 0.0 then Velocity(paced.dx * Diagonal, paced.dy * Diagonal) else paced;
      if dx != 0.0 && dy != 0.0 {
        dx := dx * Diagonal;
        dy := dy * Diagonal;
      }
    }

    /** Facing update: with any displacement, the last of the rules down, left, up, right that matches wins. */
    method Face(dx: real, dy: real)
      modifies this`direction
      ensures direction == Turn(old(direction), Velocity(dx, dy))
    {
      if dy != 0.0 || dx != 0.0 {
        if dy > 0.0 { direction := Down; }
        if dx < 0.0 { direction := Left; }
        if dy < 0.0 { direction := Up; }
        if dx > 0.0 { direction := Right; }
      }
    }

    /** One frame of movement, then the facing update and the held item following its holder. */
    method Update(input: set<string>, bounds: Bounds, solids: seq<Rect>, chaos: Option<Chaos>)
      modifies this`x, this`y, this`direction, Held()`x, Held()`y
      ensures At() == Move(old(Bounds()), old(direction), input, controls, chaos, speed, bounds, solids)
      ensures Carries()
    {
      var dx, dy := Intent(input, chaos);
      ghost var v := Steer(input, controls, chaos, speed);
      ghost var r0 := Bounds();
      ghost var d0 := direction;

      var nextX := x + dx;
      var hit := CheckCollision(nextX, y, bounds, solids);
      if !hit {
        x := nextX;
      }
      var nextY := y + dy;
      hit := CheckCollision(x, nextY, bounds, solids);
      if !hit {
        y := nextY;
      }

      Face(dx, dy);
      assert Bounds() == Resolve(r0, v, bounds, solids);

      if holdingItem != null {
        holdingItem.x := x + 4.0;
        holdingItem.y := y - 10.0;
      }
    }
  }

  // ---- Properties of the movement model ----

  /** Under REVERSE, holding only the configured LEFT key moves the player right. */
  lemma ReversedLeftMovesRight(c: Controls, speed: real)
    requires c.DistinctDirections()
    ensures Steer({c.left}, c, Some(Reverse), speed) == Velocity(speed, 0.0)
  {
  }

  /** Under SLOW both components are exactly half of what the same keys give without chaos. */
  lemma SlowHalvesVelocity(input: set<string>, c: Controls, speed: real)
    ensures var v := Steer(input, c, None, speed);
            Steer(input, c, Some(Slow), speed) == Velocity(v.dx * SlowFactor, v.dy * SlowFactor)
  {
  }

  /** Each moving component is worth `speed` (halved under SLOW); when both axes
      move, each is further scaled by 0.707. */
  lemma VelocityMagnitudes(input: set<string>, c: Controls, chaos: Option<Chaos>, speed: real)
    ensures var v := Steer(input, c, chaos, speed);
            var s := if chaos == Some(Slow) then speed * SlowFactor else speed;
            var f := if v.dx != 0.0 && v.dy != 0.0 then s * Diagonal else s;
            (v.dx == 0.0 || v.dx == f || v.dx == -f) && (v.dy == 0.0 || v.dy == f || v.dy == -f)
  {
  }

  /** With no key held, the player stays where it is and keeps its facing. */
  lemma NoKeysNoMove(r: Rect, d: Facing, c: Controls, chaos: Option<Chaos>, speed: real, b: Bounds, solids: seq<Rect>)
    ensures Move(r, d, {}, c, chaos, speed, b, solids) == Pose(r.x, r.y, d)
  {
  }

  /** A player inside the map before a frame is inside it afterwards. */
  lemma ResolveStaysInside(r: Rect, v: Velocity, b: Bounds, solids: seq<Rect>)
    requires !Outside(r, b)
    ensures !Outside(Resolve(r, v, b, solids), b)
  {
  }

  /** A player overlapping no solid before a frame overlaps none afterwards. */
  lemma ResolveStaysClear(r: Rect, v: Velocity, b: Bounds, solids: seq<Rect>)
    requires !HitsAny(r, solids)
    ensures !HitsAny(Resolve(r, v, b, solids), solids)
  {
  }

  /** Each axis either moves by its full component or not at all, and the
      position reached is never blocked unless the starting one was. */
  lemma ResolveAxisWise(r: Rect, v: Velocity, b: Bounds, solids: seq<Rect>)
    ensures var m := Resolve(r, v, b, solids);
            (m.x == r.x || m.x == r.x + v.dx) && (m.y == r.y || m.y == r.y + v.dy) &&
            m.w == r.w && m.h == r.h &&
            (m.x != r.x ==> !Blocked(r.(x := m.x), b, solids)) &&
            (m.y != r.y ==> !Blocked(m, b, solids))
  {
  }

  /** Sliding along a wall: a blocked X move still lets a free Y move through. */
  lemma BlockedXLeavesYFree(r: Rect, v: Velocity, b: Bounds, solids: seq<Rect>)
    requires Blocked(r.(x := r.x + v.dx), b, solids)
    requires !Blocked(r.(y := r.y + v.dy), b, solids)
    ensures Resolve(r, v, b, solids) == r.(y := r.y + v.dy)
  {
  }

  /** Facing follows the intended displacement: the last matching rule of
      down, left, up, right wins, and no displacement keeps the old facing. */
  lemma TurnFollowsDisplacement(d: Facing, v: Velocity)
    ensures v.dx == 0.0 && v.dy == 0.0 ==> Turn(d, v) == d
    ensures v.dx > 0.0 ==> Turn(d, v) == Right
    ensures v.dx <= 0.0 && v.dy < 0.0 ==> Turn(d, v) == Up
    ensures v.dx < 0.0 && v.dy >= 0.0 ==> Turn(d, v) == Left
    ensures v.dx == 0.0 && v.dy > 0.0 ==> Turn(d, v) == Down
  {
  }
}
