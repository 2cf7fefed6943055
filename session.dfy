/** The session controller: the `Game` object with its score, ticket, timers,
    chaos modifier, players, stations and ground blocks, the interaction
    resolver and the per-frame update. */
module Session {
  import opened Wrappers
  import opened Geometry
  import opened Catalog
  import opened Tickets
  import opened Entities

  datatype GameState = Menu | Playing | Over

  /** The armed wrong-block penalty: the block that armed it and its absolute expiry. */
  datatype Penalty = Penalty(block: Block, expiresAt: int)

  /** The session's own fields, for saying what an operation leaves as it was. */
  datatype View = View(state: GameState, score: int, combo: int, ticket: Option<Ticket>,
                       chaos: Option<Chaos>, chaosEndTime: int, penalty: Option<Penalty>,
                       deadline: Option<int>, players: seq<Player>, stations: seq<Station>,
                       ground: seq<Block>, readerOpen: bool, compilerOpen: bool)

  /** What a player's action depends on: the session, the block in the
      player's hand with its position and flag, the index of the station in
      reach and of the first ground block the player overlaps. */
  datatype Scene = Scene(view: View, held: Block?, heldX: real, heldY: real, heldWrong: bool,
                         reach: int, overlap: int)

  /** The kind of the station within reach in scene `w`, if any. */
  function StationIn(w: Scene): Option<StationKind>
  {
    if 0 <= w.reach < |w.view.stations| then Some(w.view.stations[w.reach].kind) else None
  }

  /** The session after a player of role `role` acted on scene `w` at time
      `now`. An action never touches the session's state, score, combo, chaos
      modifier, players or stations. */
  function ViewAfter(w: Scene, role: Role, now: nat): (v: View)
    ensures v.state == w.view.state && v.score == w.view.score && v.combo == w.view.combo
    ensures v.chaos == w.view.chaos && v.chaosEndTime == w.view.chaosEndTime
    ensures v.players == w.view.players && v.stations == w.view.stations
  {
    var v := w.view;
    var t := v.ticket;
    var at := StationIn(w);
    if w.held != null then
      // holding: insert at the desk, destroy at the bin, put down elsewhere,
      // drop at the feet with the penalty armed for a kind the ticket does not list
      if at == Some(Desk) then
        if t.Some? && Insertable(t.value, w.held.kind) then
          v.(ticket := Some(Collect(t.value, w.held.kind)), deadline := Arm(v.deadline, Collect(t.value, w.held.kind), now))
        else v
      else if at == Some(Bin) then v.(penalty := if w.heldWrong then None else v.penalty)
      else if at.Some? then v.(ground := v.ground + [w.held])
      else
        var needed := t.Some? && w.held.kind in t.value.question.blocks;
        v.(ground := v.ground + [w.held],
           penalty := if needed || v.penalty.Some? then v.penalty else Some(Penalty(w.held, now + PenaltyWindow)))
    else
      // empty-handed: the board opens the ticket view for the Reader, the desk
      // the submission view for the Compiler with a ready ticket; with no
      // station in reach the first overlapping ground block leaves the ground
      if at == Some(Board) then v.(readerOpen := v.readerOpen || (role == Reader && t.Some?))
      else if at == Some(Desk) then v.(compilerOpen := v.compilerOpen || (role == Compiler && t.Some? && Ready(t.value)))
      else if at.Some? then v
      else if 0 <= w.overlap < |v.ground| then v.(ground := Without(v.ground, v.ground[w.overlap]))
      else v
  }

  /** What the acting player holds afterwards, except at a shelf, where it takes a new block. */
  function HandAfter(w: Scene): Block?
  {
    var t := w.view.ticket;
    var at := StationIn(w);
    if w.held != null then
      if at == Some(Desk) && !(t.Some? && Insertable(t.value, w.held.kind)) then w.held else null
    else if at.None? && 0 <= w.overlap < |w.view.ground| then w.view.ground[w.overlap]
    else null
  }

  /** Where the held block ends up and whether it is flagged, for a player whose
      feet are at (`fx`, `fy`): unmoved at the desk and the bin, beside any other
      station, at the feet otherwise. */
  function HeldAfter(w: Scene, fx: real, fy: real): (real, real, bool)
  {
    var at := StationIn(w);
    if at == Some(Desk) || at == Some(Bin) then (w.heldX, w.heldY, w.heldWrong)
    else if at.Some? then (w.view.stations[w.reach].x + 10.0, w.view.stations[w.reach].y + 10.0, w.heldWrong)
    else
      var t := w.view.ticket;
      var needed := w.held != null && t.Some? && w.held.kind in t.value.question.blocks;
      (fx, fy, w.heldWrong || !needed)
  }

  const Map: Bounds := Bounds(MapWidth, MapHeight)

  /** The stations the level builds, in list order, and where they stand. */
  const LevelKinds: seq<StationKind> := [Board, Desk, Bin, Shelf(Python), Shelf(Math), Shelf(Logic), Shelf(Physics)]
  const LevelRects: seq<Rect> := [
    Rect(MapWidth / 2.0 - 50.0, 20.0, 100.0, 50.0),
    Rect(MapWidth / 2.0 - 75.0, MapHeight - 80.0, 150.0, 60.0),
    Rect(MapWidth - 100.0, MapHeight - 80.0, 60.0, 60.0),
    Rect(100.0, 150.0, TileSize, TileSize),
    Rect(300.0, 150.0, TileSize, TileSize),
    Rect(500.0, 150.0, TileSize, TileSize),
    Rect(700.0, 150.0, TileSize, TileSize)
  ]
  const ReaderKeys: Controls := Controls("KeyW", "KeyS", "KeyA", "KeyD", "KeyE")
  const CompilerKeys: Controls := Controls("ArrowUp", "ArrowDown", "ArrowLeft", "ArrowRight", "Enter")

  /** The first station, in list order, that the rectangle `r` grown by the
      interaction buffer touches, or -1 (`getNearestStation`). */
  function NearestStation(r: Rect, stations: seq<Station>): (i: int)
    ensures -1 <= i < |stations|
    ensures i >= 0 ==> Intersects(Grow(r, InteractionBuffer), stations[i].Bounds())
    ensures forall j :: 0 <= j < |stations| && (i < 0 || j < i) ==>
              !Intersects(Grow(r, InteractionBuffer), stations[j].Bounds())
  {
    if |stations| == 0 then -1
    else if Intersects(Grow(r, InteractionBuffer), stations[0].Bounds()) then 0
    else
      var j := NearestStation(r, stations[1..]);
      if j < 0 then -1 else j + 1
  }

  /** The first ground block, in list order, that `r` overlaps, or -1 (`getNearestBlock`). */
  function FirstOverlapping(r: Rect, bs: seq<Block>): (i: int)
    reads bs
    ensures -1 <= i < |bs|
    ensures i >= 0 ==> Intersects(r, bs[i].Bounds())
    ensures forall j :: 0 <= j < |bs| && (i < 0 || j < i) ==> !Intersects(r, bs[j].Bounds())
  {
    if |bs| == 0 then -1
    else if Intersects(r, bs[0].Bounds()) then 0
    else
      var j := FirstOverlapping(r, bs[1..]);
      if j < 0 then -1 else j + 1
  }

  /** `bs` with every occurrence of `b` removed, order kept (`filter(x => x !== b)`). */
  function Without(bs: seq<Block>, b: Block): (r: seq<Block>)
    ensures |r| <= |bs|
  {
    if bs == [] then [] else (if bs[0] == b then [] else [bs[0]]) + Without(bs[1..], b)
  }

  /** What `Without` keeps: every entry other than `b`, and nothing else. */
  lemma {:induction false} WithoutMembers(bs: seq<Block>, b: Block)
    ensures forall c :: c in Without(bs, b) <==> c in bs && c != b
  {
    if bs != [] {
      WithoutMembers(bs[1..], b);
      assert bs == [bs[0]] + bs[1..];
    }
  }

  lemma {:induction false} WithoutAbsent(bs: seq<Block>, b: Block)
    requires b !in bs
    ensures Without(bs, b) == bs
  {
    if bs != [] {
      WithoutAbsent(bs[1..], b);
    }
  }

  /** In a list without repetitions, removing the block at `i` removes exactly that entry. */
  lemma {:induction false} WithoutAt(bs: seq<Block>, i: nat)
    requires Distinct(bs) && i < |bs|
    ensures Without(bs, bs[i]) == bs[..i] + bs[i + 1..]
  {
    var b := bs[i];
    var tail := bs[1..];
    if i == 0 {
      assert b !in tail by {
        forall j | 0 <= j < |tail| ensures tail[j] != b {
          assert tail[j] == bs[j + 1];
        }
      }
      WithoutAbsent(tail, b);
    } else {
      assert Distinct(tail) by {
        forall j, m | 0 <= j < m < |tail| ensures tail[j] != tail[m] {
          assert tail[j] == bs[j + 1] && tail[m] == bs[m + 1];
        }
      }
      assert tail[i - 1] == b;
      WithoutAt(tail, i - 1);
      assert bs[0] != b;
      calc {
        Without(bs, b);
        [bs[0]] + Without(tail, b);
        [bs[0]] + (tail[..i - 1] + tail[i..]);
        { assert tail[..i - 1] == bs[1..i] && tail[i..] == bs[i + 1..]; }
        [bs[0]] + (bs[1..i] + bs[i + 1..]);
        { assert [bs[0]] + bs[1..i] == bs[..i]; }
        bs[..i] + bs[i + 1..];
      }
    }
  }

  /** Removing a block from a list without repetitions leaves a list without repetitions. */
  lemma {:induction false} WithoutDistinct(bs: seq<Block>, b: Block)
    requires Distinct(bs)
    ensures Distinct(Without(bs, b))
  {
    if bs != [] {
      WithoutDistinct(bs[1..], b);
      WithoutMembers(bs[1..], b);
      var rest := Without(bs[1..], b);
      assert bs[0] !in rest;
    }
  }

  /** The submission deadline after an insertion that leaves the ticket as `t`:
      armed to `now` plus the window only when `t` is ready and none is armed. */
  function Arm(d: Option<int>, t: Ticket, now: int): (r: Option<int>)
    ensures d.Some? ==> r == d
    ensures r != d ==> Ready(t) && r == Some(now + SubmissionWindow)
    ensures d.None? && Ready(t) ==> r == Some(now + SubmissionWindow)
  {
    if Ready(t) && d.None? then Some(now + SubmissionWindow) else d
  }

  /** The ticket after one frame: SPEED pulls its expiry in by the frame time. */
  function Accelerated(t: Option<Ticket>, chaos: Option<Chaos>, dt: int): (r: Option<Ticket>)
    ensures r.Some? == t.Some?
    ensures r.Some? ==> r.value.collected == t.value.collected && r.value.question == t.value.question
    ensures r.Some? ==> r.value.expiresAt == t.value.expiresAt - (if chaos == Some(Speed) then dt else 0)
  {
    if t.Some? && chaos == Some(Speed) then Some(t.value.(expiresAt := t.value.expiresAt - dt)) else t
  }

  /** No time remains on the ticket. */
  predicate Expired(t: Option<Ticket>, now: int)
  {
    t.Some? && t.value.expiresAt - now <= 0
  }

  /** The total of a run of frame lengths. */
  function Total(dts: seq<int>): int
  {
    if |dts| == 0 then 0 else Total(dts[..|dts| - 1]) + dts[|dts| - 1]
  }

  /** The ticket after a run of frames, each `Accelerated` by its length under `chaos`. */
  function AcceleratedOver(t: Option<Ticket>, chaos: Option<Chaos>, dts: seq<int>): Option<Ticket>
  {
    if |dts| == 0 then t else Accelerated(AcceleratedOver(t, chaos, dts[..|dts| - 1]), chaos, dts[|dts| - 1])
  }

  /** SPEED runs the ticket's clock at twice the rate: over frames lasting
      `Total(dts)` in all, the ticket is expired exactly when the unaccelerated
      ticket would be expired after twice that time. Without SPEED the ticket is
      left as it is. */
  lemma {:induction false} SpeedDoublesTicketTime(t: Option<Ticket>, dts: seq<int>, start: int)
    ensures AcceleratedOver(t, Some(Speed), dts).Some? == t.Some?
    ensures t.Some? ==> AcceleratedOver(t, Some(Speed), dts).value.expiresAt == t.value.expiresAt - Total(dts)
    ensures Expired(AcceleratedOver(t, Some(Speed), dts), start + Total(dts)) <==> Expired(t, start + 2 * Total(dts))
    ensures forall c :: c != Some(Speed) ==> AcceleratedOver(t, c, dts) == t
  {
    if |dts| > 0 {
      SpeedDoublesTicketTime(t, dts[..|dts| - 1], start);
    }
  }

  /** The wrong-block penalty is armed and its time is up. */
  predicate PenaltyDue(p: Option<Penalty>, now: int)
  {
    p.Some? && p.value.expiresAt - now <= 0
  }

  /** The submission deadline is armed and its time is up. */
  predicate DeadlineDue(d: Option<int>, now: int)
  {
    d.Some? && d.value - now <= 0
  }

  /** The index of the first player whose action key is `code`, or -1. */
  function KeyHolder(ps: seq<Player>, code: string): (i: int)
    ensures -1 <= i < |ps|
    ensures i >= 0 ==> ps[i].controls.action == code
    ensures forall j :: 0 <= j < |ps| && (i < 0 || j < i) ==> ps[j].controls.action != code
  {
    if |ps| == 0 then -1
    else if ps[0].controls.action == code then 0
    else
      var j := KeyHolder(ps[1..], code);
      if j < 0 then -1 else j + 1
  }

  /** The index of the first player of role `r`, or -1 (`players.find`). */
  function FirstWithRole(ps: seq<Player>, r: Role): (i: int)
    ensures -1 <= i < |ps|
    ensures i >= 0 ==> ps[i].role == r
    ensures forall j :: 0 <= j < |ps| && (i < 0 || j < i) ==> ps[j].role != r
  {
    if |ps| == 0 then -1
    else if ps[0].role == r then 0
    else
      var j := FirstWithRole(ps[1..], r);
      if j < 0 then -1 else j + 1
  }

  /** The index of the first station of kind `k`, or -1 (`stations.find`). */
  function FirstOfKind(ss: seq<Station>, k: StationKind): (i: int)
    ensures -1 <= i < |ss|
    ensures i >= 0 ==> ss[i].kind == k
    ensures forall j :: 0 <= j < |ss| && (i < 0 || j < i) ==> ss[j].kind != k
  {
    if |ss| == 0 then -1
    else if ss[0].kind == k then 0
    else
      var j := FirstOfKind(ss[1..], k);
      if j < 0 then -1 else j + 1
  }

  /** The rectangles the two players of a fresh level start in do not leave the
      map and touch no station. */
  lemma StartPositionsClear()
    ensures !Blocked(Rect(100.0, 100.0, PlayerSize, PlayerSize), Map, LevelRects)
    ensures !Blocked(Rect(200.0, 100.0, PlayerSize, PlayerSize), Map, LevelRects)
  {
    forall i | 0 <= i < |LevelRects|
      ensures !Intersects(Rect(100.0, 100.0, PlayerSize, PlayerSize), LevelRects[i])
      ensures !Intersects(Rect(200.0, 100.0, PlayerSize, PlayerSize), LevelRects[i])
    {
      if i == 0 {} else if i == 1 {} else if i == 2 {} else if i == 3 {} else if i == 4 {} else if i == 5 {} else {}
    }
  }

  /** A frame's movement keeps a player that was clear of the map edges and the solids clear. */
  lemma MoveKeepsUnblocked(r: Rect, d: Facing, input: set<string>, c: Controls, chaos: Option<Chaos>, speed: real,
                           b: Bounds, solids: seq<Rect>)
    requires !Blocked(r, b, solids)
    ensures var m := Move(r, d, input, c, chaos, speed, b, solids);
            !Blocked(r.(x := m.x, y := m.y), b, solids)
  {
    var v := Steer(input, c, chaos, speed);
    ResolveStaysInside(r, v, b, solids);
    ResolveStaysClear(r, v, b, solids);
  }

  /** The seven stations of the level, in the order `setupLevel` lists them. */
  method BuildStations() returns (s: seq<Station>)
    ensures |s| == |LevelKinds| && Distinct(s)
    ensures forall i :: 0 <= i < |s| ==> fresh(s[i]) && s[i].kind == LevelKinds[i]
    ensures StationRects(s) == LevelRects
  {
    var board := new Station(Board, MapWidth / 2.0 - 50.0, 20.0, 100.0, 50.0);
    var desk := new Station(Desk, MapWidth / 2.0 - 75.0, MapHeight - 80.0, 150.0, 60.0);
    var bin := new Station(Bin, MapWidth - 100.0, MapHeight - 80.0, 60.0, 60.0);
    var s1 := new Station.KnowledgeShelf(Python, 100.0, 150.0);
    var s2 := new Station.KnowledgeShelf(Math, 300.0, 150.0);
    var s3 := new Station.KnowledgeShelf(Logic, 500.0, 150.0);
    var s4 := new Station.KnowledgeShelf(Physics, 700.0, 150.0);
    s := [board, desk, bin, s1, s2, s3, s4];
    var rects := StationRects(s);
    assert rects[0] == LevelRects[0] && rects[1] == LevelRects[1] && rects[2] == LevelRects[2];
    assert rects[3] == LevelRects[3] && rects[4] == LevelRects[4] && rects[5] == LevelRects[5];
    assert rects[6] == LevelRects[6];
  }

  class Game {
    var gameState: GameState
    var score: int
    var combo: int
    var activeTicket: Option<Ticket>
    var chaosMode: Option<Chaos>
    var chaosEndTime: int
    var wrongBlockPenalty: Option<Penalty>
    var submissionDeadline: Option<int>
    var players: seq<Player>
    var stations: seq<Station>
    var blocks: seq<Block>
    var readerModalOpen: bool
    var compilerModalOpen: bool

    ghost function Snap(): View
      reads this
    {
      View(gameState, score, combo, activeTicket, chaosMode, chaosEndTime, wrongBlockPenalty,
           submissionDeadline, players, stations, blocks, readerModalOpen, compilerModalOpen)
    }

    /** Every block has at most one owner: a player's hand or one place on the ground list. */
    ghost predicate OwnershipExclusive()
      reads this`players, this`blocks, players`holdingItem
    {
      && Distinct(blocks)
      && (forall i :: 0 <= i < |players| && players[i].holdingItem != null ==> players[i].holdingItem !in blocks)
      && DistinctHands()
    }

    /** No block is in two hands. */
    ghost predicate DistinctHands()
      reads this`players, players`holdingItem
    {
      forall i, j :: 0 <= i < j < |players| && players[i].holdingItem != null ==>
        players[i].holdingItem != players[j].holdingItem
    }

    /** Every player lies inside the map and overlaps no station. */
    ghost predicate PlayersClear()
      reads this`players, this`stations, players`x, players`y
    {
      forall i :: 0 <= i < |players| ==> !Blocked(players[i].Bounds(), Map, StationRects(stations))
    }

    ghost predicate Valid()
      reads this`combo, this`activeTicket, this`players, this`stations, this`blocks, players`holdingItem
    {
      && combo >= 1
      && (activeTicket.Some? ==> WellSized(activeTicket.value))
      && Distinct(players) && Distinct(stations)
      && OwnershipExclusive()
    }

    /** The blocks currently in some player's hand. */
    ghost function HeldBlocks(): set<Block>
      reads this`players, players`holdingItem
    {
      set p | p in players && p.holdingItem != null :: p.holdingItem
    }

    /** The level as `setupLevel` builds it. */
    ghost predicate FreshLevel()
      reads this`players, this`stations, this`blocks, players
    {
      && |players| == 2
      && players[0].id == 1 && players[0].role == Reader && players[0].controls == ReaderKeys
      && players[0].x == 100.0 && players[0].y == 100.0
      && players[1].id == 2 && players[1].role == Compiler && players[1].controls == CompilerKeys
      && players[1].x == 200.0 && players[1].y == 100.0
      && (forall i :: 0 <= i < 2 ==> players[i].holdingItem == null && players[i].direction == Down)
      && |stations| == |LevelKinds|
      && (forall i :: 0 <= i < |stations| ==> stations[i].kind == LevelKinds[i])
      && StationRects(stations) == LevelRects
      && blocks == []
    }

    /** Index of the station within reach of `p`, or -1. */
    function Reach(p: Player): int
      reads this`stations, p`x, p`y
    {
      NearestStation(p.Bounds(), stations)
    }

    /** The kind of the station within reach of `p`. */
    function StationAt(p: Player): Option<StationKind>
      reads this`stations, p`x, p`y
    {
      var i := Reach(p);
      if i < 0 then None else Some(stations[i].kind)
    }

    constructor ()
      ensures Valid() && PlayersClear() && FreshLevel()
      ensures gameState == Menu && score == 0 && combo == 1 && activeTicket == None
      ensures chaosMode == None && wrongBlockPenalty == None && submissionDeadline == None
      ensures !readerModalOpen && !compilerModalOpen
    {
      gameState := Menu;
      score := 0;
      combo := 1;
      activeTicket := None;
      chaosMode := None;
      chaosEndTime := 0;
      wrongBlockPenalty := None;
      submissionDeadline := None;
      players := [];
      stations := [];
      blocks := [];
      readerModalOpen := false;
      compilerModalOpen := false;
      new;
      SetupLevel();
    }

    /** Builds the two players, the seven stations and an empty ground list. */
    method SetupLevel()
      modifies this`players, this`stations, this`blocks
      ensures FreshLevel() && Distinct(players) && Distinct(stations) && OwnershipExclusive() && PlayersClear()
      ensures forall i :: 0 <= i < |players| ==> fresh(players[i])
      ensures forall i :: 0 <= i < |stations| ==> fresh(stations[i])
    {
      var p1 := new Player(1, 100.0, 100.0, Reader, ReaderKeys);
      var p2 := new Player(2, 200.0, 100.0, Compiler, CompilerKeys);
      players := [p1, p2];
      stations := BuildStations();
      blocks := [];
      StartPositionsClear();
    }

    /** Draws question `q` as the new ticket at time `now` and disarms the submission deadline. */
    method SpawnTicket(q: nat, now: nat)
      requires q < |Questions|
      modifies this`activeTicket, this`submissionDeadline
      ensures activeTicket == Some(Spawn(Questions[q], now)) && submissionDeadline == None
    {
      activeTicket := Some(Spawn(Questions[q], now));
      submissionDeadline := None;
    }

    /** Starts (or restarts) a session on question `q`. The wrong-block penalty
        and the chaos modifier are left as they were. */
    method StartGame(q: nat, now: nat)
      requires q < |Questions|
      modifies this`gameState, this`score, this`combo, this`players, this`stations, this`blocks
      modifies this`activeTicket, this`submissionDeadline
      ensures Valid() && PlayersClear() && FreshLevel()
      ensures forall i :: 0 <= i < |players| ==> fresh(players[i])
      ensures forall i :: 0 <= i < |stations| ==> fresh(stations[i])
      ensures gameState == Playing && score == 0 && combo == 1
      ensures activeTicket == Some(Spawn(Questions[q], now)) && submissionDeadline == None
      ensures wrongBlockPenalty == old(wrongBlockPenalty)
      ensures chaosMode == old(chaosMode) && chaosEndTime == old(chaosEndTime)
      ensures readerModalOpen == old(readerModalOpen) && compilerModalOpen == old(compilerModalOpen)
    {
      gameState := Playing;
      score := 0;
      combo := 1;
      SetupLevel();
      SpawnTicket(q, now);
    }

    /** The restart the session evidently intends: as `StartGame`, and no timer
        or modifier armed in the previous session survives. */
    method StartFreshGame(q: nat, now: nat)
      requires q < |Questions|
      modifies this`gameState, this`score, this`combo, this`players, this`stations, this`blocks
      modifies this`activeTicket, this`submissionDeadline, this`wrongBlockPenalty, this`chaosMode
      ensures Valid() && PlayersClear() && FreshLevel()
      ensures forall i :: 0 <= i < |players| ==> fresh(players[i])
      ensures forall i :: 0 <= i < |stations| ==> fresh(stations[i])
      ensures gameState == Playing && score == 0 && combo == 1
      ensures activeTicket == Some(Spawn(Questions[q], now))
      ensures submissionDeadline == None && wrongBlockPenalty == None && chaosMode == None
      ensures chaosEndTime == old(chaosEndTime)
      ensures readerModalOpen == old(readerModalOpen) && compilerModalOpen == old(compilerModalOpen)
    {
      StartGame(q, now);
      ClearWrongBlockPenalty();
      EndChaos();
    }

    /** Ends the session and closes both interaction views. */
    method GameOver()
      modifies this`gameState, this`readerModalOpen, this`compilerModalOpen
      ensures gameState == Over && !readerModalOpen && !compilerModalOpen
    {
      gameState := Over;
      compilerModalOpen := false;
      readerModalOpen := false;
    }

    /** Activates chaos event `e` unless a modifier is already active. */
    method TriggerChaos(e: nat, now: nat)
      requires e < |ChaosEvents|
      modifies this`chaosMode, this`chaosEndTime
      ensures old(chaosMode).Some? ==> chaosMode == old(chaosMode) && chaosEndTime == old(chaosEndTime)
      ensures old(chaosMode).None? ==>
        chaosMode == Some(ChaosEvents[e].id) && chaosEndTime == now + ChaosEvents[e].duration
    {
      if chaosMode.Some? {
        return;
      }
      var event := ChaosEvents[e];
      chaosMode := Some(event.id);
      chaosEndTime := now + event.duration;
    }

    method EndChaos()
      modifies this`chaosMode
      ensures chaosMode == None
    {
      chaosMode := None;
    }

    /** Arms the wrong-block penalty for `b`; a penalty already armed is kept. */
    method StartWrongBlockPenalty(b: Block, now: nat)
      modifies this`wrongBlockPenalty
      ensures old(wrongBlockPenalty).Some? ==> wrongBlockPenalty == old(wrongBlockPenalty)
      ensures old(wrongBlockPenalty).None? ==> wrongBlockPenalty == Some(Penalty(b, now + PenaltyWindow))
    {
      if wrongBlockPenalty.Some? {
        return;
      }
      wrongBlockPenalty := Some(Penalty(b, now + PenaltyWindow));
    }

    method ClearWrongBlockPenalty()
      modifies this`wrongBlockPenalty
      ensures wrongBlockPenalty == None
    {
      wrongBlockPenalty := None;
    }

    /** The ticket view opens whenever there is a ticket. */
    method OpenReaderModal()
      modifies this`readerModalOpen
      ensures readerModalOpen == (old(readerModalOpen) || activeTicket.Some?)
    {
      if activeTicket.None? {
        return;
      }
      readerModalOpen := true;
    }

    /** The submission view opens only when there is a ticket and it is ready. */
    method OpenCompilerModal()
      modifies this`compilerModalOpen
      ensures compilerModalOpen == (old(compilerModalOpen) || (activeTicket.Some? && Ready(activeTicket.value)))
    {
      if activeTicket.None? {
        return;
      }
      if !Ready(activeTicket.value) {
        return;
      }
      compilerModalOpen := true;
    }

    /** Offers `p`'s block to the ticket: the lowest open slot of its kind is
        marked and the block consumed; the ticket becoming ready arms the
        submission deadline unless one is armed. Otherwise nothing changes. */
    method TryInsertBlock(p: Player, now: nat)
      requires Valid() && p in players && p.holdingItem != null
      modifies this`activeTicket, this`submissionDeadline, p`holdingItem
      ensures Valid()
      ensures var k := old(p.holdingItem).kind;
              var t := old(activeTicket);
              if t.Some? && Insertable(t.value, k) then
                && p.holdingItem == null
                && Snap() == old(Snap()).(ticket := Some(Collect(t.value, k)),
                                          deadline := Arm(old(submissionDeadline), Collect(t.value, k), now))
              else
                p.holdingItem == old(p.holdingItem) && Snap() == old(Snap())
      ensures old(submissionDeadline).Some? ==> submissionDeadline == old(submissionDeadline)
      ensures submissionDeadline != old(submissionDeadline) ==>
        activeTicket.Some? && Ready(activeTicket.value) && submissionDeadline == Some(now + SubmissionWindow)
    {
      if activeTicket.None? {
        return;
      }
      var t := activeTicket.value;
      var i := FirstOpen(t, p.holdingItem.kind);
      if i != -1 {
        t := t.(collected := Mark(t.collected, i));
        activeTicket := Some(t);
        p.holdingItem := null;
        if Ready(t) && submissionDeadline.None? {
          submissionDeadline := Some(now + SubmissionWindow);
        }
      }
    }

    /** `p` throws its block in the bin, where it leaves play; trashing a
        flagged block lifts the wrong-block penalty. */
    method DestroyHeld(p: Player)
      requires Valid() && p in players && p.holdingItem != null
      modifies this`wrongBlockPenalty, p`holdingItem
      ensures Valid() && p.holdingItem == null
      ensures Snap() == old(Snap()).(penalty := if old(p.holdingItem.isWrong) then None else old(wrongBlockPenalty))
    {
      if p.holdingItem.isWrong {
        ClearWrongBlockPenalty();
      }
      p.holdingItem := null;
    }

    /** `p` puts its block down at (`x`, `y`): it joins the end of the ground list. */
    method PutDown(p: Player, x: real, y: real)
      requires Valid() && p in players && p.holdingItem != null
      modifies this`blocks, p`holdingItem, p.Held()`x, p.Held()`y
      ensures Valid() && p.holdingItem == null
      ensures old(p.holdingItem).x == x && old(p.holdingItem).y == y
      ensures Snap() == old(Snap()).(ground := old(blocks) + [old(p.holdingItem)])
    {
      var b := p.holdingItem;
      b.x := x;
      b.y := y;
      blocks := blocks + [b];
      p.holdingItem := null;
    }

    /** Empty-handed `p` takes a new block of kind `k` at its own position. */
    method TakeNew(p: Player, k: Kind)
      requires Valid() && p in players && p.holdingItem == null
      modifies p`holdingItem
      ensures Valid()
      ensures p.holdingItem != null && fresh(p.holdingItem)
      ensures p.holdingItem.kind == k && p.holdingItem.x == p.x && p.holdingItem.y == p.y && !p.holdingItem.isWrong
    {
      var b := new Block(k, p.x, p.y);
      p.holdingItem := b;
    }

    /** Empty-handed `p` picks up the ground block at index `j`. */
    method PickUp(p: Player, j: nat)
      requires Valid() && p in players && p.holdingItem == null && j < |blocks|
      modifies this`blocks, p`holdingItem
      ensures Valid()
      ensures p.holdingItem == old(blocks[j]) && blocks == Without(old(blocks), old(blocks[j]))
    {
      var block := blocks[j];
      WithoutDistinct(blocks, block);
      WithoutMembers(blocks, block);
      blocks := Without(blocks, block);
      p.holdingItem := block;
    }

    /** `p` drops its block at its feet, flagging it and arming the penalty
        when the ticket does not list its kind. */
    method DropAtFeet(p: Player, now: nat)
      requires Valid() && p in players && p.holdingItem != null
      modifies this`blocks, this`wrongBlockPenalty, p`holdingItem, p.Held()`x, p.Held()`y, p.Held()`isWrong
      ensures Valid() && p.holdingItem == null
      ensures var b := old(p.holdingItem);
              var needed := activeTicket.Some? && b.kind in activeTicket.value.question.blocks;
              && b.x == p.x && b.y == p.y + p.h && b.isWrong == (old(b.isWrong) || !needed)
              && Snap() == old(Snap()).(ground := old(blocks) + [b],
                                        penalty := if needed || old(wrongBlockPenalty).Some? then old(wrongBlockPenalty)
                                                   else Some(Penalty(b, now + PenaltyWindow)))
    {
      var b := p.holdingItem;
      var needed := activeTicket.Some? && b.kind in activeTicket.value.question.blocks;
      if !needed {
        b.isWrong := true;
        StartWrongBlockPenalty(b, now);
      }
      PutDown(p, p.x, p.y + p.h);
    }

    /** `p` holds a block and station `i` is within its reach: insert at the
        desk, destroy at the bin, or put down beside any other station. */
    method DropAtStation(p: Player, i: int, now: nat)
      requires Valid() && p in players && p.holdingItem != null && 0 <= i == Reach(p)
      modifies this`activeTicket, this`submissionDeadline, this`wrongBlockPenalty, this`blocks,
               p`holdingItem, p.Held()`x, p.Held()`y
      ensures Valid()
      ensures stations[i].kind == Desk ==>
        var k := old(p.holdingItem).kind;
        var t := old(activeTicket);
        && unchanged(old(p.holdingItem))
        && if t.Some? && Insertable(t.value, k) then
             && p.holdingItem == null
             && Snap() == old(Snap()).(ticket := Some(Collect(t.value, k)),
                                        deadline := Arm(old(submissionDeadline), Collect(t.value, k), now))
           else
             p.holdingItem == old(p.holdingItem) && Snap() == old(Snap())
      ensures stations[i].kind == Bin ==>
        && unchanged(old(p.holdingItem))
        && p.holdingItem == null
        && Snap() == old(Snap()).(penalty := if old(p.holdingItem.isWrong) then None else old(wrongBlockPenalty))
      ensures stations[i].kind !in {Desk, Bin} ==>
        var b := old(p.holdingItem);
        && b.x == stations[i].x + 10.0 && b.y == stations[i].y + 10.0
        && p.holdingItem == null
        && Snap() == old(Snap()).(ground := old(blocks) + [b])
    {
      var s := stations[i];
      if s.kind == Desk {
        TryInsertBlock(p, now);
      } else if s.kind == Bin {
        DestroyHeld(p);
      } else {
        PutDown(p, s.x + 10.0, s.y + 10.0);
      }
    }

    /** `p` holds a block and pressed its action key: insert at the desk,
        destroy at the bin, put down beside any other station, or drop at the
        feet, flagging it when the ticket does not list its kind. */
    method DropHeld(p: Player, now: nat)
      requires Valid() && p in players && p.holdingItem != null
      modifies this, p`holdingItem, p.Held()`x, p.Held()`y, p.Held()`isWrong
      ensures Valid()
      ensures Acted(old(SceneOf(p)), p, now)
    {
      var station := NearestStation(p.Bounds(), stations);
      if station >= 0 {
        DropAtStation(p, station, now);
      } else {
        DropAtFeet(p, now);
      }
    }

    /** Empty-handed `p` with station `i` in reach: a shelf hands out a new
        block, the board and the desk open the view of the role that owns them. */
    method UseStation(p: Player, i: int)
      requires Valid() && p in players && p.holdingItem == null && 0 <= i == Reach(p)
      modifies this`readerModalOpen, this`compilerModalOpen, p`holdingItem
      ensures Valid()
      ensures stations[i].kind.Shelf? ==>
        && p.holdingItem != null && fresh(p.holdingItem)
        && p.holdingItem.kind == stations[i].kind.blockType
        && p.holdingItem.x == p.x && p.holdingItem.y == p.y && !p.holdingItem.isWrong
      ensures !stations[i].kind.Shelf? ==> p.holdingItem == null
      ensures readerModalOpen == (old(readerModalOpen) ||
                                  (stations[i].kind == Board && p.role == Reader && activeTicket.Some?))
      ensures compilerModalOpen == (old(compilerModalOpen) ||
                                    (stations[i].kind == Desk && p.role == Compiler && activeTicket.Some? && Ready(activeTicket.value)))
    {
      var s := stations[i];
      if s.kind.Shelf? {
        TakeNew(p, s.kind.blockType);
      } else if s.kind == Board && p.role == Reader {
        OpenReaderModal();
      } else if s.kind == Desk && p.role == Compiler {
        OpenCompilerModal();
      }
    }

    /** `p` holds nothing and pressed its action key: take a new block from a
        shelf, open the view its role owns at the board or the desk, or, with
        no station in reach, pick up the first ground block it overlaps. */
    method TakeOrUse(p: Player, now: nat)
      requires Valid() && p in players && p.holdingItem == null
      modifies this, p`holdingItem
      ensures Valid()
      ensures Acted(old(SceneOf(p)), p, now)
      ensures old(StationAt(p)).Some? && old(StationAt(p)).value.Shelf? ==> fresh(p.holdingItem)
    {
      ghost var w := SceneOf(p);
      var station := NearestStation(p.Bounds(), stations);
      if station >= 0 {
        assert StationIn(w) == Some(stations[station].kind);
        UseStation(p, station);
        assert Snap() == ViewAfter(w, p.role, now);
        return;
      }
      var j := FirstOverlapping(p.Bounds(), blocks);
      assert StationIn(w).None? && j == w.overlap;
      if j >= 0 {
        PickUp(p, j);
        assert Snap() == w.view.(ground := Without(w.view.ground, w.view.ground[j]));
      }
    }

    /** What `handlePlayerAction` looks at in the current state when `p` acts. */
    ghost function SceneOf(p: Player): Scene
      reads this, p, p.holdingItem, blocks
    {
      var b := p.holdingItem;
      Scene(Snap(), b, if b == null then 0.0 else b.x, if b == null then 0.0 else b.y, b != null && b.isWrong,
            Reach(p), FirstOverlapping(p.Bounds(), blocks))
    }

    /** `p` acted on scene `w`: the session, `p`'s hand and the block it held
        are as `ViewAfter`, `HandAfter` and `HeldAfter` say; at a shelf the hand
        holds a block that was not on the ground, of the shelf's kind, at `p`'s
        position and unflagged. */
    ghost predicate Acted(w: Scene, p: Player, now: nat)
      reads this, p, p.holdingItem, w.held
    {
      var at := StationIn(w);
      && Snap() == ViewAfter(w, p.role, now)
      && (if w.held == null && at.Some? && at.value.Shelf? then
            && p.holdingItem != null && p.holdingItem !in w.view.ground
            && p.holdingItem.kind == at.value.blockType
            && p.holdingItem.x == p.x && p.holdingItem.y == p.y && !p.holdingItem.isWrong
          else
            p.holdingItem == HandAfter(w))
      && (w.held != null ==> (w.held.x, w.held.y, w.held.isWrong) == HeldAfter(w, p.x, p.y + p.h))
    }

    /** The action key of `p` was released: what happens depends on what `p`
        holds, the station in reach and `p`'s role. */
    method HandlePlayerAction(p: Player, now: nat)
      requires Valid() && p in players
      modifies this, p`holdingItem, p.Held()`x, p.Held()`y, p.Held()`isWrong
      ensures Valid()
      ensures gameState == old(gameState) && score == old(score) && combo == old(combo)
      ensures chaosMode == old(chaosMode) && chaosEndTime == old(chaosEndTime)
      ensures players == old(players) && stations == old(stations)
      ensures Acted(old(SceneOf(p)), p, now)
      ensures old(p.holdingItem) == null && old(StationAt(p)).Some? && old(StationAt(p)).value.Shelf? ==> fresh(p.holdingItem)
      ensures forall q :: q in players && q != p ==>
        q.holdingItem == old(q.holdingItem) && (q.holdingItem != null ==> unchanged(q.holdingItem))
    {
      if p.holdingItem != null {
        DropHeld(p, now);
      } else {
        TakeOrUse(p, now);
      }
    }

    /** No two players answer to the same action key. */
    ghost predicate DistinctActionKeys()
      reads this`players
    {
      forall i, j :: 0 <= i < j < |players| ==> players[i].controls.action != players[j].controls.action
    }

    /** A fresh level has a Reader and a board, so the ticket view's close check can find both. */
    lemma FreshLevelHasReaderAndBoard()
      requires FreshLevel()
      ensures HasReaderAndBoard()
    {
    }

    /** The level's two players answer to `KeyE` and `Enter`, so no action key is shared. */
    lemma FreshLevelKeysDistinct()
      requires FreshLevel()
      ensures DistinctActionKeys()
    {
    }

    /** The player at index `k` acts; every other player keeps its hand and its held block. */
    method ActAt(k: nat, now: nat)
      requires Valid() && k < |players|
      modifies this, {players[k]}`holdingItem, players[k].Held()`x, players[k].Held()`y, players[k].Held()`isWrong
      ensures Valid()
      ensures players == old(players) && stations == old(stations)
      ensures gameState == old(gameState) && score == old(score) && combo == old(combo)
      ensures chaosMode == old(chaosMode) && chaosEndTime == old(chaosEndTime)
      ensures Acted(old(SceneOf(players[k])), players[k], now)
      ensures forall i :: 0 <= i < |players| && i != k ==>
        players[i].holdingItem == old(players[i].holdingItem) &&
        (players[i].holdingItem != null ==> unchanged(players[i].holdingItem))
    {
      HandlePlayerAction(players[k], now);
    }

    /** Every player whose action key is `code` acts, in list order; with
        distinct action keys that is at most one player, and it acts on the
        state as it was before. Every other player keeps its hand and its
        held block as they were. */
    method ActOnKey(code: string, now: nat)
      requires Valid() && DistinctActionKeys()
      modifies this, players`holdingItem, HeldBlocks()`x, HeldBlocks()`y, HeldBlocks()`isWrong
      ensures Valid()
      ensures players == old(players) && stations == old(stations)
      ensures gameState == old(gameState) && score == old(score) && combo == old(combo)
      ensures chaosMode == old(chaosMode) && chaosEndTime == old(chaosEndTime)
      ensures forall i :: 0 <= i < |players| && players[i].controls.action == code ==>
        Acted(old(SceneOf(players[i])), players[i], now)
      ensures forall i :: 0 <= i < |players| && players[i].controls.action != code ==>
        players[i].holdingItem == old(players[i].holdingItem) &&
        (players[i].holdingItem != null ==> unchanged(players[i].holdingItem))
      ensures (forall i :: 0 <= i < |players| ==> players[i].controls.action != code) ==> Snap() == old(Snap())
    {
      ghost var m := KeyHolder(players, code);
      var k := 0;
      while k < |players|
        invariant 0 <= k <= |players|
        invariant Valid()
        invariant players == old(players) && stations == old(stations)
        invariant gameState == old(gameState) && score == old(score) && combo == old(combo)
        invariant chaosMode == old(chaosMode) && chaosEndTime == old(chaosEndTime)
        invariant forall i :: 0 <= i < |players| && i != m ==>
          players[i].holdingItem == old(players[i].holdingItem) &&
          (players[i].holdingItem != null ==> unchanged(players[i].holdingItem))
        invariant m < 0 ==> Snap() == old(Snap())
        invariant k <= m ==> SceneOf(players[m]) == old(SceneOf(players[m]))
        invariant 0 <= m < k ==> Acted(old(SceneOf(players[m])), players[m], now)
      {
        var p := players[k];
        if code == p.controls.action {
          assert k == m;
          ActAt(k, now);
        }
        k := k + 1;
      }
    }

    /** A key was released: outside play nothing happens; while playing, the
        player whose action key it is acts (`ActOnKey`). */
    method CheckInteraction(code: string, now: nat)
      requires Valid() && PlayersClear() && DistinctActionKeys()
      modifies this, players`holdingItem, HeldBlocks()`x, HeldBlocks()`y, HeldBlocks()`isWrong
      ensures Valid() && PlayersClear()
      ensures players == old(players) && stations == old(stations)
      ensures gameState == old(gameState) && score == old(score) && combo == old(combo)
      ensures chaosMode == old(chaosMode) && chaosEndTime == old(chaosEndTime)
      ensures forall i :: 0 <= i < |players| ==> players[i].At() == old(players[i].At())
      ensures old(gameState) == Playing ==>
        forall i :: 0 <= i < |players| && players[i].controls.action == code ==> Acted(old(SceneOf(players[i])), players[i], now)
      ensures forall i :: 0 <= i < |players| && (old(gameState) != Playing || players[i].controls.action != code) ==>
        players[i].holdingItem == old(players[i].holdingItem) &&
        (players[i].holdingItem != null ==> unchanged(players[i].holdingItem))
      ensures old(gameState) != Playing || (forall i :: 0 <= i < |players| ==> players[i].controls.action != code) ==>
        Snap() == old(Snap()) && unchanged(old(HeldBlocks()))
    {
      if gameState != Playing {
        return;
      }
      ActOnKey(code, now);
    }

    /** Resolves the ticket with answer `ans` (`None` is a timeout): a correct
        answer earns 100 times the combo and raises the combo; a wrong answer or
        a timeout costs 20 points and resets the combo to 1. */
    method SubmitAnswer(ans: Option<string>)
      requires Valid() && activeTicket.Some?
      modifies this`score, this`combo, this`submissionDeadline, this`readerModalOpen, this`compilerModalOpen
      ensures Valid()
      ensures submissionDeadline == None && !readerModalOpen && !compilerModalOpen
      ensures ans.None? ==> score == old(score) - MissPenalty && combo == 1
      ensures ans.Some? && ans.value == activeTicket.value.question.answer ==>
        score == old(score) + 100 * old(combo) && combo == old(combo) + 1
      ensures ans.Some? && ans.value != activeTicket.value.question.answer ==>
        score == old(score) - MissPenalty && combo == 1
    {
      submissionDeadline := None;
      var correct := ans == Some(activeTicket.value.question.answer);
      if ans.None? {
        score := score - MissPenalty;
        combo := 1;
      } else if correct {
        var points := 100 * combo;
        score := score + points;
        combo := combo + 1;
      } else {
        score := score - MissPenalty;
        combo := 1;
      }
      compilerModalOpen := false;
      readerModalOpen := false;
    }

    /** Player `k` moves one frame against the map and the stations; its held
        block follows it, and no other player or held block moves. */
    method MoveOne(k: nat, input: set<string>, solids: seq<Rect>)
      requires k < |players| && Distinct(players) && DistinctHands() && PlayersClear()
      requires solids == StationRects(stations)
      modifies {players[k]}`x, {players[k]}`y, {players[k]}`direction, players[k].Held()`x, players[k].Held()`y
      ensures PlayersClear()
      ensures players[k].At() == Move(old(players[k].Bounds()), old(players[k].direction), input, players[k].controls,
                                      chaosMode, players[k].speed, Map, solids)
      ensures players[k].Carries()
      ensures forall i :: 0 <= i < |players| && i != k ==> players[i].At() == old(players[i].At())
      ensures forall i :: 0 <= i < |players| && i != k && old(players[i].Carries()) ==> players[i].Carries()
    {
      var p := players[k];
      MoveKeepsUnblocked(p.Bounds(), p.direction, input, p.controls, chaosMode, p.speed, Map, solids);
      p.Update(input, Map, solids, chaosMode);
    }

    /** Every player moves one frame, in list order, against the map and the
        stations, and every held block ends up beside its holder. */
    method MovePlayers(input: set<string>)
      requires Valid() && PlayersClear()
      modifies players`x, players`y, players`direction, HeldBlocks()`x, HeldBlocks()`y
      ensures Valid() && PlayersClear()
      ensures forall i :: 0 <= i < |players| ==>
        players[i].At() == Move(old(players[i].Bounds()), old(players[i].direction), input, players[i].controls,
                                chaosMode, players[i].speed, Map, StationRects(stations))
      ensures forall i :: 0 <= i < |players| ==> players[i].Carries()
    {
      var solids := StationRects(stations);
      ghost var ps, chaos := players, chaosMode;
      ghost var targets := seq(|ps|, i requires 0 <= i < |ps| reads ps =>
        Move(ps[i].Bounds(), ps[i].direction, input, ps[i].controls, chaos, ps[i].speed, Map, solids));
      var k := 0;
      while k < |players|
        invariant 0 <= k <= |players|
        invariant Distinct(players) && DistinctHands() && PlayersClear()
        invariant forall i :: 0 <= i < k ==> players[i].At() == targets[i]
        invariant forall i :: k <= i < |players| ==> players[i].At() == old(players[i].At())
        invariant forall i :: 0 <= i < k ==> players[i].Carries()
      {
        assert targets[k] == Move(players[k].Bounds(), players[k].direction, input, players[k].controls, chaosMode,
                                  players[k].speed, Map, solids);
        assert players[k].Held() <= old(HeldBlocks());
        MoveOne(k, input, solids);
        k := k + 1;
      }
    }

    /** Every station's highlight goes off. */
    method ClearHighlights()
      modifies stations`highlight
      ensures forall j :: 0 <= j < |stations| ==> !stations[j].highlight
    {
      for j := 0 to |stations|
        invariant forall m :: 0 <= m < j ==> !stations[m].highlight
      {
        stations[j].highlight := false;
      }
    }

    /** Lights the station within reach of `p`, if there is one, and returns its
        index; the other highlights are kept. */
    method LightReach(p: Player) returns (nearby: int)
      requires Distinct(stations)
      modifies stations`highlight
      ensures nearby == Reach(p)
      ensures forall m :: 0 <= m < |stations| ==>
        (stations[m].highlight <==> old(stations[m].highlight) || nearby == m)
    {
      nearby := NearestStation(p.Bounds(), stations);
      if nearby >= 0 {
        stations[nearby].highlight := true;
      }
    }

    /** Recomputes every station's highlight: lit exactly when it is the station in reach of some player. */
    method RefreshHighlights()
      requires Distinct(stations)
      modifies stations`highlight
      ensures forall j :: 0 <= j < |stations| ==>
        (stations[j].highlight <==> exists i :: 0 <= i < |players| && Reach(players[i]) == j)
    {
      ClearHighlights();
      ghost var ps := players;
      ghost var reach := seq(|ps|, i requires 0 <= i < |ps| reads this`stations, ps => Reach(ps[i]));
      for i := 0 to |players|
        invariant forall m :: 0 <= m < |stations| ==>
          (stations[m].highlight <==> exists i' :: 0 <= i' < i && reach[i'] == m)
      {
        var nearby := LightReach(players[i]);
        assert nearby == reach[i];
      }
      assert forall i :: 0 <= i < |players| ==> reach[i] == Reach(players[i]);
    }

    /** The deadline checks at the head of a frame: SPEED pulls the ticket's
        expiry in; an expired ticket ends the session; an expired penalty or
        submission deadline ends it and halts the frame (`halted`). */
    method CheckTimers(now: nat, dt: int) returns (halted: bool)
      requires Valid()
      modifies this`activeTicket, this`gameState, this`readerModalOpen, this`compilerModalOpen
      ensures Valid()
      ensures activeTicket == Accelerated(old(activeTicket), chaosMode, dt)
      ensures halted == (PenaltyDue(wrongBlockPenalty, now) || DeadlineDue(submissionDeadline, now))
      ensures var over := Expired(activeTicket, now) || halted;
              && gameState == (if over then Over else old(gameState))
              && readerModalOpen == (old(readerModalOpen) && !over)
              && compilerModalOpen == (old(compilerModalOpen) && !over)
      ensures unchanged(players) && unchanged(stations) && unchanged(old(HeldBlocks()))
    {
      halted := false;
      if activeTicket.Some? {
        if chaosMode == Some(Speed) {
          activeTicket := Some(activeTicket.value.(expiresAt := activeTicket.value.expiresAt - dt));
        }
        if activeTicket.value.expiresAt - now <= 0 {
          GameOver();
        }
      }
      if wrongBlockPenalty.Some? {
        if wrongBlockPenalty.value.expiresAt - now <= 0 {
          GameOver();
          halted := true;
          return;
        }
      }
      if submissionDeadline.Some? {
        if submissionDeadline.value - now <= 0 {
          GameOver();
          halted := true;
          return;
        }
      }
    }

    /** There is a Reader and a board for the ticket view's close check to look at. */
    predicate HasReaderAndBoard()
      reads this`players, this`stations
    {
      FirstWithRole(players, Reader) >= 0 && FirstOfKind(stations, Board) >= 0
    }

    /** The Reader's rectangle overlaps the board's (`p1.collidesWith(board)`). */
    predicate ReaderOnBoard()
      requires HasReaderAndBoard()
      reads this`players, this`stations, players`x, players`y
    {
      Intersects(players[FirstWithRole(players, Reader)].Bounds(), stations[FirstOfKind(stations, Board)].Bounds())
    }

    /** The close check at the end of a frame: an open ticket view closes unless
        the Reader overlaps the board. */
    method CloseReaderView()
      requires readerModalOpen ==> HasReaderAndBoard()
      modifies this`readerModalOpen
      ensures readerModalOpen == (old(readerModalOpen) && ReaderOnBoard())
      ensures PlayersClear() ==> !readerModalOpen
    {
      if readerModalOpen && PlayersClear() {
        ReaderNeverOverlapsBoard();
      }
      if readerModalOpen {
        var p1 := players[FirstWithRole(players, Reader)];
        var board := stations[FirstOfKind(stations, Board)];
        if !Intersects(p1.Bounds(), board.Bounds()) {
          readerModalOpen := false;
        }
      }
    }

    /** The board is one of the solids, so a Reader clear of every station never
        overlaps it, and the close check always closes the view. */
    lemma ReaderNeverOverlapsBoard()
      requires PlayersClear() && HasReaderAndBoard()
      ensures !ReaderOnBoard()
    {
      var r, b := FirstWithRole(players, Reader), FirstOfKind(stations, Board);
      assert !Blocked(players[r].Bounds(), Map, StationRects(stations));
      assert StationRects(stations)[b] == stations[b].Bounds();
    }

    /** The close check as evidently intended: an open ticket view closes once
        the board is out of the Reader's reach, the same reach that opens it. */
    method CloseReaderViewWhenAway()
      requires readerModalOpen ==> HasReaderAndBoard()
      modifies this`readerModalOpen
      ensures readerModalOpen == (old(readerModalOpen) &&
        Intersects(Grow(players[FirstWithRole(players, Reader)].Bounds(), InteractionBuffer),
                   stations[FirstOfKind(stations, Board)].Bounds()))
      ensures old(readerModalOpen) && Reach(players[FirstWithRole(players, Reader)]) == FirstOfKind(stations, Board) ==>
        readerModalOpen
    {
      if readerModalOpen {
        var p1 := players[FirstWithRole(players, Reader)];
        var board := stations[FirstOfKind(stations, Board)];
        if !Intersects(Grow(p1.Bounds(), InteractionBuffer), board.Bounds()) {
          readerModalOpen := false;
        }
      }
    }

    /** The chaos modifier ends once its time has passed, and the station
        highlights are recomputed. */
    method SettleFrame(now: nat)
      requires Distinct(stations)
      modifies stations`highlight, this`chaosMode
      ensures chaosMode == (if old(chaosMode).Some? && now > chaosEndTime then None else old(chaosMode))
      ensures forall j :: 0 <= j < |stations| ==>
        (stations[j].highlight <==> exists i :: 0 <= i < |players| && Reach(players[i]) == j)
    {
      if chaosMode.Some? {
        if now > chaosEndTime {
          EndChaos();
        }
      }
      RefreshHighlights();
    }

    /** The end of a frame, after movement: the chaos modifier and the station
        highlights, then the ticket view's close check, which always closes it. */
    method EndFrame(now: nat)
      requires Distinct(stations) && PlayersClear() && (readerModalOpen ==> HasReaderAndBoard())
      modifies stations`highlight, this`chaosMode, this`readerModalOpen
      ensures chaosMode == (if old(chaosMode).Some? && now > chaosEndTime then None else old(chaosMode))
      ensures forall j :: 0 <= j < |stations| ==>
        (stations[j].highlight <==> exists i :: 0 <= i < |players| && Reach(players[i]) == j)
      ensures !readerModalOpen
    {
      SettleFrame(now);
      label settled:
      CloseReaderView();
      forall j | 0 <= j < |stations|
        ensures stations[j].highlight <==> exists i :: 0 <= i < |players| && Reach(players[i]) == j
      {
        if stations[j].highlight {
          var i :| 0 <= i < |players| && old@settled(Reach(players[i])) == j;
          assert Reach(players[i]) == j;
        }
      }
    }

    /** The rest of a frame that is not halted: movement, then the end of the frame. */
    method Advance(now: nat, input: set<string>)
      requires Valid() && PlayersClear() && (readerModalOpen ==> HasReaderAndBoard())
      modifies players`x, players`y, players`direction, HeldBlocks()`x, HeldBlocks()`y, stations`highlight,
               this`chaosMode, this`readerModalOpen
      ensures Valid() && PlayersClear()
      ensures chaosMode == (if old(chaosMode).Some? && now > chaosEndTime then None else old(chaosMode))
      ensures forall i :: 0 <= i < |players| ==>
        players[i].At() == Move(old(players[i].Bounds()), old(players[i].direction), input,
                                players[i].controls, old(chaosMode), players[i].speed, Map, StationRects(stations))
      ensures forall i :: 0 <= i < |players| ==> players[i].Carries()
      ensures forall j :: 0 <= j < |stations| ==>
        (stations[j].highlight <==> exists i :: 0 <= i < |players| && Reach(players[i]) == j)
      ensures !readerModalOpen
    {
      MovePlayers(input);
      EndFrame(now);
    }

    /** One frame at time `now`, `dt` milliseconds after the previous one:
        the ticket, penalty and submission deadlines, then movement, then the
        end of the chaos modifier, the station highlights and the ticket view's
        close check. Whichever way the frame goes, the ticket view ends closed. */
    method Update(now: nat, dt: int, input: set<string>)
      requires Valid() && PlayersClear() && (readerModalOpen ==> HasReaderAndBoard())
      modifies this`activeTicket, this`gameState, this`readerModalOpen, this`compilerModalOpen, this`chaosMode
      modifies players`x, players`y, players`direction, HeldBlocks()`x, HeldBlocks()`y, stations`highlight
      ensures Valid() && PlayersClear()
      ensures activeTicket == Accelerated(old(activeTicket), old(chaosMode), dt)
      ensures var over := Expired(activeTicket, now) || PenaltyDue(old(wrongBlockPenalty), now)
                          || DeadlineDue(old(submissionDeadline), now);
              && gameState == (if over then Over else old(gameState))
              && compilerModalOpen == (old(compilerModalOpen) && !over)
      ensures !readerModalOpen
      ensures score == old(score) && combo == old(combo) && chaosEndTime == old(chaosEndTime)
      ensures wrongBlockPenalty == old(wrongBlockPenalty) && submissionDeadline == old(submissionDeadline)
      ensures players == old(players) && stations == old(stations) && blocks == old(blocks)
      ensures forall i :: 0 <= i < |players| ==> players[i].holdingItem == old(players[i].holdingItem)
      ensures if PenaltyDue(old(wrongBlockPenalty), now) || DeadlineDue(old(submissionDeadline), now) then
                && chaosMode == old(chaosMode)
                && (forall i :: 0 <= i < |players| ==> players[i].At() == old(players[i].At()))
                && (forall j :: 0 <= j < |stations| ==> stations[j].highlight == old(stations[j].highlight))
                && unchanged(old(HeldBlocks()))
              else
                && chaosMode == (if old(chaosMode).Some? && now > chaosEndTime then None else old(chaosMode))
                && (forall i :: 0 <= i < |players| ==>
                      players[i].At() == Move(old(players[i].Bounds()), old(players[i].direction), input,
                                              players[i].controls, old(chaosMode), players[i].speed, Map,
                                              StationRects(stations)))
                && (forall i :: 0 <= i < |players| ==> players[i].Carries())
                && (forall j :: 0 <= j < |stations| ==>
                      (stations[j].highlight <==> exists i :: 0 <= i < |players| && Reach(players[i]) == j))
    {
      var halted := CheckTimers(now, dt);
      if halted {
        return;
      }
      Advance(now, input);
    }
  }
}
