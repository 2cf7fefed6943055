/** The fixed content the session draws from: block kinds, the question catalogue,
    the chaos events, the map size and the penalty and submission windows. */
module Catalog {

  datatype Kind = Python | Math | Logic | Physics | Coffee

  datatype Chaos = Reverse | Speed | Slow | Blind

  datatype ChaosEvent = ChaosEvent(id: Chaos, duration: nat)

  /** A question, reduced to what the session logic reads: its id, the correct
      option, the required block kinds in slot order and its time budget in seconds. */
  datatype Question = Question(id: string, answer: string, blocks: seq<Kind>, time: nat)

  const ChaosEvents: seq<ChaosEvent> := [
    ChaosEvent(Reverse, 8000),
    ChaosEvent(Speed, 7000),
    ChaosEvent(Slow, 10000),
    ChaosEvent(Blind, 5000)
  ]

  const Questions: seq<Question> := [
    Question("py_001", "5", [Python], 60),
    Question("py_002", "5", [Python], 60),
    Question("py_003", "6", [Python], 60),
    Question("py_004", "Hello", [Python], 60),
    Question("py_005", "5", [Python], 60),
    Question("math_001", "2", [Math], 60),
    Question("math_002", "10", [Math], 60),
    Question("math_003", "7", [Math], 60),
    Question("logic_001", "Yes", [Logic], 60),
    Question("logic_002", "No", [Logic], 60),
    Question("common_001", "Green", [Logic], 60),
    Question("common_002", "4", [Logic], 60)
  ]

  const TileSize: real := 48.0
  const MapWidth: real := 20.0 * TileSize
  const MapHeight: real := 15.0 * TileSize

  /** Milliseconds the compiler has to submit once every slot is collected. */
  const SubmissionWindow: nat := 15000
  /** Milliseconds to carry a wrongly dropped block to the bin. */
  const PenaltyWindow: nat := 10000
  /** Extra reach, on every side, within which a player can use a station. */
  const InteractionBuffer: real := 15.0
  /** Points lost on a wrong answer or a timeout. */
  const MissPenalty: int := 20

  /** Every question asks for at least one block and gives at least a minute. */
  lemma QuestionsWellFormed()
    ensures forall i :: 0 <= i < |Questions| ==> |Questions[i].blocks| >= 1 && Questions[i].time >= 60
  {
  }
}
