/** What a restart leaves behind. `startGame` rebuilds the level, resets the
    score and draws a new ticket, which also disarms the submission deadline,
    but it never touches the wrong-block penalty. */
module Restart {
  import opened Catalog
  import opened Session

  /** As written: a session ended by an expired wrong-block penalty is
      restarted with `StartGame`. The penalty is still armed and past its
      time, so the first frame of the new session ends it again, whatever
      the players do. */
  method PenaltyLossOutlivesRestart(g: Game, q: nat, now: nat, later: nat, dt: int, input: set<string>)
    requires q < |Questions|
    requires g.wrongBlockPenalty.Some? && g.wrongBlockPenalty.value.expiresAt <= now <= later
    modifies g
    ensures g.gameState == Over
  {
    g.StartGame(q, now);
    assert g.HeldBlocks() == {};
    g.FreshLevelHasReaderAndBoard();
    g.Update(later, dt, input);
  }

  /** Corrected: after `StartFreshGame`, which also clears the penalty and the
      chaos modifier, every frame before the new ticket's time is up keeps the
      session playing. */
  method FreshRestartPlays(g: Game, q: nat, now: nat, later: nat, dt: int, input: set<string>)
    requires q < |Questions|
    requires now <= later < now + Questions[q].time * 1000
    modifies g
    ensures g.gameState == Playing
  {
    g.StartFreshGame(q, now);
    assert g.HeldBlocks() == {};
    g.FreshLevelHasReaderAndBoard();
    g.Update(later, dt, input);
  }
}
