/** Initialisation of the pebble game and the read of its stored state. The
    program keeps one optional game in a global slot: `init` validates the
    configuration and fills the slot, `state` reads it back. */
module PebbleGame {
  import opened Wrappers

  datatype DifficultyLevel = Easy | Hard

  datatype Player = User | Program

  datatype PebblesInit = PebblesInit(difficulty: DifficultyLevel, pebblesCount: nat, maxPebblesPerTurn: nat)

  datatype GameState = GameState(
    pebblesCount: nat,
    maxPebblesPerTurn: nat,
    pebblesRemaining: nat,
    difficulty: DifficultyLevel,
    firstPlayer: Player,
    winner: Option<Player>)

  /** The reasons `init` and `state` stop the program. */
  datatype PebbleError =
    | MaxPebblesExceedCount  // the configuration allows taking more pebbles than there are
    | GetStateFailed         // no game has been stored

  /** How many pebbles lie on the table when the game starts, given the
      difficulty, the pebble count, the per-turn maximum and who moves first. */
  type InitPebblesStart = (DifficultyLevel, nat, nat, Player) -> nat

  /** A configuration is accepted exactly when a turn may take at most all of
      the pebbles; equality is allowed. */
  function CheckConfig(config: PebblesInit): (r: Outcome<PebbleError>)
    ensures r == Pass <==> config.maxPebblesPerTurn <= config.pebblesCount
    ensures r != Pass ==> r == Fail(MaxPebblesExceedCount)
  {
    if config.maxPebblesPerTurn > config.pebblesCount then Fail(MaxPebblesExceedCount) else Pass
  }

  /** The configuration a game was started from. */
  function ConfigOf(game: GameState): PebblesInit
  {
    PebblesInit(game.difficulty, game.pebblesCount, game.maxPebblesPerTurn)
  }

  /** A new game: the configuration as given, the starting pebbles and first
      player as chosen, and nobody has won. */
  function NewGame(config: PebblesInit, firstPlayer: Player, pebblesRemaining: nat): (game: GameState)
    ensures ConfigOf(game) == config
    ensures game.pebblesRemaining == pebblesRemaining && game.firstPlayer == firstPlayer
    ensures game.winner == None
  {
    GameState(
      pebblesCount := config.pebblesCount,
      maxPebblesPerTurn := config.maxPebblesPerTurn,
      pebblesRemaining := pebblesRemaining,
      difficulty := config.difficulty,
      firstPlayer := firstPlayer,
      winner := None)
  }

  /** Configurations of the init scenarios: 11 of 10 pebbles per turn is
      refused, and so is 4 of 3; 3 of 10 is accepted, and so is all 10 of 10. */
  lemma CheckConfigExamples()
    ensures CheckConfig(PebblesInit(Easy, 10, 11)) == Fail(MaxPebblesExceedCount)
    ensures CheckConfig(PebblesInit(Easy, 3, 4)) == Fail(MaxPebblesExceedCount)
    ensures CheckConfig(PebblesInit(Easy, 10, 3)) == Pass
    ensures CheckConfig(PebblesInit(Hard, 10, 10)) == Pass
  {
  }

  /** The program's global slot: empty until an `init` succeeds. */
  class PebbleProgram {
    var game: Option<GameState>

    constructor ()
      ensures game == None
    {
      game := None;
    }

    /** Validates `config`; on success stores a new game whose first player is
        `firstPlayer` and whose starting pebbles are what `initPebblesStart`
        gives for this configuration and that same first player. On failure
        the slot is left as it was. */
    method Init(config: PebblesInit, firstPlayer: Player, initPebblesStart: InitPebblesStart)
      returns (outcome: Outcome<PebbleError>)
      modifies this
      ensures outcome == CheckConfig(config)
      ensures outcome == Pass ==>
        game == Some(NewGame(config, firstPlayer,
                             initPebblesStart(config.difficulty, config.pebblesCount, config.maxPebblesPerTurn, firstPlayer)))
      ensures outcome != Pass ==> game == old(game)
    {
      if config.maxPebblesPerTurn > config.pebblesCount {
        return Fail(MaxPebblesExceedCount);
      }
      var initGame := initPebblesStart(config.difficulty, config.pebblesCount, config.maxPebblesPerTurn, firstPlayer);
      game := Some(NewGame(config, firstPlayer, initGame));
      outcome := Pass;
    }

    /** The stored game, unchanged; fails when no game is stored. */
    method State() returns (r: Result<GameState, PebbleError>)
      ensures r.Success? <==> game.Some?
      ensures r.Success? ==> game == Some(r.value)
      ensures r.Failure? ==> r.error == GetStateFailed
    {
      if game.None? {
        return Failure(GetStateFailed);
      }
      r := Success(game.value);
    }
  }

  /** A fresh program that is initialised with `config` and then asked for its
      state: an accepted configuration yields the game built from it with
      nobody winning; a refused one leaves nothing to read. */
  method InitThenState(config: PebblesInit, firstPlayer: Player, initPebblesStart: InitPebblesStart)
    returns (r: Result<GameState, PebbleError>)
    ensures config.maxPebblesPerTurn <= config.pebblesCount ==>
      && r.Success?
      && ConfigOf(r.value) == config
      && r.value.winner == None
      && r.value.firstPlayer == firstPlayer
      && r.value.pebblesRemaining == initPebblesStart(config.difficulty, config.pebblesCount, config.maxPebblesPerTurn, firstPlayer)
    ensures config.maxPebblesPerTurn > config.pebblesCount ==> r == Failure(GetStateFailed)
  {
    var program := new PebbleProgram();
    var _ := program.Init(config, firstPlayer, initPebblesStart);
    r := program.State();
  }
}
