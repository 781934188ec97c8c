/** The server's single mutable game state and `handleMove`, which checks a
    request and then updates the board array, the rosters, the elimination
    lists, the turn and the game-over flag in place. */
module Server {
  import opened Wrappers
  import opened Grid
  import opened Pieces
  import opened Rules

  class GameState {
    var board: array<Option<Tag>>
    var players: map<Player, PlayerData>
    var currentPlayer: Player
    var gameOver: bool

    /** The state as a value, for stating what the methods do. */
    function Snapshot(): State
      reads this, board
    {
      State(board[..], players, currentPlayer, gameOver)
    }

    ghost predicate Valid()
      reads this, board
    {
      board.Length == CellCount && WellFormed(Snapshot())
    }

    /** `initializeGameState`: the starting board and rosters, Player1 to move. */
    constructor ()
      ensures Valid() && fresh(board)
      ensures Snapshot() == InitialState()
    {
      board := new Option<Tag>[CellCount](i requires 0 <= i < CellCount => InitialBoard()[i]);
      players := InitialPlayers();
      currentPlayer := Player1;
      gameOver := false;
      new;
      assert board[..] == InitialBoard();
      InitialStateAgreesWithRosters();
    }

    /** `handleMove`: reject the request without touching anything, or apply
        it in place; in both cases the reply and the new state are those of
        Move on the old state. */
    method HandleMove(req: Request) returns (out: Outcome)
      requires Valid()
      modifies this, board
      ensures Valid() && board == old(board)
      ensures (out, Snapshot()) == Move(old(Snapshot()), req)
    {
      var player := req.player;
      var opponent := Opponent(player);
      var playerData := players[player];
      var found := FindCharacter(playerData.characters, req.characterName);
      if found.None? || gameOver {
        return InvalidMove(NotFoundOrGameOver);
      }
      var slot := found.value;
      var character := playerData.characters[slot];
      var origin := character.position;
      var delta := Delta(req.command);
      if delta.None? {
        return InvalidMove(InvalidCommand);
      }
      var dest := origin.Plus(delta.value);
      if !InBounds(dest) {
        return InvalidMove(OutOfBounds);
      }
      var targetIndex := Index(dest);
      var targetCell := board[targetIndex];
      if OwnedBy(targetCell, player) {
        return InvalidMove(TargetsOwnCharacter);
      }
      assert Check(Snapshot(), req) == Success(Plan(slot, dest));
      out := Play(req, slot, dest);
    }

    /** The accepted branch of `handleMove`: move the piece, run the Hero
        sweep, pass the turn and run the win check, all in place. */
    method Play(req: Request, slot: nat, dest: Pos) returns (out: Outcome)
      requires Valid() && Check(Snapshot(), req) == Success(Plan(slot, dest))
      modifies this, board
      ensures Valid() && board == old(board)
      ensures (out, Snapshot()) == Apply(old(Snapshot()), req, Plan(slot, dest))
    {
      ghost var s0 := Snapshot();
      var player := req.player;
      var opponent := Opponent(player);
      var playerData := players[player];
      var character := playerData.characters[slot];
      var origin := character.position;

      board[Index(origin)] := None;
      players := players[player := playerData.(characters := playerData.characters[slot := character.(position := dest)])];
      board[Index(dest)] := Some(TagOf(player, req.characterName));
      ghost var board1 := PlacedBoard(s0.board, origin, dest, TagOf(player, req.characterName));
      ghost var players1 := players;
      assert board[..] == board1;

      if character.kind == Hero1 || character.kind == Hero2 {
        CaptureSweep(player, origin, Unit(req.command));
      }
      ghost var swept := SweepUpTo(board1, players1[opponent].eliminated, player, origin, Unit(req.command), HeroReach);
      assert board[..] == if IsHero(character.kind) then swept.0 else board1;
      assert players == if IsHero(character.kind) then players1[opponent := players1[opponent].(eliminated := swept.1)] else players1;

      currentPlayer := Opponent(currentPlayer);
      if AllEliminated(players, opponent) {
        gameOver := true;
        return GameOver(player);
      }
      return Updated;
    }

    /** The Hero sweep loop: steps 1 and 2 from `origin` along `u`, emptying
        every in-bounds cell that holds a tag not prefixed by the mover's id
        and appending that tag to the opponent's elimination list. */
    method CaptureSweep(mover: Player, origin: Pos, u: Vec)
      requires Valid()
      modifies this, board
      ensures Valid() && board == old(board)
      ensures var opp := Opponent(mover);
        var swept := SweepUpTo(old(board[..]), old(players[opp].eliminated), mover, origin, u, HeroReach);
        && board[..] == swept.0
        && players == old(players)[opp := old(players[opp]).(eliminated := swept.1)]
      ensures currentPlayer == old(currentPlayer) && gameOver == old(gameOver)
    {
      var opponent := Opponent(mover);
      ghost var b0 := board[..];
      ghost var p0 := players;
      ghost var e0 := players[opponent].eliminated;
      assert p0[opponent := p0[opponent].(eliminated := e0)] == p0;
      var step := 1;
      while step <= HeroReach
        invariant 1 <= step <= HeroReach + 1
        invariant board == old(board)
        invariant board[..] == SweepUpTo(b0, e0, mover, origin, u, step - 1).0
        invariant players == p0[opponent := p0[opponent].(eliminated := SweepUpTo(b0, e0, mover, origin, u, step - 1).1)]
        invariant currentPlayer == old(currentPlayer) && gameOver == old(gameOver)
      {
        SweepOnce(mover, opponent, SweepCell(origin, u, step));
        step := step + 1;
      }
      assert forall p | p in players :: players[p].characters == p0[p].characters;
    }

    /** One pass of the sweep loop, on `cell`. */
    method SweepOnce(mover: Player, opponent: Player, cell: Pos)
      requires board.Length == CellCount && opponent in players
      modifies this, board
      ensures board == old(board)
      ensures var r := SweepStep(old(board[..]), old(players[opponent].eliminated), mover, cell);
        && board[..] == r.0
        && players == old(players)[opponent := old(players[opponent]).(eliminated := r.1)]
      ensures currentPlayer == old(currentPlayer) && gameOver == old(gameOver)
    {
      if InBounds(cell) {
        var cellIndex := Index(cell);
        var target := board[cellIndex];
        if Capturable(target, mover) {
          players := players[opponent := players[opponent].(eliminated := players[opponent].eliminated + [target.value])];
          board[cellIndex] := None;
        }
      }
    }
  }
}
