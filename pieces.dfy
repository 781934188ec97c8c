/** Players, pieces, occupant tags and the game state as a value, with the
    starting rosters and the starting board. */
module Pieces {
  import opened Wrappers
  import opened Grid

  /** The two player ids. */
  datatype Player = Player1 | Player2

  /** The id string a player is known by on the wire and in tags. */
  function Id(p: Player): string {
    match p
    case Player1 => "Player1"
    case Player2 => "Player2"
  }

  /** The other player. */
  function Opponent(p: Player): Player {
    if p == Player1 then Player2 else Player1
  }

  /** An occupant tag, `"<playerId>-<pieceName>"`, as held by board cells and
      elimination lists. */
  type Tag = string

  function TagOf(p: Player, name: string): Tag {
    Id(p) + "-" + name
  }

  datatype Kind = Pawn | Hero1 | Hero2

  predicate IsHero(k: Kind) {
    k == Hero1 || k == Hero2
  }

  /** A roster entry; `position` is updated in place when the piece moves. */
  datatype Character = Character(name: string, kind: Kind, position: Pos)

  /** One player's roster and the tags removed from the board by the other
      side's captures. */
  datatype PlayerData = PlayerData(characters: seq<Character>, eliminated: seq<Tag>)

  /** The whole game state as a value: 25 cells, both players' data, whose turn
      it is and whether the game has ended. */
  datatype State = State(
    board: seq<Option<Tag>>,
    players: map<Player, PlayerData>,
    currentPlayer: Player,
    gameOver: bool)

  /** The shape every state has: a 25-cell board, data for both players, and
      every roster position on the board. Nothing here ties positions to cells:
      the engine does not keep that consistent. */
  predicate WellFormed(s: State) {
    && |s.board| == CellCount
    && HasBothPlayers(s.players)
    && forall p, i | p in s.players && 0 <= i < |s.players[p].characters| ::
         InBounds(s.players[p].characters[i].position)
  }

  /** The player map has an entry for each of the two ids. */
  predicate HasBothPlayers(m: map<Player, PlayerData>) {
    forall p: Player :: p in m
  }

  /** The fixed five-piece roster of a player: pawns P1, P2, P3 and heroes H1
      (Hero1) and H2 (Hero2), Player1 on row 0 and Player2 on row 4. */
  function StartingRoster(p: Player): seq<Character> {
    var row := if p == Player1 then 0 else 4;
    [ Character("P1", Pawn, Pos(0, row)),
      Character("P2", Pawn, Pos(1, row)),
      Character("H1", Hero1, Pos(2, row)),
      Character("H2", Hero2, Pos(3, row)),
      Character("P3", Pawn, Pos(4, row)) ]
  }

  function InitialPlayers(): map<Player, PlayerData> {
    map[Player1 := PlayerData(StartingRoster(Player1), []),
        Player2 := PlayerData(StartingRoster(Player2), [])]
  }

  /** The starting board, written out cell by cell. */
  function InitialBoard(): seq<Option<Tag>> {
    [ Some("Player1-P1"), Some("Player1-P2"), Some("Player1-H1"), Some("Player1-H2"), Some("Player1-P3"),
      None, None, None, None, None,
      None, None, None, None, None,
      None, None, None, None, None,
      Some("Player2-P1"), Some("Player2-P2"), Some("Player2-H1"), Some("Player2-H2"), Some("Player2-P3") ]
  }

  /** `initializeGameState`. */
  function InitialState(): State {
    State(InitialBoard(), InitialPlayers(), Player1, false)
  }

  /** Some piece of some roster stands, by its stored position, on slot `j`. */
  predicate Occupied(s: State, j: int) {
    exists p, i | p in s.players && 0 <= i < |s.players[p].characters| ::
      Index(s.players[p].characters[i].position) == j
  }

  /** Each starting piece's cell holds that piece's tag. */
  lemma InitialCellsHoldTags(p: Player, i: int)
    requires 0 <= i < |StartingRoster(p)|
    ensures InitialBoard()[Index(StartingRoster(p)[i].position)] == Some(TagOf(p, StartingRoster(p)[i].name))
  {
    var c := StartingRoster(p)[i];
    var k := Index(c.position);
    var b := InitialBoard();
    if p == Player1 {
      assert k == i;
      if i == 0 {
        assert b[0] == Some("Player1-P1") && TagOf(p, c.name) == "Player1-P1";
      } else if i == 1 {
        assert b[1] == Some("Player1-P2") && TagOf(p, c.name) == "Player1-P2";
      } else if i == 2 {
        assert b[2] == Some("Player1-H1") && TagOf(p, c.name) == "Player1-H1";
      } else if i == 3 {
        assert b[3] == Some("Player1-H2") && TagOf(p, c.name) == "Player1-H2";
      } else if i == 4 {
        assert b[4] == Some("Player1-P3") && TagOf(p, c.name) == "Player1-P3";
      }
    } else {
      assert k == 20 + i;
      if i == 0 {
        assert b[20] == Some("Player2-P1") && TagOf(p, c.name) == "Player2-P1";
      } else if i == 1 {
        assert b[21] == Some("Player2-P2") && TagOf(p, c.name) == "Player2-P2";
      } else if i == 2 {
        assert b[22] == Some("Player2-H1") && TagOf(p, c.name) == "Player2-H1";
      } else if i == 3 {
        assert b[23] == Some("Player2-H2") && TagOf(p, c.name) == "Player2-H2";
      } else if i == 4 {
        assert b[24] == Some("Player2-P3") && TagOf(p, c.name) == "Player2-P3";
      }
    }
  }

  /** Rows 0 and 4 of the starting board are full, rows 1 to 3 empty. */
  lemma InitialEmptyCells(j: int)
    requires 0 <= j < CellCount
    ensures InitialBoard()[j] == None <==> 5 <= j < 20
  {
  }

  /** The starting rosters stand on exactly rows 0 and 4. */
  lemma InitialOccupied(j: int)
    requires 0 <= j < CellCount
    ensures Occupied(InitialState(), j) <==> j < 5 || 20 <= j
  {
    var s := InitialState();
    if j < 5 || 20 <= j {
      var p := if j < 5 then Player1 else Player2;
      var i := if j < 5 then j else j - 20;
      assert Index(s.players[p].characters[i].position) == j;
    }
    if Occupied(s, j) {
      var p, i :| p in s.players && 0 <= i < |s.players[p].characters| &&
        Index(s.players[p].characters[i].position) == j;
      assert s.players[p].characters[i].position.y in {0, 4};
    }
  }

  /** The starting board agrees with the starting rosters: each piece's cell
      holds its tag, every other cell is empty, nobody has lost a piece, Player1
      is to move and the game is running. */
  lemma InitialStateAgreesWithRosters()
    ensures WellFormed(InitialState())
    ensures var s := InitialState();
      forall p, i | p in s.players && 0 <= i < |s.players[p].characters| ::
        s.board[Index(s.players[p].characters[i].position)] == Some(TagOf(p, s.players[p].characters[i].name))
    ensures var s := InitialState();
      forall j | 0 <= j < CellCount :: s.board[j] == None <==> !Occupied(s, j)
    ensures var s := InitialState();
      forall p | p in s.players :: |s.players[p].characters| == 5 && s.players[p].eliminated == []
    ensures InitialState().currentPlayer == Player1 && !InitialState().gameOver
  {
    var s := InitialState();
    forall p: Player
      ensures p in s.players
    {
      if p == Player1 {} else {}
    }
    forall p, i | p in s.players && 0 <= i < |s.players[p].characters|
      ensures s.board[Index(s.players[p].characters[i].position)] == Some(TagOf(p, s.players[p].characters[i].name))
    {
      InitialCellsHoldTags(p, i);
    }
    forall j | 0 <= j < CellCount
      ensures s.board[j] == None <==> !Occupied(s, j)
    {
      InitialEmptyCells(j);
      InitialOccupied(j);
    }
  }
}
