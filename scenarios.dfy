/** Two Hero moves from the opening rows, stated for every state in which the
    Hero stands where the starting rosters put it, and shown to apply to the
    starting position and to the position after Player2's P2 has moved FR and
    then F. */
module Scenarios {
  import opened Wrappers
  import opened Grid
  import opened Pieces
  import opened Rules
  import opened RulesProofs
  import opened Endgame

  /** Player1's first piece named H1 is a Hero1 in slot `i`, standing on (2,0),
      in a running game. */
  predicate HeroOnStart(s: State, i: nat) {
    && WellFormed(s) && !s.gameOver
    && FindCharacter(s.players[Player1].characters, "H1") == Some(i)
    && s.players[Player1].characters[i] == Character("H1", Hero1, Pos(2, 0))
  }

  /** What a sweep of two unit steps takes: the capturable tags on the two
      cells, in step order. */
  lemma CapturedTwoSteps(board: seq<Option<Tag>>, mover: Player, origin: Pos, u: Vec)
    requires |board| == CellCount
    ensures var c1 := SweepCell(origin, u, 1);
      var c2 := SweepCell(origin, u, 2);
      Captured(board, mover, origin, u, HeroReach) ==
        (if InBounds(c1) && Capturable(board[Index(c1)], mover) then [board[Index(c1)].value] else [])
        + (if InBounds(c2) && Capturable(board[Index(c2)], mover) then [board[Index(c2)].value] else [])
  {
    assert Captured(board, mover, origin, u, 0) == [];
  }

  // ------------------------------------------------------------ stepping back

  /** H1 may step back ("B") from (2,0) to (2,1) unless Player1 already holds
      (2,1). */
  lemma HeroStepsBackAccepted(s: State, i: nat)
    requires HeroOnStart(s, i) && !OwnedBy(s.board[7], Player1)
    ensures Check(s, Request(Player1, "H1", "B")) == Success(Plan(i, Pos(2, 1)))
  {
    assert Delta("B") == Some(Vec(0, 1));
    assert Index(Pos(2, 1)) == 7;
  }

  /** The step empties (2,0), puts the Hero's tag on (2,1) and, the Hero being
      on (2,1) itself, sweeps only (2,2), which loses a tag not Player1's. */
  lemma HeroStepsBackBoard(s: State, i: nat)
    requires HeroOnStart(s, i) && !OwnedBy(s.board[7], Player1)
    ensures var after := Move(s, Request(Player1, "H1", "B")).1;
      && after.board[2] == None && after.board[7] == Some("Player1-H1")
      && after.board[12] == (if Capturable(s.board[12], Player1) then None else s.board[12])
  {
    var req := Request(Player1, "H1", "B");
    HeroStepsBackAccepted(s, i);
    assert Unit("B") == Vec(0, 1);
    assert Index(Pos(2, 0)) == 2 && Index(Pos(2, 1)) == 7 && Index(Pos(2, 2)) == 12;
    assert SweepCell(Pos(2, 0), Vec(0, 1), 2) == Pos(2, 2);
    assert InSweep(12, Pos(2, 0), Vec(0, 1), HeroReach);
    assert TagOf(Player1, "H1") == "Player1-H1";
    BoardAfterMove(s, req);
  }

  /** Player2's elimination list gains exactly the tag on (2,2), if that tag
      is capturable. */
  lemma HeroStepsBackEliminates(s: State, i: nat)
    requires HeroOnStart(s, i) && !OwnedBy(s.board[7], Player1)
    ensures Move(s, Request(Player1, "H1", "B")).1.players[Player2].eliminated ==
      s.players[Player2].eliminated + (if Capturable(s.board[12], Player1) then [s.board[12].value] else [])
  {
    HeroStepsBackAppendsCaptured(s, i);
    HeroStepsBackCaptures(s.board);
  }

  /** Player2's list gains what the sweep of this move captures. */
  lemma HeroStepsBackAppendsCaptured(s: State, i: nat)
    requires HeroOnStart(s, i) && !OwnedBy(s.board[7], Player1)
    ensures Move(s, Request(Player1, "H1", "B")).1.players[Player2].eliminated ==
      s.players[Player2].eliminated + Captured(PlacedBoard(s.board, Pos(2, 0), Pos(2, 1), TagOf(Player1, "H1")), Player1, Pos(2, 0), Vec(0, 1), HeroReach)
  {
    HeroStepsBackAccepted(s, i);
    assert Unit("B") == Vec(0, 1);
    EliminationsAfterMove(s, Request(Player1, "H1", "B"));
  }

  /** The sweep of this move, read off the board once the Hero has landed. */
  lemma HeroStepsBackCaptures(board: seq<Option<Tag>>)
    requires |board| == CellCount
    ensures Captured(PlacedBoard(board, Pos(2, 0), Pos(2, 1), TagOf(Player1, "H1")), Player1, Pos(2, 0), Vec(0, 1), HeroReach) ==
      (if Capturable(board[12], Player1) then [board[12].value] else [])
  {
    var board1 := PlacedBoard(board, Pos(2, 0), Pos(2, 1), TagOf(Player1, "H1"));
    CapturedTwoSteps(board1, Player1, Pos(2, 0), Vec(0, 1));
    TagOwnership(Player1, "H1");
    assert SweepCell(Pos(2, 0), Vec(0, 1), 1) == Pos(2, 1) && SweepCell(Pos(2, 0), Vec(0, 1), 2) == Pos(2, 2);
    assert Index(Pos(2, 0)) == 2 && Index(Pos(2, 1)) == 7 && Index(Pos(2, 2)) == 12;
    assert board1[7] == Some(TagOf(Player1, "H1")) && board1[12] == board[12];
  }

  // ------------------------------------------------------------------ leaping

  /** H1 may leap down-right ("BR") from (2,0) to (4,2) unless Player1 already
      holds (4,2). */
  lemma HeroLeapAccepted(s: State, i: nat)
    requires HeroOnStart(s, i) && !OwnedBy(s.board[14], Player1)
    ensures Check(s, Request(Player1, "H1", "BR")) == Success(Plan(i, Pos(4, 2)))
  {
    assert Delta("BR") == Some(Vec(2, 2));
    assert Index(Pos(4, 2)) == 14;
  }

  /** The leap empties (2,0), lands on (4,2) and sweeps (3,1), which loses a
      tag not Player1's. */
  lemma HeroLeapBoard(s: State, i: nat)
    requires HeroOnStart(s, i) && !OwnedBy(s.board[14], Player1)
    ensures var after := Move(s, Request(Player1, "H1", "BR")).1;
      && after.board[2] == None && after.board[14] == Some("Player1-H1")
      && after.board[8] == (if Capturable(s.board[8], Player1) then None else s.board[8])
  {
    var req := Request(Player1, "H1", "BR");
    HeroLeapAccepted(s, i);
    assert Unit("BR") == Vec(1, 1);
    assert Index(Pos(2, 0)) == 2 && Index(Pos(4, 2)) == 14 && Index(Pos(3, 1)) == 8;
    assert SweepCell(Pos(2, 0), Vec(1, 1), 1) == Pos(3, 1);
    assert InSweep(8, Pos(2, 0), Vec(1, 1), HeroReach);
    assert TagOf(Player1, "H1") == "Player1-H1";
    BoardAfterMove(s, req);
  }

  /** Player2's elimination list gains exactly the tag on (3,1), if that tag
      is capturable: the Hero's own tag on (4,2) never is. */
  lemma HeroLeapEliminates(s: State, i: nat)
    requires HeroOnStart(s, i) && !OwnedBy(s.board[14], Player1)
    ensures Move(s, Request(Player1, "H1", "BR")).1.players[Player2].eliminated ==
      s.players[Player2].eliminated + (if Capturable(s.board[8], Player1) then [s.board[8].value] else [])
  {
    HeroLeapAppendsCaptured(s, i);
    HeroLeapCaptures(s.board);
  }

  /** Player2's list gains what the sweep of this move captures. */
  lemma HeroLeapAppendsCaptured(s: State, i: nat)
    requires HeroOnStart(s, i) && !OwnedBy(s.board[14], Player1)
    ensures Move(s, Request(Player1, "H1", "BR")).1.players[Player2].eliminated ==
      s.players[Player2].eliminated + Captured(PlacedBoard(s.board, Pos(2, 0), Pos(4, 2), TagOf(Player1, "H1")), Player1, Pos(2, 0), Vec(1, 1), HeroReach)
  {
    HeroLeapAccepted(s, i);
    assert Unit("BR") == Vec(1, 1);
    EliminationsAfterMove(s, Request(Player1, "H1", "BR"));
  }

  /** The sweep of this move, read off the board once the Hero has landed. */
  lemma HeroLeapCaptures(board: seq<Option<Tag>>)
    requires |board| == CellCount
    ensures Captured(PlacedBoard(board, Pos(2, 0), Pos(4, 2), TagOf(Player1, "H1")), Player1, Pos(2, 0), Vec(1, 1), HeroReach) ==
      (if Capturable(board[8], Player1) then [board[8].value] else [])
  {
    var board1 := PlacedBoard(board, Pos(2, 0), Pos(4, 2), TagOf(Player1, "H1"));
    CapturedTwoSteps(board1, Player1, Pos(2, 0), Vec(1, 1));
    TagOwnership(Player1, "H1");
    assert SweepCell(Pos(2, 0), Vec(1, 1), 1) == Pos(3, 1) && SweepCell(Pos(2, 0), Vec(1, 1), 2) == Pos(4, 2);
    assert Index(Pos(2, 0)) == 2 && Index(Pos(4, 2)) == 14 && Index(Pos(3, 1)) == 8;
    assert board1[14] == Some(TagOf(Player1, "H1")) && board1[8] == board[8];
  }

  /** In a game with the shipped rosters, on Player1's turn, an accepted H1
      move by Player1 replies with the updated state, hands the turn to
      Player2, and the game goes on. */
  lemma HeroMovesGoOn(s: State, i: nat, command: string)
    requires HeroOnStart(s, i) && Playable(s) && s.currentPlayer == Player1
    ensures var r := Move(s, Request(Player1, "H1", command));
      Check(s, Request(Player1, "H1", command)).Success? ==> r.0 == Updated && r.1.currentPlayer == Player2
  {
    var req := Request(Player1, "H1", command);
    if Check(s, req).Success? {
      MoveKeepsPlayable(s, req);
      RostersAfterMove(s, req);
      RejectionOrder(s, req);
    }
  }

  // ---------------------------------------------------------------- instances

  /** The starting position meets the stepping-back hypotheses with an empty
      (2,2), so that move captures nothing. */
  lemma StartingPositionStepsBack()
    ensures HeroOnStart(InitialState(), 2) && !OwnedBy(InitialState().board[7], Player1)
    ensures InitialState().board[12] == None && InitialState().currentPlayer == Player1
  {
    InitialStateAgreesWithRosters();
    var cs := StartingRoster(Player1);
    assert cs[0].name == "P1" && cs[1].name == "P2" && cs[2].name == "H1";
    assert "P1" != "H1" by { assert "P1"[0] != "H1"[0]; }
    assert "P2" != "H1" by { assert "P2"[0] != "H1"[0]; }
    InitialEmptyCells(7);
    InitialEmptyCells(12);
  }

  /** The opening move H1 "B" from the starting position: (2,0) empties,
      Player1-H1 stands on (2,1), nothing is captured, the reply is the
      updated state and it is Player2's turn. */
  lemma StartStepsBack()
    ensures WellFormed(InitialState())
    ensures var r := Move(InitialState(), Request(Player1, "H1", "B"));
      && r.0 == Updated && r.1.currentPlayer == Player2
      && r.1.board[2] == None && r.1.board[7] == Some("Player1-H1")
      && r.1.players[Player2].eliminated == []
  {
    var s := InitialState();
    InitialStateAgreesWithRosters();
    StartingPositionStepsBack();
    InitialStateIsPlayable();
    HeroStepsBackAccepted(s, 2);
    HeroStepsBackBoard(s, 2);
    HeroStepsBackEliminates(s, 2);
    HeroMovesGoOn(s, 2, "B");
  }

  /** The starting position after Player2's P2 has moved FR to (3,2) and then
      F to (3,1); the turn is back with Player1. CaptureSetupReachable proves
      that these two requests lead here. */
  function CaptureSetup(): State {
    State(InitialBoard()[21 := None][8 := Some("Player2-P2")],
          map[Player1 := PlayerData(StartingRoster(Player1), []),
              Player2 := PlayerData(StartingRoster(Player2)[1 := Character("P2", Pawn, Pos(3, 1))], [])],
          Player1, false)
  }

  /** That position meets the leaping hypotheses and Player2's pawn on (3,1)
      is capturable, so the leap takes it. */
  lemma CaptureSetupLeaps()
    ensures HeroOnStart(CaptureSetup(), 2) && !OwnedBy(CaptureSetup().board[14], Player1)
    ensures CaptureSetup().board[8] == Some("Player2-P2") && Capturable(CaptureSetup().board[8], Player1)
  {
    var s := CaptureSetup();
    forall p: Player
      ensures p in s.players
    {
      if p == Player1 {} else {}
    }
    var cs := StartingRoster(Player1);
    assert cs[0].name == "P1" && cs[1].name == "P2" && cs[2].name == "H1";
    assert "P1" != "H1" by { assert "P1"[0] != "H1"[0]; }
    assert "P2" != "H1" by { assert "P2"[0] != "H1"[0]; }
    InitialEmptyCells(14);
    TagOwnership(Player2, "P2");
  }

  /** The leap of H1 "BR" from that position: (2,0) empties, Player1-H1
      lands on (4,2), Player2's pawn on (3,1) is removed and becomes Player2's
      only elimination. */
  lemma CaptureSetupLeapTakesPawn()
    ensures WellFormed(CaptureSetup())
    ensures var r := Move(CaptureSetup(), Request(Player1, "H1", "BR")).1;
      && r.board[2] == None && r.board[14] == Some("Player1-H1") && r.board[8] == None
      && r.players[Player2].eliminated == ["Player2-P2"]
  {
    CaptureSetupLeaps();
    HeroLeapBoard(CaptureSetup(), 2);
    HeroLeapEliminates(CaptureSetup(), 2);
  }

  /** A pawn move in a playable game: the origin empties, the pawn's tag lands
      on the destination, only the pawn's roster entry moves, no elimination
      list changes, the turn flips and the game goes on. */
  lemma PawnMove(s: State, req: Request)
    requires Playable(s) && Check(s, req).Success?
    requires s.players[req.player].characters[Check(s, req).value.slot].kind == Pawn
    ensures var plan := Check(s, req).value;
      var data := s.players[req.player];
      var c := data.characters[plan.slot];
      Move(s, req) == (Updated, State(
        s.board[Index(c.position) := None][Index(plan.dest) := Some(TagOf(req.player, req.characterName))],
        s.players[req.player := data.(characters := data.characters[plan.slot := c.(position := plan.dest)])],
        Opponent(s.currentPlayer), false))
  {
  }

  /** The starting position after Player2's P2 has moved FR from (1,4) to
      (3,2); it is Player2's turn again. */
  function PawnAdvanced(): State {
    State(InitialBoard()[21 := None][13 := Some("Player2-P2")],
          map[Player1 := PlayerData(StartingRoster(Player1), []),
              Player2 := PlayerData(StartingRoster(Player2)[1 := Character("P2", Pawn, Pos(3, 2))], [])],
          Player2, false)
  }

  /** Player2's P2 "FR" from the start gives PawnAdvanced. */
  lemma PawnAdvancesFromStart()
    ensures WellFormed(InitialState()) && Playable(PawnAdvanced())
    ensures Move(InitialState(), Request(Player2, "P2", "FR")).1 == PawnAdvanced()
  {
    var s := InitialState();
    var req := Request(Player2, "P2", "FR");
    InitialStateIsPlayable();
    InitialEmptyCells(13);
    var cs := StartingRoster(Player2);
    assert cs[0].name == "P1" && cs[1].name == "P2";
    assert "P1" != "P2" by { assert "P1"[1] != "P2"[1]; }
    assert FindCharacter(cs, "P2") == Some(1);
    assert Index(Pos(3, 2)) == 13 && Index(Pos(1, 4)) == 21;
    assert Check(s, req) == Success(Plan(1, Pos(3, 2)));
    PawnMove(s, req);
    assert TagOf(Player2, "P2") == "Player2-P2";
    assert Move(s, req).1 == PawnAdvanced();
    MoveKeepsPlayable(s, req);
  }

  /** Player2's P2 "F" from PawnAdvanced gives CaptureSetup. */
  lemma PawnStepsToCaptureSetup()
    requires Playable(PawnAdvanced())
    ensures Move(PawnAdvanced(), Request(Player2, "P2", "F")).1 == CaptureSetup()
  {
    var s := PawnAdvanced();
    var req := Request(Player2, "P2", "F");
    var cs := s.players[Player2].characters;
    assert cs[0].name == "P1" && cs[1].name == "P2";
    assert "P1" != "P2" by { assert "P1"[1] != "P2"[1]; }
    assert FindCharacter(cs, "P2") == Some(1);
    assert Index(Pos(3, 1)) == 8 && Index(Pos(3, 2)) == 13;
    assert s.board[8] == None;
    assert Check(s, req) == Success(Plan(1, Pos(3, 1)));
    PawnMove(s, req);
    assert TagOf(Player2, "P2") == "Player2-P2";
    var after := Move(s, req).1;
    assert after.board == CaptureSetup().board;
    forall p: Player
      ensures p in after.players && p in CaptureSetup().players && after.players[p] == CaptureSetup().players[p]
    {
      if p == Player1 {
      } else {
        assert after.players[p].characters == CaptureSetup().players[p].characters;
      }
    }
    assert after.players == CaptureSetup().players;
  }

  /** CaptureSetup is reachable: it is what Player2's P2 "FR" then "F" make of
      the starting state. */
  lemma CaptureSetupReachable()
    ensures WellFormed(InitialState())
    ensures Run(InitialState(), [Request(Player2, "P2", "FR"), Request(Player2, "P2", "F")]) == CaptureSetup()
  {
    var reqs := [Request(Player2, "P2", "FR"), Request(Player2, "P2", "F")];
    PawnAdvancesFromStart();
    PawnStepsToCaptureSetup();
    assert reqs[1..] == [Request(Player2, "P2", "F")];
    assert Run(InitialState(), reqs) == Run(PawnAdvanced(), reqs[1..]);
    assert [Request(Player2, "P2", "F")][1..] == [];
  }
}
