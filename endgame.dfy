/** The win check compares bare piece names with elimination lists that hold
    full `"<id>-<name>"` tags. With the shipped rosters, whose names have no
    `-`, it can never succeed: the game never ends. */
module Endgame {
  import opened Wrappers
  import opened Grid
  import opened Pieces
  import opened Rules
  import opened RulesProofs

  /** Every tag on the board and in every elimination list has a `-`. */
  predicate TagsQualified(s: State) {
    && (forall j | 0 <= j < |s.board| && s.board[j].Some? :: '-' in s.board[j].value)
    && (forall p, n | p in s.players && 0 <= n < |s.players[p].eliminated| :: '-' in s.players[p].eliminated[n])
  }

  /** Every roster has a piece, and no piece name has a `-`. */
  predicate NamesBare(s: State) {
    forall p | p in s.players ::
      && |s.players[p].characters| > 0
      && forall i | 0 <= i < |s.players[p].characters| :: '-' !in s.players[p].characters[i].name
  }

  /** A running game whose tags and names are as the shipped rosters make them. */
  predicate Playable(s: State) {
    WellFormed(s) && TagsQualified(s) && NamesBare(s) && !s.gameOver
  }

  /** If no name has a `-` and every eliminated tag has one, no roster is
      ever wholly in an elimination list. */
  lemma WinCheckCannotFire(s: State, opp: Player)
    requires WellFormed(s) && TagsQualified(s) && NamesBare(s)
    ensures !AllEliminated(s.players, opp)
  {
    forall p: Player
      ensures !RosterIn(s.players[p].characters, s.players[opp].eliminated)
    {
      assert s.players[p].characters[0].name !in s.players[opp].eliminated;
    }
  }

  /** A move writes only the mover's tag and empties, so the board keeps
      its `-` separators. */
  lemma BoardStaysQualified(s: State, req: Request)
    requires WellFormed(s) && TagsQualified(s) && Check(s, req).Success?
    ensures var after := Move(s, req).1;
      forall j | 0 <= j < |after.board| && after.board[j].Some? :: '-' in after.board[j].value
  {
    BoardAfterMove(s, req);
    TagOwnership(req.player, req.characterName);
  }

  /** A sweep over a board whose tags all have a `-` captures only such tags. */
  lemma {:induction false} CapturedQualified(board: seq<Option<Tag>>, mover: Player, origin: Pos, u: Vec, k: nat)
    requires |board| == CellCount
    requires forall j | 0 <= j < |board| && board[j].Some? :: '-' in board[j].value
    ensures forall n | 0 <= n < |Captured(board, mover, origin, u, k)| :: '-' in Captured(board, mover, origin, u, k)[n]
  {
    if k > 0 {
      CapturedQualified(board, mover, origin, u, k - 1);
    }
  }

  /** After a piece of the mover's is placed on a board whose tags all have
      a `-`, the sweep captures only such tags. */
  lemma PlacedCapturesQualified(board: seq<Option<Tag>>, origin: Pos, dest: Pos, mover: Player, name: string, u: Vec)
    requires |board| == CellCount && InBounds(origin) && InBounds(dest)
    requires forall j | 0 <= j < |board| && board[j].Some? :: '-' in board[j].value
    ensures forall n | 0 <= n < |Captured(PlacedBoard(board, origin, dest, TagOf(mover, name)), mover, origin, u, HeroReach)| ::
      '-' in Captured(PlacedBoard(board, origin, dest, TagOf(mover, name)), mover, origin, u, HeroReach)[n]
  {
    var board1 := PlacedBoard(board, origin, dest, TagOf(mover, name));
    TagOwnership(mover, name);
    assert forall j | 0 <= j < |board1| && board1[j].Some? :: '-' in board1[j].value;
    CapturedQualified(board1, mover, origin, u, HeroReach);
  }

  /** A move appends only tags taken off the board, so elimination lists keep
      their `-` separators. */
  lemma EliminatedStayQualified(s: State, req: Request)
    requires WellFormed(s) && TagsQualified(s) && Check(s, req).Success?
    ensures var after := Move(s, req).1;
      forall p, n | p in after.players && 0 <= n < |after.players[p].eliminated| ::
        '-' in after.players[p].eliminated[n]
  {
    var plan := Check(s, req).value;
    var mover := req.player;
    var opp := Opponent(mover);
    var c := s.players[mover].characters[plan.slot];
    var cap := Captured(PlacedBoard(s.board, c.position, plan.dest, TagOf(mover, req.characterName)),
                        mover, c.position, Unit(req.command), HeroReach);
    var added := if IsHero(c.kind) then cap else [];
    assert Move(s, req).1.players[opp].eliminated == s.players[opp].eliminated + added by {
      EliminationsAfterMove(s, req);
    }
    assert Move(s, req).1.players[mover].eliminated == s.players[mover].eliminated by {
      RostersAfterMove(s, req);
    }
    PlacedCapturesQualified(s.board, c.position, plan.dest, mover, req.characterName, Unit(req.command));
    assert forall n | 0 <= n < |cap| :: '-' in cap[n];
    assert forall n | 0 <= n < |added| :: '-' in added[n];
    QualifiedAppend(s.players[opp].eliminated, added);
    var after := Move(s, req).1;
    forall p, n | p in after.players && 0 <= n < |after.players[p].eliminated|
      ensures '-' in after.players[p].eliminated[n]
    {
      if p != opp {
        assert p == mover;
      }
    }
  }

  /** Appending a list of `-` tags to another keeps every entry a `-` tag. */
  lemma QualifiedAppend(a: seq<Tag>, b: seq<Tag>)
    requires forall n | 0 <= n < |a| :: '-' in a[n]
    requires forall n | 0 <= n < |b| :: '-' in b[n]
    ensures forall n | 0 <= n < |a + b| :: '-' in (a + b)[n]
  {
    forall n | 0 <= n < |a + b|
      ensures '-' in (a + b)[n]
    {
      if n >= |a| {
        assert (a + b)[n] == b[n - |a|];
      }
    }
  }

  /** Every request keeps a playable state playable, and none ends the game. */
  lemma MoveKeepsPlayable(s: State, req: Request)
    requires Playable(s)
    ensures Playable(Move(s, req).1)
    ensures !Move(s, req).0.GameOver?
  {
    if Check(s, req).Success? {
      var after := Move(s, req).1;
      BoardStaysQualified(s, req);
      EliminatedStayQualified(s, req);
      RostersKeepTheirPieces(s, req);
      forall p | p in after.players
        ensures |after.players[p].characters| > 0
        ensures forall i | 0 <= i < |after.players[p].characters| :: '-' !in after.players[p].characters[i].name
      {
        assert SameRoster(s.players[p].characters, after.players[p].characters);
      }
      assert TagsQualified(after) && NamesBare(after);
      WinCheckCannotFire(after, Opponent(req.player));
      WinCheckAfterMove(s, req);
    }
  }

  /** However many requests arrive, a playable state stays playable. */
  lemma {:induction false} RunKeepsPlayable(s: State, reqs: seq<Request>)
    requires Playable(s)
    ensures Playable(Run(s, reqs))
    decreases |reqs|
  {
    if reqs != [] {
      MoveKeepsPlayable(s, reqs[0]);
      RunKeepsPlayable(Move(s, reqs[0]).1, reqs[1..]);
    }
  }

  /** Every tag on the starting board has a `-`. */
  lemma InitialTagsQualified()
    ensures TagsQualified(InitialState())
  {
    InitialStateAgreesWithRosters();
    var s := InitialState();
    forall j | 0 <= j < |s.board| && s.board[j].Some?
      ensures '-' in s.board[j].value
    {
      var p, i :| p in s.players && 0 <= i < |s.players[p].characters| &&
        Index(s.players[p].characters[i].position) == j;
      TagOwnership(p, s.players[p].characters[i].name);
    }
  }

  /** No starting roster is empty and no starting piece name has a `-`. */
  lemma InitialNamesBare()
    ensures NamesBare(InitialState())
  {
    var s := InitialState();
    forall p | p in s.players
      ensures |s.players[p].characters| > 0
      ensures forall i | 0 <= i < |s.players[p].characters| :: '-' !in s.players[p].characters[i].name
    {
      assert s.players[p].characters == StartingRoster(p);
    }
  }

  /** The starting state is playable. */
  lemma InitialStateIsPlayable()
    ensures Playable(InitialState())
  {
    InitialStateAgreesWithRosters();
    InitialTagsQualified();
    InitialNamesBare();
  }

  /** The shipped game never reaches game over, whatever the requests. */
  lemma ShippedGameNeverEnds(reqs: seq<Request>)
    ensures WellFormed(InitialState()) && !Run(InitialState(), reqs).gameOver
  {
    InitialStateIsPlayable();
    RunKeepsPlayable(InitialState(), reqs);
  }
}
