/** What `handleMove` guarantees, proved about Move: the direction tables,
    rejection without change, the effect of an accepted move on every cell,
    roster and elimination list, the turn flip and the win check. */
module RulesProofs {
  import opened Wrappers
  import opened Grid
  import opened Pieces
  import opened Rules

  // ---------------------------------------------------------------- directions

  /** A sweep direction: each coordinate moves by at most one, not both by zero. */
  predicate IsUnitStep(u: Vec) {
    -1 <= u.dx <= 1 && -1 <= u.dy <= 1 && u != Vec(0, 0)
  }

  /** The eight codes and only they are accepted; L/R/F/B move one coordinate
      by one, FL/FR/BL/BR move both by two, and every move is the code's sweep
      unit taken once (cardinal) or twice (diagonal). */
  lemma DirectionTable(command: string)
    ensures Delta(command).Some? <==> command in Cardinals + Diagonals
    ensures command in Cardinals ==>
      var d := Delta(command).value;
      (d.dx == 0 && (d.dy == 1 || d.dy == -1)) || (d.dy == 0 && (d.dx == 1 || d.dx == -1))
    ensures command in Diagonals ==>
      var d := Delta(command).value;
      (d.dx == 2 || d.dx == -2) && (d.dy == 2 || d.dy == -2)
    ensures Delta(command).Some? ==>
      var u := Unit(command);
      var k := if command in Cardinals then 1 else 2;
      IsUnitStep(u) && Delta(command).value == Vec(k * u.dx, k * u.dy)
  {
  }

  /** The destination of an accepted move is one of the two sweep cells. */
  lemma DestinationIsSweepCell(origin: Pos, command: string)
    requires Delta(command).Some?
    ensures origin.Plus(Delta(command).value) ==
      SweepCell(origin, Unit(command), if command in Cardinals then 1 else 2)
  {
    DirectionTable(command);
  }

  /** Along a unit direction, different step counts give different cells. */
  lemma SweepCellsDistinct(origin: Pos, u: Vec, i: int, j: int)
    requires IsUnitStep(u) && i != j
    ensures SweepCell(origin, u, i) != SweepCell(origin, u, j)
  {
    if u.dx == 0 {
      assert u.dy == 1 || u.dy == -1;
    } else {
      assert u.dx == 1 || u.dx == -1;
    }
  }

  // --------------------------------------------------------------------- tags

  /** A tag written by player `p` belongs to `p`, not to the opponent, and
      carries the `-` separator. */
  lemma TagOwnership(p: Player, name: string)
    ensures OwnedBy(Some(TagOf(p, name)), p)
    ensures !Capturable(Some(TagOf(p, name)), p)
    ensures Capturable(Some(TagOf(Opponent(p), name)), p)
    ensures '-' in TagOf(p, name)
  {
    var t, o := TagOf(p, name), TagOf(Opponent(p), name);
    assert t[..7] == Id(p);
    assert t[7] == '-';
    assert o[6] != Id(p)[6];
  }

  // -------------------------------------------------------------------- sweep

  /** Slot `j` is looked at by one of the sweep steps 1..k. */
  predicate InSweep(j: int, origin: Pos, u: Vec, k: nat) {
    exists step | 1 <= step <= k :: InBounds(SweepCell(origin, u, step)) && Index(SweepCell(origin, u, step)) == j
  }

  /** The tags a sweep of steps 1..k takes, in step order, read off the board
      as it was when the sweep began. */
  function Captured(board: seq<Option<Tag>>, mover: Player, origin: Pos, u: Vec, k: nat): seq<Tag>
    requires |board| == CellCount
  {
    if k == 0 then []
    else
      var c := SweepCell(origin, u, k);
      Captured(board, mover, origin, u, k - 1)
        + (if InBounds(c) && Capturable(board[Index(c)], mover) then [board[Index(c)].value] else [])
  }

  /** The cells swept by steps 1..k are those swept by steps 1..k-1 and the
      k-th one. */
  lemma InSweepStep(j: int, origin: Pos, u: Vec, k: nat)
    requires k > 0
    ensures InSweep(j, origin, u, k) <==>
      InSweep(j, origin, u, k - 1) || (InBounds(SweepCell(origin, u, k)) && Index(SweepCell(origin, u, k)) == j)
  {
    if InSweep(j, origin, u, k) && !InSweep(j, origin, u, k - 1) {
      var st :| 1 <= st <= k && InBounds(SweepCell(origin, u, st)) && Index(SweepCell(origin, u, st)) == j;
      assert st == k;
    }
    if InSweep(j, origin, u, k - 1) {
      var st :| 1 <= st <= k - 1 && InBounds(SweepCell(origin, u, st)) && Index(SweepCell(origin, u, st)) == j;
      assert 1 <= st <= k;
    }
  }

  /** Step k of a sweep visits a cell no earlier step visited. */
  lemma SweepVisitsFreshCell(origin: Pos, u: Vec, k: nat)
    requires IsUnitStep(u) && k > 0 && InBounds(SweepCell(origin, u, k))
    ensures !InSweep(Index(SweepCell(origin, u, k)), origin, u, k - 1)
  {
    var c := SweepCell(origin, u, k);
    if InSweep(Index(c), origin, u, k - 1) {
      var st :| 1 <= st <= k - 1 && InBounds(SweepCell(origin, u, st)) && Index(SweepCell(origin, u, st)) == Index(c);
      IndexInjective(SweepCell(origin, u, st), c);
      SweepCellsDistinct(origin, u, st, k);
    }
  }

  /** Sweeping step by step appends the same tags as reading the starting
      board once: the captured tags, in step order. */
  lemma {:induction false} SweepEffect(board: seq<Option<Tag>>, elim: seq<Tag>, mover: Player, origin: Pos, u: Vec, k: nat)
    requires |board| == CellCount && IsUnitStep(u)
    ensures SweepUpTo(board, elim, mover, origin, u, k).1 == elim + Captured(board, mover, origin, u, k)
    ensures forall j | 0 <= j < CellCount ::
      SweepUpTo(board, elim, mover, origin, u, k).0[j] ==
        if InSweep(j, origin, u, k) && Capturable(board[j], mover) then None else board[j]
  {
    if k > 0 {
      SweepEffect(board, elim, mover, origin, u, k - 1);
      var prev := SweepUpTo(board, elim, mover, origin, u, k - 1);
      var c := SweepCell(origin, u, k);
      assert SweepUpTo(board, elim, mover, origin, u, k) == SweepStep(prev.0, prev.1, mover, c);
      if InBounds(c) {
        SweepVisitsFreshCell(origin, u, k);
        assert prev.0[Index(c)] == board[Index(c)];
      }
      forall j | 0 <= j < CellCount {
        InSweepStep(j, origin, u, k);
      }
    }
  }

  /** At most one tag per step is captured, and each captured tag was on a
      swept cell of the starting board and is not the mover's. */
  lemma {:induction false} CapturedSources(board: seq<Option<Tag>>, mover: Player, origin: Pos, u: Vec, k: nat)
    requires |board| == CellCount
    ensures |Captured(board, mover, origin, u, k)| <= k
    ensures var cap := Captured(board, mover, origin, u, k);
      forall n | 0 <= n < |cap| :: exists step | 1 <= step <= k ::
        && InBounds(SweepCell(origin, u, step))
        && board[Index(SweepCell(origin, u, step))] == Some(cap[n])
        && Capturable(board[Index(SweepCell(origin, u, step))], mover)
  {
    if k > 0 {
      CapturedSources(board, mover, origin, u, k - 1);
      var cap := Captured(board, mover, origin, u, k);
      var before := Captured(board, mover, origin, u, k - 1);
      forall n | 0 <= n < |cap|
        ensures exists step | 1 <= step <= k ::
          && InBounds(SweepCell(origin, u, step))
          && board[Index(SweepCell(origin, u, step))] == Some(cap[n])
          && Capturable(board[Index(SweepCell(origin, u, step))], mover)
      {
        if n < |before| {
          assert cap[n] == before[n];
          var step :| 1 <= step <= k - 1
            && InBounds(SweepCell(origin, u, step))
            && board[Index(SweepCell(origin, u, step))] == Some(before[n])
            && Capturable(board[Index(SweepCell(origin, u, step))], mover);
          assert 1 <= step <= k;
        } else {
          assert InBounds(SweepCell(origin, u, k));
        }
      }
    }
  }

  /** A tag the sweep captures after a piece of the mover's has moved from
      `origin` to `dest` sits on a cell that is neither of the two and held
      that tag before the move. */
  lemma PlacedSweepSources(board: seq<Option<Tag>>, origin: Pos, dest: Pos, mover: Player, name: string, u: Vec)
    requires |board| == CellCount && InBounds(origin) && InBounds(dest)
    ensures var cap := Captured(PlacedBoard(board, origin, dest, TagOf(mover, name)), mover, origin, u, HeroReach);
      && |cap| <= HeroReach
      && forall n | 0 <= n < |cap| :: exists step | 1 <= step <= HeroReach ::
           var cell := SweepCell(origin, u, step);
           && InBounds(cell) && cell != origin && cell != dest
           && board[Index(cell)] == Some(cap[n])
           && Capturable(board[Index(cell)], mover)
  {
    var board1 := PlacedBoard(board, origin, dest, TagOf(mover, name));
    var cap := Captured(board1, mover, origin, u, HeroReach);
    CapturedSources(board1, mover, origin, u, HeroReach);
    TagOwnership(mover, name);
    forall n | 0 <= n < |cap|
      ensures exists step | 1 <= step <= HeroReach ::
        var cell := SweepCell(origin, u, step);
        && InBounds(cell) && cell != origin && cell != dest
        && board[Index(cell)] == Some(cap[n])
        && Capturable(board[Index(cell)], mover)
    {
      var step :| 1 <= step <= HeroReach
        && InBounds(SweepCell(origin, u, step))
        && board1[Index(SweepCell(origin, u, step))] == Some(cap[n])
        && Capturable(board1[Index(SweepCell(origin, u, step))], mover);
      var cell := SweepCell(origin, u, step);
      IndexInjective(cell, origin);
      IndexInjective(cell, dest);
    }
  }

  // ------------------------------------------------------------- rejections

  /** The checks run in this order and each failing one rejects with its own
      reason and leaves the whole state as it was; a request passing all of
      them is accepted. */
  lemma RejectionOrder(s: State, req: Request)
    requires WellFormed(s)
    ensures var found := FindCharacter(s.players[req.player].characters, req.characterName);
      found.None? || s.gameOver ==> Move(s, req) == (InvalidMove(NotFoundOrGameOver), s)
    ensures var found := FindCharacter(s.players[req.player].characters, req.characterName);
      found.Some? && !s.gameOver && Delta(req.command).None? ==>
        Move(s, req) == (InvalidMove(InvalidCommand), s)
    ensures var found := FindCharacter(s.players[req.player].characters, req.characterName);
      found.Some? && !s.gameOver && Delta(req.command).Some? ==>
        var dest := s.players[req.player].characters[found.value].position.Plus(Delta(req.command).value);
        && (!InBounds(dest) ==> Move(s, req) == (InvalidMove(OutOfBounds), s))
        && (InBounds(dest) && OwnedBy(s.board[Index(dest)], req.player) ==>
              Move(s, req) == (InvalidMove(TargetsOwnCharacter), s))
        && (InBounds(dest) && !OwnedBy(s.board[Index(dest)], req.player) ==> !Move(s, req).0.InvalidMove?)
    ensures Move(s, req).0.InvalidMove? <==> Check(s, req).Failure?
  {
  }

  /** Once the game is over every request is rejected and changes nothing. */
  lemma GameOverIsFinal(s: State, req: Request)
    requires WellFormed(s) && s.gameOver
    ensures Move(s, req) == (InvalidMove(NotFoundOrGameOver), s)
  {
  }

  // -------------------------------------------------------------- acceptance

  /** An accepted move: the destination is the origin plus the code's delta,
      the origin is emptied, the destination holds the mover's tag, Hero sweep
      cells with a capturable tag are emptied, and every other cell is as it
      was. */
  lemma BoardAfterMove(s: State, req: Request)
    requires WellFormed(s) && Check(s, req).Success?
    ensures var plan := Check(s, req).value;
      var c := s.players[req.player].characters[plan.slot];
      plan.dest == c.position.Plus(Delta(req.command).value)
    ensures var plan := Check(s, req).value;
      var c := s.players[req.player].characters[plan.slot];
      var after := Move(s, req).1.board;
      forall j | 0 <= j < CellCount ::
        after[j] ==
          if j == Index(c.position) then None
          else if j == Index(plan.dest) then Some(TagOf(req.player, req.characterName))
          else if IsHero(c.kind) && InSweep(j, c.position, Unit(req.command), HeroReach)
                  && Capturable(s.board[j], req.player) then None
          else s.board[j]
  {
    var plan := Check(s, req).value;
    var mover := req.player;
    var c := s.players[mover].characters[plan.slot];
    var tag := TagOf(mover, req.characterName);
    var board1 := PlacedBoard(s.board, c.position, plan.dest, tag);
    var u := Unit(req.command);
    var swept := SweepUpTo(board1, s.players[Opponent(mover)].eliminated, mover, c.position, u, HeroReach);
    assert Move(s, req).1.board == if IsHero(c.kind) then swept.0 else board1;
    DirectionTable(req.command);
    DestinationIsSweepCell(c.position, req.command);
    SweepCellsDistinct(c.position, u, 0, if req.command in Cardinals then 1 else 2);
    IndexInjective(c.position, plan.dest);
    TagOwnership(mover, req.characterName);
    SweepEffect(board1, s.players[Opponent(mover)].eliminated, mover, c.position, u, HeroReach);
  }

  /** An accepted move updates the moved piece's stored position and nothing
      else in either roster, leaves the mover's elimination list alone, and
      flips the turn whoever moved. */
  lemma RostersAfterMove(s: State, req: Request)
    requires WellFormed(s) && Check(s, req).Success?
    ensures var plan := Check(s, req).value;
      var cs := s.players[req.player].characters;
      var after := Move(s, req).1;
      && after.players[req.player].characters == cs[plan.slot := cs[plan.slot].(position := plan.dest)]
      && after.players[Opponent(req.player)].characters == s.players[Opponent(req.player)].characters
      && after.players[req.player].eliminated == s.players[req.player].eliminated
      && after.currentPlayer == Opponent(s.currentPlayer)
  {
  }

  /** Elimination lists on an accepted move: a Pawn changes none; a Hero
      appends to the opponent's list, in step order, what its sweep captures
      on the board as it stands once the Hero has landed. */
  lemma EliminationsAfterMove(s: State, req: Request)
    requires WellFormed(s) && Check(s, req).Success?
    ensures var plan := Check(s, req).value;
      var c := s.players[req.player].characters[plan.slot];
      var opp := Opponent(req.player);
      var before := s.players[opp].eliminated;
      var after := Move(s, req).1.players[opp].eliminated;
      && (!IsHero(c.kind) ==> after == before)
      && (IsHero(c.kind) ==> after == before + Captured(
            PlacedBoard(s.board, c.position, plan.dest, TagOf(req.player, req.characterName)),
            req.player, c.position, Unit(req.command), HeroReach))
  {
    var plan := Check(s, req).value;
    var c := s.players[req.player].characters[plan.slot];
    var board1 := PlacedBoard(s.board, c.position, plan.dest, TagOf(req.player, req.characterName));
    DirectionTable(req.command);
    if IsHero(c.kind) {
      SweepEffect(board1, s.players[Opponent(req.player)].eliminated, req.player, c.position, Unit(req.command), HeroReach);
    }
  }

  /** What a move adds to an elimination list: at most two tags, only to the
      opponent's list, each of which stood before the move on a sweep cell
      other than the origin and the destination and is not prefixed by the
      mover's id. So a tag overwritten on the destination is never recorded. */
  lemma EliminatedTagSources(s: State, req: Request)
    requires WellFormed(s) && Check(s, req).Success?
    ensures var plan := Check(s, req).value;
      var c := s.players[req.player].characters[plan.slot];
      var opp := Opponent(req.player);
      var before := s.players[opp].eliminated;
      var after := Move(s, req).1.players[opp].eliminated;
      && |before| <= |after| <= |before| + HeroReach
      && after[..|before|] == before
      && forall n | |before| <= n < |after| :: exists step | 1 <= step <= HeroReach ::
           var cell := SweepCell(c.position, Unit(req.command), step);
           && InBounds(cell) && cell != c.position && cell != plan.dest
           && s.board[Index(cell)] == Some(after[n])
           && Capturable(s.board[Index(cell)], req.player)
  {
    var plan := Check(s, req).value;
    var c := s.players[req.player].characters[plan.slot];
    EliminationsAfterMove(s, req);
    AppendedFromSweep(s.board, c.position, plan.dest, req.player, req.characterName, Unit(req.command),
      s.players[Opponent(req.player)].eliminated, Move(s, req).1.players[Opponent(req.player)].eliminated);
  }

  /** A list that is `before`, or `before` followed by what a sweep captures
      once a piece of the mover's has moved from `origin` to `dest`, gained at
      most two tags, each from a swept cell other than the two. */
  lemma AppendedFromSweep(board: seq<Option<Tag>>, origin: Pos, dest: Pos, mover: Player, name: string, u: Vec,
                          before: seq<Tag>, after: seq<Tag>)
    requires |board| == CellCount && InBounds(origin) && InBounds(dest)
    requires after == before || after == before + Captured(PlacedBoard(board, origin, dest, TagOf(mover, name)), mover, origin, u, HeroReach)
    ensures |before| <= |after| <= |before| + HeroReach
    ensures after[..|before|] == before
    ensures forall n | |before| <= n < |after| :: exists step | 1 <= step <= HeroReach ::
      var cell := SweepCell(origin, u, step);
      && InBounds(cell) && cell != origin && cell != dest
      && board[Index(cell)] == Some(after[n])
      && Capturable(board[Index(cell)], mover)
  {
    var cap := Captured(PlacedBoard(board, origin, dest, TagOf(mover, name)), mover, origin, u, HeroReach);
    PlacedSweepSources(board, origin, dest, mover, name, u);
    if after != before {
      forall n | |before| <= n < |after|
        ensures exists step | 1 <= step <= HeroReach ::
          var cell := SweepCell(origin, u, step);
          && InBounds(cell) && cell != origin && cell != dest
          && board[Index(cell)] == Some(after[n])
          && Capturable(board[Index(cell)], mover)
      {
        assert after[n] == cap[n - |before|];
      }
    }
  }

  /** RosterIn is `every`: each roster entry's name is in the list. */
  lemma {:induction false} RosterInIsEvery(cs: seq<Character>, elim: seq<Tag>)
    ensures RosterIn(cs, elim) <==> forall i | 0 <= i < |cs| :: cs[i].name in elim
    decreases |cs|
  {
    if cs != [] {
      RosterInIsEvery(cs[1..], elim);
      assert forall i | 1 <= i < |cs| :: cs[i] == cs[1..][i - 1];
    }
  }

  /** The win check runs after every accepted move: the game ends, with the
      mover named winner, exactly when some roster is wholly, by bare name, in
      the elimination list of the mover's opponent. */
  lemma WinCheckAfterMove(s: State, req: Request)
    requires WellFormed(s) && Check(s, req).Success?
    ensures var r := Move(s, req);
      && (r.1.gameOver <==> AllEliminated(r.1.players, Opponent(req.player)))
      && (r.0 == GameOver(req.player) <==> r.1.gameOver)
      && (r.0 == Updated <==> !r.1.gameOver)
  {
  }

  /** Nothing ties the mover to the player whose turn it is: whose turn it is
      does not change whether a request is accepted or what it does. */
  lemma TurnNotEnforced(s: State, req: Request, turn: Player)
    requires WellFormed(s)
    ensures var s' := s.(currentPlayer := turn);
      && Check(s', req) == Check(s, req)
      && Move(s', req).0 == Move(s, req).0
      && Move(s', req).1.board == Move(s, req).1.board
      && Move(s', req).1.players == Move(s, req).1.players
  {
  }

  /** A move keeps every roster's names and kinds and their order. */
  lemma RostersKeepTheirPieces(s: State, req: Request)
    requires WellFormed(s)
    ensures forall p | p in s.players :: SameRoster(s.players[p].characters, Move(s, req).1.players[p].characters)
  {
    if Check(s, req).Success? {
      RostersAfterMove(s, req);
      var after := Move(s, req).1;
      forall p | p in s.players
        ensures SameRoster(s.players[p].characters, after.players[p].characters)
      {
        if p != req.player {
          assert p == Opponent(req.player);
        }
      }
    }
  }
}
