/** The move engine of `handleMove` as functions on State values: the
    direction tables, the validation that may reject a request, the step that
    places the piece, the Hero capture sweep, the turn flip and the win check. */
module Rules {
  import opened Wrappers
  import opened Grid
  import opened Pieces

  /** A `playerMove` request: who moves, which piece, which direction code. */
  datatype Request = Request(player: Player, characterName: string, command: string)

  /** Why a request is rejected, one per early return of `handleMove`. */
  datatype Rejection =
    | NotFoundOrGameOver
    | InvalidCommand
    | OutOfBounds
    | TargetsOwnCharacter

  /** The reply: `invalidMove`, `gameOver` naming the mover as winner, or the
      updated state. */
  datatype Outcome = InvalidMove(reason: Rejection) | GameOver(winner: Player) | Updated

  /** The eight direction codes the `switch` accepts. */
  const Cardinals: set<string> := {"L", "R", "F", "B"}
  const Diagonals: set<string> := {"FL", "FR", "BL", "BR"}

  /** The `switch`: how far a direction code moves a piece, or None for any
      other code. "F" is towards row 0. */
  function Delta(command: string): Option<Vec> {
    match command
    case "L" => Some(Vec(-1, 0))
    case "R" => Some(Vec(1, 0))
    case "F" => Some(Vec(0, -1))
    case "B" => Some(Vec(0, 1))
    case "FL" => Some(Vec(-2, -2))
    case "FR" => Some(Vec(2, -2))
    case "BL" => Some(Vec(-2, 2))
    case "BR" => Some(Vec(2, 2))
    case _ => None
  }

  /** The `directions` table of the Hero sweep: the unit step of each code. */
  function Unit(command: string): Vec
    requires Delta(command).Some?
  {
    match command
    case "L" => Vec(-1, 0)
    case "R" => Vec(1, 0)
    case "F" => Vec(0, -1)
    case "B" => Vec(0, 1)
    case "FL" => Vec(-1, -1)
    case "FR" => Vec(1, -1)
    case "BL" => Vec(-1, 1)
    case "BR" => Vec(1, 1)
  }

  /** `characters.find(c => c.name === name)`: the slot of the first roster
      entry with that name. */
  function FindCharacter(cs: seq<Character>, name: string): (r: Option<nat>)
    ensures r.Some? ==> r.value < |cs| && cs[r.value].name == name
    ensures r.Some? ==> forall j :: 0 <= j < r.value ==> cs[j].name != name
    ensures r.None? <==> forall j :: 0 <= j < |cs| ==> cs[j].name != name
  {
    if cs == [] then None
    else if cs[0].name == name then Some(0)
    else match FindCharacter(cs[1..], name)
      case None => None
      case Some(k) => Some(k + 1)
  }

  /** A cell value JavaScript treats as true: present and not the empty string. */
  predicate Truthy(cell: Option<Tag>) {
    cell.Some? && cell.value != ""
  }

  /** `cell && cell.startsWith(id)`: the cell holds a tag of player `p`. */
  predicate OwnedBy(cell: Option<Tag>, p: Player) {
    Truthy(cell) && Id(p) <= cell.value
  }

  /** `target && !target.startsWith(id)`: a Hero of `p` removes this cell. */
  predicate Capturable(cell: Option<Tag>, p: Player) {
    Truthy(cell) && !(Id(p) <= cell.value)
  }

  /** What an accepted request does: the roster slot of the piece and where it lands. */
  datatype Plan = Plan(slot: nat, dest: Pos)

  /** The checks of `handleMove`, in the order it makes them; the first that
      fails decides the rejection. Whose turn it is is not checked. */
  function Check(s: State, req: Request): (r: Result<Plan, Rejection>)
    requires WellFormed(s)
    ensures r.Success? ==> r.value.slot < |s.players[req.player].characters|
    ensures r.Success? ==> InBounds(r.value.dest) && Delta(req.command).Some?
    ensures var found := FindCharacter(s.players[req.player].characters, req.characterName);
      r.Success? <==>
        && found.Some? && !s.gameOver && Delta(req.command).Some?
        && var dest := s.players[req.player].characters[found.value].position.Plus(Delta(req.command).value);
           InBounds(dest) && !OwnedBy(s.board[Index(dest)], req.player)
    ensures r.Success? ==>
      && FindCharacter(s.players[req.player].characters, req.characterName) == Some(r.value.slot)
      && r.value.dest == s.players[req.player].characters[r.value.slot].position.Plus(Delta(req.command).value)
  {
    var found := FindCharacter(s.players[req.player].characters, req.characterName);
    if found.None? || s.gameOver then Failure(NotFoundOrGameOver)
    else
      var c := s.players[req.player].characters[found.value];
      var d := Delta(req.command);
      if d.None? then Failure(InvalidCommand)
      else
        var dest := c.position.Plus(d.value);
        if !InBounds(dest) then Failure(OutOfBounds)
        else if OwnedBy(s.board[Index(dest)], req.player) then Failure(TargetsOwnCharacter)
        else Success(Plan(found.value, dest))
  }

  /** How many cells a Hero sweep looks at; Hero1 and Hero2 reach equally far. */
  const HeroReach := 2

  /** The cell `step` unit steps away from `origin`. */
  function SweepCell(origin: Pos, u: Vec, step: int): Pos {
    Pos(origin.x + step * u.dx, origin.y + step * u.dy)
  }

  /** One pass of the sweep loop: an in-bounds cell holding a tag that is not
      the mover's is emptied and its tag appended to the elimination list. */
  function SweepStep(board: seq<Option<Tag>>, elim: seq<Tag>, mover: Player, cell: Pos)
    : (r: (seq<Option<Tag>>, seq<Tag>))
    requires |board| == CellCount
    ensures |r.0| == CellCount
  {
    if InBounds(cell) && Capturable(board[Index(cell)], mover) then
      (board[Index(cell) := None], elim + [board[Index(cell)].value])
    else
      (board, elim)
  }

  /** The board and elimination list after sweep steps 1..k, one after the other. */
  function SweepUpTo(board: seq<Option<Tag>>, elim: seq<Tag>, mover: Player, origin: Pos, u: Vec, k: nat)
    : (r: (seq<Option<Tag>>, seq<Tag>))
    requires |board| == CellCount
    ensures |r.0| == CellCount
  {
    if k == 0 then (board, elim)
    else
      var prev := SweepUpTo(board, elim, mover, origin, u, k - 1);
      SweepStep(prev.0, prev.1, mover, SweepCell(origin, u, k))
  }

  /** The board after the step itself: origin emptied, then the mover's tag
      written on the destination over whatever was there. */
  function PlacedBoard(board: seq<Option<Tag>>, origin: Pos, dest: Pos, tag: Tag): (r: seq<Option<Tag>>)
    requires |board| == CellCount && InBounds(origin) && InBounds(dest)
    ensures |r| == CellCount
    ensures r[Index(dest)] == Some(tag)
    ensures Index(origin) != Index(dest) ==> r[Index(origin)] == None
    ensures forall j | 0 <= j < CellCount && j != Index(origin) && j != Index(dest) :: r[j] == board[j]
  {
    board[Index(origin) := None][Index(dest) := Some(tag)]
  }

  /** `cs.every(c => elim.includes(c.name))`. */
  predicate RosterIn(cs: seq<Character>, elim: seq<Tag>) {
    cs == [] || (cs[0].name in elim && RosterIn(cs[1..], elim))
  }

  /** The win check: some player's whole roster, by bare name, is in the
      elimination list of the mover's opponent. */
  predicate AllEliminated(players: map<Player, PlayerData>, opp: Player)
    requires HasBothPlayers(players)
  {
    RosterIn(players[Player1].characters, players[opp].eliminated)
    || RosterIn(players[Player2].characters, players[opp].eliminated)
  }

  /** An accepted request: move the piece, sweep if it is a Hero, flip the
      turn, run the win check. */
  function Apply(s: State, req: Request, plan: Plan): (r: (Outcome, State))
    requires WellFormed(s) && Check(s, req) == Success(plan)
    ensures WellFormed(r.1)
  {
    var mover := req.player;
    var opp := Opponent(mover);
    var data := s.players[mover];
    var c := data.characters[plan.slot];
    var board1 := PlacedBoard(s.board, c.position, plan.dest, TagOf(mover, req.characterName));
    var players1 := s.players[mover := data.(characters := data.characters[plan.slot := c.(position := plan.dest)])];
    var swept := SweepUpTo(board1, players1[opp].eliminated, mover, c.position, Unit(req.command), HeroReach);
    var board2 := if IsHero(c.kind) then swept.0 else board1;
    var players2 := if IsHero(c.kind) then players1[opp := players1[opp].(eliminated := swept.1)] else players1;
    var won := AllEliminated(players2, opp);
    (if won then GameOver(mover) else Updated,
     State(board2, players2, Opponent(s.currentPlayer), won))
  }

  /** `handleMove` on a state value: a rejected request changes nothing, an
      accepted one is applied. The result is again well formed. */
  function Move(s: State, req: Request): (r: (Outcome, State))
    requires WellFormed(s)
    ensures WellFormed(r.1)
  {
    match Check(s, req)
    case Failure(e) => (InvalidMove(e), s)
    case Success(plan) => Apply(s, req, plan)
  }

  /** Two rosters list the same pieces, positions aside. */
  predicate SameRoster(a: seq<Character>, b: seq<Character>) {
    |a| == |b| && forall i :: 0 <= i < |a| ==> a[i].name == b[i].name && a[i].kind == b[i].kind
  }

  /** The state after a sequence of requests, each handled in turn. */
  function Run(s: State, reqs: seq<Request>): (r: State)
    requires WellFormed(s)
    ensures WellFormed(r)
    decreases |reqs|
  {
    if reqs == [] then s else Run(Move(s, reqs[0]).1, reqs[1..])
  }
}
