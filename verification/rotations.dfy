/** The rotation store: rotations, map entries and their conditions, the
    fixed ceilings on each, and the two pure lookups the rest of the engine
    consults — destination resolution and condition evaluation. */
module Rotations {
  import opened Text

  // Ceilings of the fixed-size tables (from g_local.h, which is not part
  // of this model; see README).
  const MAX_MAP_ROTATIONS: nat := 16
  const MAX_MAP_ROTATION_MAPS: nat := 64
  const MAX_MAP_ROTATION_CONDS: nat := 8
  const MAX_MAP_COMMANDS: nat := 16
  const MAX_CLIENTS: nat := 64
  /** Value of g_currentMapRotation when no rotation is active. */
  const NOT_ROTATING: int := -1

  const VOTE_NAME: string := "*VOTE*"
  const RANDOM_NAME: string := "*RANDOM*"

  datatype Option<T> = None | Some(value: T)

  /** The comparison of a numClients condition (MCO_LT, MCO_GT, MCO_EQ). */
  datatype Op = Lt | Gt | Eq

  /** A team as recorded in level.lastWin. */
  datatype Team = NoTeam | Aliens | Humans

  /** The left-hand side of a condition (mapConditionVariable_t). A `goto`
      leaves the slot's left-hand side at its zero value, MCV_ERR, which
      `Malformed` stands for. */
  datatype Lhs =
    | Malformed
    | CoinFlip
    | NumClients(op: Op, threshold: int)
    | LastWin(team: Team)
    | VoteCandidate
    | RandomCandidate

  datatype Condition = Condition(unconditional: bool, lhs: Lhs, dest: string)

  /** One map slot of a rotation: its name (a map, or *VOTE* / *RANDOM*),
      post-load commands, layouts string and conditions. */
  datatype Entry = Entry(name: string, cmds: seq<string>, layouts: string, conds: seq<Condition>)

  datatype Rotation = Rotation(name: string, maps: seq<Entry>)

  const EmptyEntry: Entry := Entry("", [], "", [])

  predicate IsPlaceholder(name: string)
  {
    IEq(name, VOTE_NAME) || IEq(name, RANDOM_NAME)
  }

  predicate EntryWithinCeilings(e: Entry)
  {
    |e.cmds| <= MAX_MAP_COMMANDS && |e.conds| <= MAX_MAP_ROTATION_CONDS
  }

  predicate MapsWithinCeilings(maps: seq<Entry>)
  {
    |maps| <= MAX_MAP_ROTATION_MAPS &&
    forall j :: 0 <= j < |maps| ==> EntryWithinCeilings(maps[j])
  }

  predicate RotationWithinCeilings(r: Rotation)
  {
    MapsWithinCeilings(r.maps)
  }

  predicate TableWithinCeilings(table: seq<Rotation>)
  {
    |table| <= MAX_MAP_ROTATIONS &&
    forall i :: 0 <= i < |table| ==> RotationWithinCeilings(table[i])
  }

  /** No two rotations share a name, ignoring case. */
  predicate DistinctNames(table: seq<Rotation>)
  {
    forall i, j :: 0 <= i < j < |table| ==> !IEq(table[i].name, table[j].name)
  }

  // ---------------------------------------------------------------------
  // Lookups

  /** Index of the first map entry whose name matches, ignoring case. */
  function FindEntry(maps: seq<Entry>, name: string): (r: Option<nat>)
    ensures r.Some? ==> r.value < |maps| && IEq(maps[r.value].name, name)
    ensures r.Some? ==> forall j :: 0 <= j < r.value ==> !IEq(maps[j].name, name)
    ensures r.None? ==> forall j :: 0 <= j < |maps| ==> !IEq(maps[j].name, name)
  {
    if maps == [] then None
    else if IEq(maps[0].name, name) then Some(0)
    else match FindEntry(maps[1..], name)
      case None => None
      case Some(k) => Some(k + 1)
  }

  /** Index of the first rotation whose name matches, ignoring case. */
  function FindRotation(table: seq<Rotation>, name: string): (r: Option<nat>)
    ensures r.Some? ==> r.value < |table| && IEq(table[r.value].name, name)
    ensures r.Some? ==> forall j :: 0 <= j < r.value ==> !IEq(table[j].name, name)
    ensures r.None? ==> forall j :: 0 <= j < |table| ==> !IEq(table[j].name, name)
  {
    if table == [] then None
    else if IEq(table[0].name, name) then Some(0)
    else match FindRotation(table[1..], name)
      case None => None
      case Some(k) => Some(k + 1)
  }

  /** G_RotationExists: an exact, case-sensitive name match. */
  predicate RotationExists(table: seq<Rotation>, name: string)
  {
    exists i :: 0 <= i < |table| && table[i].name == name
  }

  /** What a condition's destination names (mapConditionType_t). */
  datatype Destination = MapDest(index: nat) | RotationDest(index: nat) | Unresolved

  /** G_ResolveConditionDestination: entries of the active rotation first,
      then rotation names, both ignoring case. */
  function ResolveDestination(table: seq<Rotation>, active: nat, name: string): (r: Destination)
    requires active < |table|
    ensures r.MapDest? <==> exists j :: 0 <= j < |table[active].maps| && IEq(table[active].maps[j].name, name)
    ensures r.MapDest? ==>
              && r.index < |table[active].maps| && IEq(table[active].maps[r.index].name, name)
              && forall j :: 0 <= j < r.index ==> !IEq(table[active].maps[j].name, name)
    ensures r.RotationDest? ==>
              && r.index < |table| && IEq(table[r.index].name, name)
              && forall j :: 0 <= j < r.index ==> !IEq(table[j].name, name)
    ensures r.Unresolved? <==>
      (forall j :: 0 <= j < |table[active].maps| ==> !IEq(table[active].maps[j].name, name)) &&
      (forall j :: 0 <= j < |table| ==> !IEq(table[j].name, name))
  {
    match FindEntry(table[active].maps, name)
    case Some(j) => MapDest(j)
    case None =>
      match FindRotation(table, name)
      case Some(i) => RotationDest(i)
      case None => Unresolved
  }

  // ---------------------------------------------------------------------
  // Evaluation

  /** G_EvaluateMapCondition, with the connected-client count, the last
      winner and the rand() bit supplied by the caller. */
  function EvaluateCondition(lhs: Lhs, numClients: int, lastWin: Team, coin: bool): bool
  {
    match lhs
    case CoinFlip => coin
    case NumClients(op, n) =>
      (match op
       case Lt => numClients < n
       case Gt => numClients > n
       case Eq => numClients == n)
    case LastWin(t) => lastWin == t
    case VoteCandidate => false
    case RandomCandidate => false
    case Malformed => false
  }

  /** Candidate and malformed conditions never fire, whatever the ambient state. */
  lemma CandidatesNeverFire(lhs: Lhs, numClients: int, lastWin: Team, coin: bool)
    requires lhs.VoteCandidate? || lhs.RandomCandidate? || lhs.Malformed?
    ensures !EvaluateCondition(lhs, numClients, lastWin, coin)
  {
  }

  /** Exactly one of the three comparisons fires for a given count and threshold. */
  lemma NumClientsTrichotomy(numClients: int, n: int, lastWin: Team, coin: bool)
    ensures EvaluateCondition(NumClients(Lt, n), numClients, lastWin, coin) ||
            EvaluateCondition(NumClients(Gt, n), numClients, lastWin, coin) ||
            EvaluateCondition(NumClients(Eq, n), numClients, lastWin, coin)
    ensures !(EvaluateCondition(NumClients(Lt, n), numClients, lastWin, coin) &&
              EvaluateCondition(NumClients(Gt, n), numClients, lastWin, coin))
    ensures EvaluateCondition(NumClients(Eq, n), numClients, lastWin, coin) ==>
            !EvaluateCondition(NumClients(Lt, n), numClients, lastWin, coin) &&
            !EvaluateCondition(NumClients(Gt, n), numClients, lastWin, coin)
  {
  }

  /** Only a coin-flip condition depends on the random bit. */
  lemma OnlyCoinFlipIsRandom(lhs: Lhs, numClients: int, lastWin: Team)
    requires !lhs.CoinFlip?
    ensures EvaluateCondition(lhs, numClients, lastWin, true) == EvaluateCondition(lhs, numClients, lastWin, false)
  {
  }
}
