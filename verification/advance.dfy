/** The condition scan of G_AdvanceMapRotation: which map of the active
    rotation comes next, or which rotation to jump to. The loop that runs
    it against the engine's state is RotationEngine.Advance; this module
    holds its specification and what is proved about it. */
module Advance {
  import opened Text
  import opened Rotations

  /** What the source reads from the running game when it evaluates a
      condition: level.numConnectedClients, level.lastWin, and the rand()
      bit a coin-flip condition at index i draws (coins[i], false past the
      end of coins). */
  datatype Ambient = Ambient(numClients: int, lastWin: Team, coins: seq<bool>)

  function Coin(amb: Ambient, i: nat): bool
  {
    i < |amb.coins| && amb.coins[i]
  }

  /** Condition i fires: it is a goto, or its test holds. */
  predicate Fires(c: Condition, amb: Ambient, i: nat)
  {
    c.unconditional || EvaluateCondition(c.lhs, amb.numClients, amb.lastWin, Coin(amb, i))
  }

  /** Stay: store next as the active rotation's current map and change to
      it. Jump: store next, then start the rotation at index rotation. */
  datatype Outcome = Stay(next: nat) | Jump(next: nat, rotation: nat)

  /** The default successor of map cur in a rotation of n maps. */
  function DefaultNext(cur: nat, n: nat): (r: nat)
    requires n > 0
    ensures r < n
    ensures cur + 1 < n ==> r == cur + 1
    ensures cur + 1 == n ==> r == 0
  {
    (cur + 1) % n
  }

  /** The loop of G_AdvanceMapRotation from condition i on, with nextMap
      holding next. */
  function Scan(table: seq<Rotation>, active: nat, conds: seq<Condition>, amb: Ambient, i: nat, next: nat): (o: Outcome)
    requires active < |table|
    requires next < |table[active].maps|
    ensures o.next < |table[active].maps|
    ensures o.Jump? ==> o.rotation < |table|
    decreases |conds| - i
  {
    if i >= |conds| then Stay(next)
    else if Fires(conds[i], amb, i) then
      match ResolveDestination(table, active, conds[i].dest)
      case MapDest(n) => Scan(table, active, conds, amb, i + 1, n)
      case RotationDest(k) => Jump(next, k)
      case Unresolved => Scan(table, active, conds, amb, i + 1, next)
    else Scan(table, active, conds, amb, i + 1, next)
  }

  // ---------------------------------------------------------------------
  // A reference description of the scan

  /** Condition j fires and names a rotation. */
  predicate JumpsAt(table: seq<Rotation>, active: nat, conds: seq<Condition>, amb: Ambient, j: nat)
    requires active < |table| && j < |conds|
  {
    Fires(conds[j], amb, j) && ResolveDestination(table, active, conds[j].dest).RotationDest?
  }

  /** The map named by the last of the first upto conditions that fires and
      names a map of the active rotation, or d if there is none. */
  function LastMapTarget(table: seq<Rotation>, active: nat, conds: seq<Condition>, amb: Ambient, upto: nat, d: nat): nat
    requires active < |table| && upto <= |conds|
  {
    if upto == 0 then d
    else
      var j := upto - 1;
      if Fires(conds[j], amb, j) && ResolveDestination(table, active, conds[j].dest).MapDest? then
        ResolveDestination(table, active, conds[j].dest).index
      else LastMapTarget(table, active, conds, amb, j, d)
  }

  /** Up to the first jump, the scan has kept the last map target. */
  lemma {:induction false} ScanPrefix(table: seq<Rotation>, active: nat, conds: seq<Condition>, amb: Ambient, i: nat, d: nat)
    requires active < |table| && d < |table[active].maps| && i <= |conds|
    requires forall j :: 0 <= j < i ==> !JumpsAt(table, active, conds, amb, j)
    ensures LastMapTarget(table, active, conds, amb, i, d) < |table[active].maps|
    ensures Scan(table, active, conds, amb, 0, d) == Scan(table, active, conds, amb, i, LastMapTarget(table, active, conds, amb, i, d))
  {
    if i > 0 {
      ScanPrefix(table, active, conds, amb, i - 1, d);
      assert !JumpsAt(table, active, conds, amb, i - 1);
    }
  }

  /** Without a jump, the last map target wins, and the default when no
      condition names a map. */
  lemma NoJumpStays(table: seq<Rotation>, active: nat, conds: seq<Condition>, amb: Ambient, d: nat)
    requires active < |table| && d < |table[active].maps|
    requires forall j :: 0 <= j < |conds| ==> !JumpsAt(table, active, conds, amb, j)
    ensures Scan(table, active, conds, amb, 0, d) == Stay(LastMapTarget(table, active, conds, amb, |conds|, d))
  {
    ScanPrefix(table, active, conds, amb, |conds|, d);
  }

  /** The first firing condition that names a rotation ends the scan; the
      map stored for the old rotation is the last map target before it. */
  lemma FirstJumpWins(table: seq<Rotation>, active: nat, conds: seq<Condition>, amb: Ambient, d: nat, j: nat)
    requires active < |table| && d < |table[active].maps| && j < |conds|
    requires JumpsAt(table, active, conds, amb, j)
    requires forall j' :: 0 <= j' < j ==> !JumpsAt(table, active, conds, amb, j')
    ensures Scan(table, active, conds, amb, 0, d) ==
            Jump(LastMapTarget(table, active, conds, amb, j, d), ResolveDestination(table, active, conds[j].dest).index)
  {
    ScanPrefix(table, active, conds, amb, j, d);
  }

  /** When no condition fires the default successor is kept. */
  lemma {:induction false} NothingFiresKeepsDefault(table: seq<Rotation>, active: nat, conds: seq<Condition>, amb: Ambient, i: nat, d: nat)
    requires active < |table| && d < |table[active].maps| && i <= |conds|
    requires forall j :: i <= j < |conds| ==> !Fires(conds[j], amb, j)
    ensures Scan(table, active, conds, amb, i, d) == Stay(d)
    decreases |conds| - i
  {
    if i < |conds| {
      NothingFiresKeepsDefault(table, active, conds, amb, i + 1, d);
    }
  }

  /** A firing condition whose destination resolves to nothing changes
      nothing: the scan goes on as if it had not fired. */
  lemma UnresolvedIsSkipped(table: seq<Rotation>, active: nat, conds: seq<Condition>, amb: Ambient, i: nat, d: nat)
    requires active < |table| && d < |table[active].maps| && i < |conds|
    requires ResolveDestination(table, active, conds[i].dest).Unresolved?
    ensures Scan(table, active, conds, amb, i, d) == Scan(table, active, conds, amb, i + 1, d)
  {
  }

  /** The rotation a jump names is the one G_StartMapRotation finds by the
      same name. */
  lemma JumpTargetIsFound(table: seq<Rotation>, active: nat, name: string)
    requires active < |table|
    requires ResolveDestination(table, active, name).RotationDest?
    ensures FindRotation(table, name) == Some(ResolveDestination(table, active, name).index)
  {
  }

  // ---------------------------------------------------------------------
  // C's remainder

  /** The % of C: truncates toward zero, so a negative dividend gives a
      remainder that is zero or negative. */
  function CRem(a: int, n: int): (r: int)
    requires n > 0
    ensures -n < r < n
    ensures a >= 0 ==> 0 <= r && r == a % n
    ensures a < 0 ==> r <= 0
  {
    if a >= 0 then a % n else -((-a) % n)
  }

  /** The entry a vote is held for: the one after map cur, found with C's
      remainder. None where the source would divide by zero (a rotation
      without maps) or index before the first entry (a negative remainder). */
  function VoteEntryIndex(cur: int, n: nat): (r: Option<nat>)
    ensures r.Some? ==> r.value < n
    ensures n > 0 && 0 <= cur ==> r == Some(DefaultNext(cur, n))
  {
    if n == 0 then None
    else
      var next := CRem(cur + 1, n);
      if next < 0 then None else Some(next)
  }

  // ---------------------------------------------------------------------
  // One advance

  /** The conditions G_AdvanceMapRotation reads for stored map cur: those of
      entry cur, and none for a slot of the 64-entry array past the counted
      maps (a stale index left in the cvar). */
  function EntryConds(maps: seq<Entry>, cur: nat): seq<Condition>
  {
    if cur < |maps| then maps[cur].conds else []
  }

  /** What G_AdvanceMapRotation does for the active rotation whose stored
      current map is cur: None where the source would divide by zero (a
      rotation without maps) or read outside the entry array (cur negative
      or at least MAX_MAP_ROTATION_MAPS); otherwise the outcome of the scan
      of cur's conditions, starting from the default successor. A stale
      index past the last map has no conditions, so it wraps to the default
      successor. */
  function AdvanceOutcome(table: seq<Rotation>, active: nat, cur: int, amb: Ambient): (o: Option<Outcome>)
    requires active < |table|
    ensures o.Some? ==> o.value.next < |table[active].maps|
    ensures o.Some? && o.value.Jump? ==> o.value.rotation < |table|
    ensures o.None? <==> |table[active].maps| == 0 || !(0 <= cur < MAX_MAP_ROTATION_MAPS)
    ensures 0 < |table[active].maps| <= cur < MAX_MAP_ROTATION_MAPS ==>
              o == Some(Stay((cur + 1) % |table[active].maps|))
  {
    var maps := table[active].maps;
    if |maps| == 0 || !(0 <= cur < MAX_MAP_ROTATION_MAPS) then None
    else Some(Scan(table, active, EntryConds(maps, cur), amb, 0, DefaultNext(cur, |maps|)))
  }
}
