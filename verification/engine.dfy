/** The map rotation engine's state and the operations that change it in
    place: loading the rotation file, the current-map cvar and its static
    array, advancing, starting and stopping rotations, and the map vote.

    The cvars g_currentMapRotation and g_currentMap are fields, set and read
    directly instead of through trap_Cvar_Set / trap_Cvar_Update. Map changes
    (G_IssueMapChange) and messages are not part of this model. */
module Engine {
  import opened Text
  import opened Rotations
  import opened RotationParser
  import opened RotationFile
  import opened CurrentMap
  import opened Advance
  import opened Vote

  /** The vote candidates G_CheckMapRotationVote collects for the active
      rotation whose stored current map is cur: the vote-candidate
      destinations of the entry after cur, or none where the source would
      divide by zero or index before the first entry. */
  function VoteListFor(table: seq<Rotation>, active: nat, cur: int): (r: seq<string>)
    requires active < |table|
    ensures RotationWithinCeilings(table[active]) ==> |r| <= MAX_MAP_ROTATION_CONDS
  {
    var maps := table[active].maps;
    match VoteEntryIndex(cur, |maps|)
    case None => []
    case Some(e) => VoteDests(maps[e].conds)
  }

  class RotationEngine {
    /** mapRotations.rotations[ 0 .. numRotations - 1 ]. */
    var rotations: seq<Rotation>
    /** g_currentMapRotation: the active rotation's index, or NOT_ROTATING. */
    var currentRotation: int
    /** g_currentMap: the current map of every rotation, as text. */
    var currentMapText: string
    /** The static array G_GetCurrentMapArray reads g_currentMap into. */
    const currentMap: array<int>
    /** rotationVoteList[ 0 .. rotationVoteLen - 1 ]. */
    var voteList: seq<string>
    /** rotationVoteClientPosition: each client's cursor in the vote menu. */
    const votePosition: array<int>
    /** rotationVoteClientSelection: each client's vote, -1 for none. */
    const voteSelection: array<int>

    ghost predicate Valid()
      reads this
    {
      && currentMap.Length == MAX_MAP_ROTATIONS
      && votePosition.Length == MAX_CLIENTS
      && voteSelection.Length == MAX_CLIENTS
      && currentMap != votePosition && currentMap != voteSelection && votePosition != voteSelection
      && TableWithinCeilings(rotations)
      && |voteList| <= MAX_MAP_ROTATION_CONDS
    }

    /** The game module as it starts: no rotations loaded, zeroed static
        arrays, and the two cvars as the previous map left them. */
    constructor (rotationCvar: int, mapCvar: string)
      ensures Valid()
      ensures fresh(currentMap) && fresh(votePosition) && fresh(voteSelection)
      ensures rotations == [] && voteList == []
      ensures currentRotation == rotationCvar && currentMapText == mapCvar
      ensures forall k :: 0 <= k < MAX_MAP_ROTATIONS ==> currentMap[k] == 0
      ensures forall c :: 0 <= c < MAX_CLIENTS ==> votePosition[c] == 0 && voteSelection[c] == 0
    {
      rotations := [];
      currentRotation := rotationCvar;
      currentMapText := mapCvar;
      currentMap := new int[MAX_MAP_ROTATIONS](_ => 0);
      voteList := [];
      votePosition := new int[MAX_CLIENTS](_ => 0);
      voteSelection := new int[MAX_CLIENTS](_ => 0);
    }

    // -------------------------------------------------------------------
    // G_ParseMapRotationFile

    /** Reads a rotation file of fileLength bytes whose text splits into
        toks, appending its rotations to the table, then validates the whole
        table. On an error the rotations read before it stay loaded. */
    method LoadRotationFile(fileLength: int, toks: seq<Token>, mapExists: string -> bool) returns (ok: bool)
      requires Valid()
      modifies this`rotations
      ensures Valid()
      ensures rotations == LoadOutcome(fileLength, toks, old(rotations)).table
      ensures ok <==> LoadOutcome(fileLength, toks, old(rotations)).error.None? && ValidTable(rotations, mapExists)
    {
      if fileLength < 0 || fileLength == 0 || fileLength >= FILE_BUFFER - 1 {
        return false;
      }
      var p: nat := 0;
      var pending: Option<string> := None;
      while true
        invariant TableWithinCeilings(rotations)
        invariant FileFrom(toks, p, rotations, pending) == FileFrom(toks, 0, old(rotations), None)
        decreases |toks| - p
      {
        var token := Tok(toks, p);
        if token == "" {
          break;
        }
        if IEq(token, "{") {
          if pending.None? {
            return false;
          }
          var read, next := ReadRotation(toks, p, pending.value);
          if !read {
            return false;
          }
          p, pending := next, None;
        } else if pending.None? {
          p, pending := p + 1, Some(token);
        } else {
          return false;
        }
      }
      var err := Validate(rotations, mapExists);
      ok := err.None?;
    }

    /** The "{" branch of G_ParseMapRotationFile for the rotation named name:
        the name-clash check, the rotation itself and the ceiling on the
        number of rotations. On success the rotation is appended and the file
        loop goes on after its "}"; on failure the table is the load's
        final table. */
    method ReadRotation(toks: seq<Token>, p: nat, name: string) returns (read: bool, next: nat)
      requires Valid() && IEq(Tok(toks, p), "{")
      modifies this`rotations
      ensures Valid()
      ensures read ==> p < next && FileFrom(toks, next, rotations, None) == FileFrom(toks, p, old(rotations), Some(name))
      ensures !read ==> rotations == old(rotations) && FileFrom(toks, p, rotations, Some(name)) == FileOutcome(rotations, FileFrom(toks, p, rotations, Some(name)).error)
      ensures !read ==> FileFrom(toks, p, rotations, Some(name)).error.Some?
    {
      var clash := HasRotationNamed(name);
      if clash {
        return false, p;
      }
      var r := ParseRotation(toks, p + 1, name);
      if r.Err? {
        return false, p;
      }
      if |rotations| == MAX_MAP_ROTATIONS {
        return false, p;
      }
      rotations := rotations + [r.value.0];
      next := r.value.1;
      read := true;
    }

    /** The name-clash loop of G_ParseMapRotationFile: whether a loaded
        rotation already has this name, ignoring case. */
    method HasRotationNamed(name: string) returns (found: bool)
      ensures found <==> FindRotation(rotations, name).Some?
    {
      var i := 0;
      while i < |rotations|
        invariant 0 <= i <= |rotations|
        invariant forall j :: 0 <= j < i ==> !IEq(rotations[j].name, name)
      {
        if IEq(rotations[i].name, name) {
          return true;
        }
        i := i + 1;
      }
      return false;
    }

    // -------------------------------------------------------------------
    // The current map of each rotation

    /** G_GetCurrentMapArray: reads g_currentMap into the static array, one
        word per slot, leaving the slots past the last word as they were. */
    method GetCurrentMapArray()
      requires Valid()
      modifies currentMap
      ensures currentMap[..] == Parsed(currentMapText, old(currentMap[..]))
    {
      var words := Words(currentMapText);
      var i := 0;
      while i < |words| && i < currentMap.Length
        invariant 0 <= i <= |words| && i <= currentMap.Length
        invariant forall k :: 0 <= k < i ==> currentMap[k] == Atoi(words[k])
        invariant forall k :: i <= k < currentMap.Length ==> currentMap[k] == old(currentMap[k])
      {
        currentMap[i] := Atoi(words[i]);
        i := i + 1;
      }
    }

    /** G_GetCurrentMap: the current map of rotation, read afresh from the
        cvar. */
    method GetCurrentMap(rotation: nat) returns (m: int)
      requires Valid() && rotation < MAX_MAP_ROTATIONS
      modifies currentMap
      ensures currentMap[..] == Parsed(currentMapText, old(currentMap[..]))
      ensures m == currentMap[rotation]
    {
      GetCurrentMapArray();
      m := currentMap[rotation];
    }

    /** G_SetCurrentMap: sets the current map of rotation to m and writes the
        first |rotations| slots back to the cvar. Reading the cvar back then
        gives the same array: get after set. */
    method SetCurrentMap(m: int, rotation: nat)
      requires Valid() && rotation < MAX_MAP_ROTATIONS
      modifies this`currentMapText, currentMap
      ensures Valid()
      ensures currentMap[..] == Parsed(old(currentMapText), old(currentMap[..]))[rotation := m]
      ensures currentMapText == Serialise(currentMap[..|rotations|])
      ensures Parsed(currentMapText, currentMap[..]) == currentMap[..]
    {
      GetCurrentMapArray();
      ghost var parsed := currentMap[..];
      currentMap[rotation] := m;
      assert currentMap[..] == parsed[rotation := m];
      var text := "";
      var i := 0;
      while i < |rotations|
        invariant 0 <= i <= |rotations|
        invariant text == Serialise(currentMap[..i])
        invariant currentMap[..] == parsed[rotation := m]
      {
        SerialiseSnoc(currentMap[..i], currentMap[i]);
        assert currentMap[..i + 1] == currentMap[..i] + [currentMap[i]];
        text := text + Itoa(currentMap[i]) + " ";
        i := i + 1;
      }
      currentMapText := text;
      GetAfterSet(currentMap[..], |rotations|);
      assert currentMap[..][..|rotations|] == currentMap[..|rotations|];
    }

    // -------------------------------------------------------------------
    // Advancing, starting and stopping

    /** G_AdvanceMapRotation: moves the active rotation on by one map, or
        jumps to the rotation a condition names. Returns false, changing
        nothing, when no rotation is active; also (unlike the source) when
        the active index is not a rotation, the rotation has no maps, or its
        stored map is outside the entry array. A stored map past the last
        entry wraps to the first as in the source. */
    method Advance(amb: Ambient) returns (ok: bool)
      requires Valid()
      modifies this`currentRotation, this`currentMapText, currentMap
      ensures Valid()
      ensures !(0 <= old(currentRotation) < |rotations|) ==>
                !ok && currentRotation == old(currentRotation) &&
                currentMapText == old(currentMapText) && currentMap[..] == old(currentMap[..])
      ensures 0 <= old(currentRotation) < |rotations| ==>
                var active := old(currentRotation);
                var cache := Parsed(old(currentMapText), old(currentMap[..]));
                var o := AdvanceOutcome(rotations, active, cache[active], amb);
                && ok == o.Some?
                && (o.None? ==> currentRotation == active && currentMapText == old(currentMapText) && currentMap[..] == cache)
                && (o.Some? ==>
                      && currentMap[..] == cache[active := o.value.next]
                      && currentMapText == Serialise(currentMap[..|rotations|])
                      && currentRotation == if o.value.Jump? then o.value.rotation else active)
    {
      var active := currentRotation;
      if active == NOT_ROTATING || !(0 <= active < |rotations|) {
        return false;
      }
      var cur := GetCurrentMap(active);
      ghost var cache := currentMap[..];
      var maps := rotations[active].maps;
      if |maps| == 0 || !(0 <= cur < MAX_MAP_ROTATION_MAPS) {
        return false;
      }
      var o, jumpName := ScanConditions(active, cur, amb);
      SetCurrentMap(o.next, active);
      if o.Jump? {
        JumpTargetIsFound(rotations, active, jumpName);
        var started := Start(jumpName);
      }
      return true;
    }

    /** The condition loop of G_AdvanceMapRotation for stored map cur of the
        active rotation: the map to store and, when a firing condition names
        a rotation, that rotation and the name it was given by. */
    method ScanConditions(active: nat, cur: nat, amb: Ambient) returns (o: Outcome, jumpName: string)
      requires active < |rotations| && 0 < |rotations[active].maps|
      ensures o == Scan(rotations, active, EntryConds(rotations[active].maps, cur), amb, 0, DefaultNext(cur, |rotations[active].maps|))
      ensures o.Jump? ==> ResolveDestination(rotations, active, jumpName) == RotationDest(o.rotation)
    {
      var maps := rotations[active].maps;
      var conds := if cur < |maps| then maps[cur].conds else [];
      var next: nat := (cur + 1) % |maps|;
      var i := 0;
      while i < |conds|
        invariant 0 <= i <= |conds| && next < |maps|
        invariant Scan(rotations, active, conds, amb, i, next) == Scan(rotations, active, conds, amb, 0, DefaultNext(cur, |maps|))
      {
        var c := conds[i];
        if c.unconditional || EvaluateCondition(c.lhs, amb.numClients, amb.lastWin, Coin(amb, i)) {
          match ResolveDestination(rotations, active, c.dest)
          case MapDest(n) =>
            next := n;
          case RotationDest(k) =>
            return Jump(next, k), c.dest;
          case Unresolved =>
        }
        i := i + 1;
      }
      return Stay(next), "";
    }

    /** G_StartMapRotation: makes the first rotation named name (ignoring
        case) the active one. An unknown name changes nothing. */
    method Start(name: string) returns (ok: bool)
      requires Valid()
      modifies this`currentRotation
      ensures Valid()
      ensures ok <==> FindRotation(rotations, name).Some?
      ensures ok ==> currentRotation == FindRotation(rotations, name).value
      ensures !ok ==> currentRotation == old(currentRotation)
    {
      var i := 0;
      while i < |rotations|
        invariant 0 <= i <= |rotations|
        invariant forall j :: 0 <= j < i ==> !IEq(rotations[j].name, name)
        invariant currentRotation == old(currentRotation)
      {
        if IEq(rotations[i].name, name) {
          currentRotation := i;
          break;
        }
        i := i + 1;
      }
      ok := i != |rotations|;
    }

    /** G_StopMapRotation. */
    method Stop()
      requires Valid()
      modifies this`currentRotation
      ensures Valid()
      ensures currentRotation == NOT_ROTATING
    {
      currentRotation := NOT_ROTATING;
    }

    /** G_MapRotationActive. */
    method IsActive() returns (active: bool)
      ensures active <==> currentRotation != NOT_ROTATING
    {
      active := currentRotation != NOT_ROTATING;
    }

    // -------------------------------------------------------------------
    // The map vote

    /** G_CheckMapRotationVote: opens a vote on the entry after the active
        rotation's current map. The list is emptied first; the vote opens
        when voting is on, a rotation is active and that entry has vote
        candidates, and then every cursor is put on the first candidate and
        every selection cleared. */
    method CheckMapRotationVote(voteSetting: int) returns (ok: bool)
      requires Valid()
      modifies this`voteList, currentMap, votePosition, voteSelection
      ensures Valid()
      ensures ok <==> voteList != []
      ensures var active := old(currentRotation);
              var reached := voteSetting >= 1 && 0 <= active < |rotations|;
              && currentMap[..] == (if reached then Parsed(currentMapText, old(currentMap[..])) else old(currentMap[..]))
              && voteList == (if reached then VoteListFor(rotations, active, currentMap[active]) else [])
      ensures ok ==> forall c :: 0 <= c < MAX_CLIENTS ==> votePosition[c] == 0 && voteSelection[c] == -1
      ensures !ok ==> votePosition[..] == old(votePosition[..]) && voteSelection[..] == old(voteSelection[..])
    {
      voteList := [];
      if voteSetting < 1 {
        return false;
      }
      var active := currentRotation;
      if active == NOT_ROTATING || !(0 <= active < |rotations|) {
        return false;
      }
      var cur := GetCurrentMap(active);
      var maps := rotations[active].maps;
      if |maps| == 0 {
        return false;
      }
      var nextMap := CRem(cur + 1, |maps|);
      if nextMap < 0 {
        return false;
      }
      CollectVoteCandidates(maps[nextMap].conds);
      if |voteList| == 0 {
        return false;
      }
      ResetVoteArrays();
      return true;
    }

    /** The candidate loop of G_CheckMapRotationVote: appends each vote
        condition's destination, stopping once MAX_MAP_ROTATION_CONDS are
        listed. */
    method CollectVoteCandidates(conds: seq<Condition>)
      requires |conds| <= MAX_MAP_ROTATION_CONDS && voteList == []
      modifies this`voteList
      ensures voteList == VoteDests(conds)
    {
      var i := 0;
      while i < |conds|
        invariant 0 <= i <= |conds|
        invariant voteList == VoteDests(conds[..i])
      {
        assert conds[..i + 1][..i] == conds[..i];
        if conds[i].lhs.VoteCandidate? {
          voteList := voteList + [conds[i].dest];
          if |voteList| >= MAX_MAP_ROTATION_CONDS {
            i := i + 1;
            break;
          }
        }
        i := i + 1;
      }
      assert conds[..|conds|] == conds;
    }

    /** Every cursor on the first candidate, every selection cleared. */
    method ResetVoteArrays()
      requires Valid()
      modifies votePosition, voteSelection
      ensures forall c :: 0 <= c < MAX_CLIENTS ==> votePosition[c] == 0 && voteSelection[c] == -1
    {
      var c := 0;
      while c < MAX_CLIENTS
        invariant 0 <= c <= MAX_CLIENTS
        invariant forall c' :: 0 <= c' < c ==> votePosition[c'] == 0 && voteSelection[c'] == -1
      {
        votePosition[c] := 0;
        voteSelection[c] := -1;
        c := c + 1;
      }
    }

    /** G_GetMapVoteWinner: tallies the selections into NUM_RESULTS slots,
        then gives the slot the sort puts first, its votes, the number of
        counted selections, and each slot's place in the sorted order. */
    method GetMapVoteWinner() returns (winner: nat, winVotes: nat, totalVotes: nat, order: seq<nat>)
      requires Valid()
      ensures var v := Tally(voteSelection[..]);
              && winner == Winner(v) && winVotes == v[winner]
              && totalVotes == TotalVotes(voteSelection[..])
              && order == Ranks(v)
      ensures Rank(Tally(voteSelection[..]), winner) == 0
    {
      var results := new nat[NUM_RESULTS](_ => 0);
      var tv := 0;
      var i := 0;
      assert results[..] == Tally(voteSelection[..0]);
      while i < MAX_CLIENTS
        invariant 0 <= i <= MAX_CLIENTS
        invariant results[..] == Tally(voteSelection[..i])
        invariant tv == TotalVotes(voteSelection[..i])
      {
        var n := voteSelection[i];
        TallySnoc(voteSelection[..i], n);
        assert voteSelection[..i + 1] == voteSelection[..i] + [n];
        if 0 <= n < NUM_RESULTS {
          results[n] := results[n] + 1;
          tv := tv + 1;
        }
        i := i + 1;
      }
      assert voteSelection[..MAX_CLIENTS] == voteSelection[..];
      var v := results[..];
      winner := 0;
      var k := 1;
      while k < NUM_RESULTS
        invariant 1 <= k <= NUM_RESULTS && winner < k
        invariant WinnerFrom(v, k, winner) == Winner(v)
      {
        if v[k] > v[winner] {
          winner := k;
        }
        k := k + 1;
      }
      winVotes, totalVotes := v[winner], tv;
      order := [];
      var m := 0;
      while m < NUM_RESULTS
        invariant 0 <= m <= NUM_RESULTS
        invariant |order| == m && forall j :: 0 <= j < m ==> order[j] == Rank(v, j)
      {
        var rank := 0;
        var j := 0;
        while j < NUM_RESULTS
          invariant 0 <= j <= NUM_RESULTS
          invariant rank == RankUpTo(v, m, j)
        {
          if Compare(VoteResult(v[j], j), VoteResult(v[m], m)) < 0 {
            rank := rank + 1;
          }
          j := j + 1;
        }
        order := order + [rank];
        m := m + 1;
      }
      WinnerHasRankZero(v);
    }

    /** G_IntermissionMapVoteWinner: whether the vote can end early. */
    method IntermissionMapVoteWinner(connected: int) returns (decisive: bool)
      requires Valid()
      ensures var v := Tally(voteSelection[..]);
              decisive == Decisive(v[Winner(v)], TotalVotes(voteSelection[..]), connected)
      ensures var v := Tally(voteSelection[..]);
              decisive <==> 2 * v[Winner(v)] > connected
    {
      var winner, winVotes, totalVotes, _ := GetMapVoteWinner();
      DecisiveIsMajority(winVotes, totalVotes, connected);
      if winVotes * 2 > connected {
        return true;
      }
      var nonVotes := connected - totalVotes;
      if nonVotes < 0 {
        nonVotes := 0;
      }
      decisive := winVotes > nonVotes + (totalVotes - winVotes);
    }

    /** G_GetVotedMap: the destination of the winning candidate of entry map
        of rotation, if a vote is open; closes the vote either way. */
    method GetVotedMap(rotation: nat, entry: nat) returns (found: bool, name: string)
      requires Valid() && rotation < |rotations| && entry < |rotations[rotation].maps|
      modifies this`voteList
      ensures Valid() && voteList == []
      ensures var r := VotedDest(rotations[rotation].maps[entry].conds, |old(voteList)|, Winner(Tally(voteSelection[..])));
              && found == (old(voteList) != [] && r.Some?)
              && (found ==> name == r.value)
    {
      found, name := false, "";
      if |voteList| == 0 {
        return;
      }
      var winner, _, _, _ := GetMapVoteWinner();
      var conds := rotations[rotation].maps[entry].conds;
      var len := |voteList|;
      var n := 0;
      var i := 0;
      while i < |conds| && n < len
        invariant 0 <= i <= |conds|
        invariant n == |VoteDests(conds[..i])| && n <= len && n <= winner
      {
        assert conds[..i + 1][..i] == conds[..i];
        if conds[i].lhs.VoteCandidate? {
          if n == winner {
            VoteDestsPrefix(conds, i + 1);
            found, name := true, conds[i].dest;
            break;
          }
          n := n + 1;
        }
        i := i + 1;
      }
      if !found {
        assert i == |conds| ==> conds[..i] == conds;
      }
      voteList := [];
    }

    /** G_IntermissionMapVoteCommand: choose copies the client's cursor into
        its selection; otherwise the cursor moves one step and is clamped
        to the candidate list. */
    method IntermissionMapVoteCommand(client: nat, next: bool, choose: bool)
      requires Valid() && client < MAX_CLIENTS
      modifies votePosition, voteSelection
      ensures Valid()
      ensures choose ==>
                && voteSelection[..] == old(voteSelection[..])[client := old(votePosition[client])]
                && votePosition[..] == old(votePosition[..])
      ensures !choose ==>
                && votePosition[..] == old(votePosition[..])[client := Clamp(old(votePosition[client]) + (if next then 1 else -1), |voteList|)]
                && voteSelection[..] == old(voteSelection[..])
    {
      if choose {
        voteSelection[client] := votePosition[client];
      } else {
        var n := votePosition[client];
        if next {
          n := n + 1;
        } else {
          n := n - 1;
        }
        if n >= |voteList| {
          n := |voteList| - 1;
        }
        if n < 0 {
          n := 0;
        }
        votePosition[client] := n;
      }
    }

    // -------------------------------------------------------------------
    // The random slot

    /** G_GetRandomMap: one of the random candidates of entry map of
        rotation that exist as maps, the one at choice modulo their number;
        false when there is none. */
    method GetRandomMap(rotation: nat, entry: nat, mapExists: string -> bool, choice: nat) returns (found: bool, name: string)
      requires rotation < |rotations| && entry < |rotations[rotation].maps|
      ensures var pool := RandomPool(rotations[rotation].maps[entry].conds, mapExists);
              found == (pool != []) && (found ==> name == pool[choice % |pool|])
    {
      var conds := rotations[rotation].maps[entry].conds;
      var mapList: seq<nat> := [];
      ghost var pool: seq<string> := [];
      var i := 0;
      while i < |conds|
        invariant 0 <= i <= |conds|
        invariant pool == RandomPool(conds[..i], mapExists)
        invariant |mapList| == |pool|
        invariant forall j :: 0 <= j < |mapList| ==> mapList[j] < i && conds[mapList[j]].dest == pool[j]
      {
        RandomPoolSnoc(conds, mapExists, i);
        if conds[i].lhs.RandomCandidate? && mapExists(conds[i].dest) {
          mapList := mapList + [i];
          pool := pool + [conds[i].dest];
        }
        i := i + 1;
      }
      assert conds[..i] == conds;
      if |mapList| == 0 {
        return false, "";
      }
      var pick := choice % |mapList|;
      found, name := true, conds[mapList[pick]].dest;
    }
  }
}
