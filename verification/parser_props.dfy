/** What the rotation file grammar accepts and rejects: the ceilings, the
    error exits, and what happens to *VOTE* / *RANDOM* candidate lists. */
module ParserProperties {
  import opened Text
  import opened Rotations
  import opened RotationParser
  import opened RotationFile

  // ---------------------------------------------------------------------
  // Top level: rotation names and blocks

  /** A "{" with no rotation name before it rejects the load. */
  lemma UnnamedRotationRejected(toks: seq<Token>, pos: nat, table: seq<Rotation>)
    requires IEq(Tok(toks, pos), "{")
    ensures FileFrom(toks, pos, table, None).error == Some(UnnamedRotation)
  {
  }

  /** A second name before the "{" rejects the load. */
  lemma SecondNameRejected(toks: seq<Token>, pos: nat, table: seq<Rotation>, name: string)
    requires Tok(toks, pos) != "" && !IEq(Tok(toks, pos), "{")
    ensures FileFrom(toks, pos, table, Some(name)).error == Some(RotationAlreadyNamed)
  {
  }

  /** A rotation whose name matches an earlier one, ignoring case, rejects the load. */
  lemma DuplicateRotationRejected(toks: seq<Token>, pos: nat, table: seq<Rotation>, name: string, i: nat)
    requires IEq(Tok(toks, pos), "{")
    requires i < |table| && IEq(table[i].name, name)
    ensures FileFrom(toks, pos, table, Some(name)).error == Some(DuplicateRotation(name))
  {
  }

  /** An error inside a rotation body rejects the load, and the rotations
      read before it stay in the table. */
  lemma RotationErrorRejectsFile(toks: seq<Token>, pos: nat, table: seq<Rotation>, name: string)
    requires IEq(Tok(toks, pos), "{") && FindRotation(table, name).None?
    requires ParseRotationSpec(toks, pos + 1, name).Err?
    ensures FileFrom(toks, pos, table, Some(name)) ==
            FileOutcome(table, Some(ParseRotationSpec(toks, pos + 1, name).error))
  {
  }

  /** A complete rotation beyond MAX_MAP_ROTATIONS rejects the load. */
  lemma RotationCeilingRejected(toks: seq<Token>, pos: nat, table: seq<Rotation>, name: string)
    requires IEq(Tok(toks, pos), "{") && FindRotation(table, name).None?
    requires ParseRotationSpec(toks, pos + 1, name).Ok?
    requires |table| == MAX_MAP_ROTATIONS
    ensures FileFrom(toks, pos, table, Some(name)).error == Some(TooManyRotations)
  {
  }

  // ---------------------------------------------------------------------
  // Rotation bodies

  /** A "{" that does not follow a map name rejects the rotation. */
  lemma MapSectionWithoutNameRejected(toks: seq<Token>, pos: nat, b: Builder)
    requires WfBuilder(b) && IEq(Tok(toks, pos), "{") && !b.mnSet
    ensures RotationFrom(toks, pos, b) == Err(MapSectionWithoutName)
  {
  }

  /** `goto` or `if` before any map has been named is rejected (the source
      dereferences a null entry there). */
  lemma ConditionBeforeMapRejected(toks: seq<Token>, pos: nat, b: Builder)
    requires WfBuilder(b) && b.cur < 0
    requires IEq(Tok(toks, pos), "goto") || IEq(Tok(toks, pos), "if")
    ensures RotationFrom(toks, pos, b) == Err(ConditionWithoutMap)
  {
  }

  /** `if numClients` with an operator other than <, > and = is rejected. */
  lemma BadOperatorRejected(toks: seq<Token>, pos: nat, b: Builder)
    requires WfBuilder(b) && b.cur >= 0
    requires IEq(Tok(toks, pos), "if") && IEq(Tok(toks, pos + 1), "numClients")
    requires !IEq(Tok(toks, pos + 2), "<") && !IEq(Tok(toks, pos + 2), ">") && !IEq(Tok(toks, pos + 2), "=")
    ensures RotationFrom(toks, pos, b) == Err(BadOperator(Tok(toks, pos + 2)))
  {
  }

  /** `if lastWin` with a team other than aliens or humans is rejected. */
  lemma BadLastWinRejected(toks: seq<Token>, pos: nat, b: Builder)
    requires WfBuilder(b) && b.cur >= 0
    requires IEq(Tok(toks, pos), "if") && IEq(Tok(toks, pos + 1), "lastWin")
    requires !IEq(Tok(toks, pos + 2), "aliens") && !IEq(Tok(toks, pos + 2), "humans")
    ensures RotationFrom(toks, pos, b) == Err(BadLastWin(Tok(toks, pos + 2)))
  {
  }

  /** An unknown left-hand side is rejected. */
  lemma BadLhsRejected(toks: seq<Token>, pos: nat, b: Builder)
    requires WfBuilder(b) && b.cur >= 0
    requires IEq(Tok(toks, pos), "if")
    requires !IEq(Tok(toks, pos + 1), "numClients") && !IEq(Tok(toks, pos + 1), "lastWin")
    requires !IEq(Tok(toks, pos + 1), "random")
    ensures RotationFrom(toks, pos, b) == Err(BadLhs(Tok(toks, pos + 1)))
  {
  }

  /** *VOTE* or *RANDOM* not followed by "{" is rejected. */
  lemma PlaceholderWithoutSectionRejected(toks: seq<Token>, pos: nat, b: Builder)
    requires WfBuilder(b) && b.numMaps < MAX_MAP_ROTATION_MAPS
    requires IEq(Tok(toks, pos), VOTE_NAME) || IEq(Tok(toks, pos), RANDOM_NAME)
    requires !IEq(Tok(toks, pos + 1), "{")
    ensures RotationFrom(toks, pos, b) == Err(PlaceholderWithoutSection(Tok(toks, pos)))
  {
  }

  predicate IsKeyword(t: string)
  {
    IEq(t, "{") || IEq(t, "}") || IEq(t, "goto") || IEq(t, "if") || IEq(t, VOTE_NAME) || IEq(t, RANDOM_NAME)
  }

  /** A map beyond MAX_MAP_ROTATION_MAPS, named or placeholder, is rejected. */
  lemma MapCeilingRejected(toks: seq<Token>, pos: nat, b: Builder)
    requires WfBuilder(b) && b.numMaps == MAX_MAP_ROTATION_MAPS
    requires Tok(toks, pos) != ""
    requires !IsKeyword(Tok(toks, pos)) || IEq(Tok(toks, pos), VOTE_NAME) || IEq(Tok(toks, pos), RANDOM_NAME)
    ensures RotationFrom(toks, pos, b) == Err(TooManyMaps)
  {
  }

  /** A condition beyond MAX_MAP_ROTATION_CONDS on one entry is rejected. */
  lemma ConditionCeilingRejected(toks: seq<Token>, pos: nat, b: Builder)
    requires WfBuilder(b) && b.cur >= 0 && |b.slots[b.cur].conds| == MAX_MAP_ROTATION_CONDS
    requires IEq(Tok(toks, pos), "goto")
    ensures RotationFrom(toks, pos, b) == Err(TooManyConditions)
  {
  }

  /** A command beyond MAX_MAP_COMMANDS in one section is rejected. */
  lemma CommandCeilingRejected(toks: seq<Token>, pos: nat, e: Entry)
    requires |e.cmds| == MAX_MAP_COMMANDS
    requires Tok(toks, pos) != "" && !IEq(Tok(toks, pos), "}") && !IEq(Tok(toks, pos), "layouts")
    ensures CommandSection(toks, pos, e) == Err(TooManyCommands)
  {
  }

  // ---------------------------------------------------------------------
  // *VOTE* and *RANDOM* sections

  function Take(ws: seq<string>, n: nat): (r: seq<string>)
    ensures |r| == if n < |ws| then n else |ws|
  {
    if n < |ws| then ws[..n] else ws
  }

  lemma CandidateCondsCons(t: string, ws: seq<string>, lhs: Lhs)
    ensures CandidateConds([t] + ws, lhs) == [Condition(false, lhs, t)] + CandidateConds(ws, lhs)
  {
    assert ([t] + ws)[1..] == ws;
  }

  /** The i-th condition a section adds targets its i-th candidate. */
  lemma {:induction false} CandidateCondsAt(ws: seq<string>, lhs: Lhs, i: nat)
    requires i < |ws|
    ensures |CandidateConds(ws, lhs)| == |ws|
    ensures CandidateConds(ws, lhs)[i] == Condition(false, lhs, ws[i])
  {
    if i > 0 {
      CandidateCondsAt(ws[1..], lhs, i - 1);
    }
  }

  lemma CandidatesStepKeep(toks: seq<Token>, pos: nat, e: Entry, lhs: Lhs)
    requires |e.conds| < MAX_MAP_ROTATION_CONDS
    requires pos < |toks| && !IEq(toks[pos].text, "}")
    ensures Candidates(toks, pos, e, lhs) ==
            Candidates(toks, pos + 1, e.(conds := e.conds + [Condition(false, lhs, toks[pos].text)]), lhs)
  {
  }

  lemma CandidatesStepDrop(toks: seq<Token>, pos: nat, e: Entry, lhs: Lhs)
    requires |e.conds| >= MAX_MAP_ROTATION_CONDS
    requires pos < |toks| && !IEq(toks[pos].text, "}")
    ensures Candidates(toks, pos, e, lhs) == Candidates(toks, pos + 1, e, lhs)
  {
  }

  lemma CandidateTokensStep(toks: seq<Token>, pos: nat)
    requires pos < |toks| && !IEq(toks[pos].text, "}")
    ensures CandidateTokens(toks, pos) == [toks[pos].text] + CandidateTokens(toks, pos + 1)
  {
  }

  lemma TakeCons(t: string, rest: seq<string>, m: nat)
    requires m > 0
    ensures Take([t] + rest, m) == [t] + Take(rest, m - 1)
  {
  }

  /** A section keeps its first candidates, in order, up to the condition
      ceiling; the excess is dropped rather than rejected. */
  lemma {:induction false} CandidatesKeepFirst(toks: seq<Token>, pos: nat, e: Entry, lhs: Lhs)
    requires |e.conds| <= MAX_MAP_ROTATION_CONDS
    ensures Candidates(toks, pos, e, lhs).0.conds ==
            e.conds + CandidateConds(Take(CandidateTokens(toks, pos), MAX_MAP_ROTATION_CONDS - |e.conds|), lhs)
    decreases |toks| - pos
  {
    var m := MAX_MAP_ROTATION_CONDS - |e.conds|;
    if pos >= |toks| || IEq(toks[pos].text, "}") {
      assert CandidateTokens(toks, pos) == [];
      assert Take([], m) == [];
      assert CandidateConds([], lhs) == [];
      assert e.conds + [] == e.conds;
    } else {
      var t := toks[pos].text;
      var rest := CandidateTokens(toks, pos + 1);
      CandidateTokensStep(toks, pos);
      if m > 0 {
        var c := Condition(false, lhs, t);
        var e' := e.(conds := e.conds + [c]);
        CandidatesStepKeep(toks, pos, e, lhs);
        CandidatesKeepFirst(toks, pos + 1, e', lhs);
        var tail := CandidateConds(Take(rest, m - 1), lhs);
        TakeCons(t, rest, m);
        CandidateCondsCons(t, Take(rest, m - 1), lhs);
        assert e'.conds + tail == e.conds + ([c] + tail);
      } else {
        CandidatesStepDrop(toks, pos, e, lhs);
        CandidatesKeepFirst(toks, pos + 1, e, lhs);
        assert Take(rest, 0) == [] && Take([t] + rest, 0) == [];
      }
    }
  }

  /** A placeholder line counts its slot as a map exactly when the slot ends
      up with at least one condition; an empty section adds no map. */
  lemma PlaceholderCountedIffCandidates(toks: seq<Token>, pos: nat, b: Builder)
    requires WfBuilder(b) && b.numMaps < MAX_MAP_ROTATION_MAPS
    requires IEq(Tok(toks, pos), VOTE_NAME) || IEq(Tok(toks, pos), RANDOM_NAME)
    requires IEq(Tok(toks, pos + 1), "{")
    ensures RotationStep(toks, pos, b).Continue?
    ensures var s := RotationStep(toks, pos, b);
            && s.b.cur == b.numMaps
            && s.b.numMaps == if |s.b.slots[b.numMaps].conds| == 0 then b.numMaps else b.numMaps + 1
  {
  }

  /** In particular a section with no candidates, on a fresh slot, adds no map. */
  lemma EmptySectionNotCounted(toks: seq<Token>, pos: nat, b: Builder)
    requires WfBuilder(b) && b.numMaps < MAX_MAP_ROTATION_MAPS && |b.slots| == b.numMaps
    requires IEq(Tok(toks, pos), VOTE_NAME) || IEq(Tok(toks, pos), RANDOM_NAME)
    requires IEq(Tok(toks, pos + 1), "{")
    requires CandidateTokens(toks, pos + 2) == []
    ensures RotationStep(toks, pos, b).Continue?
    ensures RotationStep(toks, pos, b).b.numMaps == b.numMaps
  {
    var lhs := if IEq(Tok(toks, pos), VOTE_NAME) then VoteCandidate else RandomCandidate;
    CandidatesKeepFirst(toks, pos + 2, Slot(b, b.numMaps).(name := Tok(toks, pos)), lhs);
    PlaceholderCountedIffCandidates(toks, pos, b);
  }

  // ---------------------------------------------------------------------
  // The candidate loop as the source writes it

  /** The *VOTE* / *RANDOM* section loop as written, run for at most fuel
      iterations (None: still running). Its `if( !token ) break;` never
      fires, because COM_Parse returns "" rather than a null pointer at the
      end of the text, so only "}" ends it. */
  function CandidateLoopAsWritten(toks: seq<Token>, pos: nat, e: Entry, lhs: Lhs, fuel: nat): Option<(Entry, nat)>
    decreases fuel
  {
    if fuel == 0 then None
    else
      var t := Tok(toks, pos);
      if IEq(t, "}") then Some((e, After(toks, pos)))
      else
        var e' := if |e.conds| < MAX_MAP_ROTATION_CONDS then e.(conds := e.conds + [Condition(false, lhs, t)]) else e;
        CandidateLoopAsWritten(toks, After(toks, pos), e', lhs, fuel - 1)
  }

  /** A section with no closing "}" before the end of the text never ends:
      however many iterations run, the loop is still going. */
  lemma {:induction false} UnterminatedSectionNeverEnds(toks: seq<Token>, pos: nat, e: Entry, lhs: Lhs, fuel: nat)
    requires forall k :: pos <= k < |toks| ==> !IEq(toks[k].text, "}")
    ensures CandidateLoopAsWritten(toks, pos, e, lhs, fuel).None?
    decreases fuel
  {
    if fuel > 0 {
      assert !IEq(Tok(toks, pos), "}") by {
        if pos >= |toks| {
          assert Tok(toks, pos) == "";
        }
      }
      var e' := if |e.conds| < MAX_MAP_ROTATION_CONDS then e.(conds := e.conds + [Condition(false, lhs, Tok(toks, pos))]) else e;
      UnterminatedSectionNeverEnds(toks, After(toks, pos), e', lhs, fuel - 1);
    }
  }

  /** Whenever the loop as written does end, the corrected loop (which also
      stops at the end of the text) gives the same entry and position. */
  lemma {:induction false} CandidateLoopAgrees(toks: seq<Token>, pos: nat, e: Entry, lhs: Lhs, fuel: nat)
    requires CandidateLoopAsWritten(toks, pos, e, lhs, fuel).Some?
    ensures CandidateLoopAsWritten(toks, pos, e, lhs, fuel) == Some(Candidates(toks, pos, e, lhs))
    decreases fuel
  {
    var t := Tok(toks, pos);
    if pos >= |toks| {
      UnterminatedSectionNeverEnds(toks, pos, e, lhs, fuel);
    } else if !IEq(t, "}") {
      var e' := if |e.conds| < MAX_MAP_ROTATION_CONDS then e.(conds := e.conds + [Condition(false, lhs, t)]) else e;
      CandidateLoopAgrees(toks, pos + 1, e', lhs, fuel - 1);
    }
  }
}
