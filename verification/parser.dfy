/** The map rotation file parser (G_ParseMapCommandSection,
    G_ParseMapRotation and the per-token rules of G_ParseMapRotationFile).

    The text arrives already split into tokens. Each token records whether
    it starts a new line, which is all the parser needs from the tokenizer:
    COM_Parse returns the next token wherever it is, or "" at the end of the
    text; COM_ParseExt(.., qfalse) returns "" without consuming anything when
    the next token is on a later line.

    Every loop of the source is given twice: as a tail-recursive function
    (the specification, one call per iteration) and as a method with a while
    loop that is proved to compute it. */
module RotationParser {
  import opened Text
  import opened Rotations

  datatype Token = Token(text: string, newLine: bool)

  /** Why a load is rejected; each corresponds to one error exit of the source. */
  datatype LoadError =
    | UnexpectedEnd
    | MapSectionWithoutName
    | ConditionWithoutMap
    | BadOperator(op: string)
    | BadLastWin(team: string)
    | BadLhs(lhs: string)
    | PlaceholderWithoutSection(placeholder: string)
    | TooManyCommands
    | TooManyConditions
    | TooManyMaps
    | TooManyRotations
    | UnnamedRotation
    | RotationAlreadyNamed
    | DuplicateRotation(name: string)
    | MissingMap(mapName: string)
    | MissingDestination(dest: string)
    | FileMissing
    | EmptyFile
    | FileTooLong

  datatype Result<T> = Ok(value: T) | Err(error: LoadError)

  /** COM_Parse: the token at pos, or "" once the text is exhausted. */
  function Tok(toks: seq<Token>, pos: nat): string
  {
    if pos < |toks| then toks[pos].text else ""
  }

  /** The position after COM_Parse has read at pos. */
  function After(toks: seq<Token>, pos: nat): nat
  {
    if pos < |toks| then pos + 1 else pos
  }

  // ---------------------------------------------------------------------
  // The rest of a line: while( token && token[ 0 ] != 0 ) .. COM_ParseExt( text_p, qfalse )

  /** The words that remain on the current line and the position after them.
      An empty token on the same line is consumed and ends the loop. */
  function LineRest(toks: seq<Token>, pos: nat): (r: (seq<string>, nat))
    ensures pos <= r.1 <= if pos < |toks| then |toks| else pos
    ensures forall i :: 0 <= i < |r.0| ==> r.0[i] != ""
    decreases |toks| - pos
  {
    if pos >= |toks| || toks[pos].newLine then ([], pos)
    else if toks[pos].text == "" then ([], pos + 1)
    else
      var rest := LineRest(toks, pos + 1);
      ([toks[pos].text] + rest.0, rest.1)
  }

  method ReadLineRest(toks: seq<Token>, pos: nat) returns (words: seq<string>, next: nat)
    ensures (words, next) == LineRest(toks, pos)
  {
    words, next := [], pos;
    while next < |toks| && !toks[next].newLine && toks[next].text != ""
      invariant pos <= next
      invariant LineRest(toks, pos).0 == words + LineRest(toks, next).0
      invariant LineRest(toks, pos).1 == LineRest(toks, next).1
      decreases |toks| - next
    {
      words := words + [toks[next].text];
      next := next + 1;
    }
    assert LineRest(toks, next).0 == [] && words + [] == words;
    if next < |toks| && !toks[next].newLine {
      next := next + 1;
    }
  }

  // ---------------------------------------------------------------------
  // G_ParseMapCommandSection

  /** Parses the command section of entry e, starting after its "{".
      Returns the updated entry and the position after the closing "}". */
  function CommandSection(toks: seq<Token>, pos: nat, e: Entry): (r: Result<(Entry, nat)>)
    ensures r.Ok? ==> pos < r.value.1 <= |toks|
    ensures r.Ok? ==> r.value.0.name == e.name && r.value.0.conds == e.conds
    ensures r.Ok? && |e.cmds| <= MAX_MAP_COMMANDS ==> |r.value.0.cmds| <= MAX_MAP_COMMANDS
    ensures r.Ok? ==> |e.cmds| <= |r.value.0.cmds| && r.value.0.cmds[..|e.cmds|] == e.cmds
    decreases |toks| - pos
  {
    var t := Tok(toks, pos);
    if t == "" then Err(UnexpectedEnd)
    else if IEq(t, "}") then Ok((e, pos + 1))
    else
      var line := LineRest(toks, pos + 1);
      if IEq(t, "layouts") then
        CommandSection(toks, line.1, e.(layouts := Spaced(line.0)))
      else if |e.cmds| == MAX_MAP_COMMANDS then Err(TooManyCommands)
      else
        var r := CommandSection(toks, line.1, e.(cmds := e.cmds + [t + " " + Spaced(line.0)]));
        assert r.Ok? ==> r.value.0.cmds[..|e.cmds| + 1][..|e.cmds|] == r.value.0.cmds[..|e.cmds|];
        r
  }

  method ParseCommandSection(toks: seq<Token>, pos: nat, e: Entry) returns (r: Result<(Entry, nat)>)
    ensures r == CommandSection(toks, pos, e)
  {
    var p, entry := pos, e;
    while true
      invariant CommandSection(toks, p, entry) == CommandSection(toks, pos, e)
      decreases |toks| - p
    {
      var token := Tok(toks, p);
      if token == "" {
        return Err(UnexpectedEnd);
      }
      if IEq(token, "}") {
        return Ok((entry, p + 1));
      }
      if IEq(token, "layouts") {
        var words, next := ReadLineRest(toks, p + 1);
        entry := entry.(layouts := Spaced(words));
        p := next;
        continue;
      }
      var words, next := ReadLineRest(toks, p + 1);
      var cmd := token + " " + Spaced(words);
      if |entry.cmds| == MAX_MAP_COMMANDS {
        return Err(TooManyCommands);
      }
      entry := entry.(cmds := entry.cmds + [cmd]);
      p := next;
    }
  }

  // ---------------------------------------------------------------------
  // The candidate list of a *VOTE* or *RANDOM* section

  /** The candidate tokens of a section that starts at pos: everything up to
      the closing "}" or the end of the text. */
  function CandidateTokens(toks: seq<Token>, pos: nat): (ws: seq<string>)
    ensures pos <= |toks| ==> |ws| <= |toks| - pos
    ensures forall i :: 0 <= i < |ws| ==> !IEq(ws[i], "}")
    decreases |toks| - pos
  {
    if pos >= |toks| || IEq(toks[pos].text, "}") then []
    else [toks[pos].text] + CandidateTokens(toks, pos + 1)
  }

  function CandidateConds(ws: seq<string>, lhs: Lhs): (cs: seq<Condition>)
    ensures |cs| == |ws|
  {
    if ws == [] then [] else [Condition(false, lhs, ws[0])] + CandidateConds(ws[1..], lhs)
  }

  /** Reads candidates into e.conds, keeping only as many as fit under
      MAX_MAP_ROTATION_CONDS; the rest are dropped with a warning. Stops
      after the closing "}" or at the end of the text. */
  function Candidates(toks: seq<Token>, pos: nat, e: Entry, lhs: Lhs): (r: (Entry, nat))
    ensures pos <= r.1
    ensures r.0.name == e.name && r.0.cmds == e.cmds && r.0.layouts == e.layouts
    ensures |e.conds| <= MAX_MAP_ROTATION_CONDS ==> |r.0.conds| <= MAX_MAP_ROTATION_CONDS
    decreases |toks| - pos
  {
    if pos >= |toks| then (e, pos)
    else
      var t := toks[pos].text;
      if IEq(t, "}") then (e, pos + 1)
      else if |e.conds| < MAX_MAP_ROTATION_CONDS then
        Candidates(toks, pos + 1, e.(conds := e.conds + [Condition(false, lhs, t)]), lhs)
      else Candidates(toks, pos + 1, e, lhs)
  }

  method ParseCandidates(toks: seq<Token>, pos: nat, e: Entry, lhs: Lhs) returns (entry: Entry, next: nat)
    ensures (entry, next) == Candidates(toks, pos, e, lhs)
  {
    entry, next := e, pos;
    while true
      invariant Candidates(toks, next, entry, lhs) == Candidates(toks, pos, e, lhs)
      decreases |toks| - next
    {
      if next >= |toks| {
        return;
      }
      var token := toks[next].text;
      if IEq(token, "}") {
        next := next + 1;
        return;
      }
      if |entry.conds| < MAX_MAP_ROTATION_CONDS {
        entry := entry.(conds := entry.conds + [Condition(false, lhs, token)]);
      }
      next := next + 1;
    }
  }

  // ---------------------------------------------------------------------
  // G_ParseMapRotation

  /** A rotation under construction. slots holds the numMaps counted entries
      and, after a *VOTE* / *RANDOM* section with no candidates, one more
      slot that was written but not counted. cur is the entry that `goto`,
      `if` and "{" apply to (-1 before any map is named); mnSet says whether
      a "{" may open a command section. */
  datatype Builder = Builder(name: string, slots: seq<Entry>, numMaps: nat, cur: int, mnSet: bool)

  ghost predicate WfBuilder(b: Builder)
  {
    && b.numMaps <= |b.slots| <= b.numMaps + 1
    && |b.slots| <= MAX_MAP_ROTATION_MAPS
    && -1 <= b.cur < |b.slots|
    && (b.mnSet ==> b.cur >= 0)
    && forall j :: 0 <= j < |b.slots| ==> EntryWithinCeilings(b.slots[j])
  }

  function NewBuilder(name: string): (b: Builder)
    ensures WfBuilder(b)
  {
    Builder(name, [], 0, -1, false)
  }

  /** The slot at index i (zero-initialised if never written). */
  function Slot(b: Builder, i: nat): Entry
  {
    if i < |b.slots| then b.slots[i] else EmptyEntry
  }

  function PutSlot(slots: seq<Entry>, i: nat, e: Entry): (r: seq<Entry>)
    requires i <= |slots|
    ensures |r| == if i < |slots| then |slots| else |slots| + 1
    ensures r[i] == e && forall j :: 0 <= j < |slots| && j != i ==> r[j] == slots[j]
  {
    if i < |slots| then slots[i := e] else slots + [e]
  }

  /** What one iteration of the rotation loop does. */
  datatype Step = Continue(b: Builder, pos: nat) | Finish(maps: seq<Entry>, pos: nat) | Fail(error: LoadError)

  /** The left-hand side, operand and destination of an `if` line, whose
      left-hand side token is at pos; the position after the destination. */
  function IfCondition(toks: seq<Token>, pos: nat): (r: Result<(Lhs, string, nat)>)
    ensures r.Ok? ==> pos < r.value.2 && (r.value.0.NumClients? || r.value.0.LastWin? || r.value.0.CoinFlip?)
    ensures IEq(Tok(toks, pos), "numClients") ==>
              var op := Tok(toks, pos + 1);
              && (r.Ok? <==> IEq(op, "<") || IEq(op, ">") || IEq(op, "="))
              && (r.Err? ==> r.error == BadOperator(op))
              && (r.Ok? ==> r.value.0 == NumClients(if IEq(op, "<") then Lt else if IEq(op, ">") then Gt else Eq, Atoi(Tok(toks, pos + 2)))
                            && r.value.1 == Tok(toks, pos + 3))
    ensures IEq(Tok(toks, pos), "lastWin") ==>
              var team := Tok(toks, pos + 1);
              && (r.Ok? <==> IEq(team, "aliens") || IEq(team, "humans"))
              && (r.Err? ==> r.error == BadLastWin(team))
              && (r.Ok? ==> r.value.0 == LastWin(if IEq(team, "aliens") then Aliens else Humans) && r.value.1 == Tok(toks, pos + 2))
    ensures IEq(Tok(toks, pos), "random") ==> r.Ok? && r.value.0 == CoinFlip && r.value.1 == Tok(toks, pos + 1)
    ensures !(IEq(Tok(toks, pos), "numClients") || IEq(Tok(toks, pos), "lastWin") || IEq(Tok(toks, pos), "random")) ==>
              r == Err(BadLhs(Tok(toks, pos)))
  {
    var lhs := Tok(toks, pos);
    var p := After(toks, pos);
    if IEq(lhs, "numClients") then
      var op := Tok(toks, p);
      var p2 := After(toks, p);
      if !(IEq(op, "<") || IEq(op, ">") || IEq(op, "=")) then Err(BadOperator(op))
      else
        var o := if IEq(op, "<") then Lt else if IEq(op, ">") then Gt else Eq;
        var n := Atoi(Tok(toks, p2));
        var p3 := After(toks, p2);
        Ok((NumClients(o, n), Tok(toks, p3), After(toks, p3)))
    else if IEq(lhs, "lastWin") then
      var team := Tok(toks, p);
      var p2 := After(toks, p);
      if IEq(team, "aliens") then Ok((LastWin(Aliens), Tok(toks, p2), After(toks, p2)))
      else if IEq(team, "humans") then Ok((LastWin(Humans), Tok(toks, p2), After(toks, p2)))
      else Err(BadLastWin(team))
    else if IEq(lhs, "random") then Ok((CoinFlip, Tok(toks, p), After(toks, p)))
    else Err(BadLhs(lhs))
  }

  /** Appends a condition to the current entry, unless it already holds
      MAX_MAP_ROTATION_CONDS of them. */
  function AddCondition(b: Builder, c: Condition, pos: nat): (s: Step)
    requires WfBuilder(b) && b.cur >= 0
    ensures s.Continue? ==> WfBuilder(s.b) && s.pos == pos && s.b.numMaps == b.numMaps && s.b.name == b.name
    ensures s.Continue? ==> |s.b.slots| == |b.slots| && s.b.slots[b.cur].conds == b.slots[b.cur].conds + [c]
    ensures s.Fail? <==> |b.slots[b.cur].conds| == MAX_MAP_ROTATION_CONDS
  {
    var e := b.slots[b.cur];
    if |e.conds| == MAX_MAP_ROTATION_CONDS then Fail(TooManyConditions)
    else Continue(b.(slots := b.slots[b.cur := e.(conds := e.conds + [c])]), pos)
  }

  /** A `goto dest` line, the "goto" token at pos. */
  function GotoLine(toks: seq<Token>, pos: nat, b: Builder): (s: Step)
    requires WfBuilder(b) && pos < |toks|
    ensures s.Continue? ==> WfBuilder(s.b) && pos < s.pos && s.b.name == b.name
    ensures s.Continue? ==> && b.cur >= 0 && s.b.numMaps == b.numMaps && s.b.cur == b.cur
                            && |s.b.slots| == |b.slots|
                            && s.b.slots == b.slots[b.cur := s.b.slots[b.cur]]
                            && s.b.slots[b.cur].conds == b.slots[b.cur].conds + [Condition(true, Malformed, Tok(toks, pos + 1))]
    ensures b.cur < 0 ==> s == Fail(ConditionWithoutMap)
    ensures b.cur >= 0 ==> (s.Fail? <==> |b.slots[b.cur].conds| == MAX_MAP_ROTATION_CONDS)
  {
    var dest := Tok(toks, pos + 1);
    if b.cur < 0 then Fail(ConditionWithoutMap)
    else AddCondition(b, Condition(true, Malformed, dest), After(toks, pos + 1))
  }

  /** An `if lhs [op value] dest` line, the "if" token at pos. */
  function IfLine(toks: seq<Token>, pos: nat, b: Builder): (s: Step)
    requires WfBuilder(b) && pos < |toks|
    ensures s.Continue? ==> WfBuilder(s.b) && pos < s.pos && s.b.name == b.name
    ensures s.Continue? ==> && b.cur >= 0 && IfCondition(toks, pos + 1).Ok?
                            && s.b.numMaps == b.numMaps && s.b.cur == b.cur
                            && |s.b.slots| == |b.slots|
                            && s.b.slots == b.slots[b.cur := s.b.slots[b.cur]]
                            && var c := IfCondition(toks, pos + 1).value;
                               s.b.slots[b.cur].conds == b.slots[b.cur].conds + [Condition(false, c.0, c.1)]
    ensures b.cur < 0 ==> s == Fail(ConditionWithoutMap)
    ensures b.cur >= 0 && IfCondition(toks, pos + 1).Err? ==> s == Fail(IfCondition(toks, pos + 1).error)
    ensures b.cur >= 0 && IfCondition(toks, pos + 1).Ok? ==>
              (s.Fail? <==> |b.slots[b.cur].conds| == MAX_MAP_ROTATION_CONDS)
  {
    if b.cur < 0 then Fail(ConditionWithoutMap)
    else match IfCondition(toks, pos + 1)
      case Err(e) => Fail(e)
      case Ok((lhs, dest, p)) => AddCondition(b, Condition(false, lhs, dest), p)
  }

  /** A *VOTE* or *RANDOM* line (token t at pos): writes the slot after the
      counted maps, fills it from the section and counts it only if it
      received at least one candidate. */
  function PlaceholderLine(toks: seq<Token>, pos: nat, b: Builder, t: string, lhs: Lhs): (s: Step)
    requires WfBuilder(b) && pos < |toks|
    ensures s.Continue? ==> WfBuilder(s.b) && pos < s.pos
    ensures b.numMaps == MAX_MAP_ROTATION_MAPS ==> s == Fail(TooManyMaps)
    ensures b.numMaps < MAX_MAP_ROTATION_MAPS && !IEq(Tok(toks, pos + 1), "{") ==> s == Fail(PlaceholderWithoutSection(t))
    ensures s.Fail? <==> b.numMaps == MAX_MAP_ROTATION_MAPS || !IEq(Tok(toks, pos + 1), "{")
    ensures s.Continue? ==>
              var r := Candidates(toks, After(toks, pos + 1), Slot(b, b.numMaps).(name := t), lhs);
              && b.numMaps < |s.b.slots| && s.b.slots[b.numMaps] == r.0 && s.pos == r.1
              && s.b.cur == b.numMaps && s.b.name == b.name
              && (forall j :: 0 <= j < b.numMaps ==> s.b.slots[j] == b.slots[j])
              && s.b.numMaps == (if |r.0.conds| == 0 then b.numMaps else b.numMaps + 1)
              && s.b.mnSet == (if |r.0.conds| == 0 then b.mnSet else true)
  {
    if b.numMaps == MAX_MAP_ROTATION_MAPS then Fail(TooManyMaps)
    else
      var slot := Slot(b, b.numMaps).(name := t);
      if !IEq(Tok(toks, pos + 1), "{") then Fail(PlaceholderWithoutSection(t))
      else
        var r := Candidates(toks, After(toks, pos + 1), slot, lhs);
        var slots := PutSlot(b.slots, b.numMaps, r.0);
        if |r.0.conds| == 0 then Continue(b.(slots := slots, cur := b.numMaps), r.1)
        else Continue(b.(slots := slots, cur := b.numMaps, numMaps := b.numMaps + 1, mnSet := true), r.1)
  }

  /** A plain map name t at pos: counts the next slot and names it. */
  function MapLine(pos: nat, b: Builder, t: string): (s: Step)
    requires WfBuilder(b)
    ensures s.Continue? ==> WfBuilder(s.b) && s.pos == pos + 1
    ensures s.Fail? <==> b.numMaps == MAX_MAP_ROTATION_MAPS
    ensures s.Continue? ==> && s.b.name == b.name && s.b.mnSet
                            && s.b.numMaps == b.numMaps + 1 && s.b.cur == b.numMaps
                            && s.b.slots[b.numMaps] == Slot(b, b.numMaps).(name := t)
                            && forall j :: 0 <= j < b.numMaps ==> s.b.slots[j] == b.slots[j]
  {
    if b.numMaps == MAX_MAP_ROTATION_MAPS then Fail(TooManyMaps)
    else
      var slots := PutSlot(b.slots, b.numMaps, Slot(b, b.numMaps).(name := t));
      Continue(b.(slots := slots, numMaps := b.numMaps + 1, cur := b.numMaps, mnSet := true), pos + 1)
  }

  /** One iteration of the loop of G_ParseMapRotation. */
  function RotationStep(toks: seq<Token>, pos: nat, b: Builder): (s: Step)
    requires WfBuilder(b)
    ensures s.Continue? ==> WfBuilder(s.b) && pos < s.pos
    ensures s.Finish? ==> pos < s.pos && s.maps == b.slots[..b.numMaps]
  {
    var t := Tok(toks, pos);
    if t == "" then Fail(UnexpectedEnd)
    else if IEq(t, "{") then
      if !b.mnSet then Fail(MapSectionWithoutName)
      else match CommandSection(toks, pos + 1, b.slots[b.cur])
        case Err(e) => Fail(e)
        case Ok((e, p)) => Continue(b.(slots := b.slots[b.cur := e], mnSet := false), p)
    else if IEq(t, "goto") then GotoLine(toks, pos, b)
    else if IEq(t, "if") then IfLine(toks, pos, b)
    else if IEq(t, VOTE_NAME) then PlaceholderLine(toks, pos, b, t, VoteCandidate)
    else if IEq(t, RANDOM_NAME) then PlaceholderLine(toks, pos, b, t, RandomCandidate)
    else if IEq(t, "}") then Finish(b.slots[..b.numMaps], pos + 1)
    else MapLine(pos, b, t)
  }

  /** G_ParseMapRotation from pos on: the maps of the rotation and the
      position after its closing "}". */
  function RotationFrom(toks: seq<Token>, pos: nat, b: Builder): (r: Result<(seq<Entry>, nat)>)
    requires WfBuilder(b)
    ensures r.Ok? ==> pos < r.value.1
    ensures r.Ok? ==> MapsWithinCeilings(r.value.0)
    decreases |toks| - pos
  {
    match RotationStep(toks, pos, b)
    case Fail(e) => Err(e)
    case Finish(maps, p) => Ok((maps, p))
    case Continue(b', p) => RotationFrom(toks, p, b')
  }

  /** G_ParseMapRotation for the rotation named name, whose "{" was just read. */
  function ParseRotationSpec(toks: seq<Token>, pos: nat, name: string): (r: Result<(Rotation, nat)>)
    ensures r.Ok? ==> pos < r.value.1 && r.value.0.name == name && RotationWithinCeilings(r.value.0)
  {
    match RotationFrom(toks, pos, NewBuilder(name))
    case Err(e) => Err(e)
    case Ok((maps, p)) => Ok((Rotation(name, maps), p))
  }

  /** One line of G_ParseMapRotation: dispatches on the token at pos. */
  method ParseRotationLine(toks: seq<Token>, pos: nat, b: Builder) returns (s: Step)
    requires WfBuilder(b)
    ensures s == RotationStep(toks, pos, b)
  {
    var token := Tok(toks, pos);
    if token == "" {
      return Fail(UnexpectedEnd);
    }
    if IEq(token, "{") {
      if !b.mnSet {
        return Fail(MapSectionWithoutName);
      }
      var section := ParseCommandSection(toks, pos + 1, b.slots[b.cur]);
      if section.Err? {
        return Fail(section.error);
      }
      s := Continue(b.(slots := b.slots[b.cur := section.value.0], mnSet := false), section.value.1);
    } else if IEq(token, "goto") {
      s := GotoLine(toks, pos, b);
    } else if IEq(token, "if") {
      s := IfLine(toks, pos, b);
    } else if IEq(token, VOTE_NAME) || IEq(token, RANDOM_NAME) {
      var lhs := if IEq(token, VOTE_NAME) then VoteCandidate else RandomCandidate;
      if b.numMaps == MAX_MAP_ROTATION_MAPS {
        return Fail(TooManyMaps);
      }
      var slot := Slot(b, b.numMaps).(name := token);
      if !IEq(Tok(toks, pos + 1), "{") {
        return Fail(PlaceholderWithoutSection(token));
      }
      var entry, next := ParseCandidates(toks, After(toks, pos + 1), slot, lhs);
      var b' := b.(slots := PutSlot(b.slots, b.numMaps, entry), cur := b.numMaps);
      if |entry.conds| != 0 {
        b' := b'.(numMaps := b.numMaps + 1, mnSet := true);
      }
      s := Continue(b', next);
    } else if IEq(token, "}") {
      s := Finish(b.slots[..b.numMaps], pos + 1);
    } else {
      s := MapLine(pos, b, token);
    }
  }

  /** G_ParseMapRotation: reads the body of the rotation named name, whose
      "{" has just been read, up to its closing "}". */
  method ParseRotation(toks: seq<Token>, pos: nat, name: string) returns (r: Result<(Rotation, nat)>)
    ensures r == ParseRotationSpec(toks, pos, name)
  {
    var b := NewBuilder(name);
    var p := pos;
    while true
      invariant WfBuilder(b)
      invariant RotationFrom(toks, p, b) == RotationFrom(toks, pos, NewBuilder(name))
      decreases |toks| - p
    {
      var step := ParseRotationLine(toks, p, b);
      match step
      case Fail(e) =>
        return Err(e);
      case Finish(maps, next) =>
        return Ok((Rotation(name, maps), next));
      case Continue(b', next) =>
        b, p := b', next;
    }
  }
}
