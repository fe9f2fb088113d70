/** G_ParseMapRotationFile: the top-level loop that reads rotation names and
    their bodies into the rotation table, and the validation pass that
    follows it. The loop itself, which fills the engine's table in place, is
    RotationEngine.LoadRotationFile; this module holds its specification. */
module RotationFile {
  import opened Text
  import opened Rotations
  import opened RotationParser

  /** The rotation table as the loop leaves it, and the error that stopped
      it, if any. The source does not roll the table back on an error: the
      rotations read before the error stay in it. */
  datatype FileOutcome = FileOutcome(table: seq<Rotation>, error: Option<LoadError>)

  /** The loop of G_ParseMapRotationFile from pos on, with the rotations read
      so far and the name read since the last rotation, if any. */
  function FileFrom(toks: seq<Token>, pos: nat, table: seq<Rotation>, pending: Option<string>): (o: FileOutcome)
    ensures |table| <= |o.table| && o.table[..|table|] == table
    ensures TableWithinCeilings(table) ==> TableWithinCeilings(o.table)
    ensures DistinctNames(table) ==> DistinctNames(o.table)
    decreases |toks| - pos
  {
    var t := Tok(toks, pos);
    if t == "" then FileOutcome(table, None)
    else if IEq(t, "{") then
      match pending
      case None => FileOutcome(table, Some(UnnamedRotation))
      case Some(name) =>
        if FindRotation(table, name).Some? then FileOutcome(table, Some(DuplicateRotation(name)))
        else
          match ParseRotationSpec(toks, pos + 1, name)
          case Err(e) => FileOutcome(table, Some(e))
          case Ok((rot, p)) =>
            if |table| == MAX_MAP_ROTATIONS then FileOutcome(table, Some(TooManyRotations))
            else
              var o := FileFrom(toks, p, table + [rot], None);
              assert o.table[..|table| + 1][..|table|] == o.table[..|table|];
              o
    else
      match pending
      case None => FileFrom(toks, pos + 1, table, Some(t))
      case Some(_) => FileOutcome(table, Some(RotationAlreadyNamed))
  }

  /** Size of the buffer the file is read into, terminator included. */
  const FILE_BUFFER: nat := 20000

  /** G_ParseMapRotationFile up to its validation pass, for a file of
      fileLength bytes (negative when it cannot be opened) whose text splits
      into toks, appending to the rotations already in table. */
  function LoadOutcome(fileLength: int, toks: seq<Token>, table: seq<Rotation>): (o: FileOutcome)
    ensures |table| <= |o.table| && o.table[..|table|] == table
    ensures TableWithinCeilings(table) ==> TableWithinCeilings(o.table)
    ensures fileLength <= 0 || fileLength >= FILE_BUFFER - 1 ==> o.table == table && o.error.Some?
  {
    if fileLength < 0 then FileOutcome(table, Some(FileMissing))
    else if fileLength == 0 then FileOutcome(table, Some(EmptyFile))
    else if fileLength >= FILE_BUFFER - 1 then FileOutcome(table, Some(FileTooLong))
    else FileFrom(toks, 0, table, None)
  }

  // ---------------------------------------------------------------------
  // The validation pass

  /** An entry passes validation when it is a placeholder or names an
      existing map, and every condition's destination (vote and random
      candidates included) is an existing map or, compared case-sensitively,
      the name of a rotation. */
  predicate EntryValid(table: seq<Rotation>, e: Entry, mapExists: string -> bool)
  {
    && (IsPlaceholder(e.name) || mapExists(e.name))
    && forall k :: 0 <= k < |e.conds| ==> mapExists(e.conds[k].dest) || RotationExists(table, e.conds[k].dest)
  }

  predicate ValidTable(table: seq<Rotation>, mapExists: string -> bool)
  {
    forall i, j :: 0 <= i < |table| && 0 <= j < |table[i].maps| ==> EntryValid(table, table[i].maps[j], mapExists)
  }

  /** The error a validation failure reports names a real defect of the table. */
  predicate Justified(table: seq<Rotation>, mapExists: string -> bool, err: LoadError)
  {
    match err
    case MissingMap(n) =>
      !IsPlaceholder(n) && !mapExists(n) &&
      exists i, j :: 0 <= i < |table| && 0 <= j < |table[i].maps| && table[i].maps[j].name == n
    case MissingDestination(d) =>
      !mapExists(d) && !RotationExists(table, d) &&
      exists i, j :: 0 <= i < |table| && 0 <= j < |table[i].maps| && EntryHasDest(table[i].maps[j], d)
    case _ => false
  }

  predicate EntryHasDest(e: Entry, d: string)
  {
    exists k :: 0 <= k < |e.conds| && e.conds[k].dest == d
  }

  /** The validation loops of G_ParseMapRotationFile: an error naming a
      missing map or destination, or None when the table is valid. */
  method Validate(table: seq<Rotation>, mapExists: string -> bool) returns (err: Option<LoadError>)
    ensures err.None? <==> ValidTable(table, mapExists)
    ensures err.Some? ==> Justified(table, mapExists, err.value)
  {
    var i := 0;
    while i < |table|
      invariant 0 <= i <= |table|
      invariant forall i', j :: 0 <= i' < i && 0 <= j < |table[i'].maps| ==> EntryValid(table, table[i'].maps[j], mapExists)
    {
      var j := 0;
      while j < |table[i].maps|
        invariant 0 <= j <= |table[i].maps|
        invariant forall j' :: 0 <= j' < j ==> EntryValid(table, table[i].maps[j'], mapExists)
      {
        var e := table[i].maps[j];
        if !IEq(e.name, VOTE_NAME) && !IEq(e.name, RANDOM_NAME) && !mapExists(e.name) {
          return Some(MissingMap(e.name));
        }
        var k := 0;
        while k < |e.conds|
          invariant 0 <= k <= |e.conds|
          invariant forall k' :: 0 <= k' < k ==> mapExists(e.conds[k'].dest) || RotationExists(table, e.conds[k'].dest)
        {
          var d := e.conds[k].dest;
          if !mapExists(d) {
            var isRotation := RotationExistsExact(table, d);
            if !isRotation {
              assert EntryHasDest(e, d);
              return Some(MissingDestination(d));
            }
          }
          k := k + 1;
        }
        j := j + 1;
      }
      i := i + 1;
    }
    return None;
  }

  /** G_RotationExists: a loop over the table comparing names exactly. */
  method RotationExistsExact(table: seq<Rotation>, name: string) returns (found: bool)
    ensures found <==> RotationExists(table, name)
  {
    var i := 0;
    while i < |table|
      invariant 0 <= i <= |table|
      invariant forall i' :: 0 <= i' < i ==> table[i'].name != name
    {
      if table[i].name == name {
        return true;
      }
      i := i + 1;
    }
    return false;
  }

  // ---------------------------------------------------------------------
  // A rotation without maps

  /** The file "r { }" loads and validates: the parser accepts a rotation
      with no maps, and the validation loops have no entry to reject. The
      source then takes the default successor modulo numMaps, zero here,
      when it advances or opens a vote on this rotation. */
  lemma EmptyRotationLoads(mapExists: string -> bool)
    ensures var toks := [Token("r", true), Token("{", false), Token("}", true)];
            var o := LoadOutcome(5, toks, []);
            && o.error.None?
            && o.table == [Rotation("r", [])]
            && ValidTable(o.table, mapExists)
  {
    var toks := [Token("r", true), Token("{", false), Token("}", true)];
    var b := NewBuilder("r");
    assert "}"[0] == '}' && "{"[0] == '{' && Lower('}') != Lower('{');
    assert |"goto"| == 4 && |"if"| == 2 && |"}"| == 1;
    assert |VOTE_NAME| == 6 && |RANDOM_NAME| == 8;
    assert RotationStep(toks, 2, b) == Finish([], 3);
    assert ParseRotationSpec(toks, 2, "r") == Ok((Rotation("r", []), 3));
    assert !IEq("r", "{") && IEq("{", "{");
    assert FileFrom(toks, 1, [], Some("r")) == FileFrom(toks, 3, [Rotation("r", [])], None);
  }
}
