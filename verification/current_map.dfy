/** The current map of every rotation, kept in the g_currentMap cvar as a
    line of decimal indices ("3 0 12 "), one per rotation, and read back into
    a static array of MAX_MAP_ROTATIONS slots (G_GetCurrentMapArray,
    G_SetCurrentMap, G_GetCurrentMap).

    The source reads and writes the text through a buffer of
    MAX_MAP_ROTATIONS * 2 characters. The functions suffixed AsWritten model
    that buffer; the others model the text without a length limit, which is
    what the engine uses (see README, Findings). */
module CurrentMap {
  import opened Text
  import opened Rotations

  /** Size of the text buffers, terminator included. */
  const TEXT_BUFFER: nat := MAX_MAP_ROTATIONS * 2

  /** "%d" applied to each index. */
  function ItoaAll(a: seq<int>): (ws: seq<string>)
    ensures |ws| == |a|
    ensures forall i :: 0 <= i < |a| ==> ws[i] == Itoa(a[i])
  {
    seq(|a|, i requires 0 <= i < |a| => Itoa(a[i]))
  }

  /** atoi applied to each word. */
  function AtoiAll(ws: seq<string>): (a: seq<int>)
    ensures |a| == |ws|
    ensures forall i :: 0 <= i < |ws| ==> a[i] == Atoi(ws[i])
  {
    seq(|ws|, i requires 0 <= i < |ws| => Atoi(ws[i]))
  }

  /** The text G_SetCurrentMap stores for the indices a: "%d " for each. */
  function Serialise(a: seq<int>): string
  {
    Spaced(ItoaAll(a))
  }

  /** Appending an index appends its "%d " to the text. */
  lemma SerialiseSnoc(a: seq<int>, x: int)
    ensures Serialise(a + [x]) == Serialise(a) + Itoa(x) + " "
  {
    assert ItoaAll(a + [x]) == ItoaAll(a) + [Itoa(x)];
    SpacedAppend(ItoaAll(a), Itoa(x));
  }

  /** The static array after G_GetCurrentMapArray has read text: the i-th
      word overwrites slot i; slots past the last word keep their value. */
  function Parsed(text: string, cache: seq<int>): (r: seq<int>)
    ensures |r| == |cache|
  {
    var vals := AtoiAll(Words(text));
    seq(|cache|, i requires 0 <= i < |cache| => if i < |vals| then vals[i] else cache[i])
  }

  /** The words of a serialised array are the decimal forms of its indices. */
  lemma WordsOfSerialise(a: seq<int>)
    ensures Words(Serialise(a)) == ItoaAll(a)
  {
    WordsSpaced(ItoaAll(a), "");
    assert Serialise(a) + "" == Serialise(a);
    assert Words("") == [];
  }

  /** Get after set: reading back the text written for the first n slots of
      the array restores the whole array, the first n slots from the text
      and the rest from the array itself. */
  lemma GetAfterSet(c: seq<int>, n: nat)
    requires n <= |c|
    ensures Parsed(Serialise(c[..n]), c) == c
  {
    WordsOfSerialise(c[..n]);
    var vals := AtoiAll(Words(Serialise(c[..n])));
    forall i | 0 <= i < n
      ensures vals[i] == c[i]
    {
      AtoiItoa(c[i]);
    }
  }

  // ---------------------------------------------------------------------
  // The text as the source's fixed buffer holds it

  /** The first n characters of s, or all of s. */
  function Truncate(s: string, n: nat): (r: string)
    ensures |r| <= n && |r| <= |s| && r == s[..|r|]
    ensures |s| <= n ==> r == s
  {
    if |s| <= n then s else s[..n]
  }

  /** Q_strcat( dst, size, src ): appends as much of src as leaves room for
      the terminator. */
  function StrCat(dst: string, src: string, size: nat): (r: string)
    requires |dst| < size
    ensures |r| < size
  {
    var room := size - 1 - |dst|;
    if |src| <= room then dst + src else dst + src[..room]
  }

  /** The loop of G_SetCurrentMap: Q_strcat( text, sizeof( text ), va( "%d ", p[ i ] ) )
      for each index, starting from the text acc. */
  function SerialiseAsWrittenFrom(acc: string, a: seq<int>): (r: string)
    requires |acc| < TEXT_BUFFER
    ensures |r| < TEXT_BUFFER
    decreases |a|
  {
    if a == [] then acc
    else SerialiseAsWrittenFrom(StrCat(acc, Itoa(a[0]) + " ", TEXT_BUFFER), a[1..])
  }

  function SerialiseAsWritten(a: seq<int>): (r: string)
    ensures |r| < TEXT_BUFFER
  {
    SerialiseAsWrittenFrom("", a)
  }

  /** G_GetCurrentMapArray as written: Q_strncpyz keeps only the first
      TEXT_BUFFER - 1 characters of the cvar before splitting it. */
  function ParsedAsWritten(text: string, cache: seq<int>): (r: seq<int>)
    ensures |r| == |cache|
  {
    Parsed(Truncate(text, TEXT_BUFFER - 1), cache)
  }

  /** Appending to a truncated text truncates the concatenation. */
  lemma StrCatTruncates(x: string, s: string)
    ensures StrCat(Truncate(x, TEXT_BUFFER - 1), s, TEXT_BUFFER) == Truncate(x + s, TEXT_BUFFER - 1)
  {
    var m := TEXT_BUFFER - 1;
    if |x| <= m {
      if |x + s| > m {
        assert (x + s)[..m] == x + s[..m - |x|];
      }
    } else {
      assert (x + s)[..m] == x[..m];
    }
  }

  lemma SerialiseCons(a: seq<int>)
    requires a != []
    ensures Serialise(a) == Itoa(a[0]) + " " + Serialise(a[1..])
  {
    assert ItoaAll(a) == [Itoa(a[0])] + ItoaAll(a[1..]);
    assert ItoaAll(a)[1..] == ItoaAll(a[1..]);
  }

  lemma PrefixSerialiseCons(x: string, a: seq<int>)
    requires a != []
    ensures x + (Itoa(a[0]) + " ") + Serialise(a[1..]) == x + Serialise(a)
  {
    SerialiseCons(a);
  }

  /** The strcat loop stores the first TEXT_BUFFER - 1 characters of the
      full serialisation. */
  lemma {:induction false} SerialiseAsWrittenFromTruncates(x: string, a: seq<int>)
    ensures SerialiseAsWrittenFrom(Truncate(x, TEXT_BUFFER - 1), a) == Truncate(x + Serialise(a), TEXT_BUFFER - 1)
    decreases |a|
  {
    var m := TEXT_BUFFER - 1;
    if a == [] {
      assert Serialise(a) == "";
      assert x + "" == x;
    } else {
      var piece := Itoa(a[0]) + " ";
      StrCatTruncates(x, piece);
      SerialiseAsWrittenFromTruncates(x + piece, a[1..]);
      PrefixSerialiseCons(x, a);
    }
  }

  lemma SerialiseAsWrittenTruncates(a: seq<int>)
    ensures SerialiseAsWritten(a) == Truncate(Serialise(a), TEXT_BUFFER - 1)
  {
    SerialiseAsWrittenFromTruncates("", a);
    assert "" + Serialise(a) == Serialise(a);
  }

  /** The buffer holds at most MAX_MAP_ROTATIONS words, so the unbounded
      write into the static array in the source stays inside it. */
  lemma AsWrittenFitsArray(text: string)
    ensures |Words(Truncate(text, TEXT_BUFFER - 1))| <= MAX_MAP_ROTATIONS
  {
    WordsCount(Truncate(text, TEXT_BUFFER - 1));
  }

  /** As long as the serialised text fits the buffer, the source's get after
      set holds. */
  lemma AsWrittenGetAfterSetWhenShort(c: seq<int>, n: nat)
    requires n <= |c| && |Serialise(c[..n])| < TEXT_BUFFER
    ensures ParsedAsWritten(SerialiseAsWritten(c[..n]), c) == c
  {
    SerialiseAsWrittenTruncates(c[..n]);
    GetAfterSet(c, n);
  }

  /** Eleven rotations whose current map is 10 serialise to 33 characters;
      the buffer keeps 31, cutting the last "10" to "1", so rotation 10 reads
      back map 1. */
  lemma AsWrittenMisreadsIndex()
    ensures var c := seq(MAX_MAP_ROTATIONS, i => if i < 11 then 10 else 0);
            ParsedAsWritten(SerialiseAsWritten(c[..11]), c)[10] == 1 && c[10] == 10
  {
    var c := seq(MAX_MAP_ROTATIONS, i => if i < 11 then 10 else 0);
    assert Digits(1) == "1";
    assert Digits(10) == "10";
    assert Itoa(10) == "10";
    var ten := seq(10, i => "10");
    assert ItoaAll(c[..11]) == ten + ["10"];
    SpacedAppend(ten, "10");
    TensLength(ten);
    var full := Serialise(c[..11]);
    assert full == Spaced(ten) + "10" + " ";
    var kept := Spaced(ten) + "1";
    assert Truncate(full, TEXT_BUFFER - 1) == kept;
    SerialiseAsWrittenTruncates(c[..11]);
    WordsSpaced(ten, "1");
    assert Words("1") == ["1"] by {
      assert WordEnd("1") == 1;
      assert "1"[..1] == "1";
      assert "1"[1..] == "";
    }
    assert Words(kept)[10] == "1";
    assert Atoi("1") == 1 by {
      assert LeadingDigits("1") == "1" by {
        assert "1"[1..] == "";
      }
    }
  }

  lemma {:induction false} TensLength(ws: seq<string>)
    requires forall i :: 0 <= i < |ws| ==> |ws[i]| == 2
    ensures |Spaced(ws)| == 3 * |ws|
  {
    if ws != [] {
      TensLength(ws[1..]);
    }
  }
}
