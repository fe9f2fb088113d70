/** The intermission map vote: the tally of G_GetMapVoteWinner, the
    SortMapVoteResults order and the rank qsort gives each candidate, the
    decisiveness test of G_IntermissionMapVoteWinner, the winner lookup of
    G_GetVotedMap, the cursor clamp of G_IntermissionMapVoteCommand and
    the candidate pool of G_GetRandomMap. The arrays these work on belong
    to RotationEngine; this module holds their specifications. */
module Vote {
  import opened Rotations

  /** Number of results slots the tally and the sort run over. */
  const NUM_RESULTS: nat := MAX_MAP_ROTATION_CONDS

  // ---------------------------------------------------------------------
  // The tally

  /** Number of clients in sel whose selection is k. */
  function CountOf(sel: seq<int>, k: int): (c: nat)
    ensures c <= |sel|
  {
    if sel == [] then 0
    else CountOf(sel[..|sel| - 1], k) + (if sel[|sel| - 1] == k then 1 else 0)
  }

  /** Number of clients in sel whose selection is a results slot. */
  function TotalVotes(sel: seq<int>): (t: nat)
    ensures t <= |sel|
  {
    if sel == [] then 0
    else TotalVotes(sel[..|sel| - 1]) + (if 0 <= sel[|sel| - 1] < NUM_RESULTS then 1 else 0)
  }

  /** The votes of every results slot. */
  function Tally(sel: seq<int>): (v: seq<nat>)
    ensures |v| == NUM_RESULTS
  {
    seq(NUM_RESULTS, k => CountOf(sel, k))
  }

  function Sum(v: seq<nat>): nat
  {
    if v == [] then 0 else Sum(v[..|v| - 1]) + v[|v| - 1]
  }

  /** Adding one selection to the clients adds one to its slot. */
  lemma TallySnoc(sel: seq<int>, n: int)
    ensures Tally(sel + [n]) == if 0 <= n < NUM_RESULTS then Tally(sel)[n := Tally(sel)[n] + 1] else Tally(sel)
  {
    assert (sel + [n])[..|sel|] == sel;
  }

  /** The total is the sum of the slots: every counted selection lands in
      exactly one of them. */
  lemma {:induction false} TotalIsSumOfTally(sel: seq<int>)
    ensures TotalVotes(sel) == Sum(Tally(sel))
    decreases |sel|
  {
    if sel != [] {
      var init := sel[..|sel| - 1];
      var n := sel[|sel| - 1];
      assert sel == init + [n];
      TotalIsSumOfTally(init);
      TallySnoc(init, n);
      assert TotalVotes(sel) == TotalVotes(init) + (if 0 <= n < NUM_RESULTS then 1 else 0);
      if 0 <= n < NUM_RESULTS {
        SumIncrement(Tally(init), n);
        assert Tally(sel) == Tally(init)[n := Tally(init)[n] + 1];
      } else {
        assert Tally(sel) == Tally(init);
      }
    } else {
      SumOfZeros(Tally(sel));
    }
  }

  lemma {:induction false} SumOfZeros(v: seq<nat>)
    requires forall k :: 0 <= k < |v| ==> v[k] == 0
    ensures Sum(v) == 0
  {
    if v != [] {
      SumOfZeros(v[..|v| - 1]);
    }
  }

  lemma {:induction false} SumIncrement(v: seq<nat>, n: nat)
    requires n < |v|
    ensures Sum(v[n := v[n] + 1]) == Sum(v) + 1
    decreases |v|
  {
    var w := v[n := v[n] + 1];
    if n < |v| - 1 {
      assert w[..|w| - 1] == v[..|v| - 1][n := v[n] + 1];
      SumIncrement(v[..|v| - 1], n);
    } else {
      assert w[..|w| - 1] == v[..|v| - 1];
    }
  }

  // ---------------------------------------------------------------------
  // The sort order

  /** An element of the results array. */
  datatype VoteResult = VoteResult(votes: int, slot: int)

  /** SortMapVoteResults: more votes first, then the lower map index. */
  function Compare(a: VoteResult, b: VoteResult): (r: int)
    ensures -1 <= r <= 1
  {
    if a.votes > b.votes then -1
    else if a.votes < b.votes then 1
    else if a.slot > b.slot then 1
    else if a.slot < b.slot then -1
    else 0
  }

  /** The comparator is a strict total order, as qsort requires: swapping
      the arguments negates it, it answers 0 only for equal elements, and
      "sorts before" is transitive. */
  lemma CompareIsTotalOrder(a: VoteResult, b: VoteResult, c: VoteResult)
    ensures Compare(a, b) == -Compare(b, a)
    ensures Compare(a, b) == 0 <==> a == b
    ensures Compare(a, b) < 0 && Compare(b, c) < 0 ==> Compare(a, c) < 0
  {
  }

  /** Slot j sorts before slot k. */
  predicate Before(v: seq<nat>, j: nat, k: nat)
    requires j < |v| && k < |v|
  {
    Compare(VoteResult(v[j], j), VoteResult(v[k], k)) < 0
  }

  lemma BeforeMeans(v: seq<nat>, j: nat, k: nat)
    requires j < |v| && k < |v|
    ensures Before(v, j, k) <==> v[j] > v[k] || (v[j] == v[k] && j < k)
  {
  }

  /** Number of slots below upto that sort before slot k. */
  function RankUpTo(v: seq<nat>, k: nat, upto: nat): (r: nat)
    requires k < |v| && upto <= |v|
    ensures r <= upto
  {
    if upto == 0 then 0
    else RankUpTo(v, k, upto - 1) + (if Before(v, upto - 1, k) then 1 else 0)
  }

  /** Where qsort puts slot k: the number of slots that sort before it. This
      is resultorder[ k ]. */
  function Rank(v: seq<nat>, k: nat): nat
    requires k < |v|
  {
    RankUpTo(v, k, |v|)
  }

  lemma {:induction false} RankUpToBelow(v: seq<nat>, k: nat, upto: nat)
    requires k < upto <= |v|
    ensures RankUpTo(v, k, upto) < upto
  {
    if upto - 1 != k {
      RankUpToBelow(v, k, upto - 1);
    } else {
      assert !Before(v, k, k);
    }
  }

  lemma {:induction false} RankUpToMonotone(v: seq<nat>, j: nat, k: nat, upto: nat)
    requires j < |v| && k < |v| && upto <= |v|
    requires Before(v, j, k)
    ensures RankUpTo(v, j, upto) + (if j < upto then 1 else 0) <= RankUpTo(v, k, upto)
  {
    if upto > 0 {
      RankUpToMonotone(v, j, k, upto - 1);
      var i := upto - 1;
      CompareIsTotalOrder(VoteResult(v[i], i), VoteResult(v[j], j), VoteResult(v[k], k));
      if i == j {
        CompareIsTotalOrder(VoteResult(v[j], j), VoteResult(v[j], j), VoteResult(v[j], j));
      }
    }
  }

  /** Every rank is a position of the results array. */
  lemma RankInRange(v: seq<nat>, k: nat)
    requires k < |v|
    ensures Rank(v, k) < |v|
  {
    RankUpToBelow(v, k, |v|);
  }

  /** The ranks follow the comparator: a slot that sorts before another
      gets the smaller rank. */
  lemma RankFollowsOrder(v: seq<nat>, j: nat, k: nat)
    requires j < |v| && k < |v| && Before(v, j, k)
    ensures Rank(v, j) < Rank(v, k)
  {
    RankUpToMonotone(v, j, k, |v|);
  }

  /** Distinct slots get distinct ranks. */
  lemma RanksDistinct(v: seq<nat>, j: nat, k: nat)
    requires j < |v| && k < |v| && j != k
    ensures Rank(v, j) != Rank(v, k)
  {
    CompareIsTotalOrder(VoteResult(v[j], j), VoteResult(v[k], k), VoteResult(v[k], k));
    if Before(v, j, k) {
      RankFollowsOrder(v, j, k);
    } else {
      RankFollowsOrder(v, k, j);
    }
  }

  /** The ranks of all slots. */
  function Ranks(v: seq<nat>): (rs: seq<nat>)
    ensures |rs| == |v|
  {
    seq(|v|, k requires 0 <= k < |v| => Rank(v, k))
  }

  /** resultorder is a permutation of 0 .. |v| - 1: every position of the
      sorted array is the rank of exactly one slot. */
  lemma RanksArePermutation(v: seq<nat>)
    ensures forall k :: 0 <= k < |v| ==> Ranks(v)[k] < |v|
    ensures forall j, k :: 0 <= j < k < |v| ==> Ranks(v)[j] != Ranks(v)[k]
    ensures Image(Ranks(v), |v|) == Below(|v|)
  {
    var rs := Ranks(v);
    forall k | 0 <= k < |v|
      ensures rs[k] < |v|
    {
      RankInRange(v, k);
    }
    forall j, k | 0 <= j < k < |v|
      ensures rs[j] != rs[k]
    {
      RanksDistinct(v, j, k);
    }
    InjectionIsOnto(rs);
  }

  /** n distinct values below n take every value below n. */
  lemma InjectionIsOnto(f: seq<nat>)
    requires forall k :: 0 <= k < |f| ==> f[k] < |f|
    requires forall j, k :: 0 <= j < k < |f| ==> f[j] != f[k]
    ensures Image(f, |f|) == Below(|f|)
  {
    var image := Image(f, |f|);
    ImageSize(f, |f|);
    var all := Below(|f|);
    assert image <= all;
    forall r | r in all
      ensures r in image
    {
      if r !in image {
        var rest := all - {r};
        assert image <= rest;
        SubsetSize(image, rest);
        assert false;
      }
    }
  }

  /** The values f takes below index n. */
  function Image(f: seq<nat>, n: nat): (s: set<nat>)
    requires n <= |f|
    ensures forall x :: x in s <==> exists k :: 0 <= k < n && f[k] == x
  {
    if n == 0 then {} else Image(f, n - 1) + {f[n - 1]}
  }

  /** The naturals below n. */
  function Below(n: nat): (s: set<nat>)
    ensures forall x: nat :: x in s <==> x < n
    ensures |s| == n
  {
    if n == 0 then {}
    else
      assert n - 1 !in Below(n - 1);
      Below(n - 1) + {n - 1}
  }

  lemma {:induction false} ImageSize(f: seq<nat>, n: nat)
    requires n <= |f|
    requires forall j, k :: 0 <= j < k < |f| ==> f[j] != f[k]
    ensures |Image(f, n)| == n
  {
    if n > 0 {
      ImageSize(f, n - 1);
      assert f[n - 1] !in Image(f, n - 1);
    }
  }

  lemma {:induction false} SubsetSize(a: set<nat>, b: set<nat>)
    requires a <= b
    ensures |a| <= |b|
    decreases |b|
  {
    if a != {} {
      var x :| x in a;
      SubsetSize(a - {x}, b - {x});
    }
  }

  // ---------------------------------------------------------------------
  // The winner

  /** The slot qsort puts first, found by a left-to-right scan that moves
      only on strictly more votes. */
  function WinnerFrom(v: seq<nat>, i: nat, best: nat): (w: nat)
    requires best < |v| && best < i
    ensures w < |v|
    decreases |v| - i
  {
    if i >= |v| then best
    else WinnerFrom(v, i + 1, if v[i] > v[best] then i else best)
  }

  function Winner(v: seq<nat>): (w: nat)
    requires v != []
    ensures w < |v|
  {
    WinnerFrom(v, 1, 0)
  }

  lemma {:induction false} WinnerFromIsFirstMaximum(v: seq<nat>, i: nat, best: nat)
    requires best < |v| && best < i <= |v|
    requires forall j :: 0 <= j < i ==> v[j] <= v[best]
    requires forall j :: 0 <= j < best ==> v[j] < v[best]
    ensures forall j :: 0 <= j < |v| ==> v[j] <= v[WinnerFrom(v, i, best)]
    ensures forall j :: 0 <= j < WinnerFrom(v, i, best) ==> v[j] < v[WinnerFrom(v, i, best)]
    decreases |v| - i
  {
    if i < |v| {
      WinnerFromIsFirstMaximum(v, i + 1, if v[i] > v[best] then i else best);
    }
  }

  /** The winner has the most votes, and every slot before it has fewer:
      ties go to the lower index. */
  lemma WinnerIsFirstMaximum(v: seq<nat>)
    requires v != []
    ensures forall j :: 0 <= j < |v| ==> v[j] <= v[Winner(v)]
    ensures forall j :: 0 <= j < Winner(v) ==> v[j] < v[Winner(v)]
  {
    WinnerFromIsFirstMaximum(v, 1, 0);
  }

  /** The winner is what qsort puts in results[ 0 ]. */
  lemma WinnerHasRankZero(v: seq<nat>)
    requires v != []
    ensures Rank(v, Winner(v)) == 0
    ensures forall k :: 0 <= k < |v| && Rank(v, k) == 0 ==> k == Winner(v)
  {
    WinnerIsFirstMaximum(v);
    NoneBeforeRankZero(v, Winner(v), |v|);
    forall k | 0 <= k < |v| && Rank(v, k) == 0
      ensures k == Winner(v)
    {
      if k != Winner(v) {
        RanksDistinct(v, k, Winner(v));
      }
    }
  }

  lemma {:induction false} NoneBeforeRankZero(v: seq<nat>, w: nat, upto: nat)
    requires w < |v| && upto <= |v|
    requires forall j :: 0 <= j < |v| ==> !Before(v, j, w)
    ensures RankUpTo(v, w, upto) == 0
  {
    if upto > 0 {
      NoneBeforeRankZero(v, w, upto - 1);
    }
  }

  /** With no votes at all the first slot wins. */
  lemma NoVotesFirstWins(sel: seq<int>)
    requires TotalVotes(sel) == 0
    ensures Winner(Tally(sel)) == 0
  {
    var v := Tally(sel);
    TotalIsSumOfTally(sel);
    WinnerIsFirstMaximum(v);
    var w := Winner(v);
    if w != 0 {
      assert v[0] < v[w];
      SumAtLeast(v, w);
    }
  }

  lemma {:induction false} SumAtLeast(v: seq<nat>, k: nat)
    requires k < |v|
    ensures v[k] <= Sum(v)
  {
    if k < |v| - 1 {
      SumAtLeast(v[..|v| - 1], k);
    }
  }

  // ---------------------------------------------------------------------
  // Decisiveness

  /** G_IntermissionMapVoteWinner: the leader has more than half of the
      connected clients, or more votes than the non-voters and the other
      voters together. */
  predicate Decisive(winVotes: int, totalVotes: int, connected: int)
  {
    var nonVotes := if connected - totalVotes < 0 then 0 else connected - totalVotes;
    winVotes * 2 > connected || winVotes > nonVotes + (totalVotes - winVotes)
  }

  /** The second test never decides anything the first does not: the vote
      ends early exactly when the leader has a strict majority of the
      connected clients. */
  lemma DecisiveIsMajority(winVotes: int, totalVotes: int, connected: int)
    ensures Decisive(winVotes, totalVotes, connected) <==> 2 * winVotes > connected
  {
  }

  /** A decisive leader cannot be caught: even if every non-voter joined the
      strongest other candidate, that candidate would still have fewer
      votes. */
  lemma DecisiveLeaderUncatchable(winVotes: int, totalVotes: int, connected: int, other: int)
    requires 0 <= winVotes <= totalVotes <= connected
    requires 0 <= other <= totalVotes - winVotes
    requires Decisive(winVotes, totalVotes, connected)
    ensures other + (connected - totalVotes) < winVotes
  {
  }

  // ---------------------------------------------------------------------
  // The candidates and the winner's destination

  /** The destinations of the vote candidates of an entry, in declaration
      order. */
  function VoteDests(conds: seq<Condition>): (r: seq<string>)
    ensures |r| <= |conds|
  {
    if conds == [] then []
    else
      var last := conds[|conds| - 1];
      VoteDests(conds[..|conds| - 1]) + (if last.lhs.VoteCandidate? then [last.dest] else [])
  }

  /** The candidates of a prefix of the conditions come first among all of
      them. */
  lemma {:induction false} VoteDestsPrefix(conds: seq<Condition>, i: nat)
    requires i <= |conds|
    ensures VoteDests(conds[..i]) <= VoteDests(conds)
    decreases |conds| - i
  {
    if i < |conds| {
      var init := conds[..|conds| - 1];
      assert init[..i] == conds[..i];
      VoteDestsPrefix(init, i);
    } else {
      assert conds[..i] == conds;
    }
  }

  /** Each candidate is the destination of a vote condition. */
  lemma {:induction false} VoteDestsAreVoteConditions(conds: seq<Condition>, n: nat)
    requires n < |VoteDests(conds)|
    ensures exists k :: 0 <= k < |conds| && conds[k].lhs.VoteCandidate? && conds[k].dest == VoteDests(conds)[n]
  {
    var init := conds[..|conds| - 1];
    if n < |VoteDests(init)| {
      VoteDestsAreVoteConditions(init, n);
      var k :| 0 <= k < |init| && init[k].lhs.VoteCandidate? && init[k].dest == VoteDests(init)[n];
      assert conds[k] == init[k];
    } else {
      assert conds[|conds| - 1].dest == VoteDests(conds)[n];
    }
  }

  /** G_GetVotedMap: the destination of the winner-th vote condition of the
      entry, counting only the first len of them. */
  function VotedDest(conds: seq<Condition>, len: nat, winner: nat): (r: Option<string>)
    ensures r.Some? ==> exists k :: 0 <= k < |conds| && conds[k].lhs.VoteCandidate? && conds[k].dest == r.value
  {
    var ds := VoteDests(conds);
    if winner < len && winner < |ds| then
      VoteDestsAreVoteConditions(conds, winner);
      Some(ds[winner])
    else None
  }

  // ---------------------------------------------------------------------
  // The cursor

  /** The clamp of G_IntermissionMapVoteCommand. */
  function Clamp(n: int, len: int): (r: int)
    ensures 0 <= r
    ensures len > 0 ==> r < len
    ensures len <= 0 ==> r == 0
    ensures 0 <= n < len ==> r == n
  {
    var m := if n >= len then len - 1 else n;
    if m < 0 then 0 else m
  }

  // ---------------------------------------------------------------------
  // The random slot

  /** G_GetRandomMap's list: the random-candidate destinations of the entry
      that exist as maps, in declaration order. */
  function RandomPool(conds: seq<Condition>, mapExists: string -> bool): (pool: seq<string>)
    ensures |pool| <= |conds|
  {
    if conds == [] then []
    else
      var last := conds[|conds| - 1];
      RandomPool(conds[..|conds| - 1], mapExists) + (if last.lhs.RandomCandidate? && mapExists(last.dest) then [last.dest] else [])
  }

  /** The pool holds exactly the random-candidate destinations that exist as
      maps. */
  lemma {:induction false} RandomPoolMembers(conds: seq<Condition>, mapExists: string -> bool, x: string)
    ensures x in RandomPool(conds, mapExists) <==>
            exists k :: 0 <= k < |conds| && conds[k].lhs.RandomCandidate? && conds[k].dest == x && mapExists(x)
  {
    if conds != [] {
      var init := conds[..|conds| - 1];
      RandomPoolMembers(init, mapExists, x);
      if k :| 0 <= k < |conds| && conds[k].lhs.RandomCandidate? && conds[k].dest == x && mapExists(x) {
        if k < |init| {
          assert init[k] == conds[k];
        }
      }
      if k :| 0 <= k < |init| && init[k].lhs.RandomCandidate? && init[k].dest == x && mapExists(x) {
        assert conds[k] == init[k];
      }
    }
  }

  /** The random slot has a map to pick exactly when some random candidate
      exists as a map. */
  lemma RandomPoolNonEmptyIff(conds: seq<Condition>, mapExists: string -> bool)
    ensures RandomPool(conds, mapExists) != [] <==>
            exists k :: 0 <= k < |conds| && conds[k].lhs.RandomCandidate? && mapExists(conds[k].dest)
  {
    var pool := RandomPool(conds, mapExists);
    if k :| 0 <= k < |conds| && conds[k].lhs.RandomCandidate? && mapExists(conds[k].dest) {
      RandomPoolMembers(conds, mapExists, conds[k].dest);
    }
    if pool != [] {
      RandomPoolMembers(conds, mapExists, pool[0]);
    }
  }

  /** One more condition appends its destination to the pool when it is a
      random candidate that exists as a map. */
  lemma RandomPoolSnoc(conds: seq<Condition>, mapExists: string -> bool, i: nat)
    requires i < |conds|
    ensures RandomPool(conds[..i + 1], mapExists) ==
            RandomPool(conds[..i], mapExists) +
            (if conds[i].lhs.RandomCandidate? && mapExists(conds[i].dest) then [conds[i].dest] else [])
  {
    assert conds[..i + 1][..i] == conds[..i];
  }
}
