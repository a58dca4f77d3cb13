// Evidence selection: which of the reranked chunks are kept. Ranks are indices
// into the reranked list, best first; ids[i] is the procedure of the item at rank i.
module CoverageSelection {
  import MathUtils

  datatype ProcedureId = ProcedureId(name: string)

  // ---------- The selection as a set of ranks ----------

  predicate IsFirst(ids: seq<ProcedureId>, i: nat)
    requires i < |ids|
  {
    ids[i] !in ids[..i]
  }

  function Procedures(ids: seq<ProcedureId>, ranks: set<nat>): set<ProcedureId>
    requires forall i | i in ranks :: i < |ids|
  {
    set i | i in ranks :: ids[i]
  }

  // The number of different procedures among the first j ranks.
  function Distinct(ids: seq<ProcedureId>, j: nat): nat
    requires j <= |ids|
  {
    if j == 0 then 0 else Distinct(ids, j - 1) + if IsFirst(ids, j - 1) then 1 else 0
  }

  function Min(a: int, b: int): int { if a < b then a else b }

  // How many procedures a selection of at most k items can cover.
  function Coverable(ids: seq<ProcedureId>, k: nat): nat {
    Min(k, Distinct(ids, |ids|))
  }

  /** The first k representatives of their procedures, then the best of the rest. */
  predicate IsChosen(ids: seq<ProcedureId>, k: nat, i: nat)
    requires i < |ids|
  {
    if IsFirst(ids, i) then Distinct(ids, i) < k
    else i - Distinct(ids, i) < k - Coverable(ids, k)
  }

  function Chosen(ids: seq<ProcedureId>, k: nat): set<nat> {
    set i: nat | 0 <= i < |ids| && IsChosen(ids, k, i)
  }

  function Below(ranks: set<nat>, j: nat): set<nat> {
    set i | i in ranks && i < j
  }

  // ---------- Counting ----------

  lemma {:induction false} DistinctCounts(ids: seq<ProcedureId>, j: nat)
    requires j <= |ids|
    ensures Distinct(ids, j) <= j
    ensures |set i | 0 <= i < j :: ids[i]| == Distinct(ids, j)
  {
    var seen := set i | 0 <= i < j :: ids[i];
    if j == 0 {
      assert seen == {};
    } else {
      var before := set i | 0 <= i < j - 1 :: ids[i];
      DistinctCounts(ids, j - 1);
      assert seen == before + {ids[j - 1]};
      assert ids[j - 1] in before <==> ids[j - 1] in ids[..j - 1];
    }
  }

  lemma {:induction false} DistinctGrows(ids: seq<ProcedureId>, i: nat, j: nat)
    requires i <= j <= |ids|
    ensures Distinct(ids, i) <= Distinct(ids, j) <= Distinct(ids, i) + (j - i)
  {
    if i < j {
      DistinctGrows(ids, i, j - 1);
    }
  }

  lemma BelowNext(ranks: set<nat>, j: nat)
    ensures |Below(ranks, j + 1)| == |Below(ranks, j)| + if j in ranks then 1 else 0
  {
    if j in ranks {
      assert Below(ranks, j + 1) == Below(ranks, j) + {j};
    } else {
      assert Below(ranks, j + 1) == Below(ranks, j);
    }
  }

  lemma NoneBelow(ranks: set<nat>)
    ensures Below(ranks, 0) == {}
  {
  }

  lemma ChosenAt(ids: seq<ProcedureId>, k: nat, i: nat)
    requires i < |ids|
    ensures i in Chosen(ids, k) <==> IsChosen(ids, k, i)
  {
  }

  /** How many chosen ranks lie below j: all representatives up to k, and of the
      others as many as there is room for. */
  lemma {:induction false} ChosenBelow(ids: seq<ProcedureId>, k: nat, j: nat)
    requires j <= |ids|
    ensures |Below(Chosen(ids, k), j)|
         == Min(Distinct(ids, j), k) + Min(j - Distinct(ids, j), k - Coverable(ids, k))
  {
    hide Chosen, Below, IsFirst;
    NoneBelow(Chosen(ids, k));
    if j > 0 {
      ChosenAt(ids, k, j - 1);
      DistinctGrows(ids, 0, j - 1);
      DistinctGrows(ids, j, |ids|);
      ChosenBelow(ids, k, j - 1);
      BelowNext(Chosen(ids, k), j - 1);
    }
  }

  lemma {:induction false} ImageIsNoLarger(ids: seq<ProcedureId>, ranks: set<nat>)
    requires forall i | i in ranks :: i < |ids|
    ensures |Procedures(ids, ranks)| <= |ranks|
    decreases |ranks|
  {
    if ranks == {} {
      assert Procedures(ids, ranks) == {};
    } else {
      var i :| i in ranks;
      var rest := ranks - {i};
      ImageIsNoLarger(ids, rest);
      assert Procedures(ids, ranks) == Procedures(ids, rest) + {ids[i]};
    }
  }

  lemma SubsetSize<T>(a: set<T>, b: set<T>)
    requires a <= b
    ensures |a| <= |b|
  {
    assert b == a + (b - a);
  }

  lemma {:induction false} BelowIsSmall(ranks: set<nat>, j: nat)
    ensures |Below(ranks, j)| <= j
  {
    if j == 0 {
      assert Below(ranks, 0) == {};
    } else {
      BelowIsSmall(ranks, j - 1);
      BelowNext(ranks, j - 1);
    }
  }

  // ---------- Optimality ----------

  /** A selection that competes with the greedy one: as many items, and as many
      procedures as that number of items can cover. */
  predicate Competes(ids: seq<ProcedureId>, k: nat, ranks: set<nat>) {
    && (forall i | i in ranks :: i < |ids|)
    && |ranks| == Min(k, |ids|)
    && Coverable(ids, k) <= |Procedures(ids, ranks)|
  }

  /** The items of any competitor below j leave enough room above j for the
      procedures that do not occur below j. */
  lemma CompetitorBelow(ids: seq<ProcedureId>, k: nat, ranks: set<nat>, j: nat)
    requires Competes(ids, k, ranks) && j <= |ids|
    ensures |Below(ranks, j)| <= j
    ensures |Below(ranks, j)| + (Coverable(ids, k) - Distinct(ids, j)) <= Min(k, |ids|)
    ensures |Below(ranks, j)| <= |ranks|
  {
    var low := Below(ranks, j);
    var high := ranks - low;
    BelowIsSmall(ranks, j);
    var lowIds, highIds := Procedures(ids, low), Procedures(ids, high);
    assert Procedures(ids, ranks) == lowIds + highIds;
    assert |lowIds + highIds| <= |lowIds| + |highIds| by {
      assert lowIds + highIds == lowIds + (highIds - lowIds);
      SubsetSize(highIds - lowIds, highIds);
    }
    var seen := set i | 0 <= i < j :: ids[i];
    DistinctCounts(ids, j);
    SubsetSize(lowIds, seen);
    ImageIsNoLarger(ids, high);
    assert ranks == low + high;
  }

  /** Optimality: the greedy selection competes, and within every prefix of the
      score order it keeps at least as many items as any competitor. */
  lemma GreedyIsOptimal(ids: seq<ProcedureId>, k: nat, ranks: set<nat>, j: nat)
    requires Competes(ids, k, ranks) && j <= |ids|
    ensures |Below(ranks, j)| <= |Below(Chosen(ids, k), j)|
  {
    CompetitorBelow(ids, k, ranks, j);
    ChosenBelow(ids, k, j);
    DistinctCounts(ids, j);
    DistinctGrows(ids, j, |ids|);
  }

  // The chosen representatives below j.
  function Firsts(ids: seq<ProcedureId>, k: nat, j: nat): set<nat>
    requires j <= |ids|
  {
    set i: nat | 0 <= i < j && IsFirst(ids, i) && Distinct(ids, i) < k
  }

  lemma AddProcedure(ids: seq<ProcedureId>, ranks: set<nat>, i: nat)
    requires (forall h | h in ranks :: h < |ids|) && i < |ids| && ids[i] !in Procedures(ids, ranks)
    ensures |Procedures(ids, ranks + {i})| == |Procedures(ids, ranks)| + 1
  {
    assert Procedures(ids, ranks + {i}) == Procedures(ids, ranks) + {ids[i]};
  }

  lemma NextFirst(ids: seq<ProcedureId>, k: nat, i: nat)
    requires i < |ids|
    ensures forall h | h in Firsts(ids, k, i) :: h < |ids|
    ensures Firsts(ids, k, i + 1)
         == if IsFirst(ids, i) && Distinct(ids, i) < k then Firsts(ids, k, i) + {i} else Firsts(ids, k, i)
    ensures IsFirst(ids, i) ==> ids[i] !in Procedures(ids, Firsts(ids, k, i))
  {
  }

  lemma NoFirsts(ids: seq<ProcedureId>, k: nat)
    ensures Firsts(ids, k, 0) == {} && Procedures(ids, Firsts(ids, k, 0)) == {}
  {
  }

  lemma {:induction false} FirstsAreSpread(ids: seq<ProcedureId>, k: nat, j: nat)
    requires j <= |ids|
    ensures |Procedures(ids, Firsts(ids, k, j))| == Min(Distinct(ids, j), k)
  {
    hide Procedures, Firsts, IsFirst;
    NoFirsts(ids, k);
    if j > 0 {
      FirstsAreSpread(ids, k, j - 1);
      NextFirst(ids, k, j - 1);
      if IsFirst(ids, j - 1) {
        AddProcedure(ids, Firsts(ids, k, j - 1), j - 1);
      }
    }
  }

  lemma GreedyCompetes(ids: seq<ProcedureId>, k: nat)
    ensures Competes(ids, k, Chosen(ids, k))
    ensures |Procedures(ids, Chosen(ids, k))| == Coverable(ids, k)
  {
    var n := |ids|;
    var chosen := Chosen(ids, k);
    ChosenBelow(ids, k, n);
    DistinctCounts(ids, n);
    assert Below(chosen, n) == chosen;
    FirstsAreSpread(ids, k, n);
    assert Firsts(ids, k, n) <= chosen;
    SubsetSize(Procedures(ids, Firsts(ids, k, n)), Procedures(ids, chosen));
    SubsetSize(Procedures(ids, chosen), set i | 0 <= i < n :: ids[i]);
    ImageIsNoLarger(ids, chosen);
  }

  // ---------- Total score ----------

  function Total(score: seq<real>, ranks: set<nat>, j: nat): real
    requires j <= |score|
  {
    if j == 0 then 0.0 else Total(score, ranks, j - 1) + if j - 1 in ranks then score[j - 1] else 0.0
  }

  function Lead(a: set<nat>, b: set<nat>, j: nat): int {
    |Below(a, j)| - |Below(b, j)|
  }

  /** Summation by parts: keeping more items in every prefix of a non-increasing
      score sequence is worth at least the lead times the last score. */
  lemma {:induction false} LeadPays(score: seq<real>, a: set<nat>, b: set<nat>, j: nat)
    requires 0 < j <= |score|
    requires forall i, h | 0 <= i < h < |score| :: score[h] <= score[i]
    requires forall i: nat | i <= j :: 0 <= Lead(a, b, i)
    ensures Total(score, b, j) + Lead(a, b, j) as real * score[j - 1] <= Total(score, a, j)
  {
    LeadNext(a, b, j - 1);
    hide Lead;
    if j != 1 {
      LeadPays(score, a, b, j - 1);
      OneMoreRank(Total(score, a, j - 1), Total(score, b, j - 1), Lead(a, b, j - 1),
                  score[j - 2], score[j - 1], j - 1 in a, j - 1 in b);
    }
  }

  lemma LeadNext(a: set<nat>, b: set<nat>, j: nat)
    ensures Lead(a, b, j + 1) == Lead(a, b, j) + (if j in a then 1 else 0) - (if j in b then 1 else 0)
    ensures j == 0 ==> Lead(a, b, j) == 0
  {
    BelowNext(a, j);
    BelowNext(b, j);
    if j == 0 {
      assert Below(a, 0) == {} && Below(b, 0) == {};
    }
  }

  lemma OneMoreRank(ta: real, tb: real, lead: int, previous: real, next: real, inA: bool, inB: bool)
    requires 0 <= lead && next <= previous
    requires tb + lead as real * previous <= ta
    ensures var lead' := lead + (if inA then 1 else 0) - (if inB then 1 else 0);
      (tb + if inB then next else 0.0) + lead' as real * next <= ta + if inA then next else 0.0
  {
    var l := lead as real;
    MathUtils.MulMono(l, next, previous);
    if inA && !inB {
      assert (lead + 1) as real * next == l * next + next;
    } else if !inA && inB {
      assert (lead - 1) as real * next == l * next - next;
    } else {
      assert lead + (if inA then 1 else 0) - (if inB then 1 else 0) == lead;
    }
  }

  /** Among all selections of that size and coverage the greedy one has the
      greatest total score, for every scoring that agrees with the rank order. */
  lemma GreedyMaximizesTotal(ids: seq<ProcedureId>, k: nat, ranks: set<nat>, score: seq<real>)
    requires Competes(ids, k, ranks) && |score| == |ids|
    requires forall i, h | 0 <= i < h < |score| :: score[h] <= score[i]
    ensures Total(score, ranks, |ids|) <= Total(score, Chosen(ids, k), |ids|)
  {
    var n, chosen := |ids|, Chosen(ids, k);
    GreedyCompetes(ids, k);
    forall j: nat | j <= n ensures 0 <= Lead(chosen, ranks, j) {
      GreedyIsOptimal(ids, k, ranks, j);
    }
    assert Below(ranks, n) == ranks && Below(chosen, n) == chosen;
    if 0 < n {
      LeadPays(score, chosen, ranks, n);
    }
  }
}
