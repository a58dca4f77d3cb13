// Procedure retrieval after the query and the chunks have been scored: the
// candidate cut by similarity, the order by rerank score, and the selection with
// procedure coverage.
module ProcedureRetrieval {
  import opened Wrappers
  import opened CoverageSelection

  // One scored chunk; position is its place in the index.
  datatype Scored = Scored(rerank: real, similarity: real, position: nat)

  /** The sort key: descending rerank score, then descending similarity, then
      ascending position. */
  predicate Before(a: Scored, b: Scored) {
    || a.rerank > b.rerank
    || (a.rerank == b.rerank && a.similarity > b.similarity)
    || (a.rerank == b.rerank && a.similarity == b.similarity && a.position < b.position)
  }

  predicate Ranked(items: seq<Scored>) {
    forall i, j | 0 <= i < j < |items| :: Before(items[i], items[j])
  }

  predicate DistinctPositions(items: seq<Scored>) {
    forall i, j | 0 <= i < j < |items| :: items[i].position != items[j].position
  }

  // ---------- Sorting ----------

  function Insert(x: Scored, items: seq<Scored>): seq<Scored> {
    if items == [] || Before(x, items[0]) then [x] + items else [items[0]] + Insert(x, items[1..])
  }

  function Sort(items: seq<Scored>): seq<Scored> {
    if items == [] then [] else Insert(items[0], Sort(items[1..]))
  }

  lemma {:induction false} InsertAdds(x: Scored, items: seq<Scored>)
    ensures multiset(Insert(x, items)) == multiset(items) + multiset{x}
  {
    if items != [] && !Before(x, items[0]) {
      InsertAdds(x, items[1..]);
      assert items == [items[0]] + items[1..];
    }
  }

  lemma RankedCons(x: Scored, items: seq<Scored>)
    requires Ranked(items) && forall y | y in items :: Before(x, y)
    ensures Ranked([x] + items)
  {
  }

  lemma {:induction false} InsertKeeps(x: Scored, items: seq<Scored>)
    requires Ranked(items) && forall y | y in items :: y.position != x.position
    ensures Ranked(Insert(x, items))
    ensures multiset(Insert(x, items)) == multiset(items) + multiset{x}
  {
    InsertAdds(x, items);
    if items == [] || Before(x, items[0]) {
      RankedCons(x, items);
    } else {
      InsertKeeps(x, items[1..]);
      var rest := Insert(x, items[1..]);
      forall y | y in rest ensures Before(items[0], y) {
        assert y in multiset(rest);
        assert y in multiset(items[1..]) || y == x;
      }
      RankedCons(items[0], rest);
    }
  }

  /** Sorting items with distinct positions gives the same items, strictly ranked. */
  lemma {:induction false} SortRanks(items: seq<Scored>)
    requires DistinctPositions(items)
    ensures Ranked(Sort(items)) && multiset(Sort(items)) == multiset(items)
  {
    if items != [] {
      assert items == [items[0]] + items[1..];
      SortRanks(items[1..]);
      var rest := Sort(items[1..]);
      forall y | y in rest ensures y.position != items[0].position {
        assert y in multiset(items[1..]);
        assert y in items[1..];
      }
      InsertKeeps(items[0], rest);
    }
  }

  lemma RankedKeepsPositions(items: seq<Scored>, sorted: seq<Scored>)
    requires DistinctPositions(items) && Ranked(sorted) && forall x | x in sorted :: x in items
    ensures DistinctPositions(sorted)
  {
    forall i, j | 0 <= i < j < |sorted| ensures sorted[i].position != sorted[j].position {
      assert Before(sorted[i], sorted[j]) && sorted[i] in items && sorted[j] in items;
      var a :| 0 <= a < |items| && items[a] == sorted[i];
      var b :| 0 <= b < |items| && items[b] == sorted[j];
      assert a != b;
    }
  }

  lemma SameElements(a: seq<Scored>, b: seq<Scored>)
    requires multiset(a) == multiset(b)
    ensures |a| == |b| && forall x :: x in a <==> x in b
  {
    assert |a| == |multiset(a)| && |b| == |multiset(b)|;
    assert forall x :: x in a <==> x in multiset(a);
    assert forall x :: x in b <==> x in multiset(b);
  }

  // ---------- Selection ----------

  function IdsOf(items: seq<Scored>, index: seq<ProcedureId>): (ids: seq<ProcedureId>)
    requires forall x | x in items :: x.position < |index|
    ensures |ids| == |items|
  {
    seq(|items|, i requires 0 <= i < |items| => index[items[i].position])
  }

  ghost predicate Labels(items: seq<Scored>, index: seq<ProcedureId>, ids: seq<ProcedureId>) {
    && |ids| == |items|
    && forall i | 0 <= i < |items| :: items[i].position < |index| && index[items[i].position] == ids[i]
  }

  // The items at a set of ranks.
  function ItemsAt(items: seq<Scored>, ranks: set<nat>): set<Scored>
    requires forall i | i in ranks :: i < |items|
  {
    set i | i in ranks :: items[i]
  }

  // picked lists ranks of items without repetition.
  ghost predicate Picks(items: seq<Scored>, selected: seq<Scored>, ranks: set<nat>) {
    && (forall i | i in ranks :: i < |items|)
    && |selected| == |ranks|
    && DistinctPositions(selected)
    && (set x | x in selected) == ItemsAt(items, ranks)
  }

  // The state of either pass: what is kept, and the positions taken by it.
  ghost predicate Keeps(items: seq<Scored>, kept: seq<Scored>, positions: set<nat>, ranks: set<nat>) {
    Picks(items, kept, ranks) && positions == set x | x in kept :: x.position
  }

  lemma KeepOne(items: seq<Scored>, kept: seq<Scored>, positions: set<nat>, ranks: set<nat>, i: nat)
    requires Ranked(items) && DistinctPositions(items) && Keeps(items, kept, positions, ranks)
    requires i < |items| && i !in ranks
    ensures Keeps(items, kept + [items[i]], positions + {items[i].position}, ranks + {i})
  {
    forall x | x in kept ensures x.position != items[i].position {
      assert x in ItemsAt(items, ranks);
      var h :| h in ranks && items[h] == x;
      assert h != i;
    }
    var more := kept + [items[i]];
    assert (set x | x in more) == (set x | x in kept) + {items[i]};
    assert ItemsAt(items, ranks + {i}) == ItemsAt(items, ranks) + {items[i]};
    assert (set x | x in more :: x.position) == (set x | x in kept :: x.position) + {items[i].position};
  }

  lemma TakenMeansKept(items: seq<Scored>, kept: seq<Scored>, positions: set<nat>, ranks: set<nat>, i: nat)
    requires Keeps(items, kept, positions, ranks) && DistinctPositions(items) && i < |items|
    ensures items[i].position in positions <==> i in ranks
  {
    if i in ranks {
      assert items[i] in ItemsAt(items, ranks);
    }
    if items[i].position in positions {
      var x :| x in kept && x.position == items[i].position;
      assert x in ItemsAt(items, ranks);
    }
  }

  // The first pass complete, and of the other ranks those below j.
  function SecondPass(ids: seq<ProcedureId>, k: nat, j: nat): set<nat>
    requires j <= |ids|
  {
    Firsts(ids, k, |ids|) + set i: nat | 0 <= i < j && !IsFirst(ids, i) && IsChosen(ids, k, i)
  }

  lemma SeenGrows(ids: seq<ProcedureId>, i: nat)
    requires i < |ids|
    ensures forall id :: id in ids[..i + 1] <==> id in ids[..i] || id == ids[i]
  {
    assert ids[..i + 1] == ids[..i] + [ids[i]];
  }

  // What both passes know after looking at the ranks below i.
  ghost predicate AfterFirst(items: seq<Scored>, ids: seq<ProcedureId>, k: nat, i: nat,
                             kept: seq<Scored>, positions: set<nat>, seen: set<ProcedureId>)
  {
    && i <= |ids| == |items|
    && Keeps(items, kept, positions, Firsts(ids, k, i))
    && |kept| == Min(Distinct(ids, i), k)
    && forall id :: id in seen <==> id in ids[..i]
  }

  ghost predicate AfterSecond(items: seq<Scored>, ids: seq<ProcedureId>, k: nat, i: nat,
                              kept: seq<Scored>, positions: set<nat>)
  {
    && i <= |ids| == |items|
    && Keeps(items, kept, positions, SecondPass(ids, k, i))
    && |kept| == Coverable(ids, k) + Min(i - Distinct(ids, i), k - Coverable(ids, k))
  }

  lemma FirstStart(items: seq<Scored>, ids: seq<ProcedureId>, k: nat)
    requires |ids| == |items|
    ensures AfterFirst(items, ids, k, 0, [], {}, {})
  {
  }

  lemma FirstEnd(items: seq<Scored>, ids: seq<ProcedureId>, k: nat, i: nat,
                 kept: seq<Scored>, positions: set<nat>, seen: set<ProcedureId>)
    requires AfterFirst(items, ids, k, i, kept, positions, seen) && (i == |ids| || k <= |kept|)
    ensures Keeps(items, kept, positions, Firsts(ids, k, |ids|)) && |kept| == Coverable(ids, k)
  {
    FirstsComplete(ids, k, i);
  }

  lemma SecondStart(items: seq<Scored>, ids: seq<ProcedureId>, k: nat, kept: seq<Scored>, positions: set<nat>)
    requires |ids| == |items| && Keeps(items, kept, positions, Firsts(ids, k, |ids|)) && |kept| == Coverable(ids, k)
    ensures AfterSecond(items, ids, k, 0, kept, positions)
  {
    assert SecondPass(ids, k, 0) == Firsts(ids, k, |ids|);
  }

  lemma SecondEnd(items: seq<Scored>, ids: seq<ProcedureId>, k: nat, i: nat, kept: seq<Scored>, positions: set<nat>)
    requires AfterSecond(items, ids, k, i, kept, positions) && (i == |ids| || k <= |kept|)
    ensures Picks(items, kept, Chosen(ids, k))
  {
    OthersComplete(ids, k, i);
  }

  lemma FirstStep(items: seq<Scored>, ids: seq<ProcedureId>, k: nat, i: nat,
                  kept: seq<Scored>, positions: set<nat>, seen: set<ProcedureId>)
    requires Ranked(items) && DistinctPositions(items)
    requires AfterFirst(items, ids, k, i, kept, positions, seen) && i < |ids| && |kept| < k
    ensures ids[i] in seen ==> AfterFirst(items, ids, k, i + 1, kept, positions, seen + {ids[i]})
    ensures ids[i] !in seen ==>
      AfterFirst(items, ids, k, i + 1, kept + [items[i]], positions + {items[i].position}, seen + {ids[i]})
  {
    NextFirst(ids, k, i);
    SeenGrows(ids, i);
    if ids[i] !in seen {
      KeepOne(items, kept, positions, Firsts(ids, k, i), i);
    }
  }

  lemma SecondStep(items: seq<Scored>, ids: seq<ProcedureId>, k: nat, i: nat, kept: seq<Scored>, positions: set<nat>)
    requires Ranked(items) && DistinctPositions(items) && Coverable(ids, k) < k
    requires AfterSecond(items, ids, k, i, kept, positions) && i < |ids| && |kept| < k
    ensures if items[i].position in positions then AfterSecond(items, ids, k, i + 1, kept, positions)
            else AfterSecond(items, ids, k, i + 1, kept + [items[i]], positions + {items[i].position})
  {
    TakenMeansKept(items, kept, positions, SecondPass(ids, k, i), i);
    NextOther(ids, k, i);
    DistinctGrows(ids, i, |ids|);
    if items[i].position !in positions {
      KeepOne(items, kept, positions, SecondPass(ids, k, i), i);
    }
  }

  /** First pass: the best item of each procedure until k items are kept. */
  method KeepRepresentatives(reranked: seq<Scored>, index: seq<ProcedureId>, k: nat, ghost ids: seq<ProcedureId>)
    returns (kept: seq<Scored>, positions: set<nat>)
    requires Ranked(reranked) && DistinctPositions(reranked) && Labels(reranked, index, ids)
    ensures Keeps(reranked, kept, positions, Firsts(ids, k, |ids|))
    ensures |kept| == Coverable(ids, k)
  {
    hide Keeps, Picks, Firsts, AfterFirst;
    var seen: set<ProcedureId> := {};
    kept, positions := [], {};
    var i := 0;
    FirstStart(reranked, ids, k);
    while i < |reranked| && |kept| < k
      invariant 0 <= i <= |reranked| && AfterFirst(reranked, ids, k, i, kept, positions, seen)
    {
      var item := reranked[i];
      var id := index[item.position];
      FirstStep(reranked, ids, k, i, kept, positions, seen);
      if id !in seen {
        kept := kept + [item];
        positions := positions + {item.position};
      }
      seen := seen + {id};
      i := i + 1;
    }
    FirstEnd(reranked, ids, k, i, kept, positions, seen);
  }

  /** Second pass: the best items not yet kept until there are k. */
  method FillByScore(reranked: seq<Scored>, k: nat, representatives: seq<Scored>, taken: set<nat>,
                     ghost ids: seq<ProcedureId>)
    returns (kept: seq<Scored>)
    requires Ranked(reranked) && DistinctPositions(reranked) && |ids| == |reranked|
    requires Keeps(reranked, representatives, taken, Firsts(ids, k, |ids|))
    requires |representatives| == Coverable(ids, k) < k
    ensures Picks(reranked, kept, Chosen(ids, k))
  {
    hide Keeps, Picks, Firsts, AfterSecond, Chosen;
    var positions := taken;
    kept := representatives;
    var i := 0;
    SecondStart(reranked, ids, k, kept, positions);
    while i < |reranked| && |kept| < k
      invariant 0 <= i <= |reranked| && AfterSecond(reranked, ids, k, i, kept, positions)
    {
      var item := reranked[i];
      SecondStep(reranked, ids, k, i, kept, positions);
      if item.position !in positions {
        kept := kept + [item];
        positions := positions + {item.position};
      }
      i := i + 1;
    }
    SecondEnd(reranked, ids, k, i, kept, positions);
  }

  /** Keeps the best item of each procedure up to top_k, fills the rest by score,
      and returns exactly the greedy selection in score order. */
  method SelectWithProcedureCoverage(reranked: seq<Scored>, index: seq<ProcedureId>, topK: int)
    returns (selected: seq<Scored>)
    requires Ranked(reranked) && DistinctPositions(reranked)
    requires forall x | x in reranked :: x.position < |index|
    ensures topK <= 0 ==> selected == []
    ensures 0 < topK ==>
      Ranked(selected) && Picks(reranked, selected, Chosen(IdsOf(reranked, index), topK))
  {
    if reranked == [] || topK <= 0 {
      return [];
    }
    ghost var ids := IdsOf(reranked, index);
    var kept, positions := KeepRepresentatives(reranked, index, topK, ids);
    if |kept| < topK {
      kept := FillByScore(reranked, topK, kept, positions, ids);
    } else {
      FirstsAreChosen(ids, topK);
    }
    GreedyCompetes(ids, topK);
    SortRanks(kept);
    selected := Sort(kept);
    SameElements(kept, selected);
    RankedKeepsPositions(kept, selected);
    var limit := Min(topK, |selected|);
    assert selected[..limit] == selected;
    selected := selected[..limit];
  }

  // When the representatives fill the selection nothing else is chosen.
  lemma FirstsAreChosen(ids: seq<ProcedureId>, k: nat)
    requires Coverable(ids, k) == k
    ensures Firsts(ids, k, |ids|) == Chosen(ids, k)
  {
    forall i: nat | i < |ids| ensures i in Firsts(ids, k, |ids|) <==> i in Chosen(ids, k) {
      DistinctCounts(ids, i);
    }
  }

  // Once k representatives are kept the remaining ranks add none.
  lemma {:induction false} FirstsComplete(ids: seq<ProcedureId>, k: nat, i: nat)
    requires i <= |ids| && (i == |ids| || k <= Distinct(ids, i))
    ensures Firsts(ids, k, i) == Firsts(ids, k, |ids|)
    ensures Min(Distinct(ids, i), k) == Coverable(ids, k)
    decreases |ids| - i
  {
    if i < |ids| {
      NextFirst(ids, k, i);
      FirstsComplete(ids, k, i + 1);
    }
  }

  lemma NextOther(ids: seq<ProcedureId>, k: nat, i: nat)
    requires i < |ids|
    ensures SecondPass(ids, k, i + 1)
         == SecondPass(ids, k, i) + if !IsFirst(ids, i) && IsChosen(ids, k, i) then {i} else {}
    ensures i in SecondPass(ids, k, i) <==> IsFirst(ids, i) && Distinct(ids, i) < k
  {
  }

  lemma {:induction false} OthersComplete(ids: seq<ProcedureId>, k: nat, i: nat)
    requires i <= |ids| && (i == |ids| || k - Coverable(ids, k) <= i - Distinct(ids, i))
    ensures SecondPass(ids, k, i) == Chosen(ids, k)
    decreases |ids| - i
  {
    if i < |ids| {
      NextOther(ids, k, i);
      OthersComplete(ids, k, i + 1);
    }
  }

  // ---------- The whole retrieval ----------

  datatype RetrievalError = TopKInvalid | WrongScoreCount

  // The index in its own order, keyed for the similarity sort.
  function BySimilarity(similarities: seq<real>): seq<Scored> {
    seq(|similarities|, i requires 0 <= i < |similarities| => Scored(0.0, similarities[i], i))
  }

  function Candidates(similarities: seq<real>, limit: nat): seq<Scored> {
    var sorted := Sort(BySimilarity(similarities));
    sorted[..Min(limit, |sorted|)]
  }

  function Rescored(candidates: seq<Scored>, scores: seq<real>): seq<Scored>
    requires |scores| == |candidates|
  {
    seq(|scores|, i requires 0 <= i < |scores| => candidates[i].(rerank := scores[i]))
  }

  lemma CutBeatsRest(sorted: seq<Scored>, limit: nat, x: Scored, y: Scored)
    requires Ranked(sorted) && limit <= |sorted|
    requires x in sorted[..limit] && y in sorted && y !in sorted[..limit]
    ensures Before(x, y)
  {
    var a :| 0 <= a < |sorted| && sorted[a] == y;
    var b :| 0 <= b < limit && sorted[..limit][b] == x;
    assert sorted[b] == x;
    assert forall i | 0 <= i < limit :: sorted[..limit][i] == sorted[i] && sorted[..limit][i] in sorted[..limit];
  }

  lemma SortedIndex(similarities: seq<real>)
    ensures var sorted := Sort(BySimilarity(similarities));
      && |sorted| == |similarities| && Ranked(sorted) && DistinctPositions(sorted)
      && (forall x :: x in sorted <==> x.position < |similarities| && x == Scored(0.0, similarities[x.position], x.position))
  {
    var all := BySimilarity(similarities);
    SortRanks(all);
    SameElements(all, Sort(all));
    RankedKeepsPositions(all, Sort(all));
    forall x ensures x in all <==> x.position < |similarities| && x == Scored(0.0, similarities[x.position], x.position) {
      if x.position < |similarities| && x == Scored(0.0, similarities[x.position], x.position) {
        assert all[x.position] == x;
      }
    }
  }

  /** The cut keeps the best by similarity: whatever is left out comes after every
      candidate, and nothing is a candidate twice. */
  lemma CandidatesAreBest(similarities: seq<real>, limit: nat)
    ensures var cut := Candidates(similarities, limit);
      && |cut| == Min(limit, |similarities|)
      && DistinctPositions(cut)
      && (forall x | x in cut :: x.position < |similarities| && x == Scored(0.0, similarities[x.position], x.position))
      && (forall x, p: nat | x in cut && p < |similarities| && Scored(0.0, similarities[p], p) !in cut ::
            Before(x, Scored(0.0, similarities[p], p)))
  {
    SortedIndex(similarities);
    var sorted := Sort(BySimilarity(similarities));
    hide Sort, BySimilarity, Ranked, Before;
    var cut := Candidates(similarities, limit);
    forall x, p: nat | x in cut && p < |similarities| && Scored(0.0, similarities[p], p) !in cut
      ensures Before(x, Scored(0.0, similarities[p], p))
    {
      CutBeatsRest(sorted, |cut|, x, Scored(0.0, similarities[p], p));
    }
  }

  lemma RescoredKeepsPositions(candidates: seq<Scored>, scores: seq<real>)
    requires |scores| == |candidates| && DistinctPositions(candidates)
    ensures DistinctPositions(Rescored(candidates, scores))
  {
  }

  /** Retrieval after embedding: the answer is the greedy selection among the
      reranked candidates of the similarity cut. */
  method Retrieve(index: seq<ProcedureId>, similarities: seq<real>, candidateLimit: nat, scores: seq<real>,
                  topK: int, maxTopK: int)
    returns (r: Result<seq<Scored>, RetrievalError>)
    requires |similarities| == |index|
    ensures topK <= 0 || maxTopK < topK <==> r == Err(TopKInvalid)
    ensures r == Err(WrongScoreCount) <==>
      0 < topK <= maxTopK && Candidates(similarities, candidateLimit) != []
      && |scores| != |Candidates(similarities, candidateLimit)|
    ensures r.Ok? ==>
      var cut := Candidates(similarities, candidateLimit);
      if cut == [] then r.value == []
      else
        && |scores| == |cut|
        && var reranked := Sort(Rescored(cut, scores));
        && (forall x | x in reranked :: x.position < |index|)
        && Ranked(reranked) && Ranked(r.value)
        && Picks(reranked, r.value, Chosen(IdsOf(reranked, index), topK))
  {
    if topK <= 0 || maxTopK < topK {
      return Err(TopKInvalid);
    }
    CandidatesAreBest(similarities, candidateLimit);
    var candidates := Candidates(similarities, candidateLimit);
    if candidates == [] {
      return Ok([]);
    }
    if |scores| != |candidates| {
      return Err(WrongScoreCount);
    }
    var rescored := Rescored(candidates, scores);
    RescoredKeepsPositions(candidates, scores);
    SortRanks(rescored);
    var reranked := Sort(rescored);
    SameElements(rescored, reranked);
    RankedKeepsPositions(rescored, reranked);
    forall x | x in reranked ensures x.position < |index| {
      assert x in rescored;
      var i :| 0 <= i < |rescored| && rescored[i] == x;
      assert candidates[i] in candidates;
    }
    var selected := SelectWithProcedureCoverage(reranked, index, topK);
    r := Ok(selected);
  }
}
