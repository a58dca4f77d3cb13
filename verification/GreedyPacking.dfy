// Packing the blocks of a section into chunks under a soft size limit.
module GreedyPacking {
  import opened TextLines

  // A group of blocks is never split, so a single block may exceed the limit.
  predicate Fits(group: seq<string>, max: nat) {
    |group| == 1 || |Join(group)| <= max
  }

  function Flatten(groups: seq<seq<string>>): seq<string> {
    if groups == [] then [] else groups[0] + Flatten(groups[1..])
  }

  /** A way to cut texts into consecutive, non-empty, admissible groups. */
  predicate Grouping(groups: seq<seq<string>>, texts: seq<string>, max: nat) {
    && Flatten(groups) == texts
    && forall g | g in groups :: g != [] && Fits(g, max)
  }

  /** The greedy packing with an open group: keep adding while the next block fits. */
  function PackFrom(current: seq<string>, rest: seq<string>, max: nat): seq<seq<string>>
    requires current != []
    decreases |rest|
  {
    if rest == [] then [current]
    else if |Join(current)| + 2 + |rest[0]| <= max then PackFrom(current + [rest[0]], rest[1..], max)
    else [current] + PackFrom([rest[0]], rest[1..], max)
  }

  function Pack(texts: seq<string>, max: nat): seq<seq<string>> {
    if texts == [] then [] else PackFrom([texts[0]], texts[1..], max)
  }

  function JoinAll(groups: seq<seq<string>>): (r: seq<string>)
    ensures |r| == |groups|
  {
    seq(|groups|, i requires 0 <= i < |groups| => Join(groups[i]))
  }

  // ---------- The packing is a grouping ----------

  lemma JoinAppend(current: seq<string>, piece: string)
    requires current != []
    ensures |Join(current + [piece])| == |Join(current)| + 2 + |piece|
  {
    assert (current + [piece])[..|current|] == current;
  }

  lemma {:induction false} PackFromGroups(current: seq<string>, rest: seq<string>, max: nat)
    requires current != [] && Fits(current, max)
    ensures Grouping(PackFrom(current, rest, max), current + rest, max)
    decreases |rest|
  {
    var groups := PackFrom(current, rest, max);
    if rest == [] {
      assert groups[1..] == [];
    } else {
      assert current + rest == current + [rest[0]] + rest[1..];
      JoinAppend(current, rest[0]);
      if |Join(current)| + 2 + |rest[0]| <= max {
        PackFromGroups(current + [rest[0]], rest[1..], max);
      } else {
        PackFromGroups([rest[0]], rest[1..], max);
        assert groups[1..] == PackFrom([rest[0]], rest[1..], max);
      }
    }
  }

  /** Every group is one block or within the limit, and the groups are the blocks. */
  lemma PackGroups(texts: seq<string>, max: nat)
    ensures Grouping(Pack(texts, max), texts, max)
  {
    if texts != [] {
      PackFromGroups([texts[0]], texts[1..], max);
      assert [texts[0]] + texts[1..] == texts;
    }
  }

  // ---------- No grouping is smaller ----------

  lemma SuffixFits(group: seq<string>, d: nat, max: nat)
    requires Fits(group, max) && d < |group|
    ensures Fits(group[d..], max)
  {
    if d == 0 {
      assert group[0..] == group;
    } else {
      assert group == group[..d] + group[d..];
      JoinConcat(group[..d], group[d..]);
    }
  }

  lemma PrefixIsShorter(group: seq<string>, d: nat)
    requires 0 < d <= |group|
    ensures |Join(group[..d])| <= |Join(group)|
  {
    if d < |group| {
      assert group == group[..d] + group[d..];
      JoinConcat(group[..d], group[d..]);
    } else {
      assert group[..d] == group;
    }
  }

  /** Dropping leading blocks from a grouping needs no more groups. */
  lemma {:induction false} DropBlocks(groups: seq<seq<string>>, texts: seq<string>, d: nat, max: nat)
    returns (fewer: seq<seq<string>>)
    requires Grouping(groups, texts, max) && d <= |texts|
    ensures Grouping(fewer, texts[d..], max) && |fewer| <= |groups|
  {
    if d == 0 {
      fewer := groups;
      assert texts[0..] == texts;
    } else {
      var first := groups[0];
      var rest := Flatten(groups[1..]);
      assert texts == first + rest;
      assert forall g | g in groups[1..] :: g in groups;
      if |first| <= d {
        fewer := DropBlocks(groups[1..], rest, d - |first|, max);
        assert texts[d..] == rest[d - |first|..];
      } else {
        assert first in groups;
        SuffixFits(first, d, max);
        fewer := [first[d..]] + groups[1..];
        assert fewer[1..] == groups[1..] && fewer[0] == first[d..];
        assert forall g | g in fewer :: g == first[d..] || g in groups[1..];
        assert texts[d..] == first[d..] + rest;
      }
    }
  }

  lemma TakeOfConcat(a: seq<string>, b: seq<string>, n: nat)
    requires n <= |a|
    ensures (a + b)[..n] == a[..n]
  {
  }

  // The first group of any grouping ends before the greedy group must be closed.
  lemma FirstGroupEnds(current: seq<string>, rest: seq<string>, groups: seq<seq<string>>, max: nat)
    requires current != [] && rest != [] && Grouping(groups, current + rest, max)
    requires max < |Join(current)| + 2 + |rest[0]|
    ensures groups != [] && |groups[0]| <= |current|
  {
    var first := groups[0];
    assert current + rest == first + Flatten(groups[1..]);
    if |current| < |first| {
      var longer := first[..|current| + 1];
      var whole := current + rest;
      TakeOfConcat(first, Flatten(groups[1..]), |current| + 1);
      assert whole[..|current| + 1] == current + [rest[0]];
      assert first in groups;
      JoinAppend(current, rest[0]);
      PrefixIsShorter(first, |current| + 1);
      assert false;
    }
  }

  lemma {:induction false} PackFromIsMinimal(current: seq<string>, rest: seq<string>,
                                             groups: seq<seq<string>>, max: nat)
    requires current != [] && Grouping(groups, current + rest, max)
    ensures |PackFrom(current, rest, max)| <= |groups|
    decreases |rest|
  {
    if rest == [] {
      assert groups != [];
    } else {
      assert current + rest == current + [rest[0]] + rest[1..];
      if |Join(current)| + 2 + |rest[0]| <= max {
        PackFromIsMinimal(current + [rest[0]], rest[1..], groups, max);
      } else {
        FirstGroupEnds(current, rest, groups, max);
        var first := groups[0];
        var tail := (current + rest)[|first|..];
        assert Grouping(groups[1..], tail, max) by {
          assert current + rest == first + Flatten(groups[1..]);
        }
        var fewer := DropBlocks(groups[1..], tail, |current| - |first|, max);
        assert tail[|current| - |first|..] == [rest[0]] + rest[1..];
        PackFromIsMinimal([rest[0]], rest[1..], fewer, max);
      }
    }
  }

  /** Minimality: no admissible grouping of the same blocks has fewer groups. */
  lemma PackIsMinimal(texts: seq<string>, groups: seq<seq<string>>, max: nat)
    requires Grouping(groups, texts, max)
    ensures |Pack(texts, max)| <= |groups|
  {
    if texts != [] {
      assert [texts[0]] + texts[1..] == texts;
      PackFromIsMinimal([texts[0]], texts[1..], groups, max);
    }
  }

  // ---------- The packing keeps the text ----------

  lemma {:induction false} JoinGroups(groups: seq<seq<string>>)
    requires forall g | g in groups :: g != []
    ensures Join(JoinAll(groups)) == Join(Flatten(groups))
    ensures groups != [] ==> Flatten(groups) != []
  {
    if |groups| == 0 {
    } else if |groups| == 1 {
      assert groups[0] in groups;
      assert Flatten(groups[1..]) == [];
      assert Flatten(groups) == groups[0];
      assert JoinAll(groups) == [Join(groups[0])];
    } else {
      assert groups[0] in groups && groups[1] in groups;
      assert forall g | g in groups[1..] :: g in groups;
      JoinGroups(groups[1..]);
      assert JoinAll(groups) == [Join(groups[0])] + JoinAll(groups[1..]);
      JoinConcat([Join(groups[0])], JoinAll(groups[1..]));
      JoinConcat(groups[0], Flatten(groups[1..]));
    }
  }

  /** When everything fits, greedy packing is one group. */
  lemma {:induction false} PackWhole(current: seq<string>, rest: seq<string>, max: nat)
    requires current != [] && |Join(current + rest)| <= max
    ensures PackFrom(current, rest, max) == [current + rest]
    decreases |rest|
  {
    if rest == [] {
      assert current + rest == current;
    } else {
      var longer := current + [rest[0]];
      assert current + rest == longer + rest[1..];
      assert (longer + rest[1..])[..|longer|] == longer;
      PrefixIsShorter(longer + rest[1..], |longer|);
      JoinAppend(current, rest[0]);
      PackWhole(longer, rest[1..], max);
    }
  }

  lemma JoinAllAppend(groups: seq<seq<string>>, group: seq<string>)
    ensures JoinAll(groups + [group]) == JoinAll(groups) + [Join(group)]
  {
  }

  /** The packing loop: an open group grows while the next block fits. */
  method PackBlocks(texts: seq<string>, max: nat) returns (contents: seq<string>)
    requires texts != []
    ensures contents == JoinAll(Pack(texts, max))
  {
    contents := [];
    var current, currentLen := [texts[0]], |texts[0]|;
    ghost var done: seq<seq<string>> := [];
    var i := 1;
    while i < |texts|
      invariant 1 <= i <= |texts| && current != [] && currentLen == |Join(current)|
      invariant contents == JoinAll(done)
      invariant Pack(texts, max) == done + PackFrom(current, texts[i..], max)
    {
      var piece := texts[i];
      assert texts[i..][1..] == texts[i + 1..] && texts[i..][0] == piece;
      JoinAppend(current, piece);
      if currentLen + 2 + |piece| <= max {
        current := current + [piece];
        currentLen := currentLen + 2 + |piece|;
      } else {
        JoinAllAppend(done, current);
        contents := contents + [Join(current)];
        done := done + [current];
        current, currentLen := [piece], |piece|;
      }
      i := i + 1;
    }
    JoinAllAppend(done, current);
    contents := contents + [Join(current)];
    assert Pack(texts, max) == done + [current];
  }

  /** Splits the blocks of one section into chunk contents: the joined groups of the
      greedy packing, which lose nothing and are as few as any admissible grouping. */
  method SplitSectionContent(texts: seq<string>, max: nat) returns (contents: seq<string>)
    ensures contents == JoinAll(Pack(texts, max))
    ensures Join(contents) == Join(texts)
    ensures forall groups {:trigger Grouping(groups, texts, max)} | Grouping(groups, texts, max) :: |contents| <= |groups|
  {
    forall groups | Grouping(groups, texts, max) ensures |Pack(texts, max)| <= |groups| {
      PackIsMinimal(texts, groups, max);
    }
    PackGroups(texts, max);
    JoinGroups(Pack(texts, max));
    if texts == [] {
      return [];
    }
    var joined := Join(texts);
    if |joined| <= max {
      assert [texts[0]] + texts[1..] == texts;
      PackWhole([texts[0]], texts[1..], max);
      assert Pack(texts, max) == [texts];
      return [joined];
    }
    contents := PackBlocks(texts, max);
  }
}
