/** Splitting a manifest into requests whose declared sizes stay within a byte budget. */
module Batching {
  import opened Prelude

  datatype File = File(path: string, size: int)

  const INT64_LIMIT: int := 0x8000_0000_0000_0000

  /** Two's-complement addition of 64-bit integers. */
  function Add64(a: int, b: int): (r: int)
    ensures IsInt64(r)
  {
    (a + b + INT64_LIMIT) % (2 * INT64_LIMIT) - INT64_LIMIT
  }

  predicate IsInt64(n: int) {
    -INT64_LIMIT <= n < INT64_LIMIT
  }

  function TotalSize(files: seq<File>): int {
    if files == [] then 0 else TotalSize(files[..|files| - 1]) + files[|files| - 1].size
  }

  lemma TotalSizeSnoc(files: seq<File>, f: File)
    ensures TotalSize(files + [f]) == TotalSize(files) + f.size
  {
    assert (files + [f])[..|files|] == files;
  }

  predicate Over(batch: seq<File>, f: File, budget: int) {
    TotalSize(batch) + f.size > budget
  }

  /** The greedy split over unbounded integers, `current` being the batch still open. */
  function Greedy(current: seq<File>, files: seq<File>, budget: int): seq<seq<File>>
    decreases |files|
  {
    if files == [] then
      if current == [] then [] else [current]
    else if current != [] && Over(current, files[0], budget) then
      [current] + Greedy([files[0]], files[1..], budget)
    else
      Greedy(current + [files[0]], files[1..], budget)
  }

  /** No comparison against the budget overflows 64 bits. */
  predicate NoOverflow(current: seq<File>, files: seq<File>, budget: int)
    decreases |files|
  {
    files == [] ||
    if current != [] && Over(current, files[0], budget) then
      TotalSize(current) + files[0].size < INT64_LIMIT && NoOverflow([files[0]], files[1..], budget)
    else
      NoOverflow(current + [files[0]], files[1..], budget)
  }

  ghost predicate Sizes64(files: seq<File>) {
    forall f <- files :: 0 <= f.size < INT64_LIMIT
  }

  /** A split a caller may send: no batch is empty and only a lone file may exceed the budget. */
  ghost predicate Admissible(batches: seq<seq<File>>, budget: int) {
    forall b <- batches :: b != [] && (|b| > 1 ==> TotalSize(b) <= budget)
  }

  /** Some batch with several files is over the budget. */
  ghost predicate Overfull(batches: seq<seq<File>>, current: seq<File>, budget: int) {
    exists b <- batches + [current] :: |b| > 1 && TotalSize(b) > budget
  }

  lemma Add64Exact(a: int, b: int)
    requires 0 <= a < INT64_LIMIT && 0 <= b < INT64_LIMIT
    ensures Add64(a, b) == if a + b < INT64_LIMIT then a + b else a + b - 2 * INT64_LIMIT
  {
  }

  /** The loop's variables while no comparison has overflowed yet, `rest` being still to come. */
  ghost predicate Exact(files: seq<File>, budget: int, batches: seq<seq<File>>, current: seq<File>, total: int, rest: seq<File>)
  {
    && 0 <= total == TotalSize(current) < INT64_LIMIT
    && (|current| > 1 ==> total <= budget)
    && Admissible(batches, budget)
    && batches + Greedy(current, rest, budget) == Greedy([], files, budget)
    && (NoOverflow(current, rest, budget) <==> NoOverflow([], files, budget))
  }

  /** The closed batches and the open one hold the first `i` files, in order. */
  ghost predicate Covers(batches: seq<seq<File>>, current: seq<File>, files: seq<File>, i: nat) {
    i <= |files| && Flatten(batches) + current == files[..i] && forall b <- batches :: b != []
  }

  lemma OverfullNotAdmissible(batches: seq<seq<File>>, current: seq<File>, budget: int)
    requires Overfull(batches, current, budget)
    ensures !Admissible(batches + [current], budget)
  {
  }

  lemma Sizes64At(files: seq<File>, i: nat)
    requires Sizes64(files) && i < |files|
    ensures Sizes64(files[i..]) && 0 <= files[i].size
  {
    assert forall f <- files[i..] :: f in files;
  }

  lemma ExactStart(files: seq<File>, budget: int)
    ensures Exact(files, budget, [], [], 0, files)
  {
  }

  lemma ExactEnd(files: seq<File>, budget: int, batches: seq<seq<File>>, current: seq<File>, total: int)
    requires Exact(files, budget, batches, current, total, []) && 0 <= budget
    ensures NoOverflow([], files, budget)
    ensures Greedy([], files, budget) == if current == [] then batches else batches + [current]
    ensures Admissible(Greedy([], files, budget), budget)
  {
  }

  lemma ExactCut(files: seq<File>, budget: int, batches: seq<seq<File>>, current: seq<File>, total: int, rest: seq<File>)
    requires Exact(files, budget, batches, current, total, rest)
    requires rest != [] && 0 <= rest[0].size < INT64_LIMIT && current != [] && total + rest[0].size < INT64_LIMIT
    requires Over(current, rest[0], budget)
    ensures Exact(files, budget, batches + [current], [rest[0]], rest[0].size, rest[1..])
  {
    TotalSizeSnoc([], rest[0]);
    assert [] + [rest[0]] == [rest[0]];
    var later := Greedy([rest[0]], rest[1..], budget);
    assert Greedy(current, rest, budget) == [current] + later;
    hide TotalSize, Greedy;
    ConcatAssociative(batches, [current], later);
  }

  lemma ExactAppend(files: seq<File>, budget: int, batches: seq<seq<File>>, current: seq<File>, total: int, rest: seq<File>)
    requires Exact(files, budget, batches, current, total, rest)
    requires rest != [] && 0 <= rest[0].size < INT64_LIMIT && total + rest[0].size < INT64_LIMIT
    requires current == [] || !Over(current, rest[0], budget)
    ensures Exact(files, budget, batches, current + [rest[0]], total + rest[0].size, rest[1..])
  {
    TotalSizeSnoc(current, rest[0]);
    hide TotalSize;
  }

  lemma ExactOverflow(files: seq<File>, budget: int, batches: seq<seq<File>>, current: seq<File>, total: int, rest: seq<File>)
    requires Exact(files, budget, batches, current, total, rest)
    requires rest != [] && current != [] && budget < INT64_LIMIT <= total + rest[0].size
    ensures !NoOverflow([], files, budget) && Overfull(batches, current + [rest[0]], budget)
  {
    TotalSizeSnoc(current, rest[0]);
    hide TotalSize, Greedy, Admissible;
    assert (batches + [current + [rest[0]]])[|batches|] == current + [rest[0]];
  }

  /** The loop's variables: exact so far, or the greedy split has been left for good. */
  ghost predicate Tracks(files: seq<File>, budget: int, batches: seq<seq<File>>, current: seq<File>, total: int, rest: seq<File>, exact: bool) {
    if exact then Exact(files, budget, batches, current, total, rest)
    else !NoOverflow([], files, budget) && Overfull(batches, current, budget)
  }

  lemma TracksStep(files: seq<File>, budget: int, batches: seq<seq<File>>, current: seq<File>, total: int, rest: seq<File>, exact: bool)
    returns (still: bool)
    requires Tracks(files, budget, batches, current, total, rest, exact)
    requires rest != [] && Sizes64(rest) && 0 <= budget < INT64_LIMIT
    ensures var f := rest[0];
            if current != [] && Add64(total, f.size) > budget then
              Tracks(files, budget, batches + [current], [f], Add64(0, f.size), rest[1..], still)
            else
              Tracks(files, budget, batches, current + [f], Add64(total, f.size), rest[1..], still)
  {
    var f := rest[0];
    Add64Exact(0, f.size);
    if !exact {
      still := false;
      StillOverfull(batches, current, [f], budget);
      GrowOverfull(batches, current, f, budget);
    } else {
      Add64Exact(total, f.size);
      still := current == [] || total + f.size < INT64_LIMIT;
      if !still {
        ExactOverflow(files, budget, batches, current, total, rest);
      } else if current != [] && Over(current, f, budget) {
        ExactCut(files, budget, batches, current, total, rest);
      } else {
        ExactAppend(files, budget, batches, current, total, rest);
      }
      hide Add64, TotalSize, Greedy, NoOverflow, Overfull, Admissible;
    }
  }

  lemma TracksEnd(files: seq<File>, budget: int, batches: seq<seq<File>>, current: seq<File>, total: int, exact: bool)
    requires Tracks(files, budget, batches, current, total, [], exact) && 0 <= budget
    ensures var all := if current == [] then batches else batches + [current];
            && (NoOverflow([], files, budget) ==> all == Greedy([], files, budget))
            && (Admissible(all, budget) <==> NoOverflow([], files, budget))
  {
    if exact {
      ExactEnd(files, budget, batches, current, total);
    } else {
      OverfullNotAdmissible(batches, current, budget);
    }
    hide Greedy, NoOverflow;
  }

  /**
    Without an overflow this is the greedy split. The split is one a caller may send exactly when
    no comparison overflows; contents and order survive either way.
  */
  method BatchByTotalSize(files: seq<File>, budget: int) returns (batches: seq<seq<File>>)
    requires Sizes64(files) && 0 <= budget < INT64_LIMIT
    ensures Flatten(batches) == files && forall b <- batches :: b != []
    ensures NoOverflow([], files, budget) ==> batches == Greedy([], files, budget)
    ensures Admissible(batches, budget) <==> NoOverflow([], files, budget)
  {
    batches := [];
    var current: seq<File> := [];
    var total := 0;
    ghost var exact := true;
    assert files[0..] == files;
    assert Covers(batches, current, files, 0);
    hide Covers, Exact, Greedy, NoOverflow, Add64, TotalSize, Flatten, Overfull, Admissible, Sizes64, Tracks;
    assert Tracks(files, budget, batches, current, total, files[0..], exact) by { TracksStart(files, budget); }
    for i := 0 to |files|
      invariant Covers(batches, current, files, i) && (i > 0 <==> current != []) && IsInt64(total)
      invariant Tracks(files, budget, batches, current, total, files[i..], exact)
    {
      var f := files[i];
      assert files[i..][0] == f && files[i..][1..] == files[i + 1..];
      Sizes64At(files, i);
      exact := TracksStep(files, budget, batches, current, total, files[i..], exact);
      if current != [] && Add64(total, f.size) > budget {
        CoversCut(batches, current, files, i);
        batches := batches + [current];
        current := [];
        total := 0;
        assert [] + [f] == [f];
      }
      CoversAppend(batches, current, files, i);
      current := current + [f];
      total := Add64(total, f.size);
    }
    assert files[|files|..] == [];
    TracksEnd(files, budget, batches, current, total, exact);
    if current != [] {
      CoversCut(batches, current, files, |files|);
      batches := batches + [current];
    }
    CoversAll(batches, files);
  }

  const MAX_BATCH_BYTES: int := 6 * 1024 * 1024

  /** A file whose declared size is the largest a 64-bit integer holds takes any other file into its batch. */
  lemma OverflowHappens(f: File)
    requires 0 < f.size < INT64_LIMIT
    ensures var files := [File("huge", INT64_LIMIT - 1), f];
            && Sizes64(files) && !NoOverflow([], files, MAX_BATCH_BYTES)
            && Add64(INT64_LIMIT - 1, f.size) <= MAX_BATCH_BYTES < TotalSize(files)
  {
    var files := [File("huge", INT64_LIMIT - 1), f];
    TotalSizeSnoc([], files[0]);
    TotalSizeSnoc([files[0]], f);
    assert [] + [files[0]] == [files[0]] && [files[0]] + [f] == files && files[1..] == [f];
    assert NoOverflow([], files, MAX_BATCH_BYTES) == NoOverflow([files[0]], [f], MAX_BATCH_BYTES);
    Add64Exact(INT64_LIMIT - 1, f.size);
  }

  lemma TracksStart(files: seq<File>, budget: int)
    ensures Tracks(files, budget, [], [], 0, files, true)
  {
    ExactStart(files, budget);
  }

  lemma CoversCut(batches: seq<seq<File>>, current: seq<File>, files: seq<File>, i: nat)
    requires Covers(batches, current, files, i) && current != []
    ensures Covers(batches + [current], [], files, i)
  {
    FlattenSnoc(batches, current);
  }

  lemma CoversAppend(batches: seq<seq<File>>, current: seq<File>, files: seq<File>, i: nat)
    requires Covers(batches, current, files, i) && i < |files|
    ensures Covers(batches, current + [files[i]], files, i + 1)
  {
    assert files[..i + 1] == files[..i] + [files[i]];
  }

  lemma CoversAll(batches: seq<seq<File>>, files: seq<File>)
    requires Covers(batches, [], files, |files|)
    ensures Flatten(batches) == files && forall b <- batches :: b != []
  {
  }

  lemma StillOverfull(batches: seq<seq<File>>, current: seq<File>, more: seq<File>, budget: int)
    requires Overfull(batches, current, budget)
    ensures Overfull(batches + [current], more, budget)
  {
    var b :| b in batches + [current] && |b| > 1 && TotalSize(b) > budget;
    assert b in batches + [current] + [more];
  }

  lemma GrowOverfull(batches: seq<seq<File>>, current: seq<File>, f: File, budget: int)
    requires Overfull(batches, current, budget) && f.size >= 0
    ensures Overfull(batches, current + [f], budget)
  {
    TotalSizeSnoc(current, f);
    var b :| b in batches + [current] && |b| > 1 && TotalSize(b) > budget;
    var grown := batches + [current + [f]];
    if b in batches {
      assert b in grown;
    } else {
      assert grown[|batches|] == current + [f];
    }
  }

  // ----- the greedy split is the best one

  lemma {:induction false} GreedyAdmissible(current: seq<File>, files: seq<File>, budget: int)
    requires |current| > 1 ==> TotalSize(current) <= budget
    ensures Flatten(Greedy(current, files, budget)) == current + files
    ensures Admissible(Greedy(current, files, budget), budget)
    decreases |files|
  {
    if files == [] {
      assert current + [] == current;
      assert Flatten([current]) == current;
    } else {
      TotalSizeSnoc(current, files[0]);
      assert current + files == (current + [files[0]]) + files[1..];
      assert [files[0]] + files[1..] == files;
      if current != [] && Over(current, files[0], budget) {
        GreedyAdmissible([files[0]], files[1..], budget);
      } else {
        GreedyAdmissible(current + [files[0]], files[1..], budget);
      }
    }
  }

  ghost predicate NonNegative(files: seq<File>) {
    forall f <- files :: f.size >= 0
  }

  /**
    Any other admissible split, met in the middle of a batch `mine` of which `rest` is still to come:
    it is `ahead` by one closed batch, or its open batch is at least as full as ours.
  */
  ghost predicate Rival(current: seq<File>, mine: seq<File>, rest: seq<File>, later: seq<seq<File>>, ahead: bool, budget: int)
  {
    && current != [] && mine != []
    && NonNegative(mine) && NonNegative(rest) && (forall b <- later :: NonNegative(b))
    && (ahead || TotalSize(current) <= TotalSize(mine))
    && (rest != [] ==> TotalSize(mine + rest) <= budget)
    && Admissible(later, budget)
  }

  lemma RivalAppends(current: seq<File>, mine: seq<File>, rest: seq<File>, later: seq<seq<File>>, ahead: bool, budget: int)
    requires Rival(current, mine, rest, later, ahead, budget) && rest != []
    ensures var cut := Over(current, rest[0], budget);
            && (cut ==> Rival([rest[0]], mine + [rest[0]], rest[1..], later, false, budget) && ahead)
            && (!cut ==> Rival(current + [rest[0]], mine + [rest[0]], rest[1..], later, ahead, budget))
  {
    var f := rest[0];
    TotalSizeSnoc(current, f);
    TotalSizeSnoc(mine, f);
    TotalSizeSnoc([], f);
    assert [] + [f] == [f];
    TotalNonNegative(mine);
    hide TotalSize;
    assert (mine + [f]) + rest[1..] == mine + rest;
    PrefixFits(mine + [f], rest[1..]);
  }

  lemma RivalMovesOn(current: seq<File>, mine: seq<File>, later: seq<seq<File>>, ahead: bool, budget: int)
    requires Rival(current, mine, [], later, ahead, budget) && later != []
    ensures later[0] != []
    ensures var f := later[0][0]; var cut := Over(current, f, budget);
            && (cut ==> Rival([f], [f], later[0][1..], later[1..], ahead, budget))
            && (!cut ==> Rival(current + [f], [f], later[0][1..], later[1..], true, budget))
  {
    assert later[0] in later;
    var f := later[0][0];
    assert later[0] == [f] + later[0][1..];
    assert forall b <- later[1..] :: b in later;
  }

  lemma GreedyLength(current: seq<File>, files: seq<File>, budget: int)
    requires current != [] && files != []
    ensures |Greedy(current, files, budget)| ==
              if Over(current, files[0], budget) then 1 + |Greedy([files[0]], files[1..], budget)|
              else |Greedy(current + [files[0]], files[1..], budget)|
  {
  }

  lemma {:induction false} StaysAhead(current: seq<File>, mine: seq<File>, rest: seq<File>, later: seq<seq<File>>,
                                      ahead: bool, files: seq<File>, budget: int)
    requires files == rest + Flatten(later) && Rival(current, mine, rest, later, ahead, budget)
    ensures |Greedy(current, files, budget)| <= 1 + |later| + if ahead then 1 else 0
    decreases |files|
  {
    if files != [] {
      GreedyLength(current, files, budget) by {
        assert current != [];
      }
      assert rest == [] ==> later != [] && files == later[0] + Flatten(later[1..]);
      hide Rival, Admissible, NonNegative, TotalSize, Greedy, Flatten;
      if rest != [] {
        RivalAppends(current, mine, rest, later, ahead, budget);
        ConcatHead(rest, Flatten(later));
        var cut := Over(current, rest[0], budget);
        var next := if cut then [rest[0]] else current + [rest[0]];
        StaysAhead(next, mine + [rest[0]], rest[1..], later, ahead && !cut, files[1..], budget);
      } else {
        RivalMovesOn(current, mine, later, ahead, budget);
        ConcatHead(later[0], Flatten(later[1..]));
        var cut := Over(current, later[0][0], budget);
        var next := if cut then [later[0][0]] else current + [later[0][0]];
        StaysAhead(next, [later[0][0]], later[0][1..], later[1..], !cut || ahead, files[1..], budget);
      }
    }
  }

  lemma {:induction false} TotalNonNegative(files: seq<File>)
    requires NonNegative(files)
    ensures TotalSize(files) >= 0
  {
    if files != [] {
      TotalNonNegative(files[..|files| - 1]);
    }
  }

  lemma {:induction false} PrefixFits(files: seq<File>, more: seq<File>)
    requires NonNegative(more)
    ensures TotalSize(files) <= TotalSize(files + more)
  {
    if more == [] {
      assert files + more == files;
    } else {
      var shorter := more[..|more| - 1];
      PrefixFits(files, shorter);
      assert files + more == (files + shorter) + [more[|more| - 1]];
      TotalSizeSnoc(files + shorter, more[|more| - 1]);
    }
  }

  lemma {:induction false} FlattenContains(parts: seq<seq<File>>)
    ensures forall b <- parts :: forall f <- b :: f in Flatten(parts)
  {
    if parts != [] {
      FlattenContains(parts[1..]);
      forall b, f | b in parts && f in b
        ensures f in Flatten(parts)
      {
        assert b == parts[0] || b in parts[1..];
      }
    }
  }

  /** No admissible split into consecutive batches needs fewer requests. */
  lemma GreedyIsMinimal(files: seq<File>, parts: seq<seq<File>>, budget: int)
    requires Sizes64(files) && Flatten(parts) == files && Admissible(parts, budget)
    ensures |Greedy([], files, budget)| <= |parts|
  {
    if files != [] {
      var first := parts[0];
      assert first in parts && first == [files[0]] + first[1..];
      assert files[1..] == first[1..] + Flatten(parts[1..]);
      TotalSizeSnoc([], files[0]);
      assert [] + [files[0]] == [files[0]];
      FlattenContains(parts);
      assert forall b <- parts[1..] :: b in parts;
      StaysAhead([files[0]], [files[0]], first[1..], parts[1..], false, files[1..], budget);
    }
  }

  /** A batch together with the file that opens the next one is over the budget. */
  lemma {:induction false} NeighboursExceed(current: seq<File>, files: seq<File>, budget: int, k: nat)
    requires NonNegative(current + files)
    requires k + 1 < |Greedy(current, files, budget)|
    ensures var batches := Greedy(current, files, budget);
            batches[k + 1] != [] && TotalSize(batches[k] + [batches[k + 1][0]]) > budget
            && TotalSize(batches[k] + batches[k + 1]) > budget
    decreases |files|
  {
    var batches := Greedy(current, files, budget);
    var f := files[0];
    if current != [] && Over(current, f, budget) {
      if k == 0 {
        OpensWith([f], files[1..], budget);
        var next := batches[1];
        TotalSizeSnoc(current, f);
        assert current + next == (current + [f]) + next[1..];
        GreedyContent([f], files[1..], budget);
        assert next in Greedy([f], files[1..], budget);
        forall g | g in next
          ensures g in current + files
        {
          assert g in [f] + files[1..];
        }
        PrefixFits(current + [f], next[1..]);
      } else {
        NeighboursExceed([f], files[1..], budget, k - 1);
      }
    } else {
      NeighboursExceed(current + [f], files[1..], budget, k);
    }
  }

  lemma {:induction false} OpensWith(current: seq<File>, files: seq<File>, budget: int)
    requires current != []
    ensures var batches := Greedy(current, files, budget); batches != [] && current <= batches[0]
    decreases |files|
  {
    if files != [] && !Over(current, files[0], budget) {
      OpensWith(current + [files[0]], files[1..], budget);
    }
  }

  lemma {:induction false} GreedyContent(current: seq<File>, files: seq<File>, budget: int)
    ensures forall b <- Greedy(current, files, budget) :: forall f <- b :: f in current + files
    decreases |files|
  {
    if files != [] {
      if current != [] && Over(current, files[0], budget) {
        GreedyContent([files[0]], files[1..], budget);
      } else {
        GreedyContent(current + [files[0]], files[1..], budget);
      }
    }
  }
}
