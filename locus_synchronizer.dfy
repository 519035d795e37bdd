/**
 * The merge walk over the normal and tumor locus streams: the lagging side
 * advances, and a locus is evaluated only when both sides are at it. The
 * walk holds one pending locus per side and stops as soon as either stream
 * has nothing left to hand out, so the last pending pair is never compared.
 */
module LocusSynchronizer {
  import opened Wrappers
  import opened Alignment
  import opened LocusEvaluator
  import opened CallEmitter

  /** The locus order: chromosome rank in the sequence dictionary, then position. */
  predicate LocusBefore(a: Locus, b: Locus) {
    a.chromRank < b.chromRank || (a.chromRank == b.chromRank && a.position < b.position)
  }

  /** Negative, zero or positive as a comes before, equals or follows b. */
  function CompareLoci(a: Locus, b: Locus): (c: int)
    ensures c == 0 <==> a == b
    ensures c < 0 <==> LocusBefore(a, b)
    ensures c > 0 <==> LocusBefore(b, a)
  {
    if a.chromRank < b.chromRank then -1
    else if a.chromRank > b.chromRank then 1
    else if a.position < b.position then -1
    else if a.position > b.position then 1
    else 0
  }

  /** Strictly ascending loci, hence no locus twice. */
  predicate Sorted(stream: seq<ReadsAtLocus>) {
    forall i, j :: 0 <= i < j < |stream| ==> LocusBefore(stream[i].locus, stream[j].locus)
  }

  /**
   * The index pairs the walk evaluates when its pending pair is (i, j): the
   * walk goes on only while both streams still have a next element.
   */
  function Merge(normal: seq<ReadsAtLocus>, tumor: seq<ReadsAtLocus>, i: nat, j: nat): (r: seq<(nat, nat)>)
    requires i < |normal| && j < |tumor|
    ensures forall p :: p in r ==>
      i <= p.0 < |normal| - 1 && j <= p.1 < |tumor| - 1 && normal[p.0].locus == tumor[p.1].locus
    ensures forall a, b :: 0 <= a < b < |r| ==> r[a].0 < r[b].0 && r[a].1 < r[b].1
    decreases |normal| - i + |tumor| - j
  {
    if i + 1 >= |normal| || j + 1 >= |tumor| then []
    else
      var compare := CompareLoci(normal[i].locus, tumor[j].locus);
      if compare < 0 then Merge(normal, tumor, i + 1, j)
      else if compare > 0 then Merge(normal, tumor, i, j + 1)
      else [(i, j)] + Merge(normal, tumor, i + 1, j + 1)
  }

  /** The index pairs evaluated over the whole run: the first pending pair is both streams' first elements. */
  function Visited(normal: seq<ReadsAtLocus>, tumor: seq<ReadsAtLocus>): (r: seq<(nat, nat)>)
    ensures forall p :: p in r ==> p.0 < |normal| - 1 && p.1 < |tumor| - 1
  {
    if |normal| == 0 || |tumor| == 0 then [] else Merge(normal, tumor, 0, 0)
  }

  /** The calls made at one locus: none, or the one call. */
  function CallsOf(call: Option<Call>): (r: seq<Call>)
    ensures |r| <= 1 && (r == [] <==> call.None?)
    ensures call.Some? ==> r[0] == call.value
  {
    if call.Some? then [call.value] else []
  }

  /** The calls made at the given index pairs, in order. */
  function CallsAt(normal: seq<ReadsAtLocus>, tumor: seq<ReadsAtLocus>, pairs: seq<(nat, nat)>): seq<Call>
    requires forall p :: p in pairs ==> p.0 < |normal| && p.1 < |tumor|
    decreases |pairs|
  {
    if pairs == [] then []
    else CallsOf(LocusCall(normal[pairs[0].0], tumor[pairs[0].1])) + CallsAt(normal, tumor, pairs[1..])
  }

  /** The calls the walk makes when its pending pair is (i, j). */
  function WalkCalls(normal: seq<ReadsAtLocus>, tumor: seq<ReadsAtLocus>, i: nat, j: nat): seq<Call>
    requires i < |normal| && j < |tumor|
    decreases |normal| - i + |tumor| - j
  {
    if i + 1 >= |normal| || j + 1 >= |tumor| then []
    else
      var compare := CompareLoci(normal[i].locus, tumor[j].locus);
      if compare < 0 then WalkCalls(normal, tumor, i + 1, j)
      else if compare > 0 then WalkCalls(normal, tumor, i, j + 1)
      else CallsOf(LocusCall(normal[i], tumor[j])) + WalkCalls(normal, tumor, i + 1, j + 1)
  }

  /** The calls of the whole run, in output order. */
  function SomaticCalls(normal: seq<ReadsAtLocus>, tumor: seq<ReadsAtLocus>): seq<Call> {
    if |normal| == 0 || |tumor| == 0 then [] else WalkCalls(normal, tumor, 0, 0)
  }

  /** The output lines of a sequence of calls. */
  function Render(calls: seq<Call>): (lines: seq<string>)
    ensures |lines| == |calls|
  {
    seq(|calls|, k requires 0 <= k < |calls| => Line(calls[k]))
  }

  /** Any pair of equal loci that the walk can still reach from (a, b) is evaluated. */
  lemma {:induction false} MergeReaches(normal: seq<ReadsAtLocus>, tumor: seq<ReadsAtLocus>, a: nat, b: nat, i: nat, j: nat)
    requires Sorted(normal) && Sorted(tumor)
    requires a <= i < |normal| - 1 && b <= j < |tumor| - 1
    requires normal[i].locus == tumor[j].locus
    ensures (i, j) in Merge(normal, tumor, a, b)
    decreases i - a + j - b
  {
    var compare := CompareLoci(normal[a].locus, tumor[b].locus);
    if compare < 0 {
      MergeReaches(normal, tumor, a + 1, b, i, j);
    } else if compare > 0 {
      MergeReaches(normal, tumor, a, b + 1, i, j);
    } else if a != i || b != j {
      MergeReaches(normal, tumor, a + 1, b + 1, i, j);
    }
  }

  /**
   * For sorted streams, the evaluated pairs are exactly the pairs of equal
   * loci that stand before the last element of both streams.
   */
  lemma VisitedExactly(normal: seq<ReadsAtLocus>, tumor: seq<ReadsAtLocus>)
    requires Sorted(normal) && Sorted(tumor)
    ensures forall p :: p in Visited(normal, tumor) ==>
      p.0 < |normal| - 1 && p.1 < |tumor| - 1 && normal[p.0].locus == tumor[p.1].locus
    ensures forall i, j :: 0 <= i < |normal| - 1 && 0 <= j < |tumor| - 1 && normal[i].locus == tumor[j].locus ==>
      (i, j) in Visited(normal, tumor)
  {
    forall i, j | 0 <= i < |normal| - 1 && 0 <= j < |tumor| - 1 && normal[i].locus == tumor[j].locus
      ensures (i, j) in Visited(normal, tumor)
    {
      MergeReaches(normal, tumor, 0, 0, i, j);
    }
  }

  /** For a sorted normal stream, the evaluated loci are strictly ascending, so none is evaluated twice. */
  lemma VisitedAscending(normal: seq<ReadsAtLocus>, tumor: seq<ReadsAtLocus>)
    requires Sorted(normal)
    ensures var v := Visited(normal, tumor);
      forall a, b :: 0 <= a < b < |v| ==> LocusBefore(normal[v[a].0].locus, normal[v[b].0].locus)
  {
    var v := Visited(normal, tumor);
    if |normal| > 0 && |tumor| > 0 {
      forall a, b | 0 <= a < b < |v| ensures LocusBefore(normal[v[a].0].locus, normal[v[b].0].locus) {
        assert v[a] in v && v[b] in v;
      }
    }
  }

  /** Two identical streams of two loci: the shared second locus is never evaluated. */
  lemma TrailingPairNeverEvaluated(first: ReadsAtLocus, second: ReadsAtLocus)
    requires LocusBefore(first.locus, second.locus)
    ensures Visited([first, second], [first, second]) == [(0, 0)]
  {
    var stream := [first, second];
    assert Merge(stream, stream, 1, 1) == [];
    assert Merge(stream, stream, 0, 0) == [(0, 0)] + Merge(stream, stream, 1, 1);
  }

  /** The walk makes, in order, the calls at the index pairs it evaluates. */
  lemma {:induction false} WalkCallsAtMerge(normal: seq<ReadsAtLocus>, tumor: seq<ReadsAtLocus>, i: nat, j: nat)
    requires i < |normal| && j < |tumor|
    ensures WalkCalls(normal, tumor, i, j) == CallsAt(normal, tumor, Merge(normal, tumor, i, j))
    decreases |normal| - i + |tumor| - j
  {
    if i + 1 < |normal| && j + 1 < |tumor| {
      var compare := CompareLoci(normal[i].locus, tumor[j].locus);
      if compare < 0 {
        WalkCallsAtMerge(normal, tumor, i + 1, j);
      } else if compare > 0 {
        WalkCallsAtMerge(normal, tumor, i, j + 1);
      } else {
        WalkCallsAtMerge(normal, tumor, i + 1, j + 1);
        var p: (nat, nat) := (i, j);
        var tail := Merge(normal, tumor, i + 1, j + 1);
        assert Merge(normal, tumor, i, j) == [p] + tail;
        assert ([p] + tail)[0] == p && ([p] + tail)[1..] == tail;
      }
    }
  }

  /** The calls of the run are exactly the calls at the evaluated pairs, in order. */
  lemma SomaticCallsAtVisited(normal: seq<ReadsAtLocus>, tumor: seq<ReadsAtLocus>)
    ensures SomaticCalls(normal, tumor) == CallsAt(normal, tumor, Visited(normal, tumor))
  {
    if |normal| > 0 && |tumor| > 0 {
      WalkCallsAtMerge(normal, tumor, 0, 0);
    }
  }

  /** The lines of two runs of calls, one after the other. */
  lemma RenderConcat(a: seq<Call>, b: seq<Call>)
    ensures Render(a + b) == Render(a) + Render(b)
  {
  }

  /** Evaluates one shared locus and appends its output line, if any. */
  method EmitLocus(output: seq<string>, normalReads: ReadsAtLocus, tumorReads: ReadsAtLocus) returns (output': seq<string>)
    ensures output' == output + Render(CallsOf(LocusCall(normalReads, tumorReads)))
  {
    var call := ProcessLocus(normalReads, tumorReads);
    output' := output;
    if call.Some? {
      var line := OutputRecord(call.value);
      output' := output' + [line];
    }
  }

  /** The walk as the source runs it: two cursors and one pending locus per side. */
  method Process(normal: seq<ReadsAtLocus>, tumor: seq<ReadsAtLocus>) returns (output: seq<string>)
    ensures output == Render(SomaticCalls(normal, tumor))
  {
    var normalNext, tumorNext := 0, 0;
    var normalReads: Option<ReadsAtLocus> := None;
    var tumorReads: Option<ReadsAtLocus> := None;
    output := [];
    ghost var emitted: seq<Call> := [];
    while normalNext < |normal| && tumorNext < |tumor|
      invariant 0 <= normalNext <= |normal| && 0 <= tumorNext <= |tumor|
      invariant normalNext == 0 <==> tumorNext == 0
      invariant normalNext == 0 ==> normalReads.None? && tumorReads.None? && emitted == []
      invariant normalNext > 0 ==>
        normalReads == Some(normal[normalNext - 1]) && tumorReads == Some(tumor[tumorNext - 1])
        && emitted + WalkCalls(normal, tumor, normalNext - 1, tumorNext - 1) == SomaticCalls(normal, tumor)
      invariant output == Render(emitted)
      decreases |normal| - normalNext + |tumor| - tumorNext
    {
      if normalReads.Some? && tumorReads.Some? {
        var compare := CompareLoci(normalReads.value.locus, tumorReads.value.locus);
        if compare < 0 {
          assert WalkCalls(normal, tumor, normalNext - 1, tumorNext - 1) == WalkCalls(normal, tumor, normalNext, tumorNext - 1);
          normalReads := Some(normal[normalNext]);
          normalNext := normalNext + 1;
        } else if compare > 0 {
          assert WalkCalls(normal, tumor, normalNext - 1, tumorNext - 1) == WalkCalls(normal, tumor, normalNext - 1, tumorNext);
          tumorReads := Some(tumor[tumorNext]);
          tumorNext := tumorNext + 1;
        } else {
          ghost var made := CallsOf(LocusCall(normalReads.value, tumorReads.value));
          ghost var rest := WalkCalls(normal, tumor, normalNext, tumorNext);
          assert WalkCalls(normal, tumor, normalNext - 1, tumorNext - 1) == made + rest;
          assert emitted + (made + rest) == emitted + made + rest;
          output := EmitLocus(output, normalReads.value, tumorReads.value);
          RenderConcat(emitted, made);
          emitted := emitted + made;
          assert emitted + rest == SomaticCalls(normal, tumor);
          normalReads := Some(normal[normalNext]);
          normalNext := normalNext + 1;
          tumorReads := Some(tumor[tumorNext]);
          tumorNext := tumorNext + 1;
        }
      } else {
        assert SomaticCalls(normal, tumor) == WalkCalls(normal, tumor, 0, 0);
        normalReads := Some(normal[normalNext]);
        normalNext := normalNext + 1;
        tumorReads := Some(tumor[tumorNext]);
        tumorNext := tumorNext + 1;
      }
    }
    assert emitted == emitted + [];
  }
}
