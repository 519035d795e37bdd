/**
 * The per-locus decision: a tumor pass that settles on one candidate indel
 * and counts its supporting reads, an ambiguity veto when tumor reads
 * disagree, the distance-from-read-end filter, and a normal-sample veto.
 */
module LocusEvaluator {
  import opened Wrappers
  import opened Alignment
  import opened IndelLocator
  import opened DistanceFilter
  import opened CallEmitter

  const MinSupportingReads: nat := 2

  /**
   * The tumor pass's running state: the candidate indel element, the number
   * of reads supporting it, and whether one of them passed the distance filter.
   */
  datatype TumorTally = TumorTally(candidate: Option<CigarElement>, count: nat, sufficientDistance: bool)

  const NoTally := TumorTally(None, 0, false)

  /** The read's evidence is an indel different from the established candidate. */
  predicate Conflicts(t: TumorTally, ev: Option<IndelInfo>) {
    t.candidate.Some? && ev.Some? && ev.value.element != t.candidate.value
  }

  /** One tumor read that does not conflict: it sets or supports the candidate and may pass the distance filter. */
  function Absorb(t: TumorTally, read: Read, ev: Option<IndelInfo>): TumorTally {
    var t' :=
      if ev.None? then t
      else if t.candidate.None? then TumorTally(Some(ev.value.element), 1, t.sufficientDistance)
      else t.(count := t.count + 1);
    if !t'.sufficientDistance && t'.candidate.Some? && ev.Some? && ev.value.element == t'.candidate.value
    then t'.(sufficientDistance := SufficientDistanceFromReadEnd(read, ev.value.readIndex))
    else t'
  }

  /**
   * The tumor pass over the remaining reads: a conflicting read clears the
   * candidate and the count and ends the pass.
   */
  function TumorScan(records: seq<Read>, position: int, t: TumorTally): (r: TumorTally)
    requires t.count > 0 ==> t.candidate.Some?
    ensures r.count > 0 ==> r.candidate.Some?
    decreases |records|
  {
    if records == [] then t
    else
      var ev := ContigEvidence(records[0], position);
      if Conflicts(t, ev) then TumorTally(None, 0, t.sufficientDistance)
      else TumorScan(records[1..], position, Absorb(t, records[0], ev))
  }

  /** Tumor reads with contig-assisted evidence at the position. */
  function EvidenceCount(records: seq<Read>, position: int): nat
    decreases |records|
  {
    if records == [] then 0
    else (if ContigEvidence(records[0], position).Some? then 1 else 0) + EvidenceCount(records[1..], position)
  }

  /** Two tumor reads give different indel elements (operator or length). */
  predicate Ambiguous(records: seq<Read>, position: int) {
    exists r1, r2 :: r1 in records && r2 in records
      && ContigEvidence(r1, position).Some? && ContigEvidence(r2, position).Some?
      && ContigEvidence(r1, position).value.element != ContigEvidence(r2, position).value.element
  }

  /** Some tumor read's evidence differs from element c. */
  predicate Contradicts(records: seq<Read>, position: int, c: CigarElement) {
    exists r :: r in records && ContigEvidence(r, position).Some? && ContigEvidence(r, position).value.element != c
  }

  /** Some tumor read with evidence has its indel far enough from both read ends. */
  predicate SupportedAwayFromEnds(records: seq<Read>, position: int) {
    exists r :: r in records && ContigEvidence(r, position).Some?
      && SufficientDistanceFromReadEnd(r, ContigEvidence(r, position).value.readIndex)
  }

  /** A normal read's own CIGAR shows an indel at the position, far enough from both read ends. */
  predicate NormalQualifies(read: Read, position: int) {
    ReadEvidence(read, position).Some?
    && SufficientDistanceFromReadEnd(read, ReadEvidence(read, position).value.readIndex)
  }

  predicate NormalHasIndel(records: seq<Read>, position: int) {
    exists r :: r in records && NormalQualifies(r, position)
  }

  /** The call made at a locus, if any; chromosome and position come from the normal side. */
  function LocusCall(normalReads: ReadsAtLocus, tumorReads: ReadsAtLocus): Option<Call> {
    var position := normalReads.locus.position;
    var t := TumorScan(tumorReads.records, position, NoTally);
    if t.count >= MinSupportingReads && t.sufficientDistance && !NormalHasIndel(normalReads.records, position)
    then Some(Call(normalReads.chromosome, position, t.candidate.value,
                   |normalReads.records|, |tumorReads.records|, t.count))
    else None
  }

  lemma SplitMembership<T>(s: seq<T>, x: T)
    requires s != []
    ensures x in s <==> x == s[0] || x in s[1..]
  {
    assert s == [s[0]] + s[1..];
  }

  /** Once a candidate stands, the pass either meets a contradicting read or counts every read with evidence. */
  lemma {:induction false} TumorScanWithCandidate(records: seq<Read>, position: int, t: TumorTally)
    requires t.candidate.Some?
    ensures var r := TumorScan(records, position, t);
      if Contradicts(records, position, t.candidate.value) then r.candidate.None? && r.count == 0
      else r == TumorTally(t.candidate, t.count + EvidenceCount(records, position),
                           t.sufficientDistance || SupportedAwayFromEnds(records, position))
    decreases |records|
  {
    if records != [] {
      var c := t.candidate.value;
      var x := records[0];
      var ev := ContigEvidence(x, position);
      forall y ensures y in records <==> y == x || y in records[1..] {
        SplitMembership(records, y);
      }
      if Conflicts(t, ev) {
        assert Contradicts(records, position, c);
      } else {
        var t' := Absorb(t, x, ev);
        TumorScanWithCandidate(records[1..], position, t');
        assert Contradicts(records, position, c) <==> Contradicts(records[1..], position, c);
        assert SupportedAwayFromEnds(records, position) <==>
          (ev.Some? && SufficientDistanceFromReadEnd(x, ev.value.readIndex))
          || SupportedAwayFromEnds(records[1..], position);
      }
    }
  }

  /** From an empty tally, the pass ends cleared when the reads are ambiguous, and otherwise counts all evidence. */
  lemma {:induction false} TumorScanFromStart(records: seq<Read>, position: int)
    ensures var r := TumorScan(records, position, NoTally);
      if Ambiguous(records, position) then r.candidate.None? && r.count == 0
      else
        r.count == EvidenceCount(records, position)
        && r.sufficientDistance == SupportedAwayFromEnds(records, position)
        && (forall x :: x in records && ContigEvidence(x, position).Some? ==>
              r.candidate == Some(ContigEvidence(x, position).value.element))
    decreases |records|
  {
    if records != [] {
      var x := records[0];
      var ev := ContigEvidence(x, position);
      forall y ensures y in records <==> y == x || y in records[1..] {
        SplitMembership(records, y);
      }
      if ev.None? {
        TumorScanFromStart(records[1..], position);
        assert Ambiguous(records, position) <==> Ambiguous(records[1..], position);
        assert SupportedAwayFromEnds(records, position) <==> SupportedAwayFromEnds(records[1..], position);
      } else {
        var c := ev.value.element;
        var t' := Absorb(NoTally, x, ev);
        assert t' == TumorTally(Some(c), 1, SufficientDistanceFromReadEnd(x, ev.value.readIndex));
        TumorScanWithCandidate(records[1..], position, t');
        assert Ambiguous(records, position) <==> Contradicts(records[1..], position, c) by {
          if Ambiguous(records, position) {
            var r1, r2 :| r1 in records && r2 in records
              && ContigEvidence(r1, position).Some? && ContigEvidence(r2, position).Some?
              && ContigEvidence(r1, position).value.element != ContigEvidence(r2, position).value.element;
            if ContigEvidence(r1, position).value.element != c {
              assert r1 in records[1..];
            } else {
              assert r2 in records[1..];
            }
          }
          if Contradicts(records[1..], position, c) {
            var r :| r in records[1..] && ContigEvidence(r, position).Some? && ContigEvidence(r, position).value.element != c;
            assert x in records && r in records;
          }
        }
        assert SupportedAwayFromEnds(records, position) <==>
          SufficientDistanceFromReadEnd(x, ev.value.readIndex) || SupportedAwayFromEnds(records[1..], position);
      }
    }
  }

  /**
   * A call is made exactly when the tumor evidence is unambiguous, at least
   * two tumor reads support it, one of them lies far enough from its read
   * ends, and no normal read shows any indel there far enough from its ends;
   * the call carries the tumor reads' common element and the read counts.
   */
  lemma LocusCallSpec(normalReads: ReadsAtLocus, tumorReads: ReadsAtLocus)
    ensures var position := normalReads.locus.position;
      var tumor := tumorReads.records;
      LocusCall(normalReads, tumorReads).Some? <==>
        !Ambiguous(tumor, position) && EvidenceCount(tumor, position) >= MinSupportingReads
        && SupportedAwayFromEnds(tumor, position) && !NormalHasIndel(normalReads.records, position)
    ensures var position := normalReads.locus.position;
      var tumor := tumorReads.records;
      var call := LocusCall(normalReads, tumorReads);
      call.Some? ==>
        call.value.chromosome == normalReads.chromosome && call.value.position == position
        && call.value.normalDepth == |normalReads.records| && call.value.tumorDepth == |tumor|
        && call.value.tumorObs == EvidenceCount(tumor, position)
        && IsIndel(call.value.indel.op)
        && (forall x :: x in tumor && ContigEvidence(x, position).Some? ==>
              call.value.indel == ContigEvidence(x, position).value.element)
  {
    var position := normalReads.locus.position;
    var tumor := tumorReads.records;
    TumorScanFromStart(tumor, position);
    var t := TumorScan(tumor, position, NoTally);
    if LocusCall(normalReads, tumorReads).Some? {
      assert SupportedAwayFromEnds(tumor, position);
      var x :| x in tumor && ContigEvidence(x, position).Some?
        && SufficientDistanceFromReadEnd(x, ContigEvidence(x, position).value.readIndex);
      assert t.candidate == Some(ContigEvidence(x, position).value.element);
    }
  }

  /** Ambiguity veto: two different tumor indels at a locus mean no call. */
  lemma AmbiguityVeto(normalReads: ReadsAtLocus, tumorReads: ReadsAtLocus)
    requires Ambiguous(tumorReads.records, normalReads.locus.position)
    ensures LocusCall(normalReads, tumorReads).None?
  {
    TumorScanFromStart(tumorReads.records, normalReads.locus.position);
  }

  /** Normal veto: any qualifying normal indel at the locus suppresses the call, whatever its operator or length. */
  lemma NormalVeto(normalReads: ReadsAtLocus, tumorReads: ReadsAtLocus, r: Read)
    requires r in normalReads.records && NormalQualifies(r, normalReads.locus.position)
    ensures LocusCall(normalReads, tumorReads).None?
  {
  }

  /** Fewer than two supporting tumor reads never give a call. */
  lemma TooFewSupportingReads(normalReads: ReadsAtLocus, tumorReads: ReadsAtLocus)
    requires EvidenceCount(tumorReads.records, normalReads.locus.position) < MinSupportingReads
    ensures LocusCall(normalReads, tumorReads).None?
  {
    LocusCallSpec(normalReads, tumorReads);
  }

  lemma {:induction false} NoContigNoEvidence(records: seq<Read>, position: int)
    requires forall r :: r in records ==> r.contig.None?
    ensures EvidenceCount(records, position) == 0
    decreases |records|
  {
    if records != [] {
      assert records[0] in records;
      forall r | r in records[1..] ensures r.contig.None? {
        SplitMembership(records, r);
      }
      NoContigNoEvidence(records[1..], position);
    }
  }

  /** Tumor reads without a YA contig never count as evidence, so such a tumor sample gives no call. */
  lemma NoContigTagsNoCall(normalReads: ReadsAtLocus, tumorReads: ReadsAtLocus)
    requires forall r :: r in tumorReads.records ==> r.contig.None?
    ensures LocusCall(normalReads, tumorReads).None?
  {
    NoContigNoEvidence(tumorReads.records, normalReads.locus.position);
    TooFewSupportingReads(normalReads, tumorReads);
  }

  /** The per-locus decision, as the source runs it: a tumor pass, then a normal-veto pass. */
  method ProcessLocus(normalReads: ReadsAtLocus, tumorReads: ReadsAtLocus) returns (call: Option<Call>)
    ensures call == LocusCall(normalReads, tumorReads)
  {
    var chromosome := normalReads.chromosome;
    var position := normalReads.locus.position;

    var tumorIndel: Option<CigarElement> := None;
    var tumorCount: nat := 0;
    var hasSufficientDistanceFromReadEnd := false;

    var tumor := tumorReads.records;
    var i := 0;
    while i < |tumor|
      invariant 0 <= i <= |tumor|
      invariant tumorCount > 0 ==> tumorIndel.Some?
      invariant TumorScan(tumor[i..], position, TumorTally(tumorIndel, tumorCount, hasSufficientDistanceFromReadEnd))
                == TumorScan(tumor, position, NoTally)
    {
      var read := tumor[i];
      var readElement := CheckReadForIndelAtLocus(read, position);
      assert tumor[i..][0] == read && tumor[i..][1..] == tumor[i + 1..];
      if tumorIndel.None? && readElement.Some? {
        tumorIndel := Some(readElement.value.element);
        tumorCount := 1;
      } else if tumorIndel.Some? && readElement.Some? {
        if tumorIndel.value == readElement.value.element {
          tumorCount := tumorCount + 1;
        } else {
          // More than one indel at a single locus is not handled.
          tumorIndel := None;
          tumorCount := 0;
          break;
        }
      }
      if !hasSufficientDistanceFromReadEnd && tumorIndel.Some? && readElement.Some?
        && readElement.value.element == tumorIndel.value
      {
        hasSufficientDistanceFromReadEnd := SufficientDistanceFromReadEnd(read, readElement.value.readIndex);
      }
      i := i + 1;
    }
    assert TumorTally(tumorIndel, tumorCount, hasSufficientDistanceFromReadEnd) == TumorScan(tumor, position, NoTally);

    ghost var vetoed := false;
    if tumorCount >= MinSupportingReads && hasSufficientDistanceFromReadEnd {
      var normal := normalReads.records;
      var j := 0;
      while j < |normal|
        invariant 0 <= j <= |normal|
        invariant forall k :: 0 <= k < j ==> !NormalQualifies(normal[k], position)
      {
        var read := normal[j];
        var normalInfo := CheckForIndelAtLocus(read.alignmentStart, read.cigar, position);
        if normalInfo.Some? && SufficientDistanceFromReadEnd(read, normalInfo.value.readIndex) {
          // No call when any normal indel exists at this position.
          assert NormalQualifies(read, position);
          vetoed := true;
          tumorIndel := None;
          tumorCount := 0;
          break;
        }
        j := j + 1;
      }
      assert vetoed <==> NormalHasIndel(normal, position);
    }

    if tumorCount >= MinSupportingReads && hasSufficientDistanceFromReadEnd {
      call := Some(Call(chromosome, position, tumorIndel.value, |normalReads.records|, |tumor|, tumorCount));
    } else {
      call := None;
    }
  }
}
