/**
 * Worked loci at chr1:100 with 30-base reads: a clean insertion call, the
 * read-end filter, the normal veto, the ambiguity veto and a contig whose
 * operator disagrees with the read's own CIGAR.
 */
module Scenarios {
  import opened Wrappers
  import opened Alignment
  import opened IndelLocator
  import opened DistanceFilter
  import opened LocusEvaluator
  import opened CallEmitter
  import opened LocusSynchronizer

  /** Tumor reads whose 2-base insertion starts ten bases into the read, after reference base 100. */
  const InsertionCigar: Cigar := [CigarElement(M, 10), CigarElement(I, 2), CigarElement(M, 18)]
  const PlainCigar: Cigar := [CigarElement(M, 30)]
  const InsertionRead := Read(91, InsertionCigar, 30, Some(Contig(91, InsertionCigar)))
  const PlainTumorRead := Read(86, PlainCigar, 30, Some(Contig(86, PlainCigar)))
  const PlainNormalRead := Read(86, PlainCigar, 30, None)

  lemma InsertionReadEvidence()
    ensures ContigEvidence(InsertionRead, 100) == Some(IndelInfo(CigarElement(I, 2), 10))
  {
    assert InsertionCigar[..1] == [CigarElement(M, 10)];
    assert !AnchoredAt(91, InsertionCigar, 100, 0);
    assert AnchoredAt(91, InsertionCigar, 100, 1);
  }

  lemma PlainReadEvidence()
    ensures LocateIndel(86, PlainCigar, 100).None?
  {
    assert !AnchoredAt(86, PlainCigar, 100, 0);
  }

  /** Reads that all lack evidence add nothing to the count. */
  lemma {:induction false} NoEvidenceCount(records: seq<Read>, position: int)
    requires forall k :: 0 <= k < |records| ==> ContigEvidence(records[k], position).None?
    ensures EvidenceCount(records, position) == 0
    decreases |records|
  {
    if records != [] {
      NoEvidenceCount(records[1..], position);
    }
  }

  /** Ten clean normal reads and three of ten tumor reads with the insertion: one call with support 3. */
  lemma Scenario1()
    ensures var normal := ReadsAtLocus("chr1", Locus(0, 100), seq(10, _ => PlainNormalRead));
      var tumor := ReadsAtLocus("chr1", Locus(0, 100), [InsertionRead, InsertionRead, InsertionRead] + seq(7, _ => PlainTumorRead));
      LocusCall(normal, tumor) == Some(Call("chr1", 100, CigarElement(I, 2), 10, 10, 3))
  {
    var normal := ReadsAtLocus("chr1", Locus(0, 100), seq(10, _ => PlainNormalRead));
    var plain := seq(7, _ => PlainTumorRead);
    var records := [InsertionRead, InsertionRead, InsertionRead] + plain;
    var tumor := ReadsAtLocus("chr1", Locus(0, 100), records);
    var e := IndelInfo(CigarElement(I, 2), 10);
    InsertionReadEvidence();
    PlainReadEvidence();
    assert ContigEvidence(PlainTumorRead, 100).None?;
    NoEvidenceCount(plain, 100);
    var two := records[1..];
    var one := two[1..];
    assert one[1..] == plain;
    assert EvidenceCount(one, 100) == 1;
    assert EvidenceCount(two, 100) == 2;
    assert EvidenceCount(records, 100) == 3;
    forall r | r in records ensures ContigEvidence(r, 100) == None || ContigEvidence(r, 100) == Some(e) {
      var k :| 0 <= k < |records| && records[k] == r;
      if k >= 3 { assert r == plain[k - 3]; }
    }
    assert !Ambiguous(records, 100);
    assert InsertionRead in records;
    assert SupportedAwayFromEnds(records, 100);
    forall r | r in normal.records ensures !NormalQualifies(r, 100) {
      var k :| 0 <= k < |normal.records| && normal.records[k] == r;
    }
    assert !NormalHasIndel(normal.records, 100);
    LocusCallSpec(normal, tumor);
  }

  /** The seven fields of the scenario's call. */
  lemma Scenario1Fields()
    ensures RecordFields(Call("chr1", 100, CigarElement(I, 2), 10, 10, 3)) == ["chr1", "100", "I", "2", "10", "10", "3"]
  {
    assert NatToString(10) == NatToString(1) + ['0'] == "10";
    assert NatToString(100) == NatToString(10) + ['0'] == "100";
  }

  /** The line of the scenario's call. */
  lemma Scenario1Line()
    ensures Line(Call("chr1", 100, CigarElement(I, 2), 10, 10, 3)) == "chr1\t100\tI\t2\t10\t10\t3"
  {
    Scenario1Fields();
    JoinSeven(["chr1", "100", "I", "2", "10", "10", "3"]);
    assert "chr1" + "\t" + "100" == "chr1\t100";
    assert "chr1\t100" + "\t" + "I" == "chr1\t100\tI";
    assert "chr1\t100\tI" + "\t" + "2" == "chr1\t100\tI\t2";
    assert "chr1\t100\tI\t2" + "\t" + "10" == "chr1\t100\tI\t2\t10";
    assert "chr1\t100\tI\t2\t10" + "\t" + "10" == "chr1\t100\tI\t2\t10\t10";
  }

  /** Insertion reads whose indel starts one base into the read. */
  const EdgeCigar: Cigar := [CigarElement(M, 1), CigarElement(I, 2), CigarElement(M, 27)]
  const EdgeRead := Read(100, EdgeCigar, 30, Some(Contig(100, EdgeCigar)))

  lemma EdgeReadEvidence()
    ensures ContigEvidence(EdgeRead, 100) == Some(IndelInfo(CigarElement(I, 2), 1))
  {
    assert EdgeCigar[..1] == [CigarElement(M, 1)];
    assert !AnchoredAt(100, EdgeCigar, 100, 0);
    assert AnchoredAt(100, EdgeCigar, 100, 1);
  }

  /** Three tumor reads carry the insertion only one base from the read start: the distance filter rejects them all. */
  lemma Scenario2()
    ensures var normal := ReadsAtLocus("chr1", Locus(0, 100), seq(10, _ => PlainNormalRead));
      var tumor := ReadsAtLocus("chr1", Locus(0, 100), [EdgeRead, EdgeRead, EdgeRead] + seq(7, _ => PlainTumorRead));
      LocusCall(normal, tumor).None?
  {
    var normal := ReadsAtLocus("chr1", Locus(0, 100), seq(10, _ => PlainNormalRead));
    var plain := seq(7, _ => PlainTumorRead);
    var records := [EdgeRead, EdgeRead, EdgeRead] + plain;
    EdgeReadEvidence();
    PlainReadEvidence();
    assert ContigEvidence(PlainTumorRead, 100).None?;
    forall r | r in records ensures !(ContigEvidence(r, 100).Some? && SufficientDistanceFromReadEnd(r, ContigEvidence(r, 100).value.readIndex)) {
      var k :| 0 <= k < |records| && records[k] == r;
      if k >= 3 { assert r == plain[k - 3]; }
    }
    assert !SupportedAwayFromEnds(records, 100);
    LocusCallSpec(normal, ReadsAtLocus("chr1", Locus(0, 100), records));
  }

  /** A normal read with its own insertion fifteen bases into the read. */
  const NormalInsertionCigar: Cigar := [CigarElement(M, 15), CigarElement(I, 2), CigarElement(M, 13)]
  const NormalInsertionRead := Read(86, NormalInsertionCigar, 30, None)

  /** Scenario 1 with one normal read showing an insertion far enough from its ends: the normal veto applies. */
  lemma Scenario3()
    ensures var normal := ReadsAtLocus("chr1", Locus(0, 100), [NormalInsertionRead] + seq(9, _ => PlainNormalRead));
      var tumor := ReadsAtLocus("chr1", Locus(0, 100), [InsertionRead, InsertionRead, InsertionRead] + seq(7, _ => PlainTumorRead));
      LocusCall(normal, tumor).None?
  {
    var normal := ReadsAtLocus("chr1", Locus(0, 100), [NormalInsertionRead] + seq(9, _ => PlainNormalRead));
    var tumor := ReadsAtLocus("chr1", Locus(0, 100), [InsertionRead, InsertionRead, InsertionRead] + seq(7, _ => PlainTumorRead));
    assert NormalInsertionCigar[..1] == [CigarElement(M, 15)];
    assert !AnchoredAt(86, NormalInsertionCigar, 100, 0);
    assert AnchoredAt(86, NormalInsertionCigar, 100, 1);
    assert ReadEvidence(NormalInsertionRead, 100) == Some(IndelInfo(CigarElement(I, 2), 15));
    assert NormalInsertionRead in normal.records;
    NormalVeto(normal, tumor, NormalInsertionRead);
  }

  /** A tumor read with a one-base deletion twelve bases into the read. */
  const DeletionCigar: Cigar := [CigarElement(M, 12), CigarElement(D, 1), CigarElement(M, 18)]
  const DeletionRead := Read(89, DeletionCigar, 30, Some(Contig(89, DeletionCigar)))

  /** Two insertion reads and one deletion read: the ambiguity veto applies. */
  lemma Scenario4()
    ensures var normal := ReadsAtLocus("chr1", Locus(0, 100), seq(10, _ => PlainNormalRead));
      var tumor := ReadsAtLocus("chr1", Locus(0, 100), [InsertionRead, InsertionRead, DeletionRead]);
      LocusCall(normal, tumor).None?
  {
    var normal := ReadsAtLocus("chr1", Locus(0, 100), seq(10, _ => PlainNormalRead));
    var tumor := ReadsAtLocus("chr1", Locus(0, 100), [InsertionRead, InsertionRead, DeletionRead]);
    InsertionReadEvidence();
    assert DeletionCigar[..1] == [CigarElement(M, 12)];
    assert !AnchoredAt(89, DeletionCigar, 100, 0);
    assert AnchoredAt(89, DeletionCigar, 100, 1);
    assert ContigEvidence(DeletionRead, 100) == Some(IndelInfo(CigarElement(D, 1), 12));
    assert InsertionRead in tumor.records && DeletionRead in tumor.records;
    assert Ambiguous(tumor.records, 100);
    AmbiguityVeto(normal, tumor);
  }

  /** A contig deletion against the read's own insertion at the same locus. */
  const ContigDeletionCigar: Cigar := [CigarElement(M, 10), CigarElement(D, 1), CigarElement(M, 20)]
  const MismatchRead := Read(91, InsertionCigar, 30, Some(Contig(91, ContigDeletionCigar)))

  /** The operator mismatch between contig and read discards the read's evidence. */
  lemma Scenario5()
    ensures ContigEvidence(MismatchRead, 100).None?
  {
    assert ContigDeletionCigar[..1] == [CigarElement(M, 10)];
    assert !AnchoredAt(91, ContigDeletionCigar, 100, 0);
    assert AnchoredAt(91, ContigDeletionCigar, 100, 1);
    InsertionReadEvidence();
    ContigEvidenceRejected(MismatchRead, 100, IndelInfo(CigarElement(D, 1), 10));
  }

  /**
   * Scenario 1 as the first of two shared loci: the walk writes its line,
   * and stops before the second shared locus, the last of both streams.
   */
  lemma Scenario1Output(normalTail: ReadsAtLocus, tumorTail: ReadsAtLocus)
    requires normalTail.locus == tumorTail.locus == Locus(0, 200)
    ensures var normal := ReadsAtLocus("chr1", Locus(0, 100), seq(10, _ => PlainNormalRead));
      var tumor := ReadsAtLocus("chr1", Locus(0, 100), [InsertionRead, InsertionRead, InsertionRead] + seq(7, _ => PlainTumorRead));
      Render(SomaticCalls([normal, normalTail], [tumor, tumorTail])) == ["chr1\t100\tI\t2\t10\t10\t3"]
  {
    var normal := ReadsAtLocus("chr1", Locus(0, 100), seq(10, _ => PlainNormalRead));
    var tumor := ReadsAtLocus("chr1", Locus(0, 100), [InsertionRead, InsertionRead, InsertionRead] + seq(7, _ => PlainTumorRead));
    Scenario1();
    Scenario1Line();
    var ns := [normal, normalTail];
    var ts := [tumor, tumorTail];
    assert WalkCalls(ns, ts, 1, 1) == [];
    assert SomaticCalls(ns, ts) == [Call("chr1", 100, CigarElement(I, 2), 10, 10, 3)];
  }
}
