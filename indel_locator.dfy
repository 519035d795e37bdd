/**
 * Locating the insertion or deletion that starts right after a reference
 * position, by walking a CIGAR from the alignment start, and the tumor-side
 * lookup that takes the indel from the read's assembled contig and confirms
 * it against the read's own CIGAR.
 */
module IndelLocator {
  import opened Wrappers
  import opened Alignment

  /** Read bases the walk steps over for one element: M, S and a non-anchored I. */
  function ReadAdvance(e: CigarElement): nat {
    if e.op == M || e.op == S || e.op == I then e.length else 0
  }

  /** Reference bases the walk steps over for one element: M and a non-anchored D. */
  function RefAdvance(e: CigarElement): nat {
    if e.op == M || e.op == D then e.length else 0
  }

  /** Total read bases consumed by a CIGAR prefix. */
  function ReadConsumed(c: Cigar): nat
    decreases |c|
  {
    if c == [] then 0 else ReadConsumed(c[..|c| - 1]) + ReadAdvance(c[|c| - 1])
  }

  /** Total reference bases consumed by a CIGAR prefix. */
  function RefConsumed(c: Cigar): nat
    decreases |c|
  {
    if c == [] then 0 else RefConsumed(c[..|c| - 1]) + RefAdvance(c[|c| - 1])
  }

  /**
   * Element k is an insertion or a deletion reached when the reference
   * position of the walk is refPos + 1, that is, the indel follows the
   * reference base refPos.
   */
  predicate AnchoredAt(alignmentStart: int, cigar: Cigar, refPos: int, k: int) {
    0 <= k < |cigar| && IsIndel(cigar[k].op)
    && alignmentStart + RefConsumed(cigar[..k]) == refPos + 1
  }

  /** The first anchored element at or after index from. */
  function FirstAnchored(alignmentStart: int, cigar: Cigar, refPos: int, from: nat): (r: Option<nat>)
    requires from <= |cigar|
    decreases |cigar| - from
    ensures r.Some? ==>
      from <= r.value && AnchoredAt(alignmentStart, cigar, refPos, r.value)
      && forall j :: from <= j < r.value ==> !AnchoredAt(alignmentStart, cigar, refPos, j)
    ensures r.None? ==> forall j :: from <= j < |cigar| ==> !AnchoredAt(alignmentStart, cigar, refPos, j)
  {
    if from == |cigar| then None
    else if AnchoredAt(alignmentStart, cigar, refPos, from) then Some(from)
    else FirstAnchored(alignmentStart, cigar, refPos, from + 1)
  }

  /**
   * What the CIGAR walk finds: the first anchored insertion or deletion,
   * with the read bases (M, S and I) that precede it as its read index.
   */
  function LocateIndel(alignmentStart: int, cigar: Cigar, refPos: int): Option<IndelInfo> {
    match FirstAnchored(alignmentStart, cigar, refPos, 0)
    case None => None
    case Some(k) => Some(IndelInfo(cigar[k], ReadConsumed(cigar[..k])))
  }

  /**
   * The walk finds nothing exactly when no element is anchored at the
   * position; otherwise it finds the first anchored element, an insertion or
   * deletion of the CIGAR, with the read bases before it as its read index.
   */
  lemma LocateIndelSpec(alignmentStart: int, cigar: Cigar, refPos: int)
    ensures var r := LocateIndel(alignmentStart, cigar, refPos);
      r.None? <==> forall k :: 0 <= k < |cigar| ==> !AnchoredAt(alignmentStart, cigar, refPos, k)
    ensures var r := LocateIndel(alignmentStart, cigar, refPos);
      r.Some? ==>
        exists k :: AnchoredAt(alignmentStart, cigar, refPos, k)
          && (forall j :: 0 <= j < k ==> !AnchoredAt(alignmentStart, cigar, refPos, j))
          && r.value == IndelInfo(cigar[k], ReadConsumed(cigar[..k]))
    ensures var r := LocateIndel(alignmentStart, cigar, refPos);
      r.Some? ==> IsIndel(r.value.element.op) && r.value.element in cigar
  {
    var f := FirstAnchored(alignmentStart, cigar, refPos, 0);
    if f.Some? {
      assert cigar[f.value] in cigar;
    }
  }

  /** How one element moves the walk's read index and reference position. */
  lemma WalkStep(cigar: Cigar, k: nat)
    requires k < |cigar|
    ensures cigar[k].op == M ==>
      ReadConsumed(cigar[..k + 1]) == ReadConsumed(cigar[..k]) + cigar[k].length
      && RefConsumed(cigar[..k + 1]) == RefConsumed(cigar[..k]) + cigar[k].length
    ensures cigar[k].op == I || cigar[k].op == S ==>
      ReadConsumed(cigar[..k + 1]) == ReadConsumed(cigar[..k]) + cigar[k].length
      && RefConsumed(cigar[..k + 1]) == RefConsumed(cigar[..k])
    ensures cigar[k].op == D ==>
      ReadConsumed(cigar[..k + 1]) == ReadConsumed(cigar[..k])
      && RefConsumed(cigar[..k + 1]) == RefConsumed(cigar[..k]) + cigar[k].length
    ensures !(cigar[k].op in {M, I, D, S}) ==>
      ReadConsumed(cigar[..k + 1]) == ReadConsumed(cigar[..k])
      && RefConsumed(cigar[..k + 1]) == RefConsumed(cigar[..k])
  {
    assert cigar[..k + 1][..k] == cigar[..k];
  }

  /** The CIGAR walk: the first indel that starts after reference position refPos. */
  method CheckForIndelAtLocus(alignmentStart: int, cigar: Cigar, refPos: int) returns (ret: Option<IndelInfo>)
    ensures ret == LocateIndel(alignmentStart, cigar, refPos)
  {
    ret := None;
    var readIdx := 0;
    var currRefPos := alignmentStart;
    var k := 0;
    while k < |cigar|
      invariant 0 <= k <= |cigar|
      invariant readIdx == ReadConsumed(cigar[..k])
      invariant currRefPos == alignmentStart + RefConsumed(cigar[..k])
      invariant forall j :: 0 <= j < k ==> !AnchoredAt(alignmentStart, cigar, refPos, j)
      invariant ret.None?
    {
      var element := cigar[k];
      WalkStep(cigar, k);
      if element.op == M {
        readIdx := readIdx + element.length;
        currRefPos := currRefPos + element.length;
      } else if element.op == I {
        if currRefPos == refPos + 1 {
          ret := Some(IndelInfo(element, readIdx));
          assert AnchoredAt(alignmentStart, cigar, refPos, k);
          break;
        }
        readIdx := readIdx + element.length;
      } else if element.op == D {
        if currRefPos == refPos + 1 {
          ret := Some(IndelInfo(element, readIdx));
          assert AnchoredAt(alignmentStart, cigar, refPos, k);
          break;
        }
        currRefPos := currRefPos + element.length;
      } else if element.op == S {
        readIdx := readIdx + element.length;
      }
      k := k + 1;
    }
  }

  /** The indel a read's own CIGAR shows at a locus (the plain walk). */
  function ReadEvidence(read: Read, refPos: int): Option<IndelInfo> {
    LocateIndel(read.alignmentStart, read.cigar, refPos)
  }

  /**
   * Contig-assisted evidence: the contig's indel at the locus, kept only when
   * the read's own walk finds an indel of the same operator there, and then
   * carrying the read's own read index.
   */
  function ContigEvidence(read: Read, refPos: int): Option<IndelInfo>
  {
    match read.contig
    case None => None
    case Some(contig) =>
      match LocateIndel(contig.pos, contig.cigar, refPos)
      case None => None
      case Some(elem) =>
        match ReadEvidence(read, refPos)
        case None => None
        case Some(readElem) =>
          if readElem.element.op != elem.element.op then None
          else Some(elem.(readIndex := readElem.readIndex))
  }

  /**
   * Contig evidence needs a contig whose walk finds an indel element at the
   * position, and a read whose own walk finds an indel of the same operator
   * there; it carries the contig's element and the read's own read index.
   */
  lemma ContigEvidenceSpec(read: Read, refPos: int)
    ensures read.contig.None? ==> ContigEvidence(read, refPos).None?
    ensures var r := ContigEvidence(read, refPos);
      r.Some? ==>
        read.contig.Some? && IsIndel(r.value.element.op) && r.value.element in read.contig.value.cigar
        && LocateIndel(read.contig.value.pos, read.contig.value.cigar, refPos).Some?
        && LocateIndel(read.contig.value.pos, read.contig.value.cigar, refPos).value.element == r.value.element
    ensures var r := ContigEvidence(read, refPos);
      r.Some? ==>
        ReadEvidence(read, refPos).Some?
        && ReadEvidence(read, refPos).value.element.op == r.value.element.op
        && ReadEvidence(read, refPos).value.readIndex == r.value.readIndex
  {
    if read.contig.Some? {
      LocateIndelSpec(read.contig.value.pos, read.contig.value.cigar, refPos);
    }
  }

  /** Contig and read both show an indel of the same operator: the read counts, with the contig's element. */
  lemma ContigEvidenceConfirmed(read: Read, refPos: int, contigIndel: IndelInfo, readIndel: IndelInfo)
    requires read.contig.Some?
    requires LocateIndel(read.contig.value.pos, read.contig.value.cigar, refPos) == Some(contigIndel)
    requires ReadEvidence(read, refPos) == Some(readIndel)
    requires readIndel.element.op == contigIndel.element.op
    ensures ContigEvidence(read, refPos) == Some(IndelInfo(contigIndel.element, readIndel.readIndex))
  {
  }

  /** An operator mismatch between contig and read, or no indel in the read, discards the read. */
  lemma ContigEvidenceRejected(read: Read, refPos: int, contigIndel: IndelInfo)
    requires read.contig.Some?
    requires LocateIndel(read.contig.value.pos, read.contig.value.cigar, refPos) == Some(contigIndel)
    requires ReadEvidence(read, refPos).None? || ReadEvidence(read, refPos).value.element.op != contigIndel.element.op
    ensures ContigEvidence(read, refPos).None?
  {
  }

  /** The tumor-side lookup: contig indel at the locus, confirmed by the read's own walk. */
  method CheckReadForIndelAtLocus(read: Read, refPos: int) returns (elem: Option<IndelInfo>)
    ensures elem == ContigEvidence(read, refPos)
  {
    elem := None;
    if read.contig.Some? {
      var contig := read.contig.value;
      elem := CheckForIndelAtLocus(contig.pos, contig.cigar, refPos);
      if elem.Some? {
        var readElem := CheckForIndelAtLocus(read.alignmentStart, read.cigar, refPos);
        if readElem.None? || readElem.value.element.op != elem.value.element.op {
          elem := None;
        } else {
          elem := Some(elem.value.(readIndex := readElem.value.readIndex));
        }
      }
    }
  }
}
