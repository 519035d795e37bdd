/**
 * Already-decoded alignment records and the per-locus read groups that the
 * caller consumes. Parsing of BAM files and of CIGAR text happens upstream.
 */
module Alignment {
  import opened Wrappers

  /** The SAM CIGAR operators (EQ stands for '='). */
  datatype CigarOp = M | I | D | N | S | H | P | EQ | X

  predicate IsIndel(op: CigarOp) {
    op == I || op == D
  }

  /** One CIGAR element; two elements are equal when operator and length are. */
  datatype CigarElement = CigarElement(op: CigarOp, length: nat)

  type Cigar = seq<CigarElement>

  /** The assembled contig carried by a read's YA tag: its start position and its CIGAR. */
  datatype Contig = Contig(pos: int, cigar: Cigar)

  /** A read: 1-based alignment start, its own CIGAR, its length and its optional YA contig. */
  datatype Read = Read(alignmentStart: int, cigar: Cigar, readLength: nat, contig: Option<Contig>)

  /** An indel element found by the CIGAR walk and the read index where it begins. */
  datatype IndelInfo = IndelInfo(element: CigarElement, readIndex: nat)

  /** A locus: the chromosome's rank in the sequence dictionary, then the position. */
  datatype Locus = Locus(chromRank: nat, position: int)

  /** The reads of one sample that cover one locus. */
  datatype ReadsAtLocus = ReadsAtLocus(chromosome: string, locus: Locus, records: seq<Read>)
}
