# Cadabra somatic indel caller — a Dafny model

This project models the somatic indel caller in `Cadabra` (the ABRA
"cadabra" tool). The caller takes two locus-sorted streams of read groups,
one from a normal sample and one from a tumor sample. It walks them in
lock-step and, at every locus the two streams share, decides whether the
tumor shows one consistent insertion or deletion that the normal does not.
For each such call it writes one tab-separated line.

The model has one module per part of the caller:

- `Alignment` (`alignment.dfy`): already-decoded reads. A read is its
  alignment start, its CIGAR, its length and the optional assembled contig
  carried by its `YA` tag (start and CIGAR). A read group is a chromosome
  name, a locus and the reads.
- `IndelLocator` (`indel_locator.dfy`): the CIGAR walk. It has two forms:
  - `CheckForIndelAtLocus`, the loop, as the source runs it;
  - `LocateIndel`, the function it is proved against.

  `CheckReadForIndelAtLocus` and `ContigEvidence` model the tumor-side lookup
  through the contig. It confirms the contig's indel against the read's own
  walk and takes the read's own read index.
- `DistanceFilter` (`distance_filter.dfy`): the read-end distance filter
  (`MinDistanceFromReadEnd = 3`). It is stated against an independent
  definition: the distance to the nearer read end.
- `LocusEvaluator` (`locus_evaluator.dfy`): the per-locus decision
  (`MinSupportingReads = 2`).
  - `ProcessLocus` is the two-loop method, proved equal to `LocusCall`.
  - `TumorScan` is the tumor pass as a fold that stops at the first
    conflicting read.
  - `LocusCallSpec` characterises the decision: a call exists exactly when
    the tumor evidence is unambiguous, at least two tumor reads support it,
    one of them passes the distance filter, and no normal read shows a
    qualifying indel.
- `CallEmitter` (`call_emitter.dfy`): the output record and its seven fields.
  `OutputRecord` builds it by appends. `LineFields` proves that splitting the
  line on tabs and parsing the numbers gives every field of the call back.
- `LocusSynchronizer` (`locus_synchronizer.dfy`): the merge walk.
  - `Process` is the cursor loop with one pending group per side. It is
    proved to emit `Render(SomaticCalls(..))`.
  - `Merge` and `Visited` give the index pairs the walk evaluates.
  - `VisitedExactly` and `VisitedAscending` state which pairs those are for
    sorted inputs.

- `Scenarios` (`scenarios.dfy`): worked loci at chr1:100 with 30-base reads.
  They cover a clean insertion call and its output line, the read-end
  filter, the normal veto, the ambiguity veto and a contig whose operator
  disagrees with the read's own CIGAR.

Two behaviours of the source are kept as written:

- A tumor read with no `YA` tag never counts as evidence, even when its own
  CIGAR shows the indel (`NoContigTagsNoCall`).
- The loop tests that both streams have a next element before each step. So
  the pending pair is never compared once either stream is exhausted, and the
  last group of either stream is never evaluated (`Merge`, `VisitedExactly`,
  `TrailingPairNeverEvaluated`). A description of the caller that says "every
  locus present in both streams is evaluated" disagrees with the code here;
  the model follows the code.

Loci are compared by (chromosome rank, position). This stands in for the
comparison through the BAM header's sequence dictionary. The output stream is
a sequence of lines instead of standard output.

## Model

| member | source | states |
|---|---|---|
| IndelLocator.LocateIndelSpec | src/main/java/abra/cadabra/Cadabra.java:188-216 | The walk finds nothing exactly when no I or D element is reached at reference position refPos+1. Otherwise it finds the first such element, which is an I or D of the CIGAR, with the summed length of the M, S and I elements before it as its read index. |
| IndelLocator.WalkStep | src/main/java/abra/cadabra/Cadabra.java:194-212 | M advances read index and reference position. I and S advance only the read index. D advances only the reference position. Every other operator advances neither. |
| IndelLocator.CheckForIndelAtLocus | src/main/java/abra/cadabra/Cadabra.java:188-216 | The loop with its early break returns exactly LocateIndel. |
| IndelLocator.ContigEvidenceSpec | src/main/java/abra/cadabra/Cadabra.java:154-185 | Evidence exists only for a read with a YA contig whose walk finds an indel, and whose own walk finds an indel of the same operator. It carries the contig's element and the read's own read index. |
| IndelLocator.ContigEvidenceConfirmed | src/main/java/abra/cadabra/Cadabra.java:166-180 | Contig and read indels with the same operator, even of different lengths, give the contig element with the read's index. |
| IndelLocator.ContigEvidenceRejected | src/main/java/abra/cadabra/Cadabra.java:175-177 | An operator mismatch, or no indel in the read's own CIGAR, gives no evidence. |
| IndelLocator.CheckReadForIndelAtLocus | src/main/java/abra/cadabra/Cadabra.java:154-185 | The lookup, which overwrites the read index in place, returns exactly ContigEvidence. |
| DistanceFilter.SufficientDistanceFromReadEnd | src/main/java/abra/cadabra/Cadabra.java:113-122 | The filter passes iff the indel's read index is at least 3 bases from the nearer read end (3 <= idx <= length-4). |
| DistanceFilter.ShortReadNeverPasses | src/main/java/abra/cadabra/Cadabra.java:116-117 | A read shorter than 7 bases never passes. |
| DistanceFilter.DistanceBoundariesAt30 | src/main/java/abra/cadabra/Cadabra.java:116-117 | For a 30-base read, offsets 3 and 26 pass and offsets 2 and 27 fail. |
| LocusEvaluator.TumorScanWithCandidate | src/main/java/abra/cadabra/Cadabra.java:73-93 | Once a candidate stands, a read with a different element clears candidate and count. Otherwise the count grows by every read with evidence, and the distance flag becomes set iff some such read passes the filter. |
| LocusEvaluator.TumorScanFromStart | src/main/java/abra/cadabra/Cadabra.java:73-93 | From an empty tally: ambiguous tumor evidence ends with no candidate and count 0. Otherwise the count is the number of reads with evidence, every one of them carries the candidate, and the flag says whether one passes the filter. |
| LocusEvaluator.LocusCallSpec | src/main/java/abra/cadabra/Cadabra.java:65-111 | A call exists iff the evidence is unambiguous, count >= 2, a supporting read passes the filter, and no normal read qualifies. The call carries the normal chromosome and position, the tumor element (an I or D), both depths and the support count. |
| LocusEvaluator.AmbiguityVeto | src/main/java/abra/cadabra/Cadabra.java:78-88 | Two tumor reads with different elements (operator or length) mean no call. |
| LocusEvaluator.NormalVeto | src/main/java/abra/cadabra/Cadabra.java:95-110 | Any normal read whose own CIGAR shows an indel at the locus that passes the filter suppresses the call, whatever its operator or length. |
| LocusEvaluator.TooFewSupportingReads | src/main/java/abra/cadabra/Cadabra.java:95-110 | Fewer than two tumor reads with evidence never give a call. |
| LocusEvaluator.NoContigTagsNoCall | src/main/java/abra/cadabra/Cadabra.java:156-159 | Tumor reads without YA tags count as no evidence, so no call is made. |
| LocusEvaluator.ProcessLocus | src/main/java/abra/cadabra/Cadabra.java:65-111 | The tumor loop with its ambiguity break, then the normal loop with its veto break, returns exactly LocusCall. |
| CallEmitter.OutputRecord | src/main/java/abra/cadabra/Cadabra.java:124-151 | The buffer appends give the seven tab-separated fields. For a tab-free chromosome and an indel element, splitting the line on tabs gives back the chromosome, position, "I"/"D", length, normal depth, tumor depth and support count. |
| CallEmitter.LineFields | src/main/java/abra/cadabra/Cadabra.java:130-149 | Splitting a call's line on tabs gives seven fields that parse back to the call's values, in order. |
| CallEmitter.IntRoundTrip | src/main/java/abra/cadabra/Cadabra.java:133 | The decimal text of an int, with a leading '-' when negative, parses back to it. |
| CallEmitter.NatRoundTrip | src/main/java/abra/cadabra/Cadabra.java:143-149 | The decimal text of a count parses back to it. |
| CallEmitter.SplitJoin | src/main/java/abra/cadabra/Cadabra.java:131-149 | Splitting the tab-joined text of tab-free fields gives the fields back. |
| LocusSynchronizer.CompareLoci | src/main/java/abra/cadabra/Cadabra.java:41 | The comparison is zero, negative or positive exactly when the loci are equal, the normal locus comes first, or the tumor locus comes first. |
| LocusSynchronizer.Merge | src/main/java/abra/cadabra/Cadabra.java:39-62 | Every evaluated pair has equal loci and lies before the last element of both streams. The pairs are strictly ascending on both sides. |
| LocusSynchronizer.MergeReaches | src/main/java/abra/cadabra/Cadabra.java:39-51 | For sorted streams, every pair of equal loci ahead of the pending pair, before both last elements, is evaluated. |
| LocusSynchronizer.VisitedExactly | src/main/java/abra/cadabra/Cadabra.java:39-62 | For sorted streams, the evaluated pairs are exactly the pairs of equal loci before the last element of each stream. |
| LocusSynchronizer.VisitedAscending | src/main/java/abra/cadabra/Cadabra.java:39-62 | For a sorted normal stream, the evaluated loci are strictly ascending, so no locus is evaluated twice. |
| LocusSynchronizer.TrailingPairNeverEvaluated | src/main/java/abra/cadabra/Cadabra.java:39 | Two identical two-locus streams evaluate only their first locus; the shared last locus is dropped. |
| LocusSynchronizer.WalkCallsAtMerge | src/main/java/abra/cadabra/Cadabra.java:39-51 | The calls the walk makes from a pending pair are the calls at the pairs it evaluates, in order. |
| LocusSynchronizer.SomaticCallsAtVisited | src/main/java/abra/cadabra/Cadabra.java:39-62 | The calls of a run are the per-locus decisions at the evaluated pairs, in order. |
| LocusSynchronizer.EmitLocus | src/main/java/abra/cadabra/Cadabra.java:48 | Evaluating a shared locus appends that locus's line, if it makes a call, and nothing else. |
| LocusSynchronizer.Process | src/main/java/abra/cadabra/Cadabra.java:30-63 | The two-cursor loop emits exactly the lines of SomaticCalls, in walk order. |
| Scenarios.InsertionReadEvidence | src/main/java/abra/cadabra/Cadabra.java:154-185 | A read at 91 with 10M2I18M and the same contig shows the insertion I2 at read index 10 for locus 100. |
| Scenarios.Scenario1 | src/main/java/abra/cadabra/Cadabra.java:65-111 | Three tumor reads with the insertion among ten, and ten plain normal reads, give the call chr1, 100, I2, depths 10 and 10, support 3. |
| Scenarios.Scenario1Line | src/main/java/abra/cadabra/Cadabra.java:124-151 | That call is written as the line chr1, 100, I, 2, 10, 10, 3, separated by tabs. |
| Scenarios.EdgeReadEvidence | src/main/java/abra/cadabra/Cadabra.java:154-185 | A read with 1M2I27M at 100 shows the insertion at read index 1. |
| Scenarios.Scenario2 | src/main/java/abra/cadabra/Cadabra.java:113-122 | Three supporting reads whose insertion lies one base from the read start give no call, since none passes the read-end filter. |
| Scenarios.Scenario3 | src/main/java/abra/cadabra/Cadabra.java:95-105 | One normal read with its own insertion at the locus, away from its ends, vetoes the call of Scenario1. |
| Scenarios.Scenario4 | src/main/java/abra/cadabra/Cadabra.java:78-88 | Two insertion reads and one deletion read in the tumor give no call. |
| Scenarios.Scenario5 | src/main/java/abra/cadabra/Cadabra.java:166-180 | A contig deletion against the read's own insertion at the same locus gives no evidence. |
| Scenarios.Scenario1Output | src/main/java/abra/cadabra/Cadabra.java:39-62 | With Scenario1's groups followed by one more shared locus, the run writes only Scenario1's line; the last shared locus is not evaluated. |

## Left out

- Parsing the `YA` tag (`split`, `Integer.parseInt`, `TextCigarCodec.decode`) is not modelled. A read carries its contig already decoded, or none; a malformed tag, which throws in the source, is not modelled.
- `compareLoci` through the sequence dictionary is replaced by the order on (chromosome rank, position). The dictionary lookup is outside the class.
- `ReadLocusReader`, `ReadsAtLocus`, `IndelInfo`, `SAMRecord` and the iterators are not part of this model. The streams are sequences with index cursors, and pending groups are `Option` values for the source's nulls.
- The progress message every millionth step and its `count` variable are left out, since they only print to standard error.
- `System.out.println` is left out: lines are collected into the result of `Process`.
- `callSomatic`, `main` and the unused `getReadBase` are left out; they are file handling, hard-coded paths and dead code.
- Java `int` arithmetic is left out: the read index, reference position, depths and counts are unbounded. The source would wrap past 2^31-1, which needs CIGARs or read groups far beyond real data.
- CallEmitter.OutputRecord: the read-back half of its contract is stated only for a chromosome name without a tab character, since a tab inside the name would split the first field.
