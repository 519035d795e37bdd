/**
 * The record of a somatic call and its tab-separated output line:
 * chromosome, position, "I" or "D", indel length, normal depth, tumor
 * depth and tumor support count, in that order.
 */
module CallEmitter {
  import opened Alignment

  datatype Call = Call(
    chromosome: string,
    position: int,
    indel: CigarElement,
    normalDepth: nat,
    tumorDepth: nat,
    tumorObs: nat)

  /** "D" for a deletion, "I" for an insertion, empty otherwise. */
  function IndelType(op: CigarOp): string {
    if op == D then "D" else if op == I then "I" else ""
  }

  function DigitChar(d: nat): char
    requires d < 10
  {
    "0123456789"[d]
  }

  function DigitValue(c: char): nat {
    if '0' <= c <= '9' then (c - '0') as nat else 0
  }

  /** Decimal digits of n, most significant first. */
  function NatToString(n: nat): (s: string)
    decreases n
  {
    if n < 10 then [DigitChar(n)] else NatToString(n / 10) + [DigitChar(n % 10)]
  }

  /** The decimal text of a number is a non-empty run of digits. */
  lemma {:induction false} NatToStringDigits(n: nat)
    ensures var s := NatToString(n);
      |s| >= 1 && forall k :: 0 <= k < |s| ==> '0' <= s[k] <= '9'
    decreases n
  {
    if n >= 10 {
      NatToStringDigits(n / 10);
    }
  }

  /** Decimal text of i, with a leading '-' when negative, as Java appends an int. */
  function IntToString(i: int): (s: string) {
    if i < 0 then "-" + NatToString(-i) else NatToString(i)
  }

  function ParseNat(s: string): nat
    decreases |s|
  {
    if s == [] then 0 else ParseNat(s[..|s| - 1]) * 10 + DigitValue(s[|s| - 1])
  }

  function ParseInt(s: string): int {
    if |s| > 0 && s[0] == '-' then 0 - ParseNat(s[1..]) else ParseNat(s)
  }

  lemma {:induction false} NatRoundTrip(n: nat)
    ensures ParseNat(NatToString(n)) == n
    decreases n
  {
    var s := NatToString(n);
    if n >= 10 {
      NatRoundTrip(n / 10);
      assert s[..|s| - 1] == NatToString(n / 10);
    }
  }

  /** Reading back the text of a number gives the number, whatever its sign. */
  lemma IntRoundTrip(i: int)
    ensures ParseInt(IntToString(i)) == i
  {
    if i < 0 {
      NegativeText(-i);
    } else {
      NonNegativeText(i);
    }
  }

  lemma NonNegativeText(n: nat)
    ensures ParseInt(IntToString(n)) == n
  {
    var t := NatToString(n);
    assert IntToString(n) == t;
    NatToStringDigits(n);
    assert t[0] != '-';
    NatRoundTrip(n);
  }

  lemma NegativeText(n: nat)
    requires n > 0
    ensures ParseInt(IntToString(-(n as int))) == -(n as int)
  {
    var t := NatToString(n);
    var s := "-" + t;
    assert IntToString(-(n as int)) == s;
    assert s[0] == '-' && s[1..] == t;
    NatRoundTrip(n);
  }

  /** Fields joined with tab characters. */
  function JoinTab(fields: seq<string>): string
    decreases |fields|
  {
    if |fields| == 0 then ""
    else if |fields| == 1 then fields[0]
    else fields[0] + "\t" + JoinTab(fields[1..])
  }

  /** The index of the first tab in s. */
  function IndexOfTab(s: string): (k: nat)
    requires '\t' in s
    ensures k < |s| && s[k] == '\t' && '\t' !in s[..k]
  {
    if s[0] == '\t' then 0
    else
      assert '\t' in s[1..];
      var k := 1 + IndexOfTab(s[1..]);
      assert s[..k] == [s[0]] + s[1..][..k - 1];
      k
  }

  /** The tab-separated fields of a line. */
  function SplitTab(s: string): seq<string>
    decreases |s|
  {
    if '\t' !in s then [s]
    else
      var k := IndexOfTab(s);
      [s[..k]] + SplitTab(s[k + 1..])
  }

  /** A tab-free field followed by a tab: the first tab is right after the field. */
  lemma {:induction false} FirstTabAfterField(f: string, rest: string)
    requires '\t' !in f
    ensures '\t' in f + "\t" + rest && IndexOfTab(f + "\t" + rest) == |f|
    decreases |f|
  {
    var s := f + "\t" + rest;
    assert s[|f|] == '\t';
    if f != [] {
      assert s[1..] == f[1..] + "\t" + rest;
      assert f[0] in f;
      FirstTabAfterField(f[1..], rest);
    }
  }

  /** Splitting the tab-joined text of tab-free fields gives the fields back. */
  lemma {:induction false} SplitJoin(fields: seq<string>)
    requires |fields| >= 1
    requires forall k :: 0 <= k < |fields| ==> '\t' !in fields[k]
    ensures SplitTab(JoinTab(fields)) == fields
    decreases |fields|
  {
    if |fields| > 1 {
      var f := fields[0];
      var rest := JoinTab(fields[1..]);
      var s := f + "\t" + rest;
      FirstTabAfterField(f, rest);
      assert s[..|f|] == f;
      assert s[|f| + 1..] == rest;
      SplitJoin(fields[1..]);
    }
  }

  /** The fields of the output record, in output order. */
  function RecordFields(call: Call): seq<string> {
    [call.chromosome, IntToString(call.position), IndelType(call.indel.op),
     NatToString(call.indel.length), NatToString(call.normalDepth),
     NatToString(call.tumorDepth), NatToString(call.tumorObs)]
  }

  /** Appending a field extends the joined text by a tab and that field. */
  lemma {:induction false} JoinTabSnoc(fields: seq<string>, x: string)
    requires |fields| >= 1
    ensures JoinTab(fields + [x]) == JoinTab(fields) + "\t" + x
    decreases |fields|
  {
    if |fields| == 1 {
      assert (fields + [x])[1..] == [x];
    } else {
      assert (fields + [x])[1..] == fields[1..] + [x];
      JoinTabSnoc(fields[1..], x);
    }
  }

  /** Seven fields joined, written out as the appends that build them. */
  lemma JoinSeven(f: seq<string>)
    requires |f| == 7
    ensures JoinTab(f) == f[0] + "\t" + f[1] + "\t" + f[2] + "\t" + f[3] + "\t" + f[4] + "\t" + f[5] + "\t" + f[6]
  {
    assert f[..1] == [f[0]];
    JoinTabSnoc(f[..1], f[1]);
    assert f[..2] == f[..1] + [f[1]];
    JoinTabSnoc(f[..2], f[2]);
    assert f[..3] == f[..2] + [f[2]];
    JoinTabSnoc(f[..3], f[3]);
    assert f[..4] == f[..3] + [f[3]];
    JoinTabSnoc(f[..4], f[4]);
    assert f[..5] == f[..4] + [f[4]];
    JoinTabSnoc(f[..5], f[5]);
    assert f[..6] == f[..5] + [f[5]];
    JoinTabSnoc(f[..6], f[6]);
    assert f == f[..6] + [f[6]];
  }

  function Line(call: Call): string {
    JoinTab(RecordFields(call))
  }

  /** The decimal text of a number holds no tab. */
  lemma NatTextTabFree(n: nat)
    ensures '\t' !in NatToString(n)
  {
    NatToStringDigits(n);
  }

  /** No field of a call whose chromosome holds no tab holds a tab. */
  lemma RecordFieldsTabFree(call: Call)
    requires '\t' !in call.chromosome
    ensures var f := RecordFields(call);
      forall k :: 0 <= k < |f| ==> '\t' !in f[k]
  {
    NatTextTabFree(if call.position < 0 then -call.position else call.position);
    NatTextTabFree(call.indel.length);
    NatTextTabFree(call.normalDepth);
    NatTextTabFree(call.tumorDepth);
    NatTextTabFree(call.tumorObs);
  }

  /** Reading a line back gives every field of the call in order. */
  lemma LineFields(call: Call)
    requires '\t' !in call.chromosome
    requires IsIndel(call.indel.op)
    ensures var f := SplitTab(Line(call));
      |f| == 7 && f[0] == call.chromosome && ParseInt(f[1]) == call.position
      && f[2] == (if call.indel.op == D then "D" else "I")
      && ParseNat(f[3]) == call.indel.length && ParseNat(f[4]) == call.normalDepth
      && ParseNat(f[5]) == call.tumorDepth && ParseNat(f[6]) == call.tumorObs
  {
    RecordFieldsTabFree(call);
    SplitJoin(RecordFields(call));
    IntRoundTrip(call.position);
    NatRoundTrip(call.indel.length);
    NatRoundTrip(call.normalDepth);
    NatRoundTrip(call.tumorDepth);
    NatRoundTrip(call.tumorObs);
  }

  /** Appends the record's fields, separated by tabs, to an empty buffer. */
  method OutputRecord(call: Call) returns (line: string)
    ensures line == Line(call)
    ensures '\t' !in call.chromosome && IsIndel(call.indel.op) ==>
      var f := SplitTab(line);
      |f| == 7 && f[0] == call.chromosome && ParseInt(f[1]) == call.position
      && f[2] == (if call.indel.op == D then "D" else "I")
      && ParseNat(f[3]) == call.indel.length && ParseNat(f[4]) == call.normalDepth
      && ParseNat(f[5]) == call.tumorDepth && ParseNat(f[6]) == call.tumorObs
  {
    var buf := "";
    buf := buf + call.chromosome;
    buf := buf + "\t";
    buf := buf + IntToString(call.position);
    buf := buf + "\t";
    var kind := "";
    if call.indel.op == D {
      kind := "D";
    } else if call.indel.op == I {
      kind := "I";
    }
    buf := buf + kind;
    buf := buf + "\t";
    buf := buf + NatToString(call.indel.length);
    buf := buf + "\t";
    buf := buf + NatToString(call.normalDepth);
    buf := buf + "\t";
    buf := buf + NatToString(call.tumorDepth);
    buf := buf + "\t";
    buf := buf + NatToString(call.tumorObs);
    line := buf;
    JoinSeven(RecordFields(call));
    assert "" + call.chromosome == call.chromosome;
    if '\t' !in call.chromosome && IsIndel(call.indel.op) {
      LineFields(call);
    }
  }
}
