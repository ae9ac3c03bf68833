/**
The type of a section: the number that its handle line gives in decimal
(pkg/capacity/dmi/dmi.go:133, 156-166, 211-225).
*/
module DmiHandles {
  import opened Options
  import opened Dmi
  import opened DmiRoundTrip

  function Digit(n: nat): char
    requires n < 10
  {
    "0123456789"[n]
  }

  /** A number in decimal, without leading zeros. */
  function Decimal(n: nat): (s: string)
    ensures s != "" && forall j :: 0 <= j < |s| ==> '0' <= s[j] <= '9'
  {
    if n < 10 then [Digit(n)] else Decimal(n / 10) + [Digit(n % 10)]
  }

  lemma NumberAppends(s: string, n: nat)
    requires n < 10 && forall j :: 0 <= j < |s| ==> '0' <= s[j] <= '9'
    ensures Number(s + [Digit(n)]) == 10 * Number(s) + n
  {
    assert (s + [Digit(n)])[..|s|] == s;
    DigitValue(n);
  }

  lemma DigitValue(n: nat)
    requires n < 10
    ensures '0' <= Digit(n) <= '9' && Digit(n) as int - '0' as int == n
  {
  }

  lemma {:induction false} NumberReadsDecimal(n: nat)
    ensures Number(Decimal(n)) == n
  {
    if n < 10 {
      NumberAppends("", n);
      assert "" + [Digit(n)] == [Digit(n)];
    } else {
      NumberReadsDecimal(n / 10);
      NumberAppends(Decimal(n / 10), n % 10);
    }
  }

  /** A type mark with a digit behind it begins at position `i`. */
  predicate MarkedAt(line: string, i: nat) {
    i + 9 < |line| && line[i..i + 9] == "DMI type " && '0' <= line[i + 9] <= '9'
  }

  predicate EndsNumber(after: string) {
    after == "" || !('0' <= after[0] <= '9')
  }

  lemma {:induction false} DigitsEnd(line: string, i: nat, k: nat)
    requires i <= k <= |line| && (forall j :: i <= j < k ==> '0' <= line[j] <= '9') && EndsNumber(line[k..])
    ensures Digits(line, i) == k
    decreases k - i
  {
    if i < k {
      DigitsEnd(line, i + 1, k);
    }
  }

  lemma MarkIsPrefix(line: string)
    ensures MarkedAt(line, 0) <==> |line| > 9 && TYPE_MARK <= line && Digits(line, 9) > 9
  {
    if |line| > 9 && TYPE_MARK <= line {
      assert line[0..9] == TYPE_MARK;
    }
    if MarkedAt(line, 0) {
      assert line[0..9] == line[..9];
    }
  }

  lemma MarkInRest(line: string, i: nat)
    requires line != ""
    ensures MarkedAt(line[1..], i) <==> MarkedAt(line, i + 1)
  {
    if i + 10 < |line| {
      assert line[1..][i..i + 9] == line[i + 1..i + 10];
    }
  }

  /** A line without such a mark has no type. */
  lemma {:induction false} NoMarkNoType(line: string)
    requires forall i: nat :: !MarkedAt(line, i)
    ensures HandleType(line).None?
    decreases |line|
  {
    if |line| > 9 {
      MarkIsPrefix(line);
      forall i: nat ensures !MarkedAt(line[1..], i) {
        MarkInRest(line, i);
      }
      NoMarkNoType(line[1..]);
    }
  }

  /** The type is the number behind the first mark, when it is below 2^63. */
  lemma {:induction false} TypeIsRead(before: string, n: nat, after: string)
    requires EndsNumber(after)
    requires
      var line := before + "DMI type " + Decimal(n) + after;
      forall i: nat :: i < |before| ==> !MarkedAt(line, i)
    ensures
      var line := before + "DMI type " + Decimal(n) + after;
      HandleType(line) == if n < 0x8000_0000_0000_0000 then Some(n) else None
    decreases |before|
  {
    var line := before + "DMI type " + Decimal(n) + after;
    MarkIsPrefix(line);
    if before == "" {
      var k := 9 + |Decimal(n)|;
      assert line == "DMI type " + Decimal(n) + after;
      assert line[9..k] == Decimal(n) && line[k..] == after;
      DigitsEnd(line, 9, k);
      NumberReadsDecimal(n);
    } else {
      var rest := before[1..];
      assert line[1..] == rest + "DMI type " + Decimal(n) + after;
      assert !MarkedAt(line, 0);
      forall i: nat | i < |rest| ensures !MarkedAt(line[1..], i) {
        MarkInRest(line, i);
      }
      TypeIsRead(rest, n, after);
    }
  }

  // ---------------------------------------------------------------- printed handles

  /** The first line of a section, as dmidecode prints it. */
  function HandleLine(address: string, kind: nat, size: string): string {
    "Handle " + address + ", DMI type " + Decimal(kind) + ", " + size
  }

  /** An address in hexadecimal has no letter of the mark but the first. */
  lemma HandleLineType(address: string, kind: nat, size: string)
    requires 'M' !in address
    ensures HandleType(HandleLine(address, kind, size)) ==
      if kind < 0x8000_0000_0000_0000 then Some(kind) else None
    ensures "Handle" <= HandleLine(address, kind, size)
  {
    var before := "Handle " + address + ", ";
    var after := ", " + size;
    var line := before + "DMI type " + Decimal(kind) + after;
    assert HandleLine(address, kind, size) == line;
    assert forall i :: 0 <= i < |before| ==> before[i] != 'M';
    forall i: nat | i < |before| ensures !MarkedAt(line, i) {
      if i + 9 < |line| {
        assert line[i..i + 9][1] == line[i + 1];
        assert line[i + 1] == if i + 1 < |before| then before[i + 1] else 'D';
      }
    }
    TypeIsRead(before, kind, after);
  }

  /** A section with its address, its type and the size it names. */
  datatype Typed = Typed(address: string, kind: nat, size: string, parts: seq<Part>)

  predicate GoodTyped(t: Typed) {
    && 'M' !in t.address && t.kind < 0x8000_0000_0000_0000 && t.parts != []
    && forall i :: 0 <= i < |t.parts| ==> GoodPart(t.parts[i])
  }

  function Records(ts: seq<Typed>): (rs: seq<Record>)
    ensures |rs| == |ts|
    ensures forall i :: 0 <= i < |ts| ==>
      rs[i] == Record(HandleLine(ts[i].address, ts[i].kind, ts[i].size), ts[i].parts)
  {
    seq(|ts|, i requires 0 <= i < |ts| => Record(HandleLine(ts[i].address, ts[i].kind, ts[i].size), ts[i].parts))
  }

  lemma {:induction false} MeaningAt(rs: seq<Record>, i: nat)
    requires GoodRecords(rs) && i < |rs|
    ensures |RecordsMeaning(rs)| == |rs|
    ensures RecordsMeaning(rs)[i] == Section(rs[i].handle, HandleType(rs[i].handle).value, PartsMeaning(rs[i].parts))
    decreases |rs|
  {
    if i > 0 {
      MeaningAt(rs[1..], i - 1);
    } else if |rs| > 1 {
      MeaningAt(rs[1..], 0);
    }
  }

  /** Parsing what is printed gives each section the type it was printed with. */
  lemma TypesAreParsed(aggregator: string, ts: seq<Typed>, i: nat)
    requires aggregator != "" && Tidy(aggregator) && (forall k :: 0 <= k < |ts| ==> GoodTyped(ts[k])) && i < |ts|
    ensures
      var parsed := ParseLines(Print(aggregator, Records(ts)));
      && parsed.Some? && parsed.value.aggregator == aggregator && |parsed.value.sections| == |ts|
      && parsed.value.sections[i] ==
         Section(HandleLine(ts[i].address, ts[i].kind, ts[i].size), ts[i].kind, PartsMeaning(ts[i].parts))
  {
    var rs := Records(ts);
    forall k | 0 <= k < |ts| ensures GoodRecord(rs[k]) {
      HandleLineType(ts[k].address, ts[k].kind, ts[k].size);
    }
    ParseUndoesPrint(aggregator, rs);
    MeaningAt(rs, i);
    HandleLineType(ts[i].address, ts[i].kind, ts[i].size);
  }
}
