/**
 * The parser of the kernel's interrupt-counter table (`/proc/interrupts`).
 *
 * The first line is a header naming one column per CPU. Every later line
 * that is not blank describes one interrupt source: an identifier ending in
 * `:`, one counter per CPU, then free-form annotation text. The parser
 * yields, per such line, the identifier and the sum of its counters.
 */
module Interrupts {
  import opened Wrappers
  import opened Text

  /** One row of the counter table: its IRQ identifier and its count summed over the CPUs. */
  datatype InterruptSource = InterruptSource(irq: string, count: nat)

  /** The only failure of the parser: a table without even a header line. */
  datatype ParseError = EmptyTable

  /** Counters are `u64`; a token too large for one does not parse. */
  const U64_LIMIT: nat := 0x1_0000_0000_0000_0000

  /** `str::parse::<u64>` */
  function ParseCount(token: string): (r: Option<nat>)
    ensures r.Some? ==> r.value < U64_LIMIT
  {
    ParseUnsigned(token, 10, U64_LIMIT)
  }

  predicate IsCount(token: string) {
    ParseCount(token).Some?
  }

  /** The number of CPU columns the header line announces. */
  function CpuCount(header: string): nat {
    |Words(header)|
  }

  /** A non-blank line has at least one whitespace-separated token. */
  lemma NonBlankHasToken(t: string)
    requires t != [] && !IsWhitespace(t[0])
    ensures Words(t) != []
  {
  }

  /**
   * The sum of the counter tokens leading `tokens`, at most `cpuCount` of
   * them: the count stops at the first token that is not a counter.
   */
  function ColumnSum(tokens: seq<string>, cpuCount: nat): nat
    decreases |tokens|
  {
    if tokens == [] || cpuCount == 0 then 0
    else
      match ParseCount(tokens[0])
      case None => 0
      case Some(n) => n + ColumnSum(tokens[1..], cpuCount - 1)
  }

  /** The entry a table line yields (specification of `ParseInterruptLine`). */
  function LineEntry(line: string, cpuCount: nat): Option<InterruptSource> {
    var t := Trim(line);
    if t == [] then None
    else
      NonBlankHasToken(t);
      var parts := Words(t);
      Some(InterruptSource(TrimEndMatches(parts[0], ':'), ColumnSum(parts[1..], cpuCount)))
  }

  /**
   * The counting loop of `parse_interrupt_line`: walks the tokens after the
   * IRQ while they parse as counters, stopping after `cpuCount` of them.
   */
  method SumCounters(parts: seq<string>, cpuCount: nat) returns (count: nat)
    requires parts != []
    ensures count == ColumnSum(parts[1..], cpuCount)
  {
    count := 0;
    var idx := 1;
    while idx < |parts| && idx <= cpuCount
      invariant 1 <= idx <= |parts| && idx <= cpuCount + 1
      invariant count + ColumnSum(parts[idx..], cpuCount + 1 - idx) == ColumnSum(parts[1..], cpuCount)
    {
      var n := ParseCount(parts[idx]);
      if n.Some? {
        assert ColumnSum(parts[idx..], cpuCount + 1 - idx) == n.value + ColumnSum(parts[idx + 1..], cpuCount - idx) by {
          assert parts[idx..][0] == parts[idx];
          assert parts[idx..][1..] == parts[idx + 1..];
        }
        count := count + n.value;
        idx := idx + 1;
      } else {
        assert ColumnSum(parts[idx..], cpuCount + 1 - idx) == 0 by {
          assert parts[idx..][0] == parts[idx];
        }
        break;
      }
    }
    assert ColumnSum(parts[idx..], cpuCount + 1 - idx) == 0;
  }

  /**
   * `parse_interrupt_line`: a blank line yields nothing; any other line
   * yields its first token without trailing colons as the IRQ, and the sum
   * of the counter tokens right after it, at most `cpuCount` of them.
   */
  method ParseInterruptLine(line: string, cpuCount: nat) returns (r: Option<InterruptSource>)
    ensures r == LineEntry(line, cpuCount)
  {
    var t := Trim(line);
    if t == [] {
      return None;
    }
    NonBlankHasToken(t);
    var parts := Words(t);
    var irq := TrimEndMatches(parts[0], ':');
    var count := SumCounters(parts, cpuCount);
    return Some(InterruptSource(irq, count));
  }

  /** What the lines after the header yield, in order (specification of `ParseInterrupts`). */
  function Entries(lines: seq<string>, cpuCount: nat): seq<InterruptSource> {
    FilterMap(lines, (line: string) => LineEntry(line, cpuCount))
  }

  /**
   * `parse_interrupts`: the first line is the header and fixes the CPU
   * count; every later line contributes what `ParseInterruptLine` yields.
   */
  method ParseInterrupts(content: string) returns (r: Result<seq<InterruptSource>, ParseError>)
    ensures r.Failure? <==> content == []
    ensures r.Success? ==> r.value == Entries(Lines(content)[1..], CpuCount(Lines(content)[0]))
  {
    var lines := Lines(content);
    if lines == [] {
      return Failure(EmptyTable);
    }
    var cpuCount := CpuCount(lines[0]);
    var rest := lines[1..];
    var sources := [];
    var i := 0;
    while i < |rest|
      invariant 0 <= i <= |rest|
      invariant sources == Entries(rest[..i], cpuCount)
    {
      var source := ParseInterruptLine(rest[i], cpuCount);
      EntriesStep(rest, i, cpuCount);
      if source.Some? {
        sources := sources + [source.value];
      }
      i := i + 1;
    }
    assert rest[..i] == rest;
    return Success(sources);
  }

  lemma EntriesStep(lines: seq<string>, i: nat, cpuCount: nat)
    requires i < |lines|
    ensures Entries(lines[..i + 1], cpuCount)
         == Entries(lines[..i], cpuCount)
            + match LineEntry(lines[i], cpuCount) case Some(e) => [e] case None => []
  {
    assert lines[..i + 1][..i] == lines[..i];
  }

  /** Parsing lines one block after another gives the entries of each block, in order. */
  lemma EntriesAppend(a: seq<string>, b: seq<string>, cpuCount: nat)
    ensures Entries(a + b, cpuCount) == Entries(a, cpuCount) + Entries(b, cpuCount)
  {
    FilterMapAppend(a, b, (line: string) => LineEntry(line, cpuCount));
  }

  /** A single line yields an entry exactly when it is not blank, and that entry is its `LineEntry`. */
  lemma EntriesOfOneLine(line: string, cpuCount: nat)
    ensures Entries([line], cpuCount) == if AllWhitespace(line) then [] else [LineEntry(line, cpuCount).value]
    ensures !AllWhitespace(line) ==> LineEntry(line, cpuCount).Some?
  {
    FilterMapSingleton(line, (l: string) => LineEntry(l, cpuCount));
  }

  /** Number of lines that are not blank. */
  function NonBlankCount(lines: seq<string>): nat
    decreases |lines|
  {
    if lines == [] then 0
    else NonBlankCount(lines[..|lines| - 1]) + if AllWhitespace(lines[|lines| - 1]) then 0 else 1
  }

  /** Exactly one entry per non-blank line. */
  lemma {:induction false} EntriesCount(lines: seq<string>, cpuCount: nat)
    ensures |Entries(lines, cpuCount)| == NonBlankCount(lines)
    decreases |lines|
  {
    if lines != [] {
      EntriesCount(lines[..|lines| - 1], cpuCount);
    }
  }

  /** An entry's count is 0 when no column right after the IRQ is a counter. */
  lemma LineEntryWithoutCounters(line: string, cpuCount: nat)
    requires !AllWhitespace(line)
    requires var parts := Words(Trim(line)); |parts| <= 1 || cpuCount == 0 || !IsCount(parts[1])
    ensures LineEntry(line, cpuCount).Some? && LineEntry(line, cpuCount).value.count == 0
  {
  }

  /** The counter table as a map from IRQ to count; a later row for the same IRQ wins (`collect` into a `HashMap`). */
  function CountMap(sources: seq<InterruptSource>): (m: map<string, nat>)
    ensures forall irq :: irq in m <==> exists i :: 0 <= i < |sources| && sources[i].irq == irq
    decreases |sources|
  {
    if sources == [] then map[]
    else
      var last := sources[|sources| - 1];
      var m := CountMap(sources[..|sources| - 1]);
      assert forall i :: 0 <= i < |sources| - 1 ==> sources[..|sources| - 1][i] == sources[i];
      m[last.irq := last.count]
  }

  /** The count an IRQ maps to is the count of its last row. */
  lemma {:induction false} CountMapLastRowWins(sources: seq<InterruptSource>, i: nat)
    requires i < |sources|
    requires forall l :: i < l < |sources| ==> sources[l].irq != sources[i].irq
    ensures sources[i].irq in CountMap(sources) && CountMap(sources)[sources[i].irq] == sources[i].count
    decreases |sources|
  {
    var n := |sources|;
    if i < n - 1 {
      var init := sources[..n - 1];
      assert init[i] == sources[i];
      assert forall l :: i < l < |init| ==> init[l] == sources[l];
      CountMapLastRowWins(init, i);
      assert sources[n - 1].irq != sources[i].irq;
    }
  }

  /**
   * Tokens after the counted columns do not change the count: neither those
   * past the last CPU column nor those after a token that is not a counter.
   */
  lemma {:induction false} ColumnSumIgnoresRest(tokens: seq<string>, rest: seq<string>, cpuCount: nat)
    requires |tokens| >= cpuCount || rest == [] || !IsCount(rest[0])
    ensures ColumnSum(tokens + rest, cpuCount) == ColumnSum(tokens, cpuCount)
    decreases |tokens|
  {
    if tokens == [] {
      assert tokens + rest == rest;
    } else if cpuCount > 0 {
      assert (tokens + rest)[0] == tokens[0];
      assert (tokens + rest)[1..] == tokens[1..] + rest;
      ColumnSumIgnoresRest(tokens[1..], rest, cpuCount - 1);
    }
  }

  // ------------------------------------------------------------------
  // The table used by the source's own unit test
  // ------------------------------------------------------------------

  /** The header of the source's sample table: four CPU columns. */
  const FixtureHeaderLine := Spaced([11, 7, 7, 7], ["CPU0", "CPU1", "CPU2", "CPU3"])

  /** The sample row of the first I2C controller's interrupt. */
  const FixtureControllerTokens := ["42:", "12345", "6789", "0", "0", "PCI-MSI", "12345-edge", "i2c_designware.0"]
  const FixtureControllerGaps: seq<nat> := [1, 6, 7, 10, 10, 3, 1, 3]
  const FixtureControllerLine := Spaced(FixtureControllerGaps, FixtureControllerTokens)

  /** The sample row of a GPIO interrupt wired to a touchpad. */
  const FixtureGpioTokens := ["44:", "5000", "0", "0", "0", "IO-APIC", "44-fasteoi", "PIXA3854"]
  const FixtureGpioGaps: seq<nat> := [1, 7, 10, 10, 10, 3, 2, 2]
  const FixtureGpioLine := Spaced(FixtureGpioGaps, FixtureGpioTokens)

  /** The counter tokens of the fixture rows, read as numbers. */
  lemma FixtureCounts()
    ensures ParseCount("0") == Some(0)
    ensures ParseCount("5000") == Some(5000)
    ensures ParseCount("6789") == Some(6789)
    ensures ParseCount("12345") == Some(12345)
  {
    Count5000();
    Count6789();
    Count12345();
  }

  lemma Count5000()
    ensures ParseCount("5000") == Some(5000)
  {
    assert Decimal(5000) == "5000";
    DecimalRoundTrip(5000, U64_LIMIT);
  }

  lemma Count6789()
    ensures ParseCount("6789") == Some(6789)
  {
    assert Decimal(6789) == "6789";
    DecimalRoundTrip(6789, U64_LIMIT);
  }

  lemma Count12345()
    ensures ParseCount("12345") == Some(12345)
  {
    assert Decimal(12345) == "12345";
    DecimalRoundTrip(12345, U64_LIMIT);
  }

  /** A line's entry, read off its tokens. */
  lemma LineEntryOfTokens(line: string, cpuCount: nat, tokens: seq<string>, irq: string, count: nat)
    requires Words(line) == tokens && tokens != []
    requires TrimEndMatches(tokens[0], ':') == irq
    requires ColumnSum(tokens[1..], cpuCount) == count
    ensures LineEntry(line, cpuCount) == Some(InterruptSource(irq, count))
  {
    WordsTrim(line);
    if AllWhitespace(line) {
      WordsOfBlank(line);
    }
  }

  /** The header of the fixture names four CPUs. */
  lemma FixtureHeader()
    ensures CpuCount(FixtureHeaderLine) == 4
  {
    WordsSpaced([11, 7, 7, 7], ["CPU0", "CPU1", "CPU2", "CPU3"]);
  }

  /** Four CPU columns holding `a`, `b`, `c`, `d`, then three annotation tokens. */
  lemma FourColumns(tokens: seq<string>, a: nat, b: nat, c: nat, d: nat)
    requires |tokens| == 7
    requires ParseCount(tokens[0]) == Some(a) && ParseCount(tokens[1]) == Some(b)
    requires ParseCount(tokens[2]) == Some(c) && ParseCount(tokens[3]) == Some(d)
    ensures ColumnSum(tokens, 4) == a + b + c + d
  {
    assert ColumnSum(tokens, 4) == a + ColumnSum(tokens[1..], 3);
    assert tokens[1..][1..] == tokens[2..];
    assert ColumnSum(tokens[1..], 3) == b + ColumnSum(tokens[2..], 2);
    assert tokens[2..][1..] == tokens[3..];
    assert ColumnSum(tokens[2..], 2) == c + ColumnSum(tokens[3..], 1);
    assert tokens[3..][1..] == tokens[4..];
    assert ColumnSum(tokens[3..], 1) == d + ColumnSum(tokens[4..], 0);
  }

  lemma FixtureControllerWords()
    ensures Words(FixtureControllerLine) == FixtureControllerTokens
  {
    WordsSpaced(FixtureControllerGaps, FixtureControllerTokens);
  }

  lemma FixtureControllerColumns()
    ensures ColumnSum(FixtureControllerTokens[1..], 4) == 12345 + 6789
  {
    FixtureCounts();
    FourColumns(FixtureControllerTokens[1..], 12345, 6789, 0, 0);
  }

  /** Counters are summed over the CPU columns; the MSI annotation after them is ignored. */
  lemma FixtureController()
    ensures LineEntry(FixtureControllerLine, 4) == Some(InterruptSource("42", 12345 + 6789))
  {
    FixtureControllerWords();
    FixtureControllerColumns();
    assert TrimEndMatches(FixtureControllerTokens[0], ':') == "42" by {
      assert FixtureControllerTokens[0] == "42" + [':'];
      TrimEndMatchesOne("42", ':');
    }
    LineEntryOfTokens(FixtureControllerLine, 4, FixtureControllerTokens, "42", 12345 + 6789);
  }

  lemma FixtureGpioWords()
    ensures Words(FixtureGpioLine) == FixtureGpioTokens
  {
    WordsSpaced(FixtureGpioGaps, FixtureGpioTokens);
  }

  lemma FixtureGpioColumns()
    ensures ColumnSum(FixtureGpioTokens[1..], 4) == 5000
  {
    FixtureCounts();
    FourColumns(FixtureGpioTokens[1..], 5000, 0, 0, 0);
  }

  /** A row with one non-zero CPU column counts just that column. */
  lemma FixtureGpio()
    ensures LineEntry(FixtureGpioLine, 4) == Some(InterruptSource("44", 5000))
  {
    FixtureGpioWords();
    FixtureGpioColumns();
    assert TrimEndMatches(FixtureGpioTokens[0], ':') == "44" by {
      assert FixtureGpioTokens[0] == "44" + [':'];
      TrimEndMatchesOne("44", ':');
    }
    LineEntryOfTokens(FixtureGpioLine, 4, FixtureGpioTokens, "44", 5000);
  }
}
