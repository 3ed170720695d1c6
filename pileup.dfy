/**
 * The read-base decoder of bin/stats_from_pileup.py: one samtools mpileup
 * record in, one row of per-position percentages out (parse_mpileup_line),
 * together with the all-zero record, the output row layout, the
 * exon-by-size rule and the polymorphism threshold of the summary.
 */
module Pileup {
  import opened Wrappers
  import opened Text
  import opened Exons

  // ---------------------------------------------------------------- records

  /** One output row: the dictionary parse_mpileup_line returns. */
  datatype Stats = Stats(
    pos: int,
    refBase: string,
    matchPct: int,
    mismatchPct: int,
    insertionPct: int,
    deletionPct: int,
    aPct: int,
    gPct: int,
    cPct: int,
    tPct: int,
    depth: int)

  predicate IsZeroRecord(s: Stats)
  {
    s.matchPct == 0 && s.mismatchPct == 0 && s.insertionPct == 0 && s.deletionPct == 0 &&
    s.aPct == 0 && s.gPct == 0 && s.cPct == 0 && s.tPct == 0 && s.depth == 0
  }

  /** create_zero_stats: the position and reference base, every number 0. */
  function ZeroStats(pos: int, refBase: string): (s: Stats)
    ensures IsZeroRecord(s) && s.pos == pos && s.refBase == refBase
  {
    Stats(pos, refBase, 0, 0, 0, 0, 0, 0, 0, 0, 0)
  }

  /** The keys of base_counts: a reference base outside them raises KeyError. */
  predicate IsBase(b: string) { b == "A" || b == "G" || b == "C" || b == "T" }

  /** base_percentages[b] read back from a row. */
  function BasePct(s: Stats, b: string): int
  {
    if b == "A" then s.aPct else if b == "G" then s.gPct else if b == "C" then s.cPct
    else if b == "T" then s.tPct else 0
  }

  function BaseSum(s: Stats): int { s.aPct + s.gPct + s.cPct + s.tPct }

  // ---------------------------------------------------------------- counting

  /** The event counters and base_counts after (part of) a scan. */
  datatype Counts = Counts(
    matches: nat, mismatches: nat, insertions: nat, deletions: nat,
    a: nat, g: nat, c: nat, t: nat)

  const NoCounts := Counts(0, 0, 0, 0, 0, 0, 0, 0)

  function Events(k: Counts): nat { k.matches + k.mismatches + k.insertions + k.deletions }

  function Nucleotides(k: Counts): nat { k.matches + k.mismatches }

  /** Every match and every mismatch lands in exactly one base count. */
  predicate Balanced(k: Counts) { k.a + k.g + k.c + k.t == Nucleotides(k) }

  /** base_counts[b] += 1, which fails with KeyError unless b is a base. */
  function AddBase(k: Counts, b: string): (r: Option<Counts>)
    ensures r.Some? <==> IsBase(b)
    ensures r.Some? ==> r.value.a + r.value.g + r.value.c + r.value.t == k.a + k.g + k.c + k.t + 1
  {
    if b == "A" then Some(k.(a := k.a + 1))
    else if b == "G" then Some(k.(g := k.g + 1))
    else if b == "C" then Some(k.(c := k.c + 1))
    else if b == "T" then Some(k.(t := k.t + 1))
    else None
  }

  /** A read base in either case: read_bases[i].upper() in "ACGT". */
  predicate IsBaseLetter(ch: char)
  {
    var u := UpperChar(ch);
    u == 'A' || u == 'C' || u == 'G' || u == 'T'
  }

  /** re.sub(r"\^.", "", s): a read start and its mapping-quality character. */
  function RemoveReadStarts(s: string): (r: string)
    ensures |r| <= |s|
    decreases |s|
  {
    if |s| == 0 then []
    else if s[0] == '^' && |s| >= 2 && s[1] != '\n' then RemoveReadStarts(s[2..])
    else [s[0]] + RemoveReadStarts(s[1..])
  }

  /** s.replace("$", ""): read ends. */
  function RemoveReadEnds(s: string): (r: string)
    ensures '$' !in r
    ensures |r| <= |s|
    decreases |s|
  {
    if |s| == 0 then []
    else if s[0] == '$' then RemoveReadEnds(s[1..])
    else [s[0]] + RemoveReadEnds(s[1..])
  }

  function StripMarkers(s: string): string { RemoveReadEnds(RemoveReadStarts(s)) }

  /** Removing read ends works character by character: it distributes over concatenation. */
  lemma {:induction false} RemoveReadEndsAppend(a: string, b: string)
    ensures RemoveReadEnds(a + b) == RemoveReadEnds(a) + RemoveReadEnds(b)
    decreases |a|
  {
    if |a| == 0 {
      assert a + b == b;
    } else {
      assert (a + b)[0] == a[0] && (a + b)[1..] == a[1..] + b;
      RemoveReadEndsAppend(a[1..], b);
      if a[0] != '$' {
        assert [a[0]] + RemoveReadEnds(a[1..]) + RemoveReadEnds(b) ==
               [a[0]] + (RemoveReadEnds(a[1..]) + RemoveReadEnds(b));
      }
    }
  }

  /** A single character is dropped exactly when it is a read end, and kept otherwise. */
  lemma RemoveReadEndsChar(c: char)
    ensures RemoveReadEnds([c]) == if c == '$' then [] else [c]
  {
  }

  /** A column without read ends is left as it is. */
  lemma {:induction false} RemoveReadEndsNone(s: string)
    requires '$' !in s
    ensures RemoveReadEnds(s) == s
    decreases |s|
  {
    if |s| > 0 {
      assert '$' !in s[1..] by { assert forall i | 0 <= i < |s[1..]| :: s[1..][i] == s[i + 1]; }
      RemoveReadEndsNone(s[1..]);
      assert s == [s[0]] + s[1..];
    }
  }

  /** A column without read starts is left as it is. */
  lemma {:induction false} RemoveReadStartsNone(s: string)
    requires '^' !in s
    ensures RemoveReadStarts(s) == s
    decreases |s|
  {
    if |s| > 0 {
      assert '^' !in s[1..] by { assert forall i | 0 <= i < |s[1..]| :: s[1..][i] == s[i + 1]; }
      RemoveReadStartsNone(s[1..]);
      assert s == [s[0]] + s[1..];
    }
  }

  /** A read start and its quality character vanish, whatever that character is (a newline aside). */
  lemma RemoveReadStartsToken(q: char, rest: string)
    requires q != '\n'
    ensures RemoveReadStarts(['^', q] + rest) == RemoveReadStarts(rest)
  {
    assert (['^', q] + rest)[2..] == rest;
  }

  /** The scan sees the column itself when it holds no read-start or read-end marker. */
  lemma StripMarkersNone(s: string)
    requires '^' !in s && '$' !in s
    ensures StripMarkers(s) == s
  {
    RemoveReadStartsNone(s);
    RemoveReadEndsNone(s);
  }

  /**
   * How far one turn of the scan loop moves the index from i: one character,
   * except that an indel sign also skips its length digits and then that many
   * characters (no digits means length 0).
   */
  function StepAt(s: string, i: nat): (n: nat)
    requires i < |s|
    ensures n >= 1
  {
    if s[i] == '+' || s[i] == '-' then
      var d := DigitRun(s[i + 1..]);
      assert s[i + 1..i + 1 + d] == s[i + 1..][..d];
      1 + d + DigitsValue(s[i + 1..i + 1 + d])
    else 1
  }

  /** What one turn of the scan loop adds to the counters, by the character at the index. */
  function StepCounts(ch: char, refBase: string, k: Counts): Option<Counts>
  {
    if ch == '.' || ch == ',' then AddBase(k.(matches := k.matches + 1), refBase)
    else if IsBaseLetter(ch) then AddBase(k.(mismatches := k.mismatches + 1), [UpperChar(ch)])
    else if ch == '+' then Some(k.(insertions := k.insertions + 1))
    else if ch == '-' then Some(k.(deletions := k.deletions + 1))
    else if ch == '*' then Some(k.(deletions := k.deletions + 1))
    else Some(k)
  }

  /**
   * The scan of the read-base column from index i with counters k; None when
   * base_counts raises KeyError.
   */
  function ScanAt(s: string, i: nat, refBase: string, k: Counts): Option<Counts>
    decreases |s| - i
  {
    if i >= |s| then Some(k)
    else
      match StepCounts(s[i], refBase, k)
      case None => None
      case Some(k1) => ScanAt(s, i + StepAt(s, i), refBase, k1)
  }

  /** The whole scan of a cleaned read-base column. */
  function Scan(s: string, refBase: string): Option<Counts>
  {
    ScanAt(s, 0, refBase, NoCounts)
  }

  /**
   * The indel branch of the loop: step over the sign, read the length digits
   * with the inner loop, then skip that many characters.
   */
  method SkipIndel(s: string, i: nat) returns (next: nat)
    requires i < |s| && (s[i] == '+' || s[i] == '-')
    ensures next == i + StepAt(s, i)
  {
    var j := i + 1;
    var len: nat := 0;
    while j < |s| && IsDigit(s[j])
      invariant i < j <= |s| && AllDigits(s[i + 1..j])
      invariant len == DigitsValue(s[i + 1..j])
      decreases |s| - j
    {
      DigitsSnoc(s, i + 1, j);
      len := len * 10 + DigitValue(s[j]);
      j := j + 1;
    }
    IndelStepOf(s, i, j);
    next := j + len;
  }

  /** Where the digit run after an indel sign stops fixes the length of the step. */
  lemma IndelStepOf(s: string, i: nat, j: nat)
    requires i < j <= |s| && (s[i] == '+' || s[i] == '-')
    requires AllDigits(s[i + 1..j]) && (j == |s| || !IsDigit(s[j]))
    ensures StepAt(s, i) == j - i + DigitsValue(s[i + 1..j])
  {
    assert s[i + 1..] == s[i + 1..j] + s[j..];
    DigitRunOf(s[i + 1..j], s[j..]);
  }

  /** One more digit multiplies the value read so far by ten and adds the digit. */
  lemma DigitsSnoc(s: string, a: nat, j: nat)
    requires a <= j < |s| && AllDigits(s[a..j]) && IsDigit(s[j])
    ensures AllDigits(s[a..j + 1])
    ensures DigitsValue(s[a..j + 1]) == 10 * DigitsValue(s[a..j]) + DigitValue(s[j])
  {
    assert s[a..j + 1] == s[a..j] + [s[j]];
    assert s[a..j + 1][..j - a] == s[a..j];
  }

  /** The loop of parse_mpileup_line over the cleaned read-base column, with the explicit index i. */
  method ScanReadBases(readBases: string, refBase: string) returns (r: Option<Counts>)
    ensures r == Scan(readBases, refBase)
  {
    var k := NoCounts;
    var i: nat := 0;
    while i < |readBases|
      invariant ScanAt(readBases, i, refBase, k) == Scan(readBases, refBase)
      decreases |readBases| - i
    {
      var ch := readBases[i];
      ghost var k0 := k;
      if ch == '.' || ch == ',' {
        k := k.(matches := k.matches + 1);
        if refBase == "A" { k := k.(a := k.a + 1); }
        else if refBase == "G" { k := k.(g := k.g + 1); }
        else if refBase == "C" { k := k.(c := k.c + 1); }
        else if refBase == "T" { k := k.(t := k.t + 1); }
        else { return None; }
        i := i + 1;
      } else if IsBaseLetter(ch) {
        k := k.(mismatches := k.mismatches + 1);
        var b := UpperChar(ch);
        if b == 'A' { k := k.(a := k.a + 1); }
        else if b == 'G' { k := k.(g := k.g + 1); }
        else if b == 'C' { k := k.(c := k.c + 1); }
        else { k := k.(t := k.t + 1); }
        i := i + 1;
      } else if ch == '+' || ch == '-' {
        i := SkipIndel(readBases, i);
        if ch == '+' { k := k.(insertions := k.insertions + 1); }
        else { k := k.(deletions := k.deletions + 1); }
      } else if ch == '*' {
        k := k.(deletions := k.deletions + 1);
        i := i + 1;
      } else {
        i := i + 1;
      }
      assert StepCounts(ch, refBase, k0) == Some(k);
    }
    r := Some(k);
  }

  // ---------------------------------------------------------------- percentages

  /** int((count / denominator) * 100), in exact integer arithmetic. */
  function Percent(count: nat, denominator: nat): nat
    requires denominator > 0
  {
    count * 100 / denominator
  }

  /**
   * The indel-inclusion policy: indels are dropped below depth 200 in exon 6
   * except at position 22, and in files of more than 140 lines except at
   * positions 431 and 687.
   */
  function IncludeIndels(exon: Option<Exon>, depth: int, pos: int, totalRows: int): (r: bool)
    ensures !r <==> depth < 200 && ((exon == Some(Exon6) && pos != 22) ||
                                    (totalRows > 140 && pos != 431 && pos != 687))
  {
    if exon == Some(Exon6) && depth < 200 && pos != 22 then false
    else if totalRows > 140 && depth < 200 then pos == 431 || pos == 687
    else true
  }

  /** The output row once the percentages are known; None when the reference is not a base. */
  function MakeStats(pos: int, refBase: string, depth: int,
                     pa: int, pg: int, pc: int, pt: int, ins: int, del: int): Option<Stats>
  {
    if refBase == "A" then Some(Stats(pos, refBase, pa, pc + pg + pt, ins, del, pa, pg, pc, pt, depth))
    else if refBase == "G" then Some(Stats(pos, refBase, pg, pa + pc + pt, ins, del, pa, pg, pc, pt, depth))
    else if refBase == "C" then Some(Stats(pos, refBase, pc, pa + pg + pt, ins, del, pa, pg, pc, pt, depth))
    else if refBase == "T" then Some(Stats(pos, refBase, pt, pa + pc + pg, ins, del, pa, pg, pc, pt, depth))
    else None
  }

  /** Counts to row, after the scan (lines 133-204). */
  function Summarise(pos: int, refBase: string, depth: int, k: Counts, withIndels: bool): Option<Stats>
  {
    var total := Events(k);
    if total == 0 then Some(ZeroStats(pos, refBase))
    else if withIndels then
      MakeStats(pos, refBase, depth,
                Percent(k.a, total), Percent(k.g, total), Percent(k.c, total), Percent(k.t, total),
                Percent(k.insertions, total), Percent(k.deletions, total))
    else
      var n := Nucleotides(k);
      if n == 0 then Some(ZeroStats(pos, refBase))
      else
        var pa, pg, pc, pt := Percent(k.a, n), Percent(k.g, n), Percent(k.c, n), Percent(k.t, n);
        var sum := pa + pg + pc + pt;
        var diff := if sum != 100 && sum > 0 then 100 - sum else 0;
        MakeStats(pos, refBase, depth,
                  pa + (if refBase == "A" then diff else 0),
                  pg + (if refBase == "G" then diff else 0),
                  pc + (if refBase == "C" then diff else 0),
                  pt + (if refBase == "T" then diff else 0),
                  0, 0)
  }

  /** line.strip().split("\t") */
  function Fields(line: string): seq<string> { Split(Strip(line), '\t') }

  /** The record after the split: position, reference, depth and read-base columns. */
  function DecodeFields(f: seq<string>, exon: Option<Exon>, totalRows: int): Option<Stats>
    requires |f| >= 6
  {
    Decode(ParseInt(f[1]), Upper(f[2]), ParseInt(f[3]), StripMarkers(f[4]), exon, totalRows)
  }

  /** The record once int() has been applied to the position and depth columns. */
  function Decode(pos: Option<int>, refBase: string, depth: Option<int>, column: string,
                  exon: Option<Exon>, totalRows: int): Option<Stats>
  {
    if pos.None? || depth.None? then None
    else if depth.value == 0 then Some(ZeroStats(pos.value, refBase))
    else
      match Scan(column, refBase)
      case None => None
      case Some(k) =>
        Summarise(pos.value, refBase, depth.value, k,
                  IncludeIndels(exon, depth.value, pos.value, totalRows))
  }

  /** parse_mpileup_line as a function of the line: None for a skipped line. */
  function DecodeLine(line: string, exon: Option<Exon>, totalRows: int): (r: Option<Stats>)
    ensures |Fields(line)| < 6 ==> r == None
  {
    var f := Fields(line);
    if |f| < 6 then None else DecodeFields(f, exon, totalRows)
  }

  /** parse_mpileup_line: split the record, scan the read bases, turn counts into percentages. */
  method ParseMpileupLine(line: string, exon: Option<Exon>, totalRows: int) returns (r: Option<Stats>)
    ensures r == DecodeLine(line, exon, totalRows)
  {
    var fields := Fields(line);
    if |fields| < 6 {
      return None;
    }
    var pos := ParseInt(fields[1]);
    var refBase := Upper(fields[2]);
    var depth := ParseInt(fields[3]);
    if pos.None? || depth.None? {
      return None;
    }
    if depth.value == 0 {
      return Some(ZeroStats(pos.value, refBase));
    }
    var scanned := ScanReadBases(StripMarkers(fields[4]), refBase);
    if scanned.None? {
      return None;
    }
    var withIndels := IncludeIndels(exon, depth.value, pos.value, totalRows);
    r := Percentages(pos.value, refBase, depth.value, scanned.value, withIndels);
  }

  /** The counts turned into the row of percentages, once the scan has succeeded. */
  method Percentages(pos: int, refBase: string, depth: int, k: Counts, withIndels: bool) returns (r: Option<Stats>)
    ensures r == Summarise(pos, refBase, depth, k, withIndels)
  {
    var totalEvents := Events(k);
    var totalNucleotides := Nucleotides(k);
    if totalEvents == 0 {
      return Some(ZeroStats(pos, refBase));
    }
    var pa: int, pg: int, pc: int, pt: int, ins: int, del: int;
    if withIndels {
      pa, pg, pc, pt := Percent(k.a, totalEvents), Percent(k.g, totalEvents),
                        Percent(k.c, totalEvents), Percent(k.t, totalEvents);
      ins, del := Percent(k.insertions, totalEvents), Percent(k.deletions, totalEvents);
    } else {
      if totalNucleotides == 0 {
        return Some(ZeroStats(pos, refBase));
      }
      pa, pg, pc, pt := Percent(k.a, totalNucleotides), Percent(k.g, totalNucleotides),
                        Percent(k.c, totalNucleotides), Percent(k.t, totalNucleotides);
      var atgcSum := pa + pg + pc + pt;
      if atgcSum != 100 && atgcSum > 0 {
        var diff := 100 - atgcSum;
        if refBase == "A" { pa := pa + diff; }
        else if refBase == "G" { pg := pg + diff; }
        else if refBase == "C" { pc := pc + diff; }
        else if refBase == "T" { pt := pt + diff; }
        else { return None; }
      }
      ins, del := 0, 0;
    }
    r := MakeStats(pos, refBase, depth, pa, pg, pc, pt, ins, del);
  }

  // ---------------------------------------------------------------- scan properties

  /** The step taken at index j of q is the step taken at the same character of p + q. */
  lemma StepShift(p: string, q: string, j: nat)
    requires j < |q|
    ensures StepAt(p + q, |p| + j) == StepAt(q, j)
  {
    var s := p + q;
    assert s[|p| + j] == q[j];
    if q[j] == '+' || q[j] == '-' {
      assert s[|p| + j + 1..] == q[j + 1..];
      var d := DigitRun(q[j + 1..]);
      assert s[|p| + j + 1..|p| + j + 1 + d] == q[j + 1..j + 1 + d];
    }
  }

  /** Everything the scan does at index i depends only on the column from i on. */
  lemma {:induction false} ScanShift(p: string, q: string, j: nat, refBase: string, k: Counts)
    ensures ScanAt(p + q, |p| + j, refBase, k) == ScanAt(q, j, refBase, k)
    decreases |q| - j
  {
    if j < |q| {
      assert (p + q)[|p| + j] == q[j];
      StepShift(p, q, j);
      var next := StepCounts(q[j], refBase, k);
      if next.Some? {
        ScanShift(p, q, j + StepAt(q, j), refBase, next.value);
      }
    }
  }

  /**
   * Every successful scan keeps the base counts in step with the matches and
   * mismatches, never loses an event, and records at most one event per
   * character of the column.
   */
  lemma {:induction false} ScanInvariants(s: string, i: nat, refBase: string, k: Counts)
    requires Balanced(k)
    requires ScanAt(s, i, refBase, k).Some?
    ensures var k' := ScanAt(s, i, refBase, k).value;
      Balanced(k') && Nucleotides(k) <= Nucleotides(k') &&
      Events(k) <= Events(k') <= Events(k) + (if i < |s| then |s| - i else 0)
    decreases |s| - i
  {
    if i < |s| {
      var k1 := StepCounts(s[i], refBase, k).value;
      assert Balanced(k1) && Nucleotides(k) <= Nucleotides(k1) && Events(k) <= Events(k1) <= Events(k) + 1;
      ScanInvariants(s, i + StepAt(s, i), refBase, k1);
    }
  }

  /**
   * An indel token `+n` or `-n` followed by exactly n characters is one
   * insertion or deletion, and the n characters it covers are never counted,
   * whatever they are; no digits at all means n = 0.
   */
  lemma {:induction false} IndelTokenAtomic(sign: char, digits: string, skipped: string, rest: string,
                                           refBase: string, k: Counts)
    requires sign == '+' || sign == '-'
    requires AllDigits(digits) && |skipped| == DigitsValue(digits)
    requires skipped + rest == [] || !IsDigit((skipped + rest)[0])
    ensures ScanAt([sign] + digits + skipped + rest, 0, refBase, k) ==
      ScanAt(rest, 0, refBase,
             if sign == '+' then k.(insertions := k.insertions + 1) else k.(deletions := k.deletions + 1))
  {
    var token := [sign] + digits + skipped;
    var k1 := if sign == '+' then k.(insertions := k.insertions + 1) else k.(deletions := k.deletions + 1);
    var s := [sign] + digits + skipped + rest;
    assert s == [sign] + digits + (skipped + rest);
    IndelTokenStep(s, sign, digits, skipped + rest);
    assert StepCounts(sign, refBase, k) == Some(k1);
    ScanToken(s, token, rest, refBase, k, k1);
  }

  /** The step at an indel sign covers the sign, its digits and as many characters as they count. */
  lemma IndelTokenStep(s: string, sign: char, digits: string, t: string)
    requires sign == '+' || sign == '-'
    requires AllDigits(digits) && (t == [] || !IsDigit(t[0]))
    requires s == [sign] + digits + t
    ensures s[0] == sign && StepAt(s, 0) == 1 + |digits| + DigitsValue(digits)
  {
    var j := 1 + |digits|;
    assert s[1..j] == digits;
    assert s[j..] == t;
    IndelStepOf(s, 0, j);
  }

  /** A leading token the scan takes in one turn leaves the scan of what follows it. */
  lemma ScanToken(s: string, token: string, rest: string, refBase: string, k: Counts, k1: Counts)
    requires s == token + rest && 0 < |token|
    requires StepCounts(s[0], refBase, k) == Some(k1) && StepAt(s, 0) == |token|
    ensures ScanAt(s, 0, refBase, k) == ScanAt(rest, 0, refBase, k1)
  {
    assert ScanAt(s, 0, refBase, k) == ScanAt(s, |token|, refBase, k1);
    ScanShift(token, rest, 0, refBase, k1);
  }

  /** Occurrences of one character. */
  function Occ(s: string, c: char): (n: nat)
    ensures n <= |s|
  {
    if |s| == 0 then 0 else (if s[0] == c then 1 else 0) + Occ(s[1..], c)
  }

  /** Reads that show reference base b: a base mismatch in either case, or a match when b is the reference. */
  function BaseReads(s: string, refBase: string, b: char, lower: char): nat
  {
    Occ(s, b) + Occ(s, lower) + (if refBase == [b] then Occ(s, '.') + Occ(s, ',') else 0)
  }

  /**
   * The counts of a column without indel signs, by counting symbols: matches are
   * the dots and commas, mismatches the letters ACGT in either case, deletions
   * the asterisks; each base count adds its own letters to the matches when it
   * is the reference.
   */
  function SymbolCounts(s: string, refBase: string): Counts
  {
    Counts(
      Occ(s, '.') + Occ(s, ','),
      Occ(s, 'A') + Occ(s, 'a') + Occ(s, 'G') + Occ(s, 'g') + Occ(s, 'C') + Occ(s, 'c') + Occ(s, 'T') + Occ(s, 't'),
      0,
      Occ(s, '*'),
      BaseReads(s, refBase, 'A', 'a'), BaseReads(s, refBase, 'G', 'g'),
      BaseReads(s, refBase, 'C', 'c'), BaseReads(s, refBase, 'T', 't'))
  }

  function AddCounts(x: Counts, y: Counts): Counts
  {
    Counts(x.matches + y.matches, x.mismatches + y.mismatches, x.insertions + y.insertions,
           x.deletions + y.deletions, x.a + y.a, x.g + y.g, x.c + y.c, x.t + y.t)
  }

  lemma IsBaseLetterCases(ch: char)
    ensures IsBaseLetter(ch) <==> ch in "AGCTagct"
  {
  }

  lemma OccCons(t: string, c: char)
    requires |t| > 0
    ensures Occ(t, c) == Occ([t[0]], c) + Occ(t[1..], c)
  {
    assert [t[0]][1..] == [];
  }

  lemma SymbolCountsCons(t: string, refBase: string)
    requires |t| > 0
    ensures SymbolCounts(t, refBase) == AddCounts(SymbolCounts([t[0]], refBase), SymbolCounts(t[1..], refBase))
  {
    forall c | c in ".,*AaGgCcTt" {
      OccCons(t, c);
    }
  }

  /** One symbol other than an indel sign contributes exactly its own symbol count. */
  lemma StepIsSymbolCount(ch: char, refBase: string, k: Counts)
    requires IsBase(refBase) && ch != '+' && ch != '-'
    ensures StepCounts(ch, refBase, k) == Some(AddCounts(k, SymbolCounts([ch], refBase)))
  {
    IsBaseLetterCases(ch);
    assert [ch][1..] == [];
  }

  /**
   * On a column without '+' or '-' and with an A/C/G/T reference, the scan
   * agrees with plain symbol counting.
   */
  lemma {:induction false} ScanCountsSymbols(s: string, i: nat, refBase: string, k: Counts)
    requires IsBase(refBase) && i <= |s|
    requires '+' !in s[i..] && '-' !in s[i..]
    ensures ScanAt(s, i, refBase, k) == Some(AddCounts(k, SymbolCounts(s[i..], refBase)))
    decreases |s| - i
  {
    if i == |s| {
      assert s[i..] == [];
    } else {
      var t := s[i..];
      assert t[0] == s[i] && t[1..] == s[i + 1..];
      StepIsSymbolCount(s[i], refBase, k);
      var k1 := AddCounts(k, SymbolCounts([s[i]], refBase));
      assert StepAt(s, i) == 1;
      ScanCountsSymbols(s, i + 1, refBase, k1);
      SymbolCountsCons(t, refBase);
    }
  }

  /** A symbol the scan counts as an event. */
  predicate IsEventSymbol(ch: char)
  {
    ch == '.' || ch == ',' || IsBaseLetter(ch) || ch == '+' || ch == '-' || ch == '*'
  }

  lemma {:induction false} ScanSilent(s: string, i: nat, refBase: string, k: Counts)
    requires forall j | i <= j < |s| :: !IsEventSymbol(s[j])
    ensures ScanAt(s, i, refBase, k) == Some(k)
    decreases |s| - i
  {
    if i < |s| {
      ScanSilent(s, i + 1, refBase, k);
    }
  }

  // ---------------------------------------------------------------- percentage arithmetic

  lemma PercentBounds(x: nat, d: nat)
    requires d > 0
    ensures Percent(x, d) * d <= x * 100 < Percent(x, d) * d + d
  {
  }

  lemma MulCancel(a: int, b: int, d: int)
    requires d > 0 && a * d <= b * d
    ensures a <= b
  {
  }

  lemma MulLess(a: int, b: int, d: int)
    requires d > 0 && a * d < b * d
    ensures a < b
  {
  }

  lemma Distrib(a: int, b: int, d: int)
    ensures (a + b) * d == a * d + b * d
  {
  }

  /** The remainders of n truncated shares of 100 * d lose fewer than n whole points. */
  lemma FloorSumCore(sum: int, rem: int, d: int, n: nat)
    requires d > 0 && sum * d + rem == 100 * d && 0 <= rem < n * d
    ensures 100 - n < sum <= 100
  {
    MulCancel(sum, 100, d);
    assert (100 - n) * d == 100 * d - n * d;
    MulLess(100 - n, sum, d);
  }

  /** Truncated percentages of four counts with the count total as denominator lose at most 3. */
  lemma FloorSum4(x1: nat, x2: nat, x3: nat, x4: nat, d: nat)
    requires d > 0 && x1 + x2 + x3 + x4 == d
    ensures 97 <= Percent(x1, d) + Percent(x2, d) + Percent(x3, d) + Percent(x4, d) <= 100
  {
    var p1, p2, p3, p4 := Percent(x1, d), Percent(x2, d), Percent(x3, d), Percent(x4, d);
    PercentBounds(x1, d); PercentBounds(x2, d); PercentBounds(x3, d); PercentBounds(x4, d);
    var r1, r2, r3, r4 := x1 * 100 - p1 * d, x2 * 100 - p2 * d, x3 * 100 - p3 * d, x4 * 100 - p4 * d;
    Distrib(p1, p2, d); Distrib(p1 + p2, p3, d); Distrib(p1 + p2 + p3, p4, d);
    FloorSumCore(p1 + p2 + p3 + p4, r1 + r2 + r3 + r4, d, 4);
  }

  /** Truncated percentages of six counts with the count total as denominator lose at most 5. */
  lemma FloorSum6(x1: nat, x2: nat, x3: nat, x4: nat, x5: nat, x6: nat, d: nat)
    requires d > 0 && x1 + x2 + x3 + x4 + x5 + x6 == d
    ensures 95 <= Percent(x1, d) + Percent(x2, d) + Percent(x3, d) + Percent(x4, d)
                  + Percent(x5, d) + Percent(x6, d) <= 100
  {
    var p1, p2, p3 := Percent(x1, d), Percent(x2, d), Percent(x3, d);
    var p4, p5, p6 := Percent(x4, d), Percent(x5, d), Percent(x6, d);
    PercentBounds(x1, d); PercentBounds(x2, d); PercentBounds(x3, d);
    PercentBounds(x4, d); PercentBounds(x5, d); PercentBounds(x6, d);
    var r1, r2, r3 := x1 * 100 - p1 * d, x2 * 100 - p2 * d, x3 * 100 - p3 * d;
    var r4, r5, r6 := x4 * 100 - p4 * d, x5 * 100 - p5 * d, x6 * 100 - p6 * d;
    Distrib(p1, p2, d); Distrib(p1 + p2, p3, d); Distrib(p1 + p2 + p3, p4, d);
    Distrib(p1 + p2 + p3 + p4, p5, d); Distrib(p1 + p2 + p3 + p4 + p5, p6, d);
    FloorSumCore(p1 + p2 + p3 + p4 + p5 + p6, r1 + r2 + r3 + r4 + r5 + r6, d, 6);
  }

  // ---------------------------------------------------------------- the two percentage modes

  /** base_counts[b] */
  function RefCount(k: Counts, b: string): nat
  {
    if b == "A" then k.a else if b == "G" then k.g else if b == "C" then k.c else if b == "T" then k.t else 0
  }

  /**
   * Indels excluded: insertion and deletion read 0, the four bases add up to
   * exactly 100 (so match plus mismatch is 100), the non-reference bases keep
   * their truncated share of the matches and mismatches, and the reference
   * absorbs the truncation remainder of 0 to 3 points. A reference outside
   * A/C/G/T fails.
   */
  lemma ExcludeMode(pos: int, refBase: string, depth: int, k: Counts)
    requires Balanced(k) && Nucleotides(k) > 0
    ensures Summarise(pos, refBase, depth, k, false).Some? <==> IsBase(refBase)
    ensures IsBase(refBase) ==>
      var s := Summarise(pos, refBase, depth, k, false).value;
      var n := Nucleotides(k);
      s.pos == pos && s.refBase == refBase && s.depth == depth &&
      s.insertionPct == 0 && s.deletionPct == 0 &&
      BaseSum(s) == 100 && s.matchPct + s.mismatchPct == 100 &&
      s.matchPct == BasePct(s, refBase) &&
      (refBase != "A" ==> s.aPct == Percent(k.a, n)) &&
      (refBase != "G" ==> s.gPct == Percent(k.g, n)) &&
      (refBase != "C" ==> s.cPct == Percent(k.c, n)) &&
      (refBase != "T" ==> s.tPct == Percent(k.t, n)) &&
      0 <= s.matchPct - Percent(RefCount(k, refBase), n) <= 3
  {
    FloorSum4(k.a, k.g, k.c, k.t, Nucleotides(k));
  }

  /**
   * Indels included: every one of A, G, C, T, insertion and deletion is its
   * truncated share of all events, the six add up to 95..100, match is the
   * reference base's share and mismatch the other three. A reference outside
   * A/C/G/T fails.
   */
  lemma IncludeMode(pos: int, refBase: string, depth: int, k: Counts)
    requires Balanced(k) && Events(k) > 0
    ensures Summarise(pos, refBase, depth, k, true).Some? <==> IsBase(refBase)
    ensures IsBase(refBase) ==>
      var s := Summarise(pos, refBase, depth, k, true).value;
      var e := Events(k);
      s.pos == pos && s.refBase == refBase && s.depth == depth &&
      s.aPct == Percent(k.a, e) && s.gPct == Percent(k.g, e) &&
      s.cPct == Percent(k.c, e) && s.tPct == Percent(k.t, e) &&
      s.insertionPct == Percent(k.insertions, e) && s.deletionPct == Percent(k.deletions, e) &&
      s.matchPct == BasePct(s, refBase) && s.mismatchPct == BaseSum(s) - s.matchPct &&
      95 <= BaseSum(s) + s.insertionPct + s.deletionPct <= 100
  {
    FloorSum6(k.a, k.g, k.c, k.t, k.insertions, k.deletions, Events(k));
  }

  // ---------------------------------------------------------------- decoded rows

  /** The shape every row the decoder emits has. */
  predicate WellFormedRow(s: Stats)
  {
    '\t' !in s.refBase &&
    (IsZeroRecord(s) ||
     (IsBase(s.refBase) && s.depth != 0 &&
      s.matchPct == BasePct(s, s.refBase) && s.mismatchPct == BaseSum(s) - s.matchPct &&
      0 <= s.aPct && 0 <= s.gPct && 0 <= s.cPct && 0 <= s.tPct &&
      0 <= s.insertionPct && 0 <= s.deletionPct &&
      ((BaseSum(s) == 100 && s.insertionPct == 0 && s.deletionPct == 0) ||
       95 <= BaseSum(s) + s.insertionPct + s.deletionPct <= 100)))
  }

  lemma UpperKeepsTabOut(s: string)
    requires '\t' !in s
    ensures '\t' !in Upper(s)
  {
  }

  lemma SummariseWellFormed(pos: int, refBase: string, depth: int, k: Counts, withIndels: bool)
    requires Balanced(k) && depth != 0 && '\t' !in refBase
    requires Summarise(pos, refBase, depth, k, withIndels).Some?
    ensures WellFormedRow(Summarise(pos, refBase, depth, k, withIndels).value)
  {
    if Events(k) > 0 {
      if withIndels {
        IncludeMode(pos, refBase, depth, k);
      } else if Nucleotides(k) > 0 {
        ExcludeMode(pos, refBase, depth, k);
      }
    }
  }

  /**
   * Every row parse_mpileup_line returns is either the all-zero record or a
   * row with an A/C/G/T reference, a non-zero depth, match equal to the
   * reference base's share, mismatch equal to the other three, and either
   * A+G+C+T = 100 with no indels or all six in 95..100.
   */
  lemma DecodedRowWellFormed(line: string, exon: Option<Exon>, totalRows: int)
    requires DecodeLine(line, exon, totalRows).Some?
    ensures WellFormedRow(DecodeLine(line, exon, totalRows).value)
  {
    DecodedFieldsWellFormed(Fields(line), exon, totalRows);
  }

  lemma DecodedFieldsWellFormed(f: seq<string>, exon: Option<Exon>, totalRows: int)
    requires |f| >= 6 && '\t' !in f[2]
    requires DecodeFields(f, exon, totalRows).Some?
    ensures WellFormedRow(DecodeFields(f, exon, totalRows).value)
  {
    UpperKeepsTabOut(f[2]);
    DecodedWellFormed(ParseInt(f[1]), Upper(f[2]), ParseInt(f[3]), StripMarkers(f[4]), exon, totalRows);
  }

  lemma DecodeScanned(pos: int, refBase: string, depth: int, column: string,
                       exon: Option<Exon>, totalRows: int, k: Counts)
    requires depth != 0 && Scan(column, refBase) == Some(k)
    ensures Decode(Some(pos), refBase, Some(depth), column, exon, totalRows) ==
            Summarise(pos, refBase, depth, k, IncludeIndels(exon, depth, pos, totalRows))
  {
  }

  lemma ScanFailureFails(pos: int, refBase: string, depth: int, column: string,
                          exon: Option<Exon>, totalRows: int)
    requires depth != 0 && Scan(column, refBase).None?
    ensures Decode(Some(pos), refBase, Some(depth), column, exon, totalRows).None?
  {
  }

  lemma ScannedRowWellFormed(pos: int, refBase: string, depth: int, column: string,
                              exon: Option<Exon>, totalRows: int, k: Counts)
    requires '\t' !in refBase
    requires depth != 0 && Scan(column, refBase) == Some(k)
    requires Decode(Some(pos), refBase, Some(depth), column, exon, totalRows).Some?
    ensures WellFormedRow(Decode(Some(pos), refBase, Some(depth), column, exon, totalRows).value)
  {
    var withIndels := IncludeIndels(exon, depth, pos, totalRows);
    var row := Summarise(pos, refBase, depth, k, withIndels);
    assert Decode(Some(pos), refBase, Some(depth), column, exon, totalRows) == row by {
      DecodeScanned(pos, refBase, depth, column, exon, totalRows, k);
    }
    assert row.Some? && WellFormedRow(row.value) by {
      ScanInvariants(column, 0, refBase, NoCounts);
      SummariseWellFormed(pos, refBase, depth, k, withIndels);
    }
  }

  lemma DecodedWellFormed(pos: Option<int>, refBase: string, depth: Option<int>, column: string,
                          exon: Option<Exon>, totalRows: int)
    requires '\t' !in refBase
    requires Decode(pos, refBase, depth, column, exon, totalRows).Some?
    ensures WellFormedRow(Decode(pos, refBase, depth, column, exon, totalRows).value)
  {
    if depth.value != 0 {
      assert pos == Some(pos.value) && depth == Some(depth.value);
      match Scan(column, refBase)
      case Some(k) => ScannedRowWellFormed(pos.value, refBase, depth.value, column, exon, totalRows, k);
      case None =>
    }
  }

  /**
   * A column with no event symbol left after the read starts and ends are
   * removed gives the all-zero record (depth 0) even when the record's depth
   * is positive; so does depth 0 itself.
   */
  lemma SilentColumnGivesZeroRecord(line: string, exon: Option<Exon>, totalRows: int)
    requires |Fields(line)| >= 6
    requires ParseInt(Fields(line)[1]).Some? && ParseInt(Fields(line)[3]).Some?
    requires ParseInt(Fields(line)[3]).value == 0 ||
             forall j | 0 <= j < |StripMarkers(Fields(line)[4])| :: !IsEventSymbol(StripMarkers(Fields(line)[4])[j])
    ensures DecodeLine(line, exon, totalRows) ==
      Some(ZeroStats(ParseInt(Fields(line)[1]).value, Upper(Fields(line)[2])))
  {
    var f := Fields(line);
    if ParseInt(f[3]).value != 0 {
      ScanSilent(StripMarkers(f[4]), 0, Upper(f[2]), NoCounts);
    }
  }

  /** No indel sign occurs before index j. */
  predicate NoIndelBefore(s: string, j: int)
  {
    forall m | 0 <= m < j && m < |s| :: s[m] != '+' && s[m] != '-'
  }

  predicate IsNucleotideSymbol(ch: char) { ch == '.' || ch == ',' || IsBaseLetter(ch) }

  /**
   * A match symbol or base letter that no indel token can have swallowed is
   * counted: the scan, if it succeeds, records at least one more match or mismatch.
   */
  lemma {:induction false} NucleotideCounted(s: string, i: nat, refBase: string, k: Counts, j: nat)
    requires Balanced(k)
    requires i <= j < |s| && NoIndelBefore(s, j) && IsNucleotideSymbol(s[j])
    requires ScanAt(s, i, refBase, k).Some?
    ensures Nucleotides(ScanAt(s, i, refBase, k).value) > Nucleotides(k)
    decreases j - i
  {
    var k1 := StepCounts(s[i], refBase, k).value;
    if i == j {
      ScanInvariants(s, i + StepAt(s, i), refBase, k1);
    } else {
      assert StepAt(s, i) == 1;
      NucleotideCounted(s, i + 1, refBase, k1, j);
    }
  }

  /**
   * A line whose upper-cased reference is not A/C/G/T is skipped as soon as
   * its column holds a match symbol or a base letter outside any indel token
   * (the KeyError of base_counts or base_percentages).
   */
  lemma NonBaseReferenceFails(line: string, exon: Option<Exon>, totalRows: int, j: nat)
    requires |Fields(line)| >= 6
    requires ParseInt(Fields(line)[1]).Some? && ParseInt(Fields(line)[3]).Some?
    requires ParseInt(Fields(line)[3]).value != 0
    requires !IsBase(Upper(Fields(line)[2]))
    requires j < |StripMarkers(Fields(line)[4])|
    requires NoIndelBefore(StripMarkers(Fields(line)[4]), j)
    requires IsNucleotideSymbol(StripMarkers(Fields(line)[4])[j])
    ensures DecodeLine(line, exon, totalRows) == None
  {
    NonBaseReferenceFailsOnFields(Fields(line), exon, totalRows, j);
  }

  lemma NonBaseReferenceFailsOnFields(f: seq<string>, exon: Option<Exon>, totalRows: int, j: nat)
    requires |f| >= 6
    requires ParseInt(f[1]).Some? && ParseInt(f[3]).Some? && ParseInt(f[3]).value != 0
    requires !IsBase(Upper(f[2]))
    requires j < |StripMarkers(f[4])| && NoIndelBefore(StripMarkers(f[4]), j)
    requires IsNucleotideSymbol(StripMarkers(f[4])[j])
    ensures DecodeFields(f, exon, totalRows) == None
  {
    NonBaseReferenceFailsOnColumn(ParseInt(f[1]), Upper(f[2]), ParseInt(f[3]), StripMarkers(f[4]),
                                  exon, totalRows, j);
  }

  lemma NonBaseSummary(pos: int, refBase: string, depth: int, k: Counts, withIndels: bool)
    requires !IsBase(refBase) && Nucleotides(k) > 0
    ensures Summarise(pos, refBase, depth, k, withIndels) == None
  {
  }

  lemma NonBaseReferenceFailsOnColumn(pos: Option<int>, refBase: string, depth: Option<int>, column: string,
                                      exon: Option<Exon>, totalRows: int, j: nat)
    requires depth.Some? && depth.value != 0 && !IsBase(refBase)
    requires j < |column| && NoIndelBefore(column, j) && IsNucleotideSymbol(column[j])
    ensures Decode(pos, refBase, depth, column, exon, totalRows) == None
  {
    if pos.Some? {
      assert depth == Some(depth.value);
      if Scan(column, refBase).None? {
        ScanFailureFails(pos.value, refBase, depth.value, column, exon, totalRows);
      } else {
        var k := Scan(column, refBase).value;
        var withIndels := IncludeIndels(exon, depth.value, pos.value, totalRows);
        assert Decode(pos, refBase, depth, column, exon, totalRows) ==
               Summarise(pos.value, refBase, depth.value, k, withIndels) by {
          DecodeScanned(pos.value, refBase, depth.value, column, exon, totalRows, k);
        }
        assert Summarise(pos.value, refBase, depth.value, k, withIndels) == None by {
          NucleotideCounted(column, 0, refBase, NoCounts, j);
          NonBaseSummary(pos.value, refBase, depth.value, k, withIndels);
        }
      }
    }
  }

  // ---------------------------------------------------------------- output row layout

  /** The header line of the stats file, one column name per row field. */
  const StatsHeader: seq<string> := [
    "Ref_Position_1based", "Ref_Base", "Match_Percent", "Mismatch_Percent",
    "Insertion_Percent", "Deletion_Percent", "A_Percent", "G_Percent",
    "C_Percent", "T_Percent", "Depth"]

  /** The ten numbers of a row, in header order (the reference base sits between the first two). */
  function StatsNumbers(s: Stats): seq<int>
  {
    [s.pos, s.matchPct, s.mismatchPct, s.insertionPct, s.deletionPct,
     s.aPct, s.gPct, s.cPct, s.tPct, s.depth]
  }

  /** write_stats: the eleven values of a row, in header order. */
  function StatsFields(s: Stats): (r: seq<string>)
    ensures |r| == |StatsHeader| && r[1] == s.refBase
  {
    var n := StatsNumbers(s);
    [IntToString(n[0]), s.refBase] + seq(9, i requires 0 <= i < 9 => IntToString(n[i + 1]))
  }

  /** One line of the stats file (without its line terminator). */
  function FormatStats(s: Stats): string { Join(StatsFields(s), '\t') }

  lemma NoTabInNumber(i: int)
    ensures '\t' !in IntToString(i)
  {
    var t := IntToString(i);
    if '\t' in t {
      var j :| 0 <= j < |t| && t[j] == '\t';
      assert IsSpace(t[j]);
    }
  }

  /**
   * A written row splits back on tabs into exactly its eleven fields, one per
   * header column (a reference base without a tab, as every decoded row has).
   */
  lemma RowLayout(s: Stats)
    requires '\t' !in s.refBase
    ensures Split(FormatStats(s), '\t') == StatsFields(s)
    ensures |Split(FormatStats(s), '\t')| == |StatsHeader| == 11
  {
    var f := StatsFields(s);
    forall k | 0 <= k < |f| && k != 1
      ensures '\t' !in f[k]
    {
      NoTabInNumber(StatsNumbers(s)[if k == 0 then 0 else k - 1]);
    }
    SplitJoin(f, '\t');
  }

  /**
   * Every numeric field of a written row reads back with int() as the number
   * written: field 0 is the position and fields 2..10 the percentages and depth.
   */
  lemma RowValues(s: Stats)
    ensures ParseInt(StatsFields(s)[0]) == Some(s.pos)
    ensures forall k | 2 <= k < 11 :: ParseInt(StatsFields(s)[k]) == Some(StatsNumbers(s)[k - 1])
  {
    var f, n := StatsFields(s), StatsNumbers(s);
    ParseIntOfIntToString(s.pos);
    forall k | 2 <= k < 11
      ensures ParseInt(f[k]) == Some(n[k - 1])
    {
      ParseIntOfIntToString(n[k - 1]);
    }
  }

  // ---------------------------------------------------------------- the file level

  /** The exon a pileup is typed as, from its number of distinct positions. */
  function ExonBySize(refLength: int): (r: Option<Exon>)
    ensures r == Some(Exon6) <==> 130 <= refLength <= 140
    ensures r == Some(Exon7) <==> 800 <= refLength <= 830
  {
    if 130 <= refLength <= 140 then Some(Exon6)
    else if 800 <= refLength <= 830 then Some(Exon7)
    else None
  }

  /** The position column of a line, when the line has one and it is an integer. */
  function LinePosition(line: string): Option<int>
  {
    var f := Fields(line);
    if |f| >= 2 then ParseInt(f[1]) else None
  }

  /** unique_positions after the first pass over the lines. */
  function DistinctPositions(lines: seq<string>): set<int>
  {
    if lines == [] then {}
    else
      var rest := DistinctPositions(lines[..|lines| - 1]);
      match LinePosition(lines[|lines| - 1])
      case None => rest
      case Some(p) => rest + {p}
  }

  /** The rows the second pass writes, in line order, skipped lines left out. */
  function DecodedRows(lines: seq<string>, exon: Option<Exon>, totalRows: int): seq<Stats>
  {
    if lines == [] then []
    else
      var rest := DecodedRows(lines[..|lines| - 1], exon, totalRows);
      match DecodeLine(lines[|lines| - 1], exon, totalRows)
      case None => rest
      case Some(s) => rest + [s]
  }

  function FormatAll(rows: seq<Stats>): (r: seq<string>)
    ensures |r| == |rows|
  {
    seq(|rows|, i requires 0 <= i < |rows| => FormatStats(rows[i]))
  }

  /** The stats file for a pileup: the header line, then one line per decoded row. */
  function StatsFile(lines: seq<string>): seq<string>
  {
    var exon := ExonBySize(|DistinctPositions(lines)|);
    [Join(StatsHeader, '\t')] + FormatAll(DecodedRows(lines, exon, |lines|))
  }

  /** The first pass over the lines: count them and collect the distinct positions. */
  method CollectPositions(lines: seq<string>) returns (positions: set<int>, totalRows: int)
    ensures positions == DistinctPositions(lines)
    ensures totalRows == |lines|
  {
    positions := {};
    totalRows := 0;
    while totalRows < |lines|
      invariant totalRows <= |lines|
      invariant positions == DistinctPositions(lines[..totalRows])
    {
      assert lines[..totalRows + 1][..totalRows] == lines[..totalRows];
      var f := Fields(lines[totalRows]);
      if |f| >= 2 {
        var p := ParseInt(f[1]);
        if p.Some? {
          positions := positions + {p.value};
        }
      }
      totalRows := totalRows + 1;
    }
    assert lines[..totalRows] == lines;
  }

  /** One more line adds its decoded row, or nothing when the line is skipped. */
  lemma DecodedRowsSnoc(lines: seq<string>, i: nat, exon: Option<Exon>, totalRows: int, row: Option<Stats>)
    requires i < |lines| && row == DecodeLine(lines[i], exon, totalRows)
    ensures DecodedRows(lines[..i + 1], exon, totalRows) ==
            DecodedRows(lines[..i], exon, totalRows) + (if row.Some? then [row.value] else [])
  {
    assert lines[..i + 1][..i] == lines[..i];
  }

  lemma FormatAllSnoc(rows: seq<Stats>, x: Stats)
    ensures FormatAll(rows + [x]) == FormatAll(rows) + [FormatStats(x)]
  {
  }

  /** The second pass: decode every line and write the rows that are not skipped. */
  method WriteRows(lines: seq<string>, exon: Option<Exon>, totalRows: int) returns (written: seq<string>)
    ensures written == FormatAll(DecodedRows(lines, exon, totalRows))
  {
    var rows: seq<Stats> := [];
    written := [];
    for i := 0 to |lines|
      invariant rows == DecodedRows(lines[..i], exon, totalRows)
      invariant written == FormatAll(rows)
    {
      var stats := ParseMpileupLine(lines[i], exon, totalRows);
      DecodedRowsSnoc(lines, i, exon, totalRows, stats);
      if stats.Some? {
        FormatAllSnoc(rows, stats.value);
        rows := rows + [stats.value];
        written := written + [FormatStats(stats.value)];
      }
    }
    assert lines[..|lines|] == lines;
  }

  /**
   * process_mpileup_file on the lines of an in-memory pileup: a first pass
   * counts the lines and collects the distinct positions, which fix the exon;
   * a second pass decodes each line and writes the rows that are not skipped.
   */
  method ProcessMpileup(lines: seq<string>) returns (out: seq<string>)
    ensures out == StatsFile(lines)
  {
    var positions, totalRows := CollectPositions(lines);
    var exon := ExonBySize(|positions|);
    var written := WriteRows(lines, exon, totalRows);
    out := [Join(StatsHeader, '\t')] + written;
  }

  /**
   * Every data line of a stats file splits into the eleven header columns and
   * holds a well-formed row: the all-zero record or a row whose percentages
   * obey the exclude-mode or include-mode sums.
   */
  lemma {:induction false} StatsFileRows(lines: seq<string>, exon: Option<Exon>, totalRows: int)
    ensures forall j | 0 <= j < |DecodedRows(lines, exon, totalRows)| ::
      WellFormedRow(DecodedRows(lines, exon, totalRows)[j]) &&
      Split(FormatStats(DecodedRows(lines, exon, totalRows)[j]), '\t') ==
        StatsFields(DecodedRows(lines, exon, totalRows)[j])
  {
    if lines != [] {
      var init := lines[..|lines| - 1];
      StatsFileRows(init, exon, totalRows);
      var last := lines[|lines| - 1];
      if DecodeLine(last, exon, totalRows).Some? {
        var s := DecodeLine(last, exon, totalRows).value;
        DecodedRowWellFormed(last, exon, totalRows);
        RowLayout(s);
      }
    }
  }

  // ---------------------------------------------------------------- the summary threshold

  /** A position the summary lists: mismatch, insertion or deletion at or above the threshold. */
  predicate IsPolymorphic(s: Stats, threshold: int)
  {
    s.mismatchPct >= threshold || s.insertionPct >= threshold || s.deletionPct >= threshold
  }

  /**
   * With a positive threshold the all-zero record is never listed, and a row
   * without indels whose bases sum to 100 (every exclude-mode row) is listed
   * exactly when its match percentage is at most 100 minus the threshold.
   */
  lemma PolymorphicRows(s: Stats, threshold: int)
    requires WellFormedRow(s) && threshold > 0
    ensures IsZeroRecord(s) ==> !IsPolymorphic(s, threshold)
    ensures s.insertionPct == 0 && s.deletionPct == 0 && BaseSum(s) == 100 ==>
      (IsPolymorphic(s, threshold) <==> s.matchPct <= 100 - threshold)
  {
  }
}
