/**
 * The resolver of bin/aggregate_abo_reports.py: process_file lays the two
 * parsed reports out as one wide row (the first row of each position), and
 * assign_phenotype_genotype looks the five primary marker calls (exon-6
 * position 22, exon-7 positions 422, 428, 429 and 431) up in a fifteen-row
 * exact-match table, and grades the sample's reliability by the smallest
 * positive read count among those five positions.
 */
module Genotype {
  import opened Wrappers
  import opened Exons
  import opened MarkerCalls
  import ReportReader

  /** The five primary Type cells of the wide row; None is a cell left NaN. */
  datatype Calls = Calls(
    p22: Option<string>,
    p422: Option<string>,
    p428: Option<string>,
    p429: Option<string>,
    p431: Option<string>)

  /** Phenotype, Genotype and ExtendedGenotype. */
  datatype Resolution = Resolution(phenotype: string, genotype: string, extended: string)

  const Unresolved := Resolution("Unknown", "Unknown", "Unknown")

  /**
   * The if/elif ladder of assign_phenotype_genotype, first true condition
   * wins; each condition compares all five cells with one combination.
   */
  function Resolve(c: Calls): (r: Resolution)
    ensures r.phenotype == PhenotypeOf(r.genotype)
  {
    if c == Pattern(O1AndAOrBOrO, AOrO, OAndAOrB, AOrO, OAndAOrB) then
      Resolution("A", "AO", "AO1")
    else if c == Pattern(AOrBOrO, AOrO, O2AndOOrAOrB, AOrO, OAndAOrB) then
      Resolution("A", "AO", "AO2")
    else if c == Pattern(AOrBOrO, AOrO, OAndAOrB, AOrO, O3AndOOrAOrB) then
      Resolution("A", "AO", "AO3")
    else if c == Pattern(O1AndAOrBOrO, AOrOAndB, OAndAOrB, AOrOAndB, OAndAOrB) then
      Resolution("B", "BO", "BO1")
    else if c == Pattern(AOrBOrO, AOrOAndB, O2AndOOrAOrB, AOrOAndB, OAndAOrB) then
      Resolution("B", "BO", "O2B")
    else if c == Pattern(AOrBOrO, AOrOAndB, OAndAOrB, AOrOAndB, O3AndOOrAOrB) then
      Resolution("B", "BO", "BO3")
    else if c == Pattern(O1AndAOrBOrO, AOrO, O2AndOOrAOrB, AOrO, OAndAOrB) then
      Resolution("O", "OO", "O1O2")
    else if c == Pattern(O1AndAOrBOrO, AOrO, OAndAOrB, AOrO, O3AndOOrAOrB) then
      Resolution("O", "OO", "O1O3")
    else if c == Pattern(AOrBOrO, AOrO, O2AndOOrAOrB, AOrO, O3AndOOrAOrB) then
      Resolution("O", "OO", "O2O3")
    else if c == Pattern(O1, AOrO, OAndAOrB, AOrO, OAndAOrB) then
      Resolution("O", "OO", "O1O1")
    else if c == Pattern(AOrBOrO, AOrO, O2, AOrO, OAndAOrB) then
      Resolution("O", "OO", "O2O2")
    else if c == Pattern(AOrBOrO, AOrO, OAndAOrB, AOrO, O3) then
      Resolution("O", "OO", "O3O3")
    else if c == Pattern(AOrBOrO, AOrO, OAndAOrB, AOrO, OAndAOrB) then
      Resolution("A", "AA", "AA")
    else if c == Pattern(AOrBOrO, B, OAndAOrB, B, OAndAOrB) then
      Resolution("B", "BB", "BB")
    else if c == Pattern(AOrBOrO, AOrOAndB, OAndAOrB, AOrOAndB, OAndAOrB) then
      Resolution("AB", "AB", "AB")
    else
      Unresolved
  }

  // ---------------------------------------------------------------- the table as data

  /** One combination: the five calls it requires, and what it resolves to. */
  datatype Rule = Rule(pattern: Calls, result: Resolution)

  /** The cells a combination requires, in the order 22, 422, 428, 429, 431. */
  function Pattern(c22: string, c422: string, c428: string, c429: string, c431: string): Calls
  {
    Calls(Some(c22), Some(c422), Some(c428), Some(c429), Some(c431))
  }

  const Table: seq<Rule> := [
    Rule(Pattern(O1AndAOrBOrO, AOrO, OAndAOrB, AOrO, OAndAOrB), Resolution("A", "AO", "AO1")),
    Rule(Pattern(AOrBOrO, AOrO, O2AndOOrAOrB, AOrO, OAndAOrB), Resolution("A", "AO", "AO2")),
    Rule(Pattern(AOrBOrO, AOrO, OAndAOrB, AOrO, O3AndOOrAOrB), Resolution("A", "AO", "AO3")),
    Rule(Pattern(O1AndAOrBOrO, AOrOAndB, OAndAOrB, AOrOAndB, OAndAOrB), Resolution("B", "BO", "BO1")),
    Rule(Pattern(AOrBOrO, AOrOAndB, O2AndOOrAOrB, AOrOAndB, OAndAOrB), Resolution("B", "BO", "O2B")),
    Rule(Pattern(AOrBOrO, AOrOAndB, OAndAOrB, AOrOAndB, O3AndOOrAOrB), Resolution("B", "BO", "BO3")),
    Rule(Pattern(O1AndAOrBOrO, AOrO, O2AndOOrAOrB, AOrO, OAndAOrB), Resolution("O", "OO", "O1O2")),
    Rule(Pattern(O1AndAOrBOrO, AOrO, OAndAOrB, AOrO, O3AndOOrAOrB), Resolution("O", "OO", "O1O3")),
    Rule(Pattern(AOrBOrO, AOrO, O2AndOOrAOrB, AOrO, O3AndOOrAOrB), Resolution("O", "OO", "O2O3")),
    Rule(Pattern(O1, AOrO, OAndAOrB, AOrO, OAndAOrB), Resolution("O", "OO", "O1O1")),
    Rule(Pattern(AOrBOrO, AOrO, O2, AOrO, OAndAOrB), Resolution("O", "OO", "O2O2")),
    Rule(Pattern(AOrBOrO, AOrO, OAndAOrB, AOrO, O3), Resolution("O", "OO", "O3O3")),
    Rule(Pattern(AOrBOrO, AOrO, OAndAOrB, AOrO, OAndAOrB), Resolution("A", "AA", "AA")),
    Rule(Pattern(AOrBOrO, B, OAndAOrB, B, OAndAOrB), Resolution("B", "BB", "BB")),
    Rule(Pattern(AOrBOrO, AOrOAndB, OAndAOrB, AOrOAndB, OAndAOrB), Resolution("AB", "AB", "AB"))
  ]

  /** The five cells equal the rule's five calls, position by position. */
  predicate Matches(rule: Rule, c: Calls)
  {
    c == rule.pattern
  }

  /** The first rule from index i on whose pattern the cells equal, or Unknown. */
  function Lookup(rules: seq<Rule>, c: Calls, i: nat): Resolution
    decreases |rules| - i
  {
    if i >= |rules| then Unresolved
    else if Matches(rules[i], c) then rules[i].result
    else Lookup(rules, c, i + 1)
  }

  lemma {:induction false} LookupFirst(rules: seq<Rule>, c: Calls, i: nat, k: nat)
    requires i <= k < |rules| && Matches(rules[k], c)
    requires forall j | i <= j < k :: !Matches(rules[j], c)
    ensures Lookup(rules, c, i) == rules[k].result
    decreases k - i
  {
    if i < k {
      LookupFirst(rules, c, i + 1, k);
    }
  }

  lemma {:induction false} LookupNone(rules: seq<Rule>, c: Calls, i: nat)
    requires forall j | i <= j < |rules| :: !Matches(rules[j], c)
    ensures Lookup(rules, c, i) == Unresolved
    decreases |rules| - i
  {
    if i < |rules| {
      LookupNone(rules, c, i + 1);
    }
  }

  /** No cell is NaN and no cell is the empty call. */
  predicate Filled(c: Calls)
  {
    c.p22.Some? && c.p22.value != NoCall && c.p422.Some? && c.p422.value != NoCall &&
    c.p428.Some? && c.p428.value != NoCall && c.p429.Some? && c.p429.value != NoCall &&
    c.p431.Some? && c.p431.value != NoCall
  }

  /** Genotype determines phenotype: AO and AA give A, BO and BB give B, OO gives O, AB gives AB. */
  function PhenotypeOf(genotype: string): string
  {
    if genotype == "AO" || genotype == "AA" then "A"
    else if genotype == "BO" || genotype == "BB" then "B"
    else if genotype == "OO" then "O"
    else if genotype == "AB" then "AB"
    else "Unknown"
  }

  /** Every combination requires five non-empty calls and resolves to a known genotype. */
  lemma RuleShapes()
    ensures |Table| == 15
    ensures forall i | 0 <= i < |Table| ::
              Filled(Table[i].pattern) && Table[i].result != Unresolved &&
              Table[i].result.phenotype == PhenotypeOf(Table[i].result.genotype)
  {
  }

  /** The fifteen patterns are pairwise different, so at most one of them can match. */
  lemma TableDistinct()
    ensures forall i, j | 0 <= i < j < |Table| :: Table[i].pattern != Table[j].pattern
  {
  }

  /** The calls a combination can require at one position differ in length. */
  lemma CallLengths()
    ensures |O1AndAOrBOrO| == 20 && |AOrBOrO| == 11 && |O1| == 2
    ensures |AOrO| == 6 && |AOrOAndB| == 14 && |B| == 1
    ensures |OAndAOrB| == 14 && |O2AndOOrAOrB| == 20 && |O2| == 2
    ensures |O3AndOOrAOrB| == 20 && |O3| == 2
  {
  }

  /** The ladder is the table read top to bottom: the first matching rule decides, none gives Unknown. */
  lemma ResolveIsLookup(c: Calls)
    ensures Resolve(c) == Lookup(Table, c, 0)
  {
    CallLengths();
    var t := Table;
    assert Lookup(t, c, 15) == Unresolved;
    assert Lookup(t, c, 14) == if Matches(t[14], c) then t[14].result else Lookup(t, c, 15);
    assert Lookup(t, c, 13) == if Matches(t[13], c) then t[13].result else Lookup(t, c, 14);
    assert Lookup(t, c, 12) == if Matches(t[12], c) then t[12].result else Lookup(t, c, 13);
    assert Lookup(t, c, 11) == if Matches(t[11], c) then t[11].result else Lookup(t, c, 12);
    assert Lookup(t, c, 10) == if Matches(t[10], c) then t[10].result else Lookup(t, c, 11);
    assert Lookup(t, c, 9) == if Matches(t[9], c) then t[9].result else Lookup(t, c, 10);
    assert Lookup(t, c, 8) == if Matches(t[8], c) then t[8].result else Lookup(t, c, 9);
    assert Lookup(t, c, 7) == if Matches(t[7], c) then t[7].result else Lookup(t, c, 8);
    assert Lookup(t, c, 6) == if Matches(t[6], c) then t[6].result else Lookup(t, c, 7);
    assert Lookup(t, c, 5) == if Matches(t[5], c) then t[5].result else Lookup(t, c, 6);
    assert Lookup(t, c, 4) == if Matches(t[4], c) then t[4].result else Lookup(t, c, 5);
    assert Lookup(t, c, 3) == if Matches(t[3], c) then t[3].result else Lookup(t, c, 4);
    assert Lookup(t, c, 2) == if Matches(t[2], c) then t[2].result else Lookup(t, c, 3);
    assert Lookup(t, c, 1) == if Matches(t[1], c) then t[1].result else Lookup(t, c, 2);
  }

  /** Since the patterns are distinct, a matching rule decides whatever its place in the table. */
  lemma ResolveMatch(c: Calls, i: nat)
    requires i < |Table| && Matches(Table[i], c)
    ensures Resolve(c) == Table[i].result
  {
    TableDistinct();
    ResolveIsLookup(c);
    LookupFirst(Table, c, 0, i);
  }

  /** The result is Unknown exactly when no combination matches. */
  lemma ResolveUnknown(c: Calls)
    ensures Resolve(c) == Unresolved <==> forall i | 0 <= i < |Table| :: !Matches(Table[i], c)
  {
    RuleShapes();
    ResolveIsLookup(c);
    if exists i | 0 <= i < |Table| :: Matches(Table[i], c) {
      var i :| 0 <= i < |Table| && Matches(Table[i], c);
      ResolveMatch(c, i);
    } else {
      LookupNone(Table, c, 0);
    }
  }

  /** A NaN cell or an empty call at any primary position, position 22 included, gives Unknown. */
  lemma MissingCallUnknown(c: Calls)
    requires !Filled(c)
    ensures Resolve(c) == Unresolved
  {
    RuleShapes();
    ResolveUnknown(c);
  }

  /** Phenotype is a function of Genotype. */
  lemma PhenotypeFollowsGenotype(c: Calls)
    ensures Resolve(c).phenotype == PhenotypeOf(Resolve(c).genotype)
  {
    RuleShapes();
    ResolveIsLookup(c);
    if exists i | 0 <= i < |Table| :: Matches(Table[i], c) {
      var i :| 0 <= i < |Table| && Matches(Table[i], c);
      ResolveMatch(c, i);
    } else {
      ResolveUnknown(c);
    }
  }

  /** Two named combinations: an O1 deletion with A-or-O calls is AO1, and the B/O2 row is labelled O2B. */
  lemma NamedCombinations()
    ensures Resolve(Pattern(O1AndAOrBOrO, AOrO, OAndAOrB, AOrO, OAndAOrB)) == Resolution("A", "AO", "AO1")
    ensures Resolve(Pattern(AOrBOrO, AOrOAndB, O2AndOOrAOrB, AOrOAndB, OAndAOrB)).extended == "O2B"
  {
  }

  // ---------------------------------------------------------------- reliability

  const NoReadData := "Unknown (no read data)"
  const VeryLow := "Very Low(\U{2264}20 reads)"
  const Low := "Low (\U{2264}40 reads)"
  const Robust := "Robust(\U{2265}500 reads)"
  const Normal := "Normal"

  /** The smallest of the #Reads cells that are present and positive; None when there is none. */
  function MinPositive(counts: seq<Option<int>>): (m: Option<int>)
    ensures m.None? <==> forall k | 0 <= k < |counts| :: counts[k].None? || counts[k].value <= 0
    ensures m.Some? ==> m.value > 0 && Some(m.value) in counts
    ensures m.Some? ==> forall k | 0 <= k < |counts| :: counts[k].Some? && counts[k].value > 0 ==> m.value <= counts[k].value
  {
    if counts == [] then None
    else
      var rest := MinPositive(counts[1..]);
      assert forall k | 1 <= k < |counts| :: counts[k] == counts[1..][k - 1];
      if counts[0].None? || counts[0].value <= 0 then rest
      else if rest.None? || counts[0].value <= rest.value then counts[0]
      else rest
  }

  /** The Reliability grade of the smallest positive primary read count. */
  function Reliability(counts: seq<Option<int>>): (r: string)
    ensures r == NoReadData <==> forall k | 0 <= k < |counts| :: counts[k].None? || counts[k].value <= 0
  {
    GradeLengths();
    match MinPositive(counts)
    case None => NoReadData
    case Some(m) =>
      if m <= 20 then VeryLow
      else if 20 < m <= 40 then Low
      else if m >= 500 then Robust
      else Normal
  }

  /** Each grade holds exactly on its band of the smallest positive read count. */
  lemma ReliabilityGrades(counts: seq<Option<int>>)
    ensures Reliability(counts) == NoReadData <==>
            forall k | 0 <= k < |counts| :: counts[k].None? || counts[k].value <= 0
    ensures Reliability(counts) == VeryLow <==> MinPositive(counts).Some? && MinPositive(counts).value <= 20
    ensures Reliability(counts) == Low <==> MinPositive(counts).Some? && 20 < MinPositive(counts).value <= 40
    ensures Reliability(counts) == Robust <==> MinPositive(counts).Some? && MinPositive(counts).value >= 500
    ensures Reliability(counts) == Normal <==> MinPositive(counts).Some? && 40 < MinPositive(counts).value < 500
  {
    GradeLengths();
    match MinPositive(counts)
    case None =>
    case Some(m) =>
      assert Reliability(counts) == if m <= 20 then VeryLow else if m <= 40 then Low
                                    else if m >= 500 then Robust else Normal;
  }

  /** The five grades have five different lengths, so no two of them are equal. */
  lemma GradeLengths()
    ensures |NoReadData| == 22 && |VeryLow| == 19 && |Low| == 15 && |Robust| == 18 && |Normal| == 6
  {
  }

  // ---------------------------------------------------------------- the wide row and the result

  /** pos_df.iloc[0]: the first parsed row at a position. */
  function FirstAt(rows: seq<ReportReader.Row>, pos: int): (r: Option<ReportReader.Row>)
    ensures r.None? <==> forall k | 0 <= k < |rows| :: rows[k].reading.pos != pos
    ensures r.Some? ==> r.value in rows && r.value.reading.pos == pos
  {
    if rows == [] then None
    else if rows[0].reading.pos == pos then Some(rows[0])
    else
      assert forall k | 1 <= k < |rows| :: rows[k] == rows[1..][k - 1];
      FirstAt(rows[1..], pos)
  }

  /** The row FirstAt finds sits at an index before which no row has that position. */
  lemma {:induction false} FirstAtIsFirst(rows: seq<ReportReader.Row>, pos: int) returns (k: nat)
    requires FirstAt(rows, pos).Some?
    ensures k < |rows| && rows[k] == FirstAt(rows, pos).value
    ensures forall j | 0 <= j < k :: rows[j].reading.pos != pos
    decreases |rows|
  {
    if rows[0].reading.pos == pos {
      k := 0;
    } else {
      var k' := FirstAtIsFirst(rows[1..], pos);
      k := k' + 1;
      forall j | 0 <= j < k
        ensures rows[j].reading.pos != pos
      {
        if j > 0 { assert rows[j] == rows[1..][j - 1]; }
      }
    }
  }

  function TypeCell(rows: seq<ReportReader.Row>, pos: int): Option<string>
  {
    match FirstAt(rows, pos)
    case None => None
    case Some(row) => Some(row.typeCall)
  }

  function ReadsCell(rows: seq<ReportReader.Row>, pos: int): Option<int>
  {
    match FirstAt(rows, pos)
    case None => None
    case Some(row) => Some(row.reading.count)
  }

  /** The primary Type cells of the wide row built from the two parsed reports. */
  function WideCalls(rows6: seq<ReportReader.Row>, rows7: seq<ReportReader.Row>): Calls
  {
    Calls(TypeCell(rows6, 22), TypeCell(rows7, 422), TypeCell(rows7, 428),
          TypeCell(rows7, 429), TypeCell(rows7, 431))
  }

  /** The primary #Reads cells, in the order 22, 422, 428, 429, 431. */
  function WideReads(rows6: seq<ReportReader.Row>, rows7: seq<ReportReader.Row>): seq<Option<int>>
  {
    [ReadsCell(rows6, 22), ReadsCell(rows7, 422), ReadsCell(rows7, 428),
     ReadsCell(rows7, 429), ReadsCell(rows7, 431)]
  }

  /** The four result columns, always written together. */
  datatype Assignment = Assignment(resolution: Resolution, reliability: string)

  /** One sample: both reports parsed, laid out as a wide row, then resolved and graded. */
  function AssignSample(lines6: seq<string>, lines7: seq<string>): (r: Assignment)
    ensures r.resolution.phenotype == PhenotypeOf(r.resolution.genotype)
    ensures var counts := WideReads(ReportReader.ParsedExon(lines6, Exon6), ReportReader.ParsedExon(lines7, Exon7));
            r.reliability == NoReadData <==> forall k | 0 <= k < 5 :: counts[k].None? || counts[k].value <= 0
  {
    var rows6 := ReportReader.ParsedExon(lines6, Exon6);
    var rows7 := ReportReader.ParsedExon(lines7, Exon7);
    Assignment(Resolve(WideCalls(rows6, rows7)), Reliability(WideReads(rows6, rows7)))
  }

  /** Both parse paths give every required position a row, so FirstAt always finds one. */
  lemma ParsedHasRequired(lines: seq<string>, exon: Exon)
    ensures forall p | p in ReportReader.Required(exon) :: FirstAt(ReportReader.ParsedExon(lines, exon), p).Some?
  {
    var rows := ReportReader.ParsedExon(lines, exon);
    var req := ReportReader.Required(exon);
    match ReportReader.Readings(lines, exon)
    case None =>
      forall p | p in req
        ensures FirstAt(rows, p).Some?
      {
        var k :| 0 <= k < |req| && req[k] == p;
        assert rows[k].reading.pos == p;
      }
    case Some(rs) =>
      ReportReader.ParsedExonScanned(lines, exon, rs);
      forall p | p in req
        ensures FirstAt(rows, p).Some?
      {
        var k :| 0 <= k < |rows| && ReportReader.Positions(ReportReader.ReadingsOf(rows))[k] == p;
        assert rows[k].reading.pos == p;
      }
  }

  /**
   * The wide row of any two reports has all five primary Type and #Reads
   * cells, so the resolver never meets a NaN primary cell.
   */
  lemma WideRowComplete(lines6: seq<string>, lines7: seq<string>)
    ensures CellsPresent(ReportReader.ParsedExon(lines6, Exon6), ReportReader.ParsedExon(lines7, Exon7))
  {
    PrimaryRows6(lines6);
    PrimaryRows7(lines7);
    CellsPresentOf(ReportReader.ParsedExon(lines6, Exon6), ReportReader.ParsedExon(lines7, Exon7));
  }

  lemma CellsPresentOf(rows6: seq<ReportReader.Row>, rows7: seq<ReportReader.Row>)
    requires FirstAt(rows6, 22).Some? && FirstAt(rows7, 422).Some? && FirstAt(rows7, 428).Some? &&
             FirstAt(rows7, 429).Some? && FirstAt(rows7, 431).Some?
    ensures CellsPresent(rows6, rows7)
  {
    var w := WideReads(rows6, rows7);
    assert w[0].Some? && w[1].Some? && w[2].Some? && w[3].Some? && w[4].Some?;
  }

  /** The five primary Type and #Reads cells of a wide row are all filled in. */
  predicate CellsPresent(rows6: seq<ReportReader.Row>, rows7: seq<ReportReader.Row>)
  {
    var c := WideCalls(rows6, rows7);
    c.p22.Some? && c.p422.Some? && c.p428.Some? && c.p429.Some? && c.p431.Some? &&
    forall k | 0 <= k < |WideReads(rows6, rows7)| :: WideReads(rows6, rows7)[k].Some?
  }

  lemma PrimaryRows6(lines6: seq<string>)
    ensures FirstAt(ReportReader.ParsedExon(lines6, Exon6), 22).Some?
  {
    ParsedHasRequired(lines6, Exon6);
    assert 22 in ReportReader.Required(Exon6);
  }

  lemma PrimaryRows7(lines7: seq<string>)
    ensures var rows7 := ReportReader.ParsedExon(lines7, Exon7);
            FirstAt(rows7, 422).Some? && FirstAt(rows7, 428).Some? &&
            FirstAt(rows7, 429).Some? && FirstAt(rows7, 431).Some?
  {
    ParsedHasRequired(lines7, Exon7);
    var req := ReportReader.Required(Exon7);
    assert req[0] == 422 && req[1] == 428 && req[2] == 429 && req[3] == 431;
  }

  /** A report whose parse raised yields the empty call at its first primary position, hence Unknown. */
  lemma FailedReportUnknown(lines6: seq<string>, lines7: seq<string>)
    requires ReportReader.Readings(lines6, Exon6).None? || ReportReader.Readings(lines7, Exon7).None?
    ensures AssignSample(lines6, lines7).resolution == Unresolved
  {
    var rows6 := ReportReader.ParsedExon(lines6, Exon6);
    var rows7 := ReportReader.ParsedExon(lines7, Exon7);
    if ReportReader.Readings(lines6, Exon6).None? {
      assert rows6[0].reading.pos == 22;
      assert TypeCell(rows6, 22) == Some(NoCall);
    } else {
      assert rows7[0].reading.pos == 422;
      assert TypeCell(rows7, 422) == Some(NoCall);
    }
    MissingCallUnknown(WideCalls(rows6, rows7));
  }

  /** When both parses raise, every primary #Reads cell is 0 and the grade is "Unknown (no read data)". */
  lemma FailedReportsNoReadData(lines6: seq<string>, lines7: seq<string>)
    requires ReportReader.Readings(lines6, Exon6).None? && ReportReader.Readings(lines7, Exon7).None?
    ensures AssignSample(lines6, lines7).reliability == NoReadData
  {
    ZeroCountsNoReadData(ReportReader.Fallback(Exon6), ReportReader.Fallback(Exon7));
  }

  lemma ZeroCountsNoReadData(rows6: seq<ReportReader.Row>, rows7: seq<ReportReader.Row>)
    requires forall k | 0 <= k < |rows6| :: rows6[k].reading.count == 0
    requires forall k | 0 <= k < |rows7| :: rows7[k].reading.count == 0
    ensures Reliability(WideReads(rows6, rows7)) == NoReadData
  {
    var counts := WideReads(rows6, rows7);
    forall k | 0 <= k < |counts|
      ensures counts[k].None? || counts[k].value <= 0
    {
    }
    ReliabilityGrades(counts);
  }

  /**
   * An exon-6 report with no block for position 22 gets the zero row there,
   * whose call is empty, so the sample resolves to Unknown.
   */
  lemma MissingPosition22Unknown(lines6: seq<string>, lines7: seq<string>, rs: seq<ReportReader.Reading>)
    requires ReportReader.Readings(lines6, Exon6) == Some(rs)
    requires forall k | 0 <= k < |rs| :: rs[k].pos != 22
    ensures AssignSample(lines6, lines7).resolution == Unresolved
  {
    var rows6 := ReportReader.ParsedExon(lines6, Exon6);
    var rows7 := ReportReader.ParsedExon(lines7, Exon7);
    assert 22 in ReportReader.Required(Exon6);
    ZeroRowAt(rs, ReportReader.Required(Exon6), 22, Exon6);
    ZeroRecordCalls();
    assert TypeCell(rows6, 22) == Some(NoCall);
    MissingCallUnknown(WideCalls(rows6, rows7));
  }

  /** A required position that no scanned reading holds is found only as its zero row. */
  lemma ZeroRowAt(rs: seq<ReportReader.Reading>, req: seq<int>, p: int, exon: Exon)
    requires p in req
    requires forall k | 0 <= k < |rs| :: rs[k].pos != p
    ensures var rows := ReportReader.Typed(exon, ReportReader.SortByPosition(ReportReader.ZeroFill(rs, req)));
            FirstAt(rows, p) == Some(ReportReader.Row(exon, ReportReader.ZeroReading(p),
                                                      ReportReader.Call(exon, ReportReader.ZeroReading(p))))
  {
    OnlyZeroAt(rs, req, p);
    FirstOfSorted(ReportReader.ZeroFill(rs, req), ReportReader.ZeroReading(p), exon);
  }

  lemma OnlyZeroAt(rs: seq<ReportReader.Reading>, req: seq<int>, p: int)
    requires p in req
    requires forall k | 0 <= k < |rs| :: rs[k].pos != p
    ensures ReportReader.ZeroReading(p) in ReportReader.ZeroFill(rs, req)
    ensures forall x | x in ReportReader.ZeroFill(rs, req) && x.pos == p :: x == ReportReader.ZeroReading(p)
  {
    var filled := ReportReader.ZeroFill(rs, req);
    ReportReader.ZeroFillSpec(rs, req);
    var i :| 0 <= i < |filled| && ReportReader.Positions(filled)[i] == p;
    assert forall m | 0 <= m < |rs| :: filled[m].pos != p by {
      forall m | 0 <= m < |rs|
        ensures filled[m].pos != p
      {
        assert filled[m] == filled[..|rs|][m] == rs[m];
      }
    }
    assert filled[i] == ReportReader.ZeroReading(p);
    forall x | x in filled && x.pos == p
      ensures x == ReportReader.ZeroReading(p)
    {
      var m :| 0 <= m < |filled| && filled[m] == x;
      assert |rs| <= m;
      assert filled[m] == ReportReader.ZeroReading(filled[m].pos);
    }
  }

  /** When every reading at p is z, the first row at p after sorting and calling is z's row. */
  lemma FirstOfSorted(xs: seq<ReportReader.Reading>, z: ReportReader.Reading, exon: Exon)
    requires z in xs
    requires forall x | x in xs && x.pos == z.pos :: x == z
    ensures FirstAt(ReportReader.Typed(exon, ReportReader.SortByPosition(xs)), z.pos) ==
            Some(ReportReader.Row(exon, z, ReportReader.Call(exon, z)))
  {
    var sorted := ReportReader.SortByPosition(xs);
    var rows := ReportReader.Typed(exon, sorted);
    assert z in multiset(xs);
    assert z in multiset(sorted);
    var j :| 0 <= j < |sorted| && sorted[j] == z;
    assert rows[j].reading.pos == z.pos;
    var row := FirstAt(rows, z.pos).value;
    var k :| 0 <= k < |rows| && rows[k] == row;
    assert sorted[k] in multiset(sorted);
    assert sorted[k] in xs;
  }
}
