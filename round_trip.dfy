/**
 * The hand-over between the two scripts: every block generate_exon6_report /
 * generate_exon7_report writes is recognised by parse_exon6 / parse_exon7,
 * which read back the block's position, its coverage as #Reads and its eight
 * values, in the order the blocks were written.
 */
module RoundTrip {
  import opened Wrappers
  import opened Text
  import opened Exons
  import opened PhenotypeReport
  import ReportReader

  /** What the reader should recover from the block of one position. */
  function ReadingOf(pos: int, e: Entry): ReportReader.Reading
  {
    ReportReader.Reading(pos, e.coverage, e.matchPct, e.mismatchPct, e.insertionPct, e.deletionPct,
                         e.aPct, e.gPct, e.cPct, e.tPct)
  }

  /** The readings of several positions, in list order. */
  function ReadingsFor(ps: seq<int>, positions: map<int, Entry>): (r: seq<ReportReader.Reading>)
    requires forall k | 0 <= k < |ps| :: ps[k] in positions
    ensures |r| == |ps| && forall k | 0 <= k < |ps| :: r[k] == ReadingOf(ps[k], positions[ps[k]])
  {
    seq(|ps|, k requires 0 <= k < |ps| => ReadingOf(ps[k], positions[ps[k]]))
  }

  /**
   * An entry whose block reads back: the coverage is a count, and the
   * reference base has neither the 'E' of a position marker nor the 'g' of
   * "Aligned", so its line is taken for neither.
   */
  predicate Writable(e: Entry)
  {
    e.coverage >= 0 && 'E' !in e.refBase && 'g' !in e.refBase
  }

  lemma MarkersAgree(exon: Exon)
    ensures PhenotypeReport.PositionMarker(exon) == ReportReader.PositionMarker(exon)
    ensures ReportReader.PositionMarker(exon)[0] == 'E'
  {
  }

  // ---------------------------------------------------------------- lines the reader passes over

  /** A line without an 'E' never holds a position marker, so the outer loop moves on. */
  lemma PlainLineSkips(ls: seq<string>, exon: Exon)
    requires |ls| > 0 && 'E' !in ls[0]
    ensures ReportReader.LineOutcome(ls, exon) == ReportReader.Skip
  {
    StripExcludes(ls[0], 'E');
    MarkersAgree(exon);
    NotContainsMissingChar(Strip(ls[0]), ReportReader.PositionMarker(exon), 'E');
  }

  /** Lines without an 'E' in front of the rest add no reading and raise nothing. */
  lemma {:induction false} SkipLines(xs: seq<string>, rest: seq<string>, exon: Exon)
    requires forall k | 0 <= k < |xs| :: 'E' !in xs[k]
    ensures ReportReader.Readings(xs + rest, exon) == ReportReader.Readings(rest, exon)
    decreases |xs|
  {
    if xs == [] {
      assert xs + rest == rest;
    } else {
      var ls := xs + rest;
      assert ReportReader.Readings(ls, exon) == ReportReader.Readings(ls[1..], exon) by {
        assert ls[0] == xs[0];
        SkipOne(ls, exon);
      }
      assert ls[1..] == xs[1..] + rest;
      SkipLines(xs[1..], rest, exon);
    }
  }

  lemma SkipOne(ls: seq<string>, exon: Exon)
    requires |ls| > 0 && 'E' !in ls[0]
    ensures ReportReader.Readings(ls, exon) == ReportReader.Readings(ls[1..], exon)
  {
    PlainLineSkips(ls, exon);
  }

  /** A line neither the outer loop nor the window can take for a marker: no 'E' and no 'g'. */
  predicate Plain(line: string)
  {
    forall i | 0 <= i < |line| :: line[i] != 'E' && line[i] != 'g'
  }

  lemma PlainExcludes(line: string)
    requires Plain(line)
    ensures 'E' !in line && 'g' !in line
  {
  }

  lemma ConcatPlain(a: string, b: string)
    requires Plain(a) && Plain(b)
    ensures Plain(a + b)
  {
  }

  /** Every line of a list is plain. */
  predicate AllPlain(lines: seq<string>)
  {
    forall k | 0 <= k < |lines| :: Plain(lines[k])
  }

  /** The interpretation lines: at most three, and all plain. */
  lemma InterpretationPlain(exon: Exon, pos: int)
    ensures |Interpretation(exon, pos)| <= 3 && AllPlain(Interpretation(exon, pos))
  {
    match exon {
      case Exon6 => Exon6Plain(pos);
      case Exon7 =>
        if pos in {422, 428, 429, 431} {
          Exon7PrimaryPlain(pos);
        } else if pos < 350 {
          Exon7LowerPlain(pos);
        } else {
          Exon7UpperPlain(pos);
        }
    }
  }

  lemma Exon6Plain(pos: int)
    ensures |Exon6Interpretation(pos)| <= 3 && AllPlain(Exon6Interpretation(pos))
  {
    if pos == 22 {
      PlainAt22(pos);
    } else if pos == 27 {
      PlainAt27(pos);
    } else if pos == 29 {
      PlainAt29(pos);
    } else if pos == 58 {
      PlainAt58(pos);
    } else {
      assert Exon6Interpretation(pos) == [];
    }
  }

  lemma PlainAt22(pos: int)
    requires pos == 22
    ensures |Exon6Interpretation(pos)| <= 3 && AllPlain(Exon6Interpretation(pos))
  {
    var x := "G nucleotide: A or B blood type.";
    assert Plain(x);
    var y := "Deletion    : O blood type(O1).";
    assert Plain(y);
    assert Exon6Interpretation(pos) == [x, y];
  }

  lemma PlainAt27(pos: int)
    requires pos == 27
    ensures |Exon6Interpretation(pos)| <= 3 && AllPlain(Exon6Interpretation(pos))
  {
    var x := "C nucleotide: A1 or A3 subtype.";
    assert Plain(x);
    var y := "T nucleotide: A2 subtype.";
    assert Plain(y);
    assert Exon6Interpretation(pos) == [x, y];
  }

  lemma PlainAt29(pos: int)
    requires pos == 29
    ensures |Exon6Interpretation(pos)| <= 3 && AllPlain(Exon6Interpretation(pos))
  {
    var x := "T nucleotide: A1 or A3 subtype.";
    assert Plain(x);
    var y := "C nucleotide: A2 subtype.";
    assert Plain(y);
    assert Exon6Interpretation(pos) == [x, y];
  }

  lemma PlainAt58(pos: int)
    requires pos == 58
    ensures |Exon6Interpretation(pos)| <= 3 && AllPlain(Exon6Interpretation(pos))
  {
    var x := "A nucleotide: A1 or A3 subtype.";
    assert Plain(x);
    var y := "G nucleotide: A2 subtype.";
    assert Plain(y);
    assert Exon6Interpretation(pos) == [x, y];
  }

  lemma Exon7PrimaryPlain(pos: int)
    ensures |Exon7PrimaryInterpretation(pos)| <= 3 && AllPlain(Exon7PrimaryInterpretation(pos))
  {
    if pos == 422 {
      PlainAt422(pos);
    } else if pos == 428 {
      PlainAt428(pos);
    } else if pos == 429 {
      PlainAt429(pos);
    } else if pos == 431 {
      PlainAt431(pos);
    } else {
      assert Exon7PrimaryInterpretation(pos) == [];
    }
  }

  lemma PlainAt422(pos: int)
    requires pos == 422
    ensures |Exon7PrimaryInterpretation(pos)| <= 3 && AllPlain(Exon7PrimaryInterpretation(pos))
  {
    var x := "A nucleotide: B blood type.";
    assert Plain(x);
    var y := "C nucleotide: A or O blood type.";
    assert Plain(y);
    assert Exon7PrimaryInterpretation(pos) == [x, y];
  }

  lemma PlainAt428(pos: int)
    requires pos == 428
    ensures |Exon7PrimaryInterpretation(pos)| <= 3 && AllPlain(Exon7PrimaryInterpretation(pos))
  {
    var x := "A nucleotide: O blood type (O2).";
    assert Plain(x);
    var y := "G nucleotide: A or B or O blood type.";
    assert Plain(y);
    assert Exon7PrimaryInterpretation(pos) == [x, y];
  }

  lemma PlainAt429(pos: int)
    requires pos == 429
    ensures |Exon7PrimaryInterpretation(pos)| <= 3 && AllPlain(Exon7PrimaryInterpretation(pos))
  {
    var x := "G nucleotide: A or O blood type.";
    assert Plain(x);
    var y := "C nucleotide: B blood type.";
    assert Plain(y);
    assert Exon7PrimaryInterpretation(pos) == [x, y];
  }

  lemma PlainAt431(pos: int)
    requires pos == 431
    ensures |Exon7PrimaryInterpretation(pos)| <= 3 && AllPlain(Exon7PrimaryInterpretation(pos))
  {
    var x := "G nucleotide: O blood type (O3).";
    assert Plain(x);
    var y := "A nucleotide: O blood type (O4).";
    assert Plain(y);
    var z := "T nucleotide: A or B or O blood type.";
    assert Plain(z);
    assert Exon7PrimaryInterpretation(pos) == [x, y, z];
  }

  lemma Exon7LowerPlain(pos: int)
    ensures |Exon7LowerInterpretation(pos)| <= 3 && AllPlain(Exon7LowerInterpretation(pos))
  {
    if pos == 93 {
      PlainAt93(pos);
    } else if pos == 165 {
      PlainAt165(pos);
    } else if pos == 272 {
      PlainAt272(pos);
    } else if pos == 307 {
      PlainAt307(pos);
    } else {
      assert Exon7LowerInterpretation(pos) == [];
    }
  }

  lemma PlainAt93(pos: int)
    requires pos == 93
    ensures |Exon7LowerInterpretation(pos)| <= 3 && AllPlain(Exon7LowerInterpretation(pos))
  {
    var x := "C nucleotide: A1 subtype.";
    assert Plain(x);
    var y := "T nucleotide: A2 or A3 subtype.";
    assert Plain(y);
    assert Exon7LowerInterpretation(pos) == [x, y];
  }

  lemma PlainAt165(pos: int)
    requires pos == 165
    ensures |Exon7LowerInterpretation(pos)| <= 3 && AllPlain(Exon7LowerInterpretation(pos))
  {
    var x := "G nucleotide: A1 or A2 subtype.";
    assert Plain(x);
    var y := "A nucleotide: A3 subtype.";
    assert Plain(y);
    assert Exon7LowerInterpretation(pos) == [x, y];
  }

  lemma PlainAt272(pos: int)
    requires pos == 272
    ensures |Exon7LowerInterpretation(pos)| <= 3 && AllPlain(Exon7LowerInterpretation(pos))
  {
    var x := "T nucleotide: A1 subtype.";
    assert Plain(x);
    var y := "A nucleotide: A2 subtype.";
    assert Plain(y);
    assert Exon7LowerInterpretation(pos) == [x, y];
  }

  lemma PlainAt307(pos: int)
    requires pos == 307
    ensures |Exon7LowerInterpretation(pos)| <= 3 && AllPlain(Exon7LowerInterpretation(pos))
  {
    var x := "G nucleotide: A1 or A2 subtype.";
    assert Plain(x);
    var y := "A nucleotide: A3 subtype.";
    assert Plain(y);
    assert Exon7LowerInterpretation(pos) == [x, y];
  }

  lemma Exon7UpperPlain(pos: int)
    ensures |Exon7UpperInterpretation(pos)| <= 3 && AllPlain(Exon7UpperInterpretation(pos))
  {
    if pos == 371 {
      PlainAt371(pos);
    } else if pos == 446 {
      PlainAt446(pos);
    } else if pos == 680 {
      PlainAt680(pos);
    } else if pos == 687 {
      PlainAt687(pos);
    } else {
      assert Exon7UpperInterpretation(pos) == [];
    }
  }

  lemma PlainAt371(pos: int)
    requires pos == 371
    ensures |Exon7UpperInterpretation(pos)| <= 3 && AllPlain(Exon7UpperInterpretation(pos))
  {
    var x := "C nucleotide: A1 or A2 subtype.";
    assert Plain(x);
    var y := "T nucleotide: A3 subtype.";
    assert Plain(y);
    assert Exon7UpperInterpretation(pos) == [x, y];
  }

  lemma PlainAt446(pos: int)
    requires pos == 446
    ensures |Exon7UpperInterpretation(pos)| <= 3 && AllPlain(Exon7UpperInterpretation(pos))
  {
    var x := "G nucleotide: A1 or A2 subtype.";
    assert Plain(x);
    var y := "A nucleotide: A3 subtype.";
    assert Plain(y);
    assert Exon7UpperInterpretation(pos) == [x, y];
  }

  lemma PlainAt680(pos: int)
    requires pos == 680
    ensures |Exon7UpperInterpretation(pos)| <= 3 && AllPlain(Exon7UpperInterpretation(pos))
  {
    var x := "C nucleotide: A1 or A3 subtype.";
    assert Plain(x);
    var y := "T nucleotide: A2 subtype.";
    assert Plain(y);
    assert Exon7UpperInterpretation(pos) == [x, y];
  }

  lemma PlainAt687(pos: int)
    requires pos == 687
    ensures |Exon7UpperInterpretation(pos)| <= 3 && AllPlain(Exon7UpperInterpretation(pos))
  {
    var x := "C nucleotide: A1 subtype.";
    assert Plain(x);
    var y1 := "Deletion: A2 or A3 subtype ";
    var y2 := "(weaker expression).";
    assert Plain(y1) && Plain(y2);
    ConcatPlain(y1, y2);
    var y := y1 + y2;
    assert Exon7UpperInterpretation(pos) == [x, y];
  }

  /** The values line splits back into the eight formatted numbers, which parse back to the values. */
  lemma ValuesLineRead(e: Entry)
    ensures var line := Join(FormatValues(BlockValues(e)), '\t');
            Words(line) == FormatValues(BlockValues(e)) &&
            ReportReader.ParseAll(Words(line)) == Some(BlockValues(e)) &&
            'E' !in line
  {
    var fs := FormatValues(BlockValues(e));
    WordsJoin(fs, '\t');
    forall k | 0 <= k < |fs|
      ensures 'E' !in fs[k]
    {
      var s := fs[k];
      assert forall i | 0 <= i < |s| :: s[i] == '-' || IsDigit(s[i]);
    }
    JoinExcludes(fs, '\t', 'E');
    var v := ReportReader.ParseAll(fs).value;
    assert v == BlockValues(e);
  }

  // ---------------------------------------------------------------- one block

  /** A line without a 'g' is not a count line. */
  lemma NotCountLine(ls: seq<string>, pos: int, k: nat)
    requires k < |ls| && 'g' !in ls[k]
    ensures ReportReader.StatsAt(ls, pos, k) == ReportReader.Skip
  {
    assert ReportReader.CountMarker[3] == 'g';
    NotContainsMissingChar(ls[k], ReportReader.CountMarker, 'g');
  }

  /** The reference line, the count line, the values header and the values line of a block. */
  function CountBlock(pos: int, e: Entry, display: string): seq<string>
  {
    ["(1-based) Position:" + IntToString(pos) + ", Reference Base=" + e.refBase,
     "Aligned Read Count:" + IntToString(e.coverage) + display,
     ValuesHeader,
     Join(FormatValues(BlockValues(e)), '\t')]
  }

  /** The lines of a block after its position line. */
  function BlockAfter(exon: Exon, pos: int, e: Entry, display: string): seq<string>
  {
    Interpretation(exon, pos) + CountBlock(pos, e, display)
  }

  /** The lines of a block from its position line on. */
  function BlockTail(exon: Exon, pos: int, e: Entry, display: string): seq<string>
  {
    [PositionLine(exon, pos)] + BlockAfter(exon, pos, e, display)
  }

  /** The suffix coverage_display adds to a count line: empty, or a space first, and no 'E'. */
  predicate PlainDisplay(display: string)
  {
    (display == "" || display[0] == ' ') && 'E' !in display
  }

  lemma CoverageDisplayPlain(numreads: int, covbases: int)
    ensures PlainDisplay(CoverageDisplay(numreads, covbases))
  {
    var d := CoverageDisplay(numreads, covbases);
    if numreads > 0 {
      var r := IntToString(numreads);
      var c := IntToString(covbases);
      assert forall i | 0 <= i < |r| :: r[i] == '-' || IsDigit(r[i]);
      assert forall i | 0 <= i < |c| :: c[i] == '-' || IsDigit(c[i]);
      assert d == " (reads=" + r + ", cov=" + c + ")";
    }
  }

  /** The count line of a block: a count line whose first number is the coverage. */
  lemma CountLineOf(e: Entry, display: string)
    requires e.coverage >= 0 && PlainDisplay(display)
    ensures var line := "Aligned Read Count:" + IntToString(e.coverage) + display;
            Contains(line, ReportReader.CountMarker) && ColonNumber(line) == Some(e.coverage) &&
            'E' !in line
  {
    var digits := IntToString(e.coverage);
    ReportReader.CountLineRead(e.coverage, display);
    assert forall i | 0 <= i < |digits| :: IsDigit(digits[i]);
    assert "Aligned Read Count:" == ReportReader.CountMarker;
  }

  /** The reference line of a block is plain. */
  lemma ReferenceLinePlain(pos: int, e: Entry)
    requires Writable(e)
    ensures Plain("(1-based) Position:" + IntToString(pos) + ", Reference Base=" + e.refBase)
  {
    var digits := IntToString(pos);
    assert Plain(digits);
    assert Plain(e.refBase);
    ConcatPlain("(1-based) Position:", digits);
    ConcatPlain("(1-based) Position:" + digits, ", Reference Base=");
    ConcatPlain("(1-based) Position:" + digits + ", Reference Base=", e.refBase);
  }

  /** The header line of the values holds "Mat" and no 'E'. */
  lemma ValuesHeaderRead()
    ensures Contains(ValuesHeader, ReportReader.ValuesMarker)
  {
    assert ValuesHeader == ReportReader.ValuesMarker + "\tMis\tIns\tDel\tA\tG\tC\tT";
    ContainsPrefix(ReportReader.ValuesMarker, "\tMis\tIns\tDel\tA\tG\tC\tT");
  }

  lemma ValuesHeaderNoE()
    ensures 'E' !in ValuesHeader
  {
  }

  /**
   * A window that opens on a line without the count marker, passes over up to
   * four lines without a 'g', then meets a count line, a "Mat" line and a values
   * line, records that block.
   */
  lemma WindowFindsCount(ls: seq<string>, pos: int, n: nat, r: ReportReader.Reading)
    requires n <= 4 && n + 3 < |ls| && r.pos == pos
    requires !Contains(ls[0], ReportReader.CountMarker)
    requires forall m | 1 <= m <= n :: 'g' !in ls[m]
    requires ReportReader.CountBlockAt(ls, n + 1, r)
    ensures ReportReader.WindowFrom(ls, pos, 0) == ReportReader.Record(r)
  {
    assert ReportReader.StatsAt(ls, pos, 0) == ReportReader.Skip;
    WindowFromCount(ls, pos, 1, n, r);
  }

  /** From offset k on, lines without a 'g' are passed over until the count line at n + 1. */
  lemma {:induction false} WindowFromCount(ls: seq<string>, pos: int, k: nat, n: nat, r: ReportReader.Reading)
    requires 1 <= k <= n + 1 && n <= 4 && n + 3 < |ls| && r.pos == pos
    requires forall m | k <= m <= n :: 'g' !in ls[m]
    requires ReportReader.CountBlockAt(ls, n + 1, r)
    ensures ReportReader.WindowFrom(ls, pos, k) == ReportReader.Record(r)
    decreases n + 1 - k
  {
    if k <= n {
      NotCountLine(ls, pos, k);
      WindowFromCount(ls, pos, k + 1, n, r);
    } else {
      assert ReportReader.StatsAt(ls, pos, k) == ReportReader.Record(r) by {
        ReportReader.StatsAtRecord(ls, pos, k, r);
      }
    }
  }

  /** Where each part of a block lands once the lines after it are appended. */
  lemma BlockLayout(first: string, interp: seq<string>, tail: seq<string>, rest: seq<string>)
    ensures var ls := [first] + interp + tail + rest;
            ls[0] == first &&
            (forall m | 1 <= m <= |interp| :: ls[m] == interp[m - 1]) &&
            forall j | 0 <= j < |tail| :: ls[1 + |interp| + j] == tail[j]
  {
  }

  /** The values line of a block reads back as the eight values of its reading. */
  lemma ValuesLineOf(pos: int, e: Entry)
    ensures ReportReader.ValuesLine(Words(Join(FormatValues(BlockValues(e)), '\t')), ReadingOf(pos, e))
  {
    var w := Words(Join(FormatValues(BlockValues(e)), '\t'));
    var r := ReadingOf(pos, e);
    assert ReportReader.ParseAll(w) == Some([r.mat, r.mis, r.ins, r.del, r.a, r.g, r.c, r.t]) by {
      ValuesLineRead(e);
    }
    ParsedValuesLine(w, r);
  }

  /** Eight words that parse to the eight values of a reading form its values line. */
  lemma ParsedValuesLine(w: seq<string>, r: ReportReader.Reading)
    requires ReportReader.ParseAll(w) == Some([r.mat, r.mis, r.ins, r.del, r.a, r.g, r.c, r.t])
    ensures ReportReader.ValuesLine(w, r)
  {
  }

  /** From the position line, the window finds the block's count line and records its reading. */
  lemma BlockWindow(exon: Exon, pos: nat, e: Entry, display: string, rest: seq<string>)
    requires Writable(e) && PlainDisplay(display)
    ensures ReportReader.WindowFrom(BlockTail(exon, pos, e, display) + rest, pos, 0) ==
            ReportReader.Record(ReadingOf(pos, e))
  {
    var interp := Interpretation(exon, pos);
    var first := PositionLine(exon, pos);
    var tail := CountBlock(pos, e, display);
    assert BlockTail(exon, pos, e, display) + rest == [first] + interp + tail + rest;
    BlockParts(exon, pos, e, display);
    WindowOverBlock(first, interp, tail, rest, pos, ReadingOf(pos, e));
  }

  /** What the window needs from each line of a block. */
  lemma BlockParts(exon: Exon, pos: nat, e: Entry, display: string)
    requires Writable(e) && PlainDisplay(display)
    ensures |Interpretation(exon, pos)| <= 3 && AllPlain(Interpretation(exon, pos))
    ensures !Contains(PositionLine(exon, pos), ReportReader.CountMarker)
    ensures var tail := CountBlock(pos, e, display);
            |tail| == 4 && Plain(tail[0]) &&
            Contains(tail[1], ReportReader.CountMarker) && ColonNumber(tail[1]) == Some(e.coverage) &&
            Contains(tail[2], ReportReader.ValuesMarker) &&
            ReportReader.ValuesLine(Words(tail[3]), ReadingOf(pos, e))
  {
    var first := PositionLine(exon, pos);
    var tail := CountBlock(pos, e, display);
    InterpretationPlain(exon, pos);
    assert !Contains(first, ReportReader.CountMarker) by {
      assert first == PhenotypeReport.PositionMarker(exon) + " " + NatToString(pos);
      MarkersAgree(exon);
      ReportReader.PositionLineMarkers(exon, pos);
    }
    assert Plain(tail[0]) by { ReferenceLinePlain(pos, e); }
    assert Contains(tail[1], ReportReader.CountMarker) && ColonNumber(tail[1]) == Some(e.coverage) by {
      CountLineOf(e, display);
    }
    assert Contains(tail[2], ReportReader.ValuesMarker) by { ValuesHeaderRead(); }
    assert ReportReader.ValuesLine(Words(tail[3]), ReadingOf(pos, e)) by { ValuesLineOf(pos, e); }
  }

  /**
   * The window over a block: the position line and the explanation lines are
   * passed over, and the count line three lines later records the reading.
   */
  lemma WindowOverBlock(first: string, interp: seq<string>, tail: seq<string>, rest: seq<string>,
                        pos: int, r: ReportReader.Reading)
    requires |interp| <= 3 && AllPlain(interp) && |tail| == 4 && r.pos == pos
    requires !Contains(first, ReportReader.CountMarker) && Plain(tail[0])
    requires Contains(tail[1], ReportReader.CountMarker) && ColonNumber(tail[1]) == Some(r.count)
    requires Contains(tail[2], ReportReader.ValuesMarker) && ReportReader.ValuesLine(Words(tail[3]), r)
    ensures ReportReader.WindowFrom([first] + interp + tail + rest, pos, 0) == ReportReader.Record(r)
  {
    var ls := [first] + interp + tail + rest;
    var n := |interp|;
    BlockLayout(first, interp, tail, rest);
    forall m | 1 <= m <= n + 1
      ensures 'g' !in ls[m]
    {
      if m <= n {
        PlainExcludes(interp[m - 1]);
      } else {
        assert ls[m] == tail[0];
        PlainExcludes(tail[0]);
      }
    }
    assert ls[n + 2] == tail[1] && ls[n + 3] == tail[2] && ls[n + 4] == tail[3];
    WindowFindsCount(ls, pos, n + 1, r);
  }

  // ---------------------------------------------------------------- blocks and whole reports

  /** A blank line, a recorded line, then lines without an 'E' add exactly that reading. */
  lemma RecordThenPlain(block: seq<string>, tailLines: seq<string>, first: string, after: seq<string>,
                        rest: seq<string>, exon: Exon, r: ReportReader.Reading)
    requires block == [""] + tailLines && tailLines == [first] + after
    requires ReportReader.LineOutcome(tailLines + rest, exon) == ReportReader.Record(r)
    requires forall k | 0 <= k < |after| :: 'E' !in after[k]
    ensures ReportReader.Readings(block + rest, exon) ==
            ReportReader.Prepend([r], ReportReader.Readings(rest, exon))
  {
    BlankThen(block, tailLines, first, after, rest);
    var ls := [first] + (after + rest);
    assert ls[1..] == after + rest;
    SkipLines(after, rest, exon);
    SkipLines([""], ls, exon);
  }

  /** The position line of a block makes the outer loop record the block's reading. */
  lemma PositionLineRecords(exon: Exon, pos: nat, e: Entry, display: string, rest: seq<string>)
    requires Writable(e) && PlainDisplay(display)
    ensures ReportReader.LineOutcome(BlockTail(exon, pos, e, display) + rest, exon) ==
            ReportReader.Record(ReadingOf(pos, e))
  {
    var ls := BlockTail(exon, pos, e, display) + rest;
    assert ls[0] == PhenotypeReport.PositionMarker(exon) + " " + NatToString(pos);
    MarkersAgree(exon);
    ReportReader.PositionLineRead(exon, pos);
    ReportReader.PositionLineMarkers(exon, pos);
    BlockWindow(exon, pos, e, display, rest);
  }

  /** No line after the position line of a block holds an 'E'. */
  lemma BlockAfterPlain(exon: Exon, pos: int, e: Entry, display: string)
    requires Writable(e) && PlainDisplay(display)
    ensures forall k | 0 <= k < |BlockAfter(exon, pos, e, display)| :: 'E' !in BlockAfter(exon, pos, e, display)[k]
  {
    var interp := Interpretation(exon, pos);
    var refLine := "(1-based) Position:" + IntToString(pos) + ", Reference Base=" + e.refBase;
    var countLine := "Aligned Read Count:" + IntToString(e.coverage) + display;
    var valuesLine := Join(FormatValues(BlockValues(e)), '\t');
    var tail := CountBlock(pos, e, display);
    assert tail == [refLine, countLine, ValuesHeader, valuesLine];
    assert AllPlain(interp) by { InterpretationPlain(exon, pos); }
    assert 'E' !in refLine by {
      ReferenceLinePlain(pos, e);
      PlainExcludes(refLine);
    }
    assert 'E' !in countLine by { CountLineOf(e, display); }
    assert 'E' !in ValuesHeader by { ValuesHeaderNoE(); }
    assert 'E' !in valuesLine by { ValuesLineRead(e); }
    NoEAfter(interp, tail);
  }

  lemma NoEAfter(interp: seq<string>, tail: seq<string>)
    requires AllPlain(interp) && forall j | 0 <= j < |tail| :: 'E' !in tail[j]
    ensures forall k | 0 <= k < |interp + tail| :: 'E' !in (interp + tail)[k]
  {
    forall k | 0 <= k < |interp + tail|
      ensures 'E' !in (interp + tail)[k]
    {
      if k < |interp| {
        PlainExcludes(interp[k]);
      }
    }
  }

  /** A block is a blank line followed by its tail. */
  lemma BlockShape(exon: Exon, pos: int, e: Entry, display: string)
    ensures Block(exon, pos, e, display) == [""] + BlockTail(exon, pos, e, display)
  {
    var interp := Interpretation(exon, pos);
    var tail := CountBlock(pos, e, display);
    var first := PositionLine(exon, pos);
    assert Block(exon, pos, e, display) == ["", first] + interp + tail;
    assert BlockTail(exon, pos, e, display) == [first] + (interp + tail);
    ShapeOf(first, interp, tail);
  }

  lemma ShapeOf(first: string, interp: seq<string>, tail: seq<string>)
    ensures ["", first] + interp + tail == [""] + ([first] + (interp + tail))
  {
  }

  /** The reader passes over the blank line, records the block at its position line, and passes over the rest. */
  lemma ReadingsBlock(exon: Exon, pos: nat, e: Entry, display: string, rest: seq<string>)
    requires Writable(e) && PlainDisplay(display)
    ensures ReportReader.Readings(Block(exon, pos, e, display) + rest, exon) ==
            ReportReader.Prepend([ReadingOf(pos, e)], ReportReader.Readings(rest, exon))
  {
    BlockShape(exon, pos, e, display);
    PositionLineRecords(exon, pos, e, display, rest);
    BlockAfterPlain(exon, pos, e, display);
    RecordThenPlain(Block(exon, pos, e, display), BlockTail(exon, pos, e, display),
                    PositionLine(exon, pos), BlockAfter(exon, pos, e, display), rest, exon, ReadingOf(pos, e));
  }

  lemma BlankThen(block: seq<string>, tailLines: seq<string>, first: string, after: seq<string>, rest: seq<string>)
    requires block == [""] + tailLines && tailLines == [first] + after
    ensures tailLines + rest == [first] + (after + rest)
    ensures block + rest == [""] + ([first] + (after + rest))
  {
  }

  lemma ReadingsForSnoc(ps: seq<int>, positions: map<int, Entry>)
    requires |ps| > 0 && forall k | 0 <= k < |ps| :: ps[k] in positions
    ensures ReadingsFor(ps, positions) ==
            ReadingsFor(ps[..|ps| - 1], positions) + [ReadingOf(ps[|ps| - 1], positions[ps[|ps| - 1]])]
  {
    var init := ps[..|ps| - 1];
    var r := ReadingsFor(ps, positions);
    var r0 := ReadingsFor(init, positions);
    assert forall k | 0 <= k < |init| :: r[k] == r0[k];
  }

  /** The readings of a list of blocks are the readings of their positions, in order. */
  lemma {:induction false} ReadingsBlocks(exon: Exon, ps: seq<int>, positions: map<int, Entry>, display: string,
                                          rest: seq<string>)
    requires forall k | 0 <= k < |ps| :: ps[k] in positions && ps[k] >= 0 && Writable(positions[ps[k]])
    requires PlainDisplay(display)
    ensures ReportReader.Readings(Blocks(exon, ps, positions, display) + rest, exon) ==
            ReportReader.Prepend(ReadingsFor(ps, positions), ReportReader.Readings(rest, exon))
    decreases |ps|
  {
    if ps == [] {
      assert Blocks(exon, ps, positions, display) + rest == rest;
      ReportReader.PrependNothing(ReportReader.Readings(rest, exon));
    } else {
      var init := ps[..|ps| - 1];
      var last := ps[|ps| - 1];
      var front := Blocks(exon, init, positions, display);
      var block := Block(exon, last, positions[last], display);
      var r := ReadingOf(last, positions[last]);
      assert Blocks(exon, ps, positions, display) == front + block;
      ReadingsBlocks(exon, init, positions, display, block + rest);
      ReadingsBlock(exon, last, positions[last], display, rest);
      ReadingsForSnoc(ps, positions);
      BlocksStep(front, block, rest, exon, ReadingsFor(init, positions), r);
    }
  }

  lemma BlocksStep(front: seq<string>, block: seq<string>, rest: seq<string>, exon: Exon,
                   xs: seq<ReportReader.Reading>, r: ReportReader.Reading)
    requires ReportReader.Readings(front + (block + rest), exon) ==
             ReportReader.Prepend(xs, ReportReader.Readings(block + rest, exon))
    requires ReportReader.Readings(block + rest, exon) ==
             ReportReader.Prepend([r], ReportReader.Readings(rest, exon))
    ensures ReportReader.Readings((front + block) + rest, exon) ==
            ReportReader.Prepend(xs + [r], ReportReader.Readings(rest, exon))
  {
    assert (front + block) + rest == front + (block + rest);
    ReportReader.PrependTwice(xs, [r], ReportReader.Readings(rest, exon));
  }

  /** Every diagnostic position is positive. */
  lemma DiagnosticPositive(exon: Exon)
    ensures forall k | 0 <= k < |Primaries(exon)| :: Primaries(exon)[k] > 0
    ensures forall k | 0 <= k < |Subtypes(exon)| :: Subtypes(exon)[k] > 0
  {
  }

  /** The title line of a report is too short to hold a position marker. */
  lemma TitleSkips(exon: Exon, lines: seq<string>)
    ensures ReportReader.Readings(["Exon " + ExonName(exon) + ":"] + lines, exon) == ReportReader.Readings(lines, exon)
  {
    var title := "Exon " + ExonName(exon) + ":";
    var ls := [title] + lines;
    assert ls[0] == title && ls[1..] == lines;
    StripUnchanged(title);
    MarkersAgree(exon);
    NotContainsShort(title, ReportReader.PositionMarker(exon));
    assert ReportReader.LineOutcome(ls, exon) == ReportReader.Skip;
  }

  /** The subtype heading holds no 'E'. */
  lemma HeadingPlain(exon: Exon)
    ensures var heading := ["", SubtypeHeading(exon)];
            forall k | 0 <= k < |heading| :: 'E' !in heading[k]
  {
    var h := SubtypeHeading(exon);
    match exon {
      case Exon6 => assert h == "# -------- A subtypes variants in exon 6 --------";
      case Exon7 => assert h == "# -------- A subtypes variants --------";
    }
    assert 'E' !in h;
  }

  lemma ReadingsForAppend(xs: seq<int>, ys: seq<int>, positions: map<int, Entry>)
    requires forall k | 0 <= k < |xs| :: xs[k] in positions
    requires forall k | 0 <= k < |ys| :: ys[k] in positions
    ensures ReadingsFor(xs + ys, positions) == ReadingsFor(xs, positions) + ReadingsFor(ys, positions)
  {
  }

  /** Lines without an 'E' followed by blocks read back as the readings of the blocks' positions. */
  lemma HeadedBlocksRead(exon: Exon, heading: seq<string>, subs: seq<int>, positions: map<int, Entry>, display: string)
    requires forall k | 0 <= k < |heading| :: 'E' !in heading[k]
    requires forall k | 0 <= k < |subs| :: subs[k] in positions && subs[k] >= 0 && Writable(positions[subs[k]])
    requires PlainDisplay(display)
    ensures ReportReader.Readings(heading + Blocks(exon, subs, positions, display), exon) ==
            Some(ReadingsFor(subs, positions))
  {
    BlocksRead(exon, subs, positions, display);
    SkipLines(heading, Blocks(exon, subs, positions, display), exon);
  }

  /** Blocks alone read back as the readings of their positions. */
  lemma BlocksRead(exon: Exon, subs: seq<int>, positions: map<int, Entry>, display: string)
    requires forall k | 0 <= k < |subs| :: subs[k] in positions && subs[k] >= 0 && Writable(positions[subs[k]])
    requires PlainDisplay(display)
    ensures ReportReader.Readings(Blocks(exon, subs, positions, display), exon) ==
            Some(ReadingsFor(subs, positions))
  {
    var blocks := Blocks(exon, subs, positions, display);
    var xs := ReadingsFor(subs, positions);
    assert blocks + [] == blocks;
    ReadingsBlocks(exon, subs, positions, display, []);
    assert ReportReader.Readings([], exon) == Some([]);
    assert xs + [] == xs;
  }

  /** The subtype section reads back as the readings of the subtype positions present. */
  lemma SubtypeSectionReads(exon: Exon, positions: map<int, Entry>, display: string)
    requires forall p | p in positions :: Writable(positions[p])
    requires PlainDisplay(display)
    ensures ReportReader.Readings(SubtypeSection(exon, positions, display), exon) ==
            Some(ReadingsFor(Present(Subtypes(exon), positions), positions))
  {
    var subs := Present(Subtypes(exon), positions);
    if subs == [] {
      assert SubtypeSection(exon, positions, display) == [];
      assert ReportReader.Readings([], exon) == Some([]);
      assert ReadingsFor(subs, positions) == [];
    } else {
      DiagnosticPositive(exon);
      assert forall k | 0 <= k < |subs| :: subs[k] in Subtypes(exon);
      HeadingPlain(exon);
      HeadedBlocksRead(exon, ["", SubtypeHeading(exon)], subs, positions, display);
    }
  }

  /** A report is its title line followed by the primary blocks and the subtype section. */
  lemma ReportShape(exon: Exon, positions: map<int, Entry>, numreads: int, covbases: int)
    ensures var display := CoverageDisplay(numreads, covbases);
            Report(exon, positions, numreads, covbases) ==
            ["Exon " + ExonName(exon) + ":"] +
            (Blocks(exon, Present(Primaries(exon), positions), positions, display) +
             SubtypeSection(exon, positions, display))
  {
    var display := CoverageDisplay(numreads, covbases);
    Associative(["Exon " + ExonName(exon) + ":"], Blocks(exon, Present(Primaries(exon), positions), positions, display),
                SubtypeSection(exon, positions, display));
  }

  lemma Associative(a: seq<string>, b: seq<string>, c: seq<string>)
    ensures a + b + c == a + (b + c)
  {
  }

  /**
   * Round trip: reading a report back with the aggregation step's parser yields,
   * for every position the report writes, that position's count and eight values,
   * in the order the report writes them.
   */
  lemma ReportReadBack(exon: Exon, positions: map<int, Entry>, numreads: int, covbases: int)
    requires forall p | p in positions :: Writable(positions[p])
    ensures ReportReader.Readings(Report(exon, positions, numreads, covbases), exon) ==
            Some(ReadingsFor(ReportPositions(exon, positions), positions))
  {
    var display := CoverageDisplay(numreads, covbases);
    CoverageDisplayPlain(numreads, covbases);
    var prim := Present(Primaries(exon), positions);
    var subs := Present(Subtypes(exon), positions);
    var primLines := Blocks(exon, prim, positions, display);
    var subLines := SubtypeSection(exon, positions, display);
    var xs := ReadingsFor(prim, positions);
    var ys := ReadingsFor(subs, positions);
    ReportShape(exon, positions, numreads, covbases);
    TitleSkips(exon, primLines + subLines);
    PrimaryBlocksRead(exon, positions, display, subLines);
    SubtypeSectionReads(exon, positions, display);
    assert ReportReader.Prepend(xs, Some(ys)) == Some(xs + ys);
    ReadingsForAppend(prim, subs, positions);
  }

  /** The primary blocks read back as the readings of the primary positions present. */
  lemma PrimaryBlocksRead(exon: Exon, positions: map<int, Entry>, display: string, rest: seq<string>)
    requires forall p | p in positions :: Writable(positions[p])
    requires PlainDisplay(display)
    ensures var prim := Present(Primaries(exon), positions);
            ReportReader.Readings(Blocks(exon, prim, positions, display) + rest, exon) ==
            ReportReader.Prepend(ReadingsFor(prim, positions), ReportReader.Readings(rest, exon))
  {
    var prim := Present(Primaries(exon), positions);
    DiagnosticPositive(exon);
    assert forall k | 0 <= k < |prim| :: prim[k] in Primaries(exon);
    ReadingsBlocks(exon, prim, positions, display, rest);
  }

  /** Zero fill only appends, so every scanned reading survives into the parsed rows. */
  lemma ScannedKept(lines: seq<string>, exon: Exon, rs: seq<ReportReader.Reading>)
    requires ReportReader.Readings(lines, exon) == Some(rs)
    ensures multiset(rs) <= multiset(ReportReader.ReadingsOf(ReportReader.ParsedExon(lines, exon)))
  {
    var req := ReportReader.Required(exon);
    assert multiset(ReportReader.ReadingsOf(ReportReader.ParsedExon(lines, exon))) ==
           multiset(ReportReader.ZeroFill(rs, req)) by {
      ReportReader.ParsedExonScanned(lines, exon, rs);
    }
    FillKeeps(rs, req);
  }

  /** Zero fill keeps every reading it starts from. */
  lemma FillKeeps(rs: seq<ReportReader.Reading>, req: seq<int>)
    ensures multiset(rs) <= multiset(ReportReader.ZeroFill(rs, req))
  {
    var filled := ReportReader.ZeroFill(rs, req);
    ReportReader.ZeroFillSpec(rs, req);
    assert filled == rs + filled[|rs|..];
    assert multiset(filled) == multiset(rs) + multiset(filled[|rs|..]);
  }

  /**
   * End to end: after zero fill, sorting and typing, the rows the aggregation
   * step builds from a report contain every reading the report wrote.
   */
  lemma ReportParsed(exon: Exon, positions: map<int, Entry>, numreads: int, covbases: int)
    requires forall p | p in positions :: Writable(positions[p])
    ensures var rows := ReportReader.ParsedExon(Report(exon, positions, numreads, covbases), exon);
            multiset(ReadingsFor(ReportPositions(exon, positions), positions)) <= multiset(ReportReader.ReadingsOf(rows))
  {
    ReportReadBack(exon, positions, numreads, covbases);
    ScannedKept(Report(exon, positions, numreads, covbases), exon,
                ReadingsFor(ReportPositions(exon, positions), positions));
  }
}
