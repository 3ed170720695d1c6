/**
 * The diagnostic-position report writer of bin/predict_abo_phenotype.py:
 * the stats file is folded into a map from position to percentages, the exon
 * is fixed, every coverage is overwritten with the read count of the coverage
 * file, only the diagnostic positions of the exon are kept, and each kept
 * position is written as a fixed block of text lines.
 */
module PhenotypeReport {
  import opened Wrappers
  import opened Text
  import opened Exons
  import Pileup

  // ---------------------------------------------------------------- reading the stats file

  /** The dictionary read_nucleotide_frequencies stores for one position. */
  datatype Entry = Entry(
    refBase: string,
    matchPct: int,
    mismatchPct: int,
    insertionPct: int,
    deletionPct: int,
    aPct: int,
    gPct: int,
    cPct: int,
    tPct: int,
    coverage: int)

  /** A data row that parsed: its position and its entry. */
  datatype Parsed = Parsed(pos: int, entry: Entry)

  /**
   * (positions, max_position, empty) as read_nucleotide_frequencies returns
   * them; order lists the keys of the positions dict in its iteration order,
   * which is the order in which they were first inserted.
   */
  datatype Frequencies = Frequencies(positions: map<int, Entry>, order: seq<int>, maxPosition: int, empty: bool)

  const NoFrequencies := Frequencies(map[], [], 0, true)

  /** Fewer data rows than this and the file counts as holding no data. */
  const MinimumRows := 134

  /** The index of the first header cell called name, or |header| when there is none. */
  function ColumnIndex(header: seq<string>, name: string): (k: nat)
    ensures k <= |header|
    ensures k < |header| ==> header[k] == name
    ensures forall m | 0 <= m < k :: header[m] != name
    decreases |header|
  {
    if |header| == 0 then 0
    else if header[0] == name then 0
    else 1 + ColumnIndex(header[1..], name)
  }

  /** row[name]: None (the KeyError) when no column has that name or the row is too short. */
  function Column(header: seq<string>, fields: seq<string>, name: string): Option<string>
  {
    var k := ColumnIndex(header, name);
    if k < |header| && k < |fields| then Some(fields[k]) else None
  }

  /** int(row[name]) / float(row[name]) on an integer-valued column. */
  function Number(header: seq<string>, fields: seq<string>, name: string): Option<int>
  {
    match Column(header, fields, name)
    case None => None
    case Some(x) => ParseInt(x)
  }

  /** One row of the loop body: None when any field is missing or not a number. */
  function ReadRow(header: seq<string>, fields: seq<string>): (r: Option<Parsed>)
    ensures r.Some? ==> r.value.entry.coverage == 0
  {
    var pos := Number(header, fields, "Ref_Position_1based");
    var refBase := Column(header, fields, "Ref_Base");
    var mat := Number(header, fields, "Match_Percent");
    var mis := Number(header, fields, "Mismatch_Percent");
    var ins := Number(header, fields, "Insertion_Percent");
    var del := Number(header, fields, "Deletion_Percent");
    var a := Number(header, fields, "A_Percent");
    var g := Number(header, fields, "G_Percent");
    var c := Number(header, fields, "C_Percent");
    var t := Number(header, fields, "T_Percent");
    if pos.None? || refBase.None? || mat.None? || mis.None? || ins.None? || del.None? ||
       a.None? || g.None? || c.None? || t.None?
    then None
    else
      Some(Parsed(pos.value, Entry(refBase.value, mat.value, mis.value, ins.value, del.value,
                                   a.value, g.value, c.value, t.value, 0)))
  }

  /** The loop body applied to every data row, before the failed ones are dropped. */
  function RowsRead(header: seq<string>, rows: seq<string>): (r: seq<Option<Parsed>>)
    ensures |r| == |rows| && forall i | 0 <= i < |rows| :: r[i] == ReadRow(header, Split(rows[i], '\t'))
  {
    seq(|rows|, i requires 0 <= i < |rows| => ReadRow(header, Split(rows[i], '\t')))
  }

  /** The values of the rows that parsed, in order. */
  function Somes(xs: seq<Option<Parsed>>): (r: seq<Parsed>)
    ensures |r| <= |xs|
    ensures forall i | 0 <= i < |r| :: Some(r[i]) in xs
  {
    if xs == [] then []
    else
      var init := Somes(xs[..|xs| - 1]);
      match xs[|xs| - 1]
      case None => init
      case Some(p) => init + [p]
  }

  /** The rows that parse, in file order; the others are skipped. */
  function ParsedRows(header: seq<string>, rows: seq<string>): (r: seq<Parsed>)
    ensures |r| <= |rows|
    ensures forall i | 0 <= i < |r| :: r[i].entry.coverage == 0
  {
    var r := Somes(RowsRead(header, rows));
    assert forall i | 0 <= i < |r| :: Some(r[i]) in RowsRead(header, rows);
    r
  }

  /** One more row: it is appended when it parses and skipped otherwise. */
  lemma ParsedRowsSnoc(header: seq<string>, rows: seq<string>, i: nat, row: Option<Parsed>)
    requires i < |rows| && row == ReadRow(header, Split(rows[i], '\t'))
    ensures ParsedRows(header, rows[..i + 1]) ==
            ParsedRows(header, rows[..i]) + (if row.Some? then [row.value] else [])
  {
    var xs := RowsRead(header, rows[..i + 1]);
    assert xs[..i] == RowsRead(header, rows[..i]);
  }

  /** positions[pos] = {...} for each parsed row in turn. */
  function PositionMap(parsed: seq<Parsed>): map<int, Entry>
  {
    if parsed == [] then map[]
    else
      var last := parsed[|parsed| - 1];
      PositionMap(parsed[..|parsed| - 1])[last.pos := last.entry]
  }

  /** The keys of the positions dict in insertion order: a position joins when first seen. */
  function KeyOrder(parsed: seq<Parsed>): (r: seq<int>)
    ensures forall p :: p in r <==> p in PositionMap(parsed)
    ensures forall i, j | 0 <= i < j < |r| :: r[i] != r[j]
  {
    if parsed == [] then []
    else
      var init := KeyOrder(parsed[..|parsed| - 1]);
      var p := parsed[|parsed| - 1].pos;
      if p in init then init else init + [p]
  }

  /** max_position: starts at 0 and grows to every larger parsed position. */
  function MaxPosition(parsed: seq<Parsed>): int
  {
    if parsed == [] then 0
    else
      var m := MaxPosition(parsed[..|parsed| - 1]);
      var p := parsed[|parsed| - 1].pos;
      if p > m then p else m
  }

  /** read_nucleotide_frequencies on the lines of a stats file (header line first). */
  function ReadFrequencies(lines: seq<string>): (r: Frequencies)
    ensures |lines| <= MinimumRows ==> r == NoFrequencies
    ensures r.empty <==> r == NoFrequencies
    ensures !r.empty ==> |r.positions| > 0
    ensures forall p :: p in r.positions <==> p in r.order
  {
    if |lines| == 0 || |lines| - 1 < MinimumRows then NoFrequencies
    else
      var parsed := ParsedRows(Split(lines[0], '\t'), lines[1..]);
      if parsed == [] then NoFrequencies
      else
        assert parsed[|parsed| - 1].pos in PositionMap(parsed);
        Frequencies(PositionMap(parsed), KeyOrder(parsed), MaxPosition(parsed), false)
  }

  /** One more parsed row updates the dict, the key order and the maximum position. */
  lemma FrequencyStep(parsed: seq<Parsed>, x: Parsed)
    ensures PositionMap(parsed + [x]) == PositionMap(parsed)[x.pos := x.entry]
    ensures KeyOrder(parsed + [x]) ==
            if x.pos in PositionMap(parsed) then KeyOrder(parsed) else KeyOrder(parsed) + [x.pos]
    ensures MaxPosition(parsed + [x]) == if x.pos > MaxPosition(parsed) then x.pos else MaxPosition(parsed)
  {
    assert (parsed + [x])[..|parsed|] == parsed;
  }

  /** The loop of read_nucleotide_frequencies. */
  method ReadNucleotideFrequencies(lines: seq<string>) returns (f: Frequencies)
    ensures f == ReadFrequencies(lines)
  {
    if |lines| == 0 || |lines| - 1 < MinimumRows {
      return NoFrequencies;
    }
    var header := Split(lines[0], '\t');
    var rows := lines[1..];
    var positions: map<int, Entry> := map[];
    var order: seq<int> := [];
    var maxPosition := 0;
    var anyData := false;
    ghost var parsed: seq<Parsed> := [];
    for i := 0 to |rows|
      invariant parsed == ParsedRows(header, rows[..i])
      invariant positions == PositionMap(parsed)
      invariant order == KeyOrder(parsed)
      invariant maxPosition == MaxPosition(parsed)
      invariant anyData <==> parsed != []
    {
      var row := ReadRow(header, Split(rows[i], '\t'));
      ParsedRowsSnoc(header, rows, i, row);
      if row.Some? {
        FrequencyStep(parsed, row.value);
        anyData := true;
        if row.value.pos !in positions {
          order := order + [row.value.pos];
        }
        positions := positions[row.value.pos := row.value.entry];
        if row.value.pos > maxPosition {
          maxPosition := row.value.pos;
        }
        parsed := parsed + [row.value];
      }
    }
    assert rows[..|rows|] == rows;
    if !anyData {
      return NoFrequencies;
    }
    assert parsed[|parsed| - 1].pos in positions;
    f := Frequencies(positions, order, maxPosition, false);
  }

  /**
   * The map holds exactly the parsed positions; each holds the entry of the
   * LAST row with that position, and every entry starts with coverage 0.
   */
  lemma {:induction false} LastRowWins(parsed: seq<Parsed>)
    ensures forall p :: p in PositionMap(parsed) <==> exists i | 0 <= i < |parsed| :: parsed[i].pos == p
    ensures forall i | 0 <= i < |parsed| && (forall j | i < j < |parsed| :: parsed[j].pos != parsed[i].pos) ::
      PositionMap(parsed)[parsed[i].pos] == parsed[i].entry
  {
    if parsed != [] {
      var init := parsed[..|parsed| - 1];
      LastRowWins(init);
      forall p | p in PositionMap(parsed)
        ensures exists i | 0 <= i < |parsed| :: parsed[i].pos == p
      {
        var last := parsed[|parsed| - 1];
        assert PositionMap(parsed) == PositionMap(init)[last.pos := last.entry];
        if p != last.pos {
          assert p in PositionMap(init);
          var i :| 0 <= i < |init| && init[i].pos == p;
          assert parsed[i].pos == p;
        }
      }
      forall i | 0 <= i < |init| && (forall j | i < j < |parsed| :: parsed[j].pos != parsed[i].pos)
        ensures PositionMap(parsed)[parsed[i].pos] == parsed[i].entry
      {
        assert init[i] == parsed[i];
        assert forall j | i < j < |init| :: init[j] == parsed[j];
      }
    }
  }

  /** max_position is 0 or a parsed position, and no parsed position exceeds it. */
  lemma {:induction false} MaxPositionBounds(parsed: seq<Parsed>)
    ensures MaxPosition(parsed) >= 0
    ensures forall i | 0 <= i < |parsed| :: parsed[i].pos <= MaxPosition(parsed)
    ensures MaxPosition(parsed) == 0 || exists i | 0 <= i < |parsed| :: parsed[i].pos == MaxPosition(parsed)
  {
    if parsed != [] {
      var init := parsed[..|parsed| - 1];
      MaxPositionBounds(init);
      assert forall i | 0 <= i < |init| :: parsed[i] == init[i];
      if MaxPosition(parsed) != parsed[|parsed| - 1].pos && MaxPosition(parsed) != 0 {
        var i :| 0 <= i < |init| && init[i].pos == MaxPosition(init);
        assert parsed[i].pos == MaxPosition(parsed);
      }
    }
  }

  /** Every entry of the map carries coverage 0 until the coverage override. */
  lemma {:induction false} MapCoverageZero(parsed: seq<Parsed>)
    requires forall i | 0 <= i < |parsed| :: parsed[i].entry.coverage == 0
    ensures forall p | p in PositionMap(parsed) :: PositionMap(parsed)[p].coverage == 0
  {
    if parsed != [] {
      MapCoverageZero(parsed[..|parsed| - 1]);
    }
  }

  // ---------------------------------------------------------------- the stats file read back

  /** The entry a stats row becomes once read: its percentages, coverage 0. */
  function EntryOf(s: Pileup.Stats): Entry
  {
    Entry(s.refBase, s.matchPct, s.mismatchPct, s.insertionPct, s.deletionPct,
          s.aPct, s.gPct, s.cPct, s.tPct, 0)
  }

  lemma {:induction false} ColumnIndexOf(header: seq<string>, name: string, k: nat)
    requires k < |header| && header[k] == name
    requires forall m | 0 <= m < k :: header[m] != name
    ensures ColumnIndex(header, name) == k
    decreases k
  {
    if k > 0 {
      ColumnIndexOf(header[1..], name, k - 1);
    }
  }

  /** Each of the first ten names of the written header is found at its own index. */
  lemma StatsHeaderColumn(k: nat)
    requires k < 10
    ensures ColumnIndex(Pileup.StatsHeader, Pileup.StatsHeader[k]) == k
  {
    var h := Pileup.StatsHeader;
    if k == 0 {
      ColumnIndexOf(h, "Ref_Position_1based", 0);
    } else if k == 1 {
      assert h[0] != "Ref_Base";
      ColumnIndexOf(h, "Ref_Base", 1);
    } else if k == 2 {
      assert h[0] != "Match_Percent" && h[1] != "Match_Percent";
      ColumnIndexOf(h, "Match_Percent", 2);
    } else if k == 3 {
      assert h[0] != "Mismatch_Percent" && h[1] != "Mismatch_Percent" && h[2] != "Mismatch_Percent";
      ColumnIndexOf(h, "Mismatch_Percent", 3);
    } else if k == 4 {
      assert h[0] != "Insertion_Percent" && h[1] != "Insertion_Percent" && h[2] != "Insertion_Percent" && h[3] != "Insertion_Percent";
      ColumnIndexOf(h, "Insertion_Percent", 4);
    } else if k == 5 {
      assert h[0] != "Deletion_Percent" && h[1] != "Deletion_Percent" && h[2] != "Deletion_Percent" && h[3] != "Deletion_Percent";
      assert h[4] != "Deletion_Percent";
      ColumnIndexOf(h, "Deletion_Percent", 5);
    } else if k == 6 {
      assert h[0] != "A_Percent" && h[1] != "A_Percent" && h[2] != "A_Percent" && h[3] != "A_Percent";
      assert h[4] != "A_Percent" && h[5] != "A_Percent";
      ColumnIndexOf(h, "A_Percent", 6);
    } else if k == 7 {
      assert h[0] != "G_Percent" && h[1] != "G_Percent" && h[2] != "G_Percent" && h[3] != "G_Percent";
      assert h[4] != "G_Percent" && h[5] != "G_Percent" && h[6] != "G_Percent";
      ColumnIndexOf(h, "G_Percent", 7);
    } else if k == 8 {
      assert h[0] != "C_Percent" && h[1] != "C_Percent" && h[2] != "C_Percent" && h[3] != "C_Percent";
      assert h[4] != "C_Percent" && h[5] != "C_Percent" && h[6] != "C_Percent" && h[7] != "C_Percent";
      ColumnIndexOf(h, "C_Percent", 8);
    } else if k == 9 {
      assert h[0] != "T_Percent" && h[1] != "T_Percent" && h[2] != "T_Percent" && h[3] != "T_Percent";
      assert h[4] != "T_Percent" && h[5] != "T_Percent" && h[6] != "T_Percent" && h[7] != "T_Percent";
      assert h[8] != "T_Percent";
      ColumnIndexOf(h, "T_Percent", 9);
    }
  }

  /** A numeric column found at index k reads the integer written there. */
  lemma NumberAt(header: seq<string>, fields: seq<string>, name: string, k: nat, v: int)
    requires k < |header| && k < |fields| && ColumnIndex(header, name) == k
    requires ParseInt(fields[k]) == Some(v)
    ensures Number(header, fields, name) == Some(v)
  { }

  /** The position and reference base of a written row read back. */
  lemma ReadStatsKeys(s: Pileup.Stats, f: seq<string>)
    requires f == Pileup.StatsFields(s)
    ensures Number(Pileup.StatsHeader, f, "Ref_Position_1based") == Some(s.pos)
    ensures Column(Pileup.StatsHeader, f, "Ref_Base") == Some(s.refBase)
  {
    var h, n := Pileup.StatsHeader, Pileup.StatsNumbers(s);
    assert Number(h, f, "Ref_Position_1based") == Some(s.pos) by {
      Pileup.RowValues(s);
      StatsHeaderColumn(0);
      NumberAt(h, f, h[0], 0, s.pos);
    }
    assert Column(h, f, "Ref_Base") == Some(s.refBase) by { StatsHeaderColumn(1); }
  }

  /** The match and mismatch percentages of a written row read back. */
  lemma ReadStatsMatches(s: Pileup.Stats, f: seq<string>)
    requires f == Pileup.StatsFields(s)
    ensures Number(Pileup.StatsHeader, f, "Match_Percent") == Some(s.matchPct)
    ensures Number(Pileup.StatsHeader, f, "Mismatch_Percent") == Some(s.mismatchPct)
  {
    var h, n := Pileup.StatsHeader, Pileup.StatsNumbers(s);
    assert Number(h, f, "Match_Percent") == Some(s.matchPct) by {
      Pileup.RowValues(s);
      StatsHeaderColumn(2);
      NumberAt(h, f, h[2], 2, n[1]);
    }
    assert Number(h, f, "Mismatch_Percent") == Some(s.mismatchPct) by {
      Pileup.RowValues(s);
      StatsHeaderColumn(3);
      NumberAt(h, f, h[3], 3, n[2]);
    }
  }

  /** The insertion and deletion percentages of a written row read back. */
  lemma ReadStatsIndels(s: Pileup.Stats, f: seq<string>)
    requires f == Pileup.StatsFields(s)
    ensures Number(Pileup.StatsHeader, f, "Insertion_Percent") == Some(s.insertionPct)
    ensures Number(Pileup.StatsHeader, f, "Deletion_Percent") == Some(s.deletionPct)
  {
    var h, n := Pileup.StatsHeader, Pileup.StatsNumbers(s);
    assert Number(h, f, "Insertion_Percent") == Some(s.insertionPct) by {
      Pileup.RowValues(s);
      StatsHeaderColumn(4);
      NumberAt(h, f, h[4], 4, n[3]);
    }
    assert Number(h, f, "Deletion_Percent") == Some(s.deletionPct) by {
      Pileup.RowValues(s);
      StatsHeaderColumn(5);
      NumberAt(h, f, h[5], 5, n[4]);
    }
  }

  /** The A and G percentages of a written row read back. */
  lemma ReadStatsAG(s: Pileup.Stats, f: seq<string>)
    requires f == Pileup.StatsFields(s)
    ensures Number(Pileup.StatsHeader, f, "A_Percent") == Some(s.aPct)
    ensures Number(Pileup.StatsHeader, f, "G_Percent") == Some(s.gPct)
  {
    var h, n := Pileup.StatsHeader, Pileup.StatsNumbers(s);
    assert Number(h, f, "A_Percent") == Some(s.aPct) by {
      Pileup.RowValues(s);
      StatsHeaderColumn(6);
      NumberAt(h, f, h[6], 6, n[5]);
    }
    assert Number(h, f, "G_Percent") == Some(s.gPct) by {
      Pileup.RowValues(s);
      StatsHeaderColumn(7);
      NumberAt(h, f, h[7], 7, n[6]);
    }
  }

  /** The C percentage of a written row reads back. */
  lemma ReadStatsC(s: Pileup.Stats, f: seq<string>)
    requires f == Pileup.StatsFields(s)
    ensures Number(Pileup.StatsHeader, f, "C_Percent") == Some(s.cPct)
  {
    var h, n := Pileup.StatsHeader, Pileup.StatsNumbers(s);
    Pileup.RowValues(s);
    StatsHeaderColumn(8);
    NumberAt(h, f, h[8], 8, n[7]);
  }

  /** The T percentage of a written row reads back. */
  lemma ReadStatsT(s: Pileup.Stats, f: seq<string>)
    requires f == Pileup.StatsFields(s)
    ensures Number(Pileup.StatsHeader, f, "T_Percent") == Some(s.tPct)
  {
    var h, n := Pileup.StatsHeader, Pileup.StatsNumbers(s);
    Pileup.RowValues(s);
    StatsHeaderColumn(9);
    NumberAt(h, f, h[9], 9, n[8]);
  }

  /** The fields of a written stats row, read under the written header, give back the row. */
  lemma ReadStatsFields(s: Pileup.Stats, f: seq<string>)
    requires f == Pileup.StatsFields(s)
    ensures ReadRow(Pileup.StatsHeader, f) == Some(Parsed(s.pos, EntryOf(s)))
  {
    ReadStatsKeys(s, f);
    ReadStatsMatches(s, f);
    ReadStatsIndels(s, f);
    ReadStatsAG(s, f);
    ReadStatsC(s, f);
    ReadStatsT(s, f);
  }

  /**
   * A row written by write_stats is read back by read_nucleotide_frequencies
   * under the header it was written with: same position, same reference base,
   * same eight percentages.
   */
  lemma ReadWrittenRow(s: Pileup.Stats)
    requires '\t' !in s.refBase
    ensures ReadRow(Pileup.StatsHeader, Split(Pileup.FormatStats(s), '\t')) == Some(Parsed(s.pos, EntryOf(s)))
  {
    Pileup.RowLayout(s);
    ReadStatsFields(s, Pileup.StatsFields(s));
  }

  /** The header line of a stats file splits back into the header names. */
  lemma StatsHeaderLine()
    ensures Split(Join(Pileup.StatsHeader, '\t'), '\t') == Pileup.StatsHeader
  {
    var h := Pileup.StatsHeader;
    assert forall k | 0 <= k < |h| :: '\t' !in h[k];
    SplitJoin(h, '\t');
  }

  /** When every row parses, ParsedRows keeps them all, in order. */
  lemma ParsedRowsAll(header: seq<string>, rows: seq<string>, parsed: seq<Parsed>)
    requires |rows| == |parsed|
    requires forall i | 0 <= i < |rows| :: ReadRow(header, Split(rows[i], '\t')) == Some(parsed[i])
    ensures ParsedRows(header, rows) == parsed
  {
    var xs := RowsRead(header, rows);
    assert xs == seq(|parsed|, i requires 0 <= i < |parsed| => Some(parsed[i]));
    SomesAll(parsed);
  }

  /** When every row parsed, none is dropped. */
  lemma {:induction false} SomesAll(parsed: seq<Parsed>)
    ensures Somes(seq(|parsed|, i requires 0 <= i < |parsed| => Some(parsed[i]))) == parsed
  {
    if parsed != [] {
      var k := |parsed| - 1;
      var xs := seq(|parsed|, i requires 0 <= i < |parsed| => Some(parsed[i]));
      assert xs[..k] == seq(k, i requires 0 <= i < k => Some(parsed[..k][i]));
      SomesAll(parsed[..k]);
      assert parsed == parsed[..k] + [parsed[k]];
    }
  }

  /** Reading a file of written rows skips none of them. */
  lemma ReadWrittenRows(rows: seq<Pileup.Stats>)
    requires forall j | 0 <= j < |rows| :: '\t' !in rows[j].refBase
    ensures ParsedRows(Pileup.StatsHeader, Pileup.FormatAll(rows)) ==
            seq(|rows|, j requires 0 <= j < |rows| => Parsed(rows[j].pos, EntryOf(rows[j])))
  {
    var lines := Pileup.FormatAll(rows);
    var parsed := seq(|rows|, j requires 0 <= j < |rows| => Parsed(rows[j].pos, EntryOf(rows[j])));
    forall i | 0 <= i < |lines|
      ensures ReadRow(Pileup.StatsHeader, Split(lines[i], '\t')) == Some(parsed[i])
    {
      ReadWrittenRow(rows[i]);
    }
    ParsedRowsAll(Pileup.StatsHeader, lines, parsed);
  }

  /**
   * A stats file written by process_mpileup_file with at least 134 rows is
   * read back with one parsed row per written row: the map holds exactly the
   * decoded positions, and max_position is the largest of them (or 0).
   */
  lemma StatsFileReadBack(pileup: seq<string>)
    requires |Pileup.FormatAll(Pileup.DecodedRows(pileup, Pileup.ExonBySize(|Pileup.DistinctPositions(pileup)|), |pileup|))| >= MinimumRows
    ensures var rows := Pileup.DecodedRows(pileup, Pileup.ExonBySize(|Pileup.DistinctPositions(pileup)|), |pileup|);
      var parsed := seq(|rows|, j requires 0 <= j < |rows| => Parsed(rows[j].pos, EntryOf(rows[j])));
      ReadFrequencies(Pileup.StatsFile(pileup)) ==
        Frequencies(PositionMap(parsed), KeyOrder(parsed), MaxPosition(parsed), false)
  {
    var exon := Pileup.ExonBySize(|Pileup.DistinctPositions(pileup)|);
    var rows := Pileup.DecodedRows(pileup, exon, |pileup|);
    var file := Pileup.StatsFile(pileup);
    Pileup.StatsFileRows(pileup, exon, |pileup|);
    forall j | 0 <= j < |rows|
      ensures '\t' !in rows[j].refBase
    {
      assert Pileup.WellFormedRow(rows[j]);
    }
    StatsHeaderLine();
    assert file[0] == Join(Pileup.StatsHeader, '\t');
    assert file[1..] == Pileup.FormatAll(rows);
    ReadWrittenRows(rows);
  }

  // ---------------------------------------------------------------- coverage override

  /** What read_coverage_file found: both columns, or nothing (the empty dict). */
  datatype CoverageInfo = CoverageInfo(numreads: int, covbases: int)

  /** Every position's coverage becomes numreads when coverage data exists. */
  function WithCoverage(positions: map<int, Entry>, info: Option<CoverageInfo>): map<int, Entry>
  {
    if info.None? then positions
    else map p | p in positions :: positions[p].(coverage := info.value.numreads)
  }

  /** The loop of main that sets positions[pos]["coverage"] = numreads, visiting the keys in order. */
  method ApplyCoverage(positions: map<int, Entry>, order: seq<int>, info: Option<CoverageInfo>)
    returns (updated: map<int, Entry>)
    requires forall p :: p in positions <==> p in order
    ensures updated == WithCoverage(positions, info)
  {
    updated := positions;
    if info.None? {
      return;
    }
    var numreads := info.value.numreads;
    for i := 0 to |order|
      invariant updated.Keys == positions.Keys
      invariant forall p | p in positions ::
        updated[p] == if p in order[..i] then positions[p].(coverage := numreads) else positions[p]
    {
      assert forall p :: p in order[..i + 1] <==> p in order[..i] || p == order[i];
      updated := updated[order[i] := updated[order[i]].(coverage := numreads)];
    }
    assert order[..|order|] == order;
    assert forall p | p in positions :: updated[p] == positions[p].(coverage := numreads);
  }

  /**
   * After the override the map has the same positions and percentages, and
   * every coverage of a map read from a stats file is numreads when coverage
   * data exists and 0 otherwise.
   */
  lemma CoverageOverride(lines: seq<string>, info: Option<CoverageInfo>)
    ensures var before := ReadFrequencies(lines).positions;
      var after := WithCoverage(before, info);
      after.Keys == before.Keys &&
      (forall p | p in after :: after[p].(coverage := 0) == before[p].(coverage := 0)) &&
      (forall p | p in after :: after[p].coverage == if info.Some? then info.value.numreads else 0)
  {
    var f := ReadFrequencies(lines);
    if !f.empty {
      MapCoverageZero(ParsedRows(Split(lines[0], '\t'), lines[1..]));
    }
  }

  // ---------------------------------------------------------------- which exon

  /** determine_exon_type: the lower-cased file name mentions exon6 (checked first) or exon7. */
  function ExonFromFilename(filename: string): (r: Option<Exon>)
    ensures r == Some(Exon6) <==> Contains(Lower(filename), "exon6")
    ensures r == Some(Exon7) <==> !Contains(Lower(filename), "exon6") && Contains(Lower(filename), "exon7")
  {
    var name := Lower(filename);
    if Contains(name, "exon6") then Some(Exon6)
    else if Contains(name, "exon7") then Some(Exon7)
    else None
  }

  /** The exon main processes: the explicit choice, else the file name, else the largest position. */
  function ChooseExon(explicit: Option<Exon>, filename: string, maxPosition: int): (r: Exon)
    ensures explicit.Some? ==> r == explicit.value
    ensures explicit.None? && ExonFromFilename(filename).Some? ==> r == ExonFromFilename(filename).value
    ensures explicit.None? && ExonFromFilename(filename).None? ==> (r == Exon7 <==> maxPosition > 135)
  {
    if explicit.Some? then explicit.value
    else match ExonFromFilename(filename)
      case Some(e) => e
      case None => if maxPosition > 135 then Exon7 else Exon6
  }

  /** The file-name rule does not depend on letter case. */
  lemma FilenameCaseInsensitive(filename: string)
    ensures ExonFromFilename(Upper(filename)) == ExonFromFilename(filename)
  {
    assert Lower(Upper(filename)) == Lower(filename);
  }

  // ---------------------------------------------------------------- position filter

  const Exon6Positions: seq<int> := [22, 27, 29, 58]
  const Exon7Positions: seq<int> := [422, 428, 429, 431, 93, 165, 687, 272, 307, 371, 446, 680]

  function KeptPositions(exon: Exon): seq<int>
  {
    match exon
    case Exon6 => Exon6Positions
    case Exon7 => Exon7Positions
  }

  /** filtered_positions: the entries whose position is diagnostic for the exon. */
  function Kept(positions: map<int, Entry>, exon: Exon): map<int, Entry>
  {
    map p | p in positions && p in KeptPositions(exon) :: positions[p]
  }

  /** The filter loop of main: for each diagnostic position present, copy its entry. */
  method FilterPositions(positions: map<int, Entry>, exon: Exon) returns (filtered: map<int, Entry>)
    ensures filtered == Kept(positions, exon)
  {
    var kept := KeptPositions(exon);
    filtered := map[];
    for i := 0 to |kept|
      invariant filtered == map p | p in positions && p in kept[..i] :: positions[p]
    {
      assert forall p :: p in kept[..i + 1] <==> p in kept[..i] || p == kept[i];
      if kept[i] in positions {
        filtered := filtered[kept[i] := positions[kept[i]]];
      }
    }
    assert kept[..|kept|] == kept;
  }

  // ---------------------------------------------------------------- report blocks

  /** format_number on an integer-valued number: the integer without a decimal point. */
  function FormatNumber(v: int): (r: string)
    ensures |r| >= 1 && NoSpace(r) && '.' !in r
    ensures ParseInt(r) == Some(v)
  {
    ParseIntOfIntToString(v);
    IntToString(v)
  }

  /** coverage_display: the read and base counts, only when numreads is positive. */
  function CoverageDisplay(numreads: int, covbases: int): (r: string)
    ensures r != "" <==> numreads > 0
    ensures r != "" ==> r[0] == ' '
  {
    if numreads > 0 then " (reads=" + IntToString(numreads) + ", cov=" + IntToString(covbases) + ")"
    else ""
  }

  function ExonName(exon: Exon): string
  {
    match exon
    case Exon6 => "6"
    case Exon7 => "7"
  }

  /** The text the reader looks for at the head of a block. */
  function PositionMarker(exon: Exon): string
  {
    "Exon " + ExonName(exon) + " position(1-based):"
  }

  function PositionLine(exon: Exon, pos: int): string
  {
    PositionMarker(exon) + " " + IntToString(pos)
  }

  /** The fixed explanation lines of a block; never read back. */
  function Interpretation(exon: Exon, pos: int): seq<string>
  {
    match exon
    case Exon6 => Exon6Interpretation(pos)
    case Exon7 =>
      if pos in {422, 428, 429, 431} then Exon7PrimaryInterpretation(pos)
      else if pos < 350 then Exon7LowerInterpretation(pos)
      else Exon7UpperInterpretation(pos)
  }

  function Exon6Interpretation(pos: int): seq<string>
  {
    if pos == 22 then ["G nucleotide: A or B blood type.", "Deletion    : O blood type(O1)."]
    else if pos == 27 then ["C nucleotide: A1 or A3 subtype.", "T nucleotide: A2 subtype."]
    else if pos == 29 then ["T nucleotide: A1 or A3 subtype.", "C nucleotide: A2 subtype."]
    else if pos == 58 then ["A nucleotide: A1 or A3 subtype.", "G nucleotide: A2 subtype."]
    else []
  }

  function Exon7PrimaryInterpretation(pos: int): seq<string>
  {
    if pos == 422 then ["A nucleotide: B blood type.", "C nucleotide: A or O blood type."]
    else if pos == 428 then ["A nucleotide: O blood type (O2).", "G nucleotide: A or B or O blood type."]
    else if pos == 429 then ["G nucleotide: A or O blood type.", "C nucleotide: B blood type."]
    else if pos == 431 then
      ["G nucleotide: O blood type (O3).", "A nucleotide: O blood type (O4).",
       "T nucleotide: A or B or O blood type."]
    else []
  }

  function Exon7LowerInterpretation(pos: int): seq<string>
  {
    if pos == 93 then ["C nucleotide: A1 subtype.", "T nucleotide: A2 or A3 subtype."]
    else if pos == 165 then ["G nucleotide: A1 or A2 subtype.", "A nucleotide: A3 subtype."]
    else if pos == 272 then ["T nucleotide: A1 subtype.", "A nucleotide: A2 subtype."]
    else if pos == 307 then ["G nucleotide: A1 or A2 subtype.", "A nucleotide: A3 subtype."]
    else []
  }

  function Exon7UpperInterpretation(pos: int): seq<string>
  {
    if pos == 371 then ["C nucleotide: A1 or A2 subtype.", "T nucleotide: A3 subtype."]
    else if pos == 446 then ["G nucleotide: A1 or A2 subtype.", "A nucleotide: A3 subtype."]
    else if pos == 680 then ["C nucleotide: A1 or A3 subtype.", "T nucleotide: A2 subtype."]
    else if pos == 687 then ["C nucleotide: A1 subtype.", "Deletion: A2 or A3 subtype " + "(weaker expression)."]
    else []
  }

  const ValuesHeader := "Mat\tMis\tIns\tDel\tA\tG\tC\tT"

  /** The eight numbers of a block, in the column order of its header line. */
  function BlockValues(e: Entry): seq<int>
  {
    [e.matchPct, e.mismatchPct, e.insertionPct, e.deletionPct, e.aPct, e.gPct, e.cPct, e.tPct]
  }

  function FormatValues(vs: seq<int>): (r: seq<string>)
    ensures |r| == |vs|
    ensures forall k | 0 <= k < |vs| :: r[k] == FormatNumber(vs[k])
    ensures forall k | 0 <= k < |vs| :: ParseInt(r[k]) == Some(vs[k]) && ' ' !in r[k]
  {
    seq(|vs|, k requires 0 <= k < |vs| => FormatNumber(vs[k]))
  }

  /** The lines one position writes: blank line, position line, explanation, raw data. */
  function Block(exon: Exon, pos: int, e: Entry, display: string): seq<string>
  {
    ["", PositionLine(exon, pos)] + Interpretation(exon, pos) +
    ["(1-based) Position:" + IntToString(pos) + ", Reference Base=" + e.refBase,
     "Aligned Read Count:" + IntToString(e.coverage) + display,
     ValuesHeader,
     Join(FormatValues(BlockValues(e)), '\t')]
  }

  /** The blocks of several present positions, in the given order. */
  function Blocks(exon: Exon, ps: seq<int>, positions: map<int, Entry>, display: string): seq<string>
    requires forall k | 0 <= k < |ps| :: ps[k] in positions
  {
    if ps == [] then []
    else Blocks(exon, ps[..|ps| - 1], positions, display) + Block(exon, ps[|ps| - 1], positions[ps[|ps| - 1]], display)
  }

  /** [p for p in ps if p in positions] */
  function Present(ps: seq<int>, positions: map<int, Entry>): (r: seq<int>)
    ensures forall k | 0 <= k < |r| :: r[k] in positions
    ensures forall x :: x in r <==> x in ps && x in positions
  {
    if ps == [] then []
    else Present(ps[..|ps| - 1], positions) + (if ps[|ps| - 1] in positions then [ps[|ps| - 1]] else [])
  }

  predicate StrictlyIncreasing(xs: seq<int>)
  {
    forall i, j | 0 <= i < j < |xs| :: xs[i] < xs[j]
  }

  /** Keeping some elements of an ascending list leaves it ascending, so sorted() changes nothing. */
  lemma {:induction false} PresentIncreasing(ps: seq<int>, positions: map<int, Entry>)
    requires StrictlyIncreasing(ps)
    ensures StrictlyIncreasing(Present(ps, positions))
  {
    if ps != [] {
      var init := ps[..|ps| - 1];
      PresentIncreasing(init, positions);
      var r := Present(ps, positions);
      var ri := Present(init, positions);
      forall i, j | 0 <= i < j < |r|
        ensures r[i] < r[j]
      {
        if j >= |ri| {
          assert r[i] in ri;
          assert r[j] == ps[|ps| - 1];
        }
      }
    }
  }

  const Exon6Primary: seq<int> := [22]
  const Exon6Subtypes: seq<int> := [27, 29, 58]
  const Exon7Primaries: seq<int> := [422, 428, 429, 431]
  const Exon7Subtypes: seq<int> := [93, 165, 272, 307, 371, 446, 680, 687]

  function Primaries(exon: Exon): seq<int>
  {
    match exon
    case Exon6 => Exon6Primary
    case Exon7 => Exon7Primaries
  }

  function Subtypes(exon: Exon): seq<int>
  {
    match exon
    case Exon6 => Exon6Subtypes
    case Exon7 => Exon7Subtypes
  }

  function SubtypeHeading(exon: Exon): string
  {
    match exon
    case Exon6 => "# -------- A subtypes variants in exon 6 --------"
    case Exon7 => "# -------- A subtypes variants --------"
  }

  /** The subtype part: nothing when no subtype position is present. */
  function SubtypeSection(exon: Exon, positions: map<int, Entry>, display: string): seq<string>
  {
    var subs := Present(Subtypes(exon), positions);
    if subs == [] then [] else ["", SubtypeHeading(exon)] + Blocks(exon, subs, positions, display)
  }

  /**
   * generate_exon6_report / generate_exon7_report, one list entry per line:
   * the title, the blocks of the primary positions present in their fixed
   * order, then the subtype heading and blocks in ascending position order.
   */
  function Report(exon: Exon, positions: map<int, Entry>, numreads: int, covbases: int): seq<string>
  {
    var display := CoverageDisplay(numreads, covbases);
    ["Exon " + ExonName(exon) + ":"] +
    Blocks(exon, Present(Primaries(exon), positions), positions, display) +
    SubtypeSection(exon, positions, display)
  }

  /** The positions a report has blocks for, in the order they are written. */
  function ReportPositions(exon: Exon, positions: map<int, Entry>): (r: seq<int>)
    ensures forall k | 0 <= k < |r| :: r[k] in positions
  {
    Present(Primaries(exon), positions) + Present(Subtypes(exon), positions)
  }

  /** The diagnostic lists: both ascending, disjoint, and together the positions the filter keeps. */
  lemma DiagnosticLists(exon: Exon)
    ensures StrictlyIncreasing(Primaries(exon)) && StrictlyIncreasing(Subtypes(exon))
    ensures forall x | x in Primaries(exon) :: x !in Subtypes(exon)
    ensures forall x :: x in KeptPositions(exon) <==> x in Primaries(exon) || x in Subtypes(exon)
  {
  }

  /** Two ascending lists with no common element concatenate without repetition. */
  lemma AppendDistinct(xs: seq<int>, ys: seq<int>)
    requires StrictlyIncreasing(xs) && StrictlyIncreasing(ys)
    requires forall x | x in xs :: x !in ys
    ensures forall i, j | 0 <= i < j < |xs + ys| :: (xs + ys)[i] != (xs + ys)[j]
  {
    var r := xs + ys;
    forall i, j | 0 <= i < j < |r|
      ensures r[i] != r[j]
    {
      if i < |xs| && j >= |xs| {
        assert r[i] in xs && r[j] == ys[j - |xs|];
      }
    }
  }

  /**
   * Block order: a report has one block for each diagnostic position present
   * and for no other; the primary positions come first in their fixed order
   * and the subtype positions follow in ascending order.
   */
  lemma ReportOrder(exon: Exon, positions: map<int, Entry>)
    ensures var r := ReportPositions(exon, positions);
      (forall x :: x in r <==> x in positions && x in KeptPositions(exon)) &&
      (forall i, j | 0 <= i < j < |r| :: r[i] != r[j]) &&
      Present(Primaries(exon), positions) == r[..|Present(Primaries(exon), positions)|] &&
      StrictlyIncreasing(r[|Present(Primaries(exon), positions)|..])
  {
    var pr := Present(Primaries(exon), positions);
    var su := Present(Subtypes(exon), positions);
    assert ReportPositions(exon, positions) == pr + su;
    DiagnosticLists(exon);
    PresentIncreasing(Primaries(exon), positions);
    PresentIncreasing(Subtypes(exon), positions);
    AppendDistinct(pr, su);
    assert (pr + su)[..|pr|] == pr && (pr + su)[|pr|..] == su;
  }

  lemma {:induction false} BlocksSnoc(exon: Exon, ps: seq<int>, i: nat, positions: map<int, Entry>, display: string)
    requires i < |ps| && forall k | 0 <= k < |ps| :: ps[k] in positions
    ensures Blocks(exon, ps[..i + 1], positions, display) ==
            Blocks(exon, ps[..i], positions, display) + Block(exon, ps[i], positions[ps[i]], display)
  {
    assert ps[..i + 1][..i] == ps[..i];
  }

  /** One more candidate position: it joins the present ones when the map holds it. */
  lemma PresentSnoc(ps: seq<int>, i: nat, positions: map<int, Entry>)
    requires i < |ps|
    ensures Present(ps[..i + 1], positions) ==
            Present(ps[..i], positions) + (if ps[i] in positions then [ps[i]] else [])
  {
    assert ps[..i + 1][..i] == ps[..i];
  }

  /** One more present position appends its block. */
  lemma BlocksAppend(exon: Exon, ps: seq<int>, p: int, positions: map<int, Entry>, display: string)
    requires forall k | 0 <= k < |ps| :: ps[k] in positions
    requires p in positions
    ensures Blocks(exon, ps + [p], positions, display) ==
            Blocks(exon, ps, positions, display) + Block(exon, p, positions[p], display)
  {
    assert (ps + [p])[..|ps|] == ps;
  }

  /** One more candidate position adds its block exactly when the map holds it. */
  lemma PresentBlocksSnoc(exon: Exon, ps: seq<int>, i: nat, positions: map<int, Entry>, display: string)
    requires i < |ps|
    ensures Blocks(exon, Present(ps[..i + 1], positions), positions, display) ==
            Blocks(exon, Present(ps[..i], positions), positions, display) +
            (if ps[i] in positions then Block(exon, ps[i], positions[ps[i]], display) else [])
  {
    PresentSnoc(ps, i, positions);
    if ps[i] in positions {
      BlocksAppend(exon, Present(ps[..i], positions), ps[i], positions, display);
    } else {
      assert Present(ps[..i + 1], positions) == Present(ps[..i], positions);
    }
  }

  /** The writer's first loop: a block for each primary position the map holds, in list order. */
  method PrimaryLines(exon: Exon, positions: map<int, Entry>, display: string) returns (blocks: seq<string>)
    ensures blocks == Blocks(exon, Present(Primaries(exon), positions), positions, display)
  {
    var primaries := Primaries(exon);
    blocks := [];
    for i := 0 to |primaries|
      invariant blocks == Blocks(exon, Present(primaries[..i], positions), positions, display)
    {
      PresentBlocksSnoc(exon, primaries, i, positions, display);
      var p := primaries[i];
      if p in positions {
        blocks := blocks + Block(exon, p, positions[p], display);
      }
    }
    assert primaries[..|primaries|] == primaries;
  }

  /** The writer's second loop: the subtype heading and blocks, or nothing. */
  method SubtypeLines(exon: Exon, positions: map<int, Entry>, display: string) returns (section: seq<string>)
    ensures section == SubtypeSection(exon, positions, display)
  {
    var subs := Present(Subtypes(exon), positions);
    section := [];
    if subs != [] {
      var blocks: seq<string> := [];
      for i := 0 to |subs|
        invariant blocks == Blocks(exon, subs[..i], positions, display)
      {
        BlocksSnoc(exon, subs, i, positions, display);
        blocks := blocks + Block(exon, subs[i], positions[subs[i]], display);
      }
      assert subs[..|subs|] == subs;
      section := ["", SubtypeHeading(exon)] + blocks;
    }
  }

  /** The writer: the title line, then block after block. */
  method WriteReport(exon: Exon, positions: map<int, Entry>, numreads: int, covbases: int)
    returns (lines: seq<string>)
    ensures lines == Report(exon, positions, numreads, covbases)
  {
    var display := CoverageDisplay(numreads, covbases);
    var blocks := PrimaryLines(exon, positions, display);
    var section := SubtypeLines(exon, positions, display);
    lines := ["Exon " + ExonName(exon) + ":"] + blocks + section;
  }

  // ---------------------------------------------------------------- main

  /**
   * main without its file handling: the report lines for a stats file, its
   * name, the optional --exon choice and the optional coverage data; no lines
   * (an empty output file) when the stats file holds no data.
   */
  function PhenotypeReportOf(lines: seq<string>, filename: string, explicit: Option<Exon>,
                             info: Option<CoverageInfo>): seq<string>
  {
    var f := ReadFrequencies(lines);
    if f.empty then []
    else
      var numreads := if info.Some? then info.value.numreads else 0;
      var covbases := if info.Some? then info.value.covbases else 0;
      var positions := WithCoverage(f.positions, info);
      var exon := ChooseExon(explicit, filename, f.maxPosition);
      Report(exon, Kept(positions, exon), numreads, covbases)
  }

  method PredictPhenotype(lines: seq<string>, filename: string, explicit: Option<Exon>,
                          info: Option<CoverageInfo>) returns (report: seq<string>)
    ensures report == PhenotypeReportOf(lines, filename, explicit, info)
  {
    var f := ReadNucleotideFrequencies(lines);
    if f.empty || |f.positions| == 0 {
      return [];
    }
    var numreads, covbases := 0, 0;
    if info.Some? {
      numreads, covbases := info.value.numreads, info.value.covbases;
    }
    var positions := ApplyCoverage(f.positions, f.order, info);
    var exon := ChooseExon(explicit, filename, f.maxPosition);
    var filtered := FilterPositions(positions, exon);
    report := WriteReport(exon, filtered, numreads, covbases);
  }
}
