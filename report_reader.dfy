/**
 * The report reader of bin/aggregate_abo_reports.py: parse_exon6 and
 * parse_exon7 scan an ABOPhenotype report for position blocks, collect one
 * reading per recognised block, add an all-zero reading for each required
 * position that was not found, sort the rows by position and call each one
 * with the exon's classifier. Any exception on the way (a values line that
 * does not unpack into eight numbers) makes the reader return only zero rows
 * for the required positions, in list order and without a call.
 */
module ReportReader {
  import opened Wrappers
  import opened Text
  import opened Exons
  import MarkerCalls

  /** The ten values the reader collects for one block. */
  datatype Reading = Reading(
    pos: int,
    count: int,
    mat: int,
    mis: int,
    ins: int,
    del: int,
    a: int,
    g: int,
    c: int,
    t: int)

  /** One row of the returned data frame: Exon, the reading, and Type. */
  datatype Row = Row(exon: Exon, reading: Reading, typeCall: string)

  /** What one step of a scan decides: nothing yet, one reading, or an exception. */
  datatype Outcome = Skip | Record(reading: Reading) | Fail

  /** The text that marks a block's position line. */
  function PositionMarker(exon: Exon): string
  {
    match exon
    case Exon6 => "Exon 6 position(1-based):"
    case Exon7 => "Exon 7 position(1-based):"
  }

  const CountMarker := "Aligned Read Count:"
  const ValuesMarker := "Mat"

  const Exon6Required: seq<int> := [22, 27, 29, 58]
  const Exon7Required: seq<int> := [422, 428, 429, 431, 93, 165, 272, 307, 371, 446, 680, 687]

  /** all_positions: the positions every parse result must hold. */
  function Required(exon: Exon): seq<int>
  {
    match exon
    case Exon6 => Exon6Required
    case Exon7 => Exon7Required
  }

  function ZeroReading(pos: int): Reading
  {
    Reading(pos, 0, 0, 0, 0, 0, 0, 0, 0, 0)
  }

  // ---------------------------------------------------------------- one block

  /** [float(x) for x in stats] on integer-valued text: None when some word is not a number. */
  function ParseAll(words: seq<string>): (r: Option<seq<int>>)
    ensures r.Some? <==> forall k | 0 <= k < |words| :: ParseInt(words[k]).Some?
    ensures r.Some? ==> |r.value| == |words| &&
                        forall k | 0 <= k < |words| :: ParseInt(words[k]) == Some(r.value[k])
  {
    if words == [] then Some([])
    else
      match ParseInt(words[0])
      case None => None
      case Some(v) =>
        match ParseAll(words[1..])
        case None => None
        case Some(vs) => Some([v] + vs)
  }

  /**
   * The body of the inner loop at window offset k, where ls[0] is the
   * position line: a count line, a "Mat" line after it and a values line of
   * at least eight words record a reading; more than eight words, or a word
   * that is not a number, raise.
   */
  function StatsAt(ls: seq<string>, pos: int, k: nat): Outcome
    requires k < |ls|
  {
    if !Contains(ls[k], CountMarker) then Skip
    else
      match ColonNumber(ls[k])
      case None => Skip
      case Some(count) =>
        if !(k + 2 < |ls| && Contains(ls[k + 1], ValuesMarker)) then Skip
        else
          var stats := Words(ls[k + 2]);
          if |stats| < 8 then Skip
          else
            match ParseAll(stats)
            case None => Fail
            case Some(v) =>
              if |v| > 8 then Fail
              else Record(Reading(pos, count, v[0], v[1], v[2], v[3], v[4], v[5], v[6], v[7]))
  }

  /** The inner loop from offset k on: the first offset below 10 that does not skip decides. */
  function WindowFrom(ls: seq<string>, pos: int, k: nat): Outcome
    decreases 10 - k
  {
    if k >= 10 || k >= |ls| then Skip
    else
      var o := StatsAt(ls, pos, k);
      if o.Skip? then WindowFrom(ls, pos, k + 1) else o
  }

  /** One turn of the outer loop, on the lines from the current one on. */
  function LineOutcome(ls: seq<string>, exon: Exon): Outcome
    requires |ls| > 0
  {
    var line := Strip(ls[0]);
    if !Contains(line, PositionMarker(exon)) then Skip
    else
      match ColonNumber(line)
      case None => Skip
      case Some(pos) => WindowFrom(ls, pos, 0)
  }

  function Prepend(xs: seq<Reading>, o: Option<seq<Reading>>): Option<seq<Reading>>
  {
    match o
    case None => None
    case Some(ys) => Some(xs + ys)
  }

  lemma PrependNothing(o: Option<seq<Reading>>)
    ensures Prepend([], o) == o
  {
    if o.Some? {
      assert [] + o.value == o.value;
    }
  }

  lemma PrependTwice(xs: seq<Reading>, ys: seq<Reading>, o: Option<seq<Reading>>)
    ensures Prepend(xs, Prepend(ys, o)) == Prepend(xs + ys, o)
  {
    if o.Some? {
      assert xs + (ys + o.value) == (xs + ys) + o.value;
    }
  }

  /** The readings of the outer loop, in file order; None when some turn raises. */
  function Readings(ls: seq<string>, exon: Exon): Option<seq<Reading>>
    decreases |ls|
  {
    if ls == [] then Some([])
    else
      match LineOutcome(ls, exon)
      case Fail => None
      case Skip => Readings(ls[1..], exon)
      case Record(r) => Prepend([r], Readings(ls[1..], exon))
  }

  // ---------------------------------------------------------------- zero fill, sort, call

  function Positions(rs: seq<Reading>): (r: seq<int>)
    ensures |r| == |rs| && forall k | 0 <= k < |rs| :: r[k] == rs[k].pos
  {
    seq(|rs|, k requires 0 <= k < |rs| => rs[k].pos)
  }

  /** The zero-fill loop: each required position not yet in the frame is appended as a zero row. */
  function ZeroFill(rs: seq<Reading>, req: seq<int>): seq<Reading>
  {
    if req == [] then rs
    else
      var prev := ZeroFill(rs, req[..|req| - 1]);
      var p := req[|req| - 1];
      if p in Positions(prev) then prev else prev + [ZeroReading(p)]
  }

  predicate SortedByPosition(rs: seq<Reading>)
  {
    forall i, j | 0 <= i < j < |rs| :: rs[i].pos <= rs[j].pos
  }

  /** Insert x before the first element whose position is at least x's, which keeps the sort stable. */
  function Insert(x: Reading, s: seq<Reading>): (r: seq<Reading>)
    ensures multiset(r) == multiset(s) + multiset{x}
  {
    if s == [] || x.pos <= s[0].pos then [x] + s
    else
      assert s == [s[0]] + s[1..];
      [s[0]] + Insert(x, s[1..])
  }

  lemma {:induction false} InsertSorted(x: Reading, s: seq<Reading>)
    requires SortedByPosition(s)
    ensures SortedByPosition(Insert(x, s))
  {
    if s != [] && x.pos > s[0].pos {
      var rest := Insert(x, s[1..]);
      InsertSorted(x, s[1..]);
      InsertLowerBound(x, s[1..], s[0].pos);
      var r := Insert(x, s);
      assert r == [s[0]] + rest;
      forall i, j | 0 <= i < j < |r|
        ensures r[i].pos <= r[j].pos
      {
        if i > 0 {
          assert r[i] == rest[i - 1] && r[j] == rest[j - 1];
        } else {
          assert r[j] == rest[j - 1];
        }
      }
    }
  }

  /** Inserting an element no smaller than a bound into elements no smaller than it keeps the bound. */
  lemma InsertLowerBound(x: Reading, s: seq<Reading>, b: int)
    requires b <= x.pos && forall k | 0 <= k < |s| :: b <= s[k].pos
    ensures forall j | 0 <= j < |Insert(x, s)| :: b <= Insert(x, s)[j].pos
  {
    var r := Insert(x, s);
    forall j | 0 <= j < |r|
      ensures b <= r[j].pos
    {
      assert r[j] in multiset(r);
      if r[j] != x {
        assert r[j] in multiset(s);
        var m :| 0 <= m < |s| && s[m] == r[j];
      }
    }
  }

  /** sort_values("Position"): a stable sort by position. */
  function SortByPosition(rs: seq<Reading>): (r: seq<Reading>)
    ensures SortedByPosition(r)
    ensures multiset(r) == multiset(rs)
  {
    if rs == [] then []
    else
      assert rs == [rs[0]] + rs[1..];
      var sortedRest := SortByPosition(rs[1..]);
      InsertSorted(rs[0], sortedRest);
      Insert(rs[0], sortedRest)
  }

  /** The Type column: the exon's classifier on each row's position and percentages. */
  function Call(exon: Exon, r: Reading): string
  {
    match exon
    case Exon6 => MarkerCalls.GetTypeExon6(r.pos, r.a, r.g, r.c, r.t, r.del)
    case Exon7 => MarkerCalls.GetType(r.pos, r.a, r.g, r.c, r.t, r.del)
  }

  function Typed(exon: Exon, rs: seq<Reading>): (r: seq<Row>)
    ensures |r| == |rs|
    ensures forall k | 0 <= k < |rs| :: r[k] == Row(exon, rs[k], Call(exon, rs[k]))
  {
    seq(|rs|, k requires 0 <= k < |rs| => Row(exon, rs[k], Call(exon, rs[k])))
  }

  /** The except branch: one zero row per required position, in list order, Type "". */
  function Fallback(exon: Exon): (r: seq<Row>)
    ensures |r| == |Required(exon)|
    ensures forall k | 0 <= k < |r| :: r[k] == Row(exon, ZeroReading(Required(exon)[k]), MarkerCalls.NoCall)
  {
    var req := Required(exon);
    seq(|req|, k requires 0 <= k < |req| => Row(exon, ZeroReading(req[k]), MarkerCalls.NoCall))
  }

  /** parse_exon6 / parse_exon7 on the lines of a report. */
  function ParsedExon(lines: seq<string>, exon: Exon): seq<Row>
  {
    match Readings(lines, exon)
    case None => Fallback(exon)
    case Some(rs) => Typed(exon, SortByPosition(ZeroFill(rs, Required(exon))))
  }

  function ReadingsOf(rows: seq<Row>): (r: seq<Reading>)
    ensures |r| == |rows| && forall k | 0 <= k < |rows| :: r[k] == rows[k].reading
  {
    seq(|rows|, k requires 0 <= k < |rows| => rows[k].reading)
  }

  // ---------------------------------------------------------------- properties of the scan

  /** The eight numbers of a values line, in the order Mat, Mis, Ins, Del, A, G, C, T. */
  predicate ValuesLine(w: seq<string>, r: Reading)
  {
    |w| == 8 &&
    ParseInt(w[0]) == Some(r.mat) && ParseInt(w[1]) == Some(r.mis) &&
    ParseInt(w[2]) == Some(r.ins) && ParseInt(w[3]) == Some(r.del) &&
    ParseInt(w[4]) == Some(r.a) && ParseInt(w[5]) == Some(r.g) &&
    ParseInt(w[6]) == Some(r.c) && ParseInt(w[7]) == Some(r.t)
  }

  /** Offset k of ls holds a count line, then a "Mat" line, then the values of r. */
  predicate CountBlockAt(ls: seq<string>, k: nat, r: Reading)
  {
    k + 2 < |ls| &&
    Contains(ls[k], CountMarker) && ColonNumber(ls[k]) == Some(r.count) &&
    Contains(ls[k + 1], ValuesMarker) && ValuesLine(Words(ls[k + 2]), r)
  }

  lemma StatsAtRecord(ls: seq<string>, pos: int, k: nat, r: Reading)
    requires k < |ls|
    ensures StatsAt(ls, pos, k) == Record(r) <==> r.pos == pos && CountBlockAt(ls, k, r)
  {
    if StatsAt(ls, pos, k) == Record(r) {
      RecordIsBlock(ls, pos, k, r);
    }
    if r.pos == pos && CountBlockAt(ls, k, r) {
      BlockIsRecord(ls, pos, k, r);
    }
  }

  lemma RecordIsBlock(ls: seq<string>, pos: int, k: nat, r: Reading)
    requires k < |ls| && StatsAt(ls, pos, k) == Record(r)
    ensures r.pos == pos && CountBlockAt(ls, k, r)
  {
    var w := Words(ls[k + 2]);
    var v := ParseAll(w).value;
    assert |v| == |w| == 8;
    ParsedEight(w, v, r);
  }

  lemma BlockIsRecord(ls: seq<string>, pos: int, k: nat, r: Reading)
    requires k < |ls| && r.pos == pos && CountBlockAt(ls, k, r)
    ensures StatsAt(ls, pos, k) == Record(r)
  {
    var w := Words(ls[k + 2]);
    assert ValuesLine(w, r);
    forall i | 0 <= i < |w|
      ensures ParseInt(w[i]).Some?
    {
      assert i == 0 || i == 1 || i == 2 || i == 3 || i == 4 || i == 5 || i == 6 || i == 7;
    }
    var v := ParseAll(w).value;
    ParsedEight(w, v, r);
  }

  /** Eight parsed words are the values of r exactly when the parsed numbers are r's. */
  lemma ParsedEight(w: seq<string>, v: seq<int>, r: Reading)
    requires |w| == 8 && ParseAll(w) == Some(v)
    ensures ValuesLine(w, r) <==>
            v[0] == r.mat && v[1] == r.mis && v[2] == r.ins && v[3] == r.del &&
            v[4] == r.a && v[5] == r.g && v[6] == r.c && v[7] == r.t
  {
    assert ParseInt(w[0]) == Some(v[0]) && ParseInt(w[1]) == Some(v[1]);
    assert ParseInt(w[2]) == Some(v[2]) && ParseInt(w[3]) == Some(v[3]);
    assert ParseInt(w[4]) == Some(v[4]) && ParseInt(w[5]) == Some(v[5]);
    assert ParseInt(w[6]) == Some(v[6]) && ParseInt(w[7]) == Some(v[7]);
  }

  /**
   * A block is recorded only from a count line within the ten-line window,
   * followed by a "Mat" line and a line of exactly eight numbers, and only
   * when every earlier offset in the window was passed over.
   */
  lemma WindowRecord(ls: seq<string>, pos: int, k0: nat, r: Reading)
    requires WindowFrom(ls, pos, k0) == Record(r)
    ensures r.pos == pos
    ensures exists k :: k0 <= k < 10 && CountBlockAt(ls, k, r) &&
                        forall m | k0 <= m < k :: StatsAt(ls, pos, m) == Skip
  {
    var k := DecidingOffset(ls, pos, k0, r);
    StatsAtRecord(ls, pos, k, r);
  }

  /** The offset whose outcome the window returns, after offsets that all skip. */
  lemma {:induction false} DecidingOffset(ls: seq<string>, pos: int, k0: nat, r: Reading) returns (k: nat)
    requires WindowFrom(ls, pos, k0) == Record(r)
    ensures k0 <= k < 10 && k < |ls| && StatsAt(ls, pos, k) == Record(r)
    ensures forall m | k0 <= m < k :: StatsAt(ls, pos, m) == Skip
    decreases 10 - k0
  {
    var o := StatsAt(ls, pos, k0);
    assert WindowFrom(ls, pos, k0) == if o.Skip? then WindowFrom(ls, pos, k0 + 1) else o;
    if o.Skip? {
      k := DecidingOffset(ls, pos, k0 + 1, r);
      forall m | k0 <= m < k
        ensures StatsAt(ls, pos, m) == Skip
      {
        if m == k0 {
          assert StatsAt(ls, pos, m) == Skip;
        } else {
          assert k0 + 1 <= m < k;
        }
      }
    } else {
      k := k0;
    }
  }

  /**
   * The position line: a line whose stripped text contains the exon's
   * marker, whose first colon-and-digits gives the position, and whose window
   * holds a count block.
   */
  lemma LineRecord(ls: seq<string>, exon: Exon, r: Reading)
    requires |ls| > 0 && LineOutcome(ls, exon) == Record(r)
    ensures Contains(Strip(ls[0]), PositionMarker(exon))
    ensures ColonNumber(Strip(ls[0])) == Some(r.pos)
    ensures exists k :: 0 <= k < 10 && CountBlockAt(ls, k, r)
  {
    WindowRecord(ls, ColonNumber(Strip(ls[0])).value, 0, r);
  }

  /**
   * Every reading comes from a recorded position line, in file order: idx[n]
   * is the line of the n-th reading, the indices increase, and every line
   * that records a reading is among them.
   */
  lemma ReadingsFromLines(ls: seq<string>, exon: Exon, rs: seq<Reading>)
    returns (idx: seq<nat>)
    requires Readings(ls, exon) == Some(rs)
    ensures |idx| == |rs|
    ensures forall n | 0 <= n < |rs| :: idx[n] < |ls| && LineOutcome(ls[idx[n]..], exon) == Record(rs[n])
    ensures forall m, n | 0 <= m < n < |idx| :: idx[m] < idx[n]
    ensures forall i | 0 <= i < |ls| && LineOutcome(ls[i..], exon).Record? :: i in idx
  {
    var os := OutcomesOf(ls, exon);
    idx := CollectIndices(os, rs);
  }

  /** The outcomes of the outer loop's turns, one per line. */
  lemma {:induction false} OutcomesOf(ls: seq<string>, exon: Exon) returns (os: seq<Outcome>)
    ensures |os| == |ls| && forall i | 0 <= i < |ls| :: os[i] == LineOutcome(ls[i..], exon)
    ensures Readings(ls, exon) == Collect(os)
    decreases |ls|
  {
    if ls == [] {
      os := [];
    } else {
      var rest := OutcomesOf(ls[1..], exon);
      os := [LineOutcome(ls, exon)] + rest;
      forall i | 0 <= i < |ls| ensures os[i] == LineOutcome(ls[i..], exon) {
        if i == 0 { assert ls[0..] == ls; } else { OutcomeOfTail(ls, i - 1, exon); }
      }
      assert os[1..] == rest;
    }
  }

  /** The readings a list of outcomes collects; None at the first failure. */
  function Collect(os: seq<Outcome>): Option<seq<Reading>>
  {
    if os == [] then Some([])
    else
      match os[0]
      case Fail => None
      case Skip => Collect(os[1..])
      case Record(r) => Prepend([r], Collect(os[1..]))
  }

  /** The collected readings are the records of the outcomes, at increasing indices, none left out. */
  lemma {:induction false} CollectIndices(os: seq<Outcome>, rs: seq<Reading>) returns (idx: seq<nat>)
    requires Collect(os) == Some(rs)
    ensures |idx| == |rs|
    ensures forall n | 0 <= n < |rs| :: idx[n] < |os| && os[idx[n]] == Record(rs[n])
    ensures forall m, n | 0 <= m < n < |idx| :: idx[m] < idx[n]
    ensures forall i | 0 <= i < |os| && os[i].Record? :: i in idx
    decreases |os|
  {
    if os == [] {
      idx := [];
    } else {
      var tail := Collect(os[1..]).value;
      var t := CollectIndices(os[1..], tail);
      var head: seq<nat> := if os[0].Skip? then [] else [0];
      idx := ShiftedIndices(head, t);
      assert os[0].Record? ==> rs == [os[0].reading] + tail;
      assert os[0].Skip? ==> rs == tail;
      forall n | 0 <= n < |rs| ensures idx[n] < |os| && os[idx[n]] == Record(rs[n]) {
        if n >= |head| {
          assert idx[n] == t[n - |head|] + 1 && rs[n] == tail[n - |head|];
        }
      }
      forall i | 0 <= i < |os| && os[i].Record? ensures i in idx {
        if i == 0 {
          assert idx[0] == 0;
        } else {
          assert os[1..][i - 1] == os[i];
          var n :| 0 <= n < |t| && t[n] == i - 1;
          assert idx[|head| + n] == i;
        }
      }
    }
  }

  /** Line indices of the lines after the first, moved up by one, after an optional 0. */
  lemma ShiftedIndices(head: seq<nat>, t: seq<nat>) returns (idx: seq<nat>)
    requires head == [] || head == [0]
    requires forall m, n | 0 <= m < n < |t| :: t[m] < t[n]
    ensures |idx| == |head| + |t|
    ensures forall n | 0 <= n < |head| :: idx[n] == 0
    ensures forall n | 0 <= n < |t| :: idx[|head| + n] == t[n] + 1
    ensures forall m, n | 0 <= m < n < |idx| :: idx[m] < idx[n]
  {
    idx := head + seq(|t|, n requires 0 <= n < |t| => t[n] + 1);
    forall a, b | 0 <= a < b < |idx| ensures idx[a] < idx[b] {
      if a >= |head| { assert idx[a] == t[a - |head|] + 1; }
      assert idx[b] == t[b - |head|] + 1;
    }
  }

  /** The outcome at index i of the lines after the first is the outcome at i + 1. */
  lemma OutcomeOfTail(ls: seq<string>, i: nat, exon: Exon)
    requires i + 1 < |ls|
    ensures LineOutcome(ls[1..][i..], exon) == LineOutcome(ls[i + 1..], exon)
  {
    assert ls[1..][i..] == ls[i + 1..];
  }

  /** The scan raises exactly when some position line's window raises. */
  lemma {:induction false} ReadingsFail(ls: seq<string>, exon: Exon)
    ensures Readings(ls, exon).None? <==>
            exists i :: 0 <= i < |ls| && LineOutcome(ls[i..], exon) == Fail
    decreases |ls|
  {
    if ls != [] {
      assert ls[0..] == ls;
      ReadingsFail(ls[1..], exon);
      if LineOutcome(ls, exon) != Fail {
        if exists i :: 0 <= i < |ls| && LineOutcome(ls[i..], exon) == Fail {
          var i :| 0 <= i < |ls| && LineOutcome(ls[i..], exon) == Fail;
          assert ls[1..][i - 1..] == ls[i..];
        }
        if exists i :: 0 <= i < |ls[1..]| && LineOutcome(ls[1..][i..], exon) == Fail {
          var i :| 0 <= i < |ls[1..]| && LineOutcome(ls[1..][i..], exon) == Fail;
          assert ls[1..][i..] == ls[i + 1..];
        }
      }
    }
  }

  // ---------------------------------------------------------------- properties of zero fill and sort

  lemma PositionsSnoc(rs: seq<Reading>, x: Reading)
    ensures Positions(rs + [x]) == Positions(rs) + [x.pos]
  {
  }

  /**
   * Zero fill keeps the scanned rows as a prefix, and after it every required
   * position is present; each added row is the zero row of a required
   * position that no earlier row holds.
   */
  lemma {:induction false} ZeroFillSpec(rs: seq<Reading>, req: seq<int>)
    ensures |rs| <= |ZeroFill(rs, req)| && ZeroFill(rs, req)[..|rs|] == rs
    ensures forall p | p in req :: p in Positions(ZeroFill(rs, req))
    ensures forall k | |rs| <= k < |ZeroFill(rs, req)| ::
              var x := ZeroFill(rs, req)[k];
              x == ZeroReading(x.pos) && x.pos in req && x.pos !in Positions(ZeroFill(rs, req)[..k])
  {
    if req != [] {
      var init := req[..|req| - 1];
      var prev := ZeroFill(rs, init);
      var p := req[|req| - 1];
      ZeroFillSpec(rs, init);
      assert forall q | q in req :: q in init || q == p;
      assert forall q | q in init :: q in req;
      if p !in Positions(prev) {
        var r := prev + [ZeroReading(p)];
        PositionsSnoc(prev, ZeroReading(p));
        assert r[..|rs|] == prev[..|rs|];
        forall k | |rs| <= k < |r|
          ensures r[k] == ZeroReading(r[k].pos) && r[k].pos in req && r[k].pos !in Positions(r[..k])
        {
          if k < |prev| {
            assert r[..k] == prev[..k];
          } else {
            assert r[..k] == prev;
          }
        }
      }
    }
  }

  /** A zero-fill result holds every required position, even after sorting. */
  lemma SortedHoldsRequired(filled: seq<Reading>, req: seq<int>)
    requires forall p | p in req :: p in Positions(filled)
    ensures forall p | p in req :: p in Positions(SortByPosition(filled))
  {
    var sorted := SortByPosition(filled);
    forall p | p in req
      ensures p in Positions(sorted)
    {
      var m :| 0 <= m < |filled| && Positions(filled)[m] == p;
      assert filled[m] in multiset(filled);
      assert filled[m] in multiset(sorted);
      var n :| 0 <= n < |sorted| && sorted[n] == filled[m];
      assert Positions(sorted)[n] == p;
    }
  }

  /**
   * When the scan does not raise, the parsed rows are the scanned readings
   * plus the zero rows of the missing required positions, sorted by
   * position, each called with the exon's classifier; every required
   * position has a row.
   */
  lemma ParsedExonScanned(lines: seq<string>, exon: Exon, rs: seq<Reading>)
    requires Readings(lines, exon) == Some(rs)
    ensures var rows := ParsedExon(lines, exon);
            multiset(ReadingsOf(rows)) == multiset(ZeroFill(rs, Required(exon))) &&
            SortedByPosition(ReadingsOf(rows)) &&
            (forall p | p in Required(exon) :: p in Positions(ReadingsOf(rows))) &&
            forall k | 0 <= k < |rows| ::
              rows[k].exon == exon && rows[k].typeCall == Call(exon, rows[k].reading)
  {
    var filled := ZeroFill(rs, Required(exon));
    var sorted := SortByPosition(filled);
    var rows := ParsedExon(lines, exon);
    assert ReadingsOf(rows) == sorted;
    ZeroFillSpec(rs, Required(exon));
    SortedHoldsRequired(filled, Required(exon));
  }

  /** When some window raises, only the zero rows of the required positions come back, uncalled. */
  lemma ParsedExonFailed(lines: seq<string>, exon: Exon, i: nat)
    requires i < |lines| && LineOutcome(lines[i..], exon) == Fail
    ensures ParsedExon(lines, exon) == Fallback(exon)
    ensures forall k | 0 <= k < |ParsedExon(lines, exon)| ::
              ParsedExon(lines, exon)[k].typeCall == MarkerCalls.NoCall &&
              ParsedExon(lines, exon)[k].reading == ZeroReading(Required(exon)[k])
  {
    ReadingsFail(lines, exon);
  }

  /** The text of a position marker before its colon. */
  function MarkerStem(exon: Exon): (r: string)
    ensures PositionMarker(exon) == r + ":"
    ensures ':' !in r && 'A' !in r && |r| > 0 && r[0] == 'E'
  {
    match exon
    case Exon6 => "Exon 6 position(1-based)"
    case Exon7 => "Exon 7 position(1-based)"
  }

  /** A position line as the report writer emits it is read back as that position. */
  lemma PositionLineRead(exon: Exon, n: nat)
    ensures var line := PositionMarker(exon) + " " + NatToString(n);
            Strip(line) == line && ColonNumber(line) == Some(n)
  {
    var stem := MarkerStem(exon);
    var digits := NatToString(n);
    var line := PositionMarker(exon) + " " + digits;
    assert ColonNumber(line) == Some(n) by {
      assert line == stem + ":" + " " + digits + "";
      ColonNumberOf(stem, " ", n, "");
    }
    assert line[0] == 'E';
    assert line[|line| - 1] == digits[|digits| - 1];
    StripUnchanged(line);
  }

  /** A position line holds its marker and is never mistaken for a count line. */
  lemma PositionLineMarkers(exon: Exon, n: nat)
    ensures var line := PositionMarker(exon) + " " + NatToString(n);
            Contains(line, PositionMarker(exon)) && !Contains(line, CountMarker)
  {
    var stem := MarkerStem(exon);
    var digits := NatToString(n);
    var line := PositionMarker(exon) + " " + digits;
    ContainsPrefix(PositionMarker(exon), " " + digits);
    assert CountMarker[0] == 'A';
    assert forall k | 0 <= k < |line| :: line[k] == 'A' ==> k < |stem|;
    NotContainsMissingChar(line, CountMarker, 'A');
  }

  /** A count line is read back as the count before its first non-digit. */
  lemma CountLineRead(n: nat, rest: string)
    requires rest == [] || !IsDigit(rest[0])
    ensures var line := CountMarker + NatToString(n) + rest;
            Contains(line, CountMarker) && ColonNumber(line) == Some(n)
  {
    var line := CountMarker + NatToString(n) + rest;
    assert line == "Aligned Read Count" + ":" + "" + NatToString(n) + rest;
    ColonNumberOf("Aligned Read Count", "", n, rest);
    ContainsPrefix(CountMarker, NatToString(n) + rest);
  }

  /**
   * A values line with more than eight numbers makes the whole parse fall
   * back to the zero rows, wherever in the report it sits.
   */
  lemma ExtraValuesFail(lines: seq<string>, exon: Exon, i: nat, pos: nat, count: nat)
    requires i + 3 < |lines|
    requires lines[i] == PositionMarker(exon) + " " + NatToString(pos)
    requires lines[i + 1] == CountMarker + NatToString(count)
    requires lines[i + 2] == ValuesMarker
    requires |Words(lines[i + 3])| > 8
    requires ParseAll(Words(lines[i + 3])).Some?
    ensures ParsedExon(lines, exon) == Fallback(exon)
  {
    var ls := lines[i..];
    assert ls[0] == lines[i] && ls[1] == lines[i + 1] && ls[2] == lines[i + 2] && ls[3] == lines[i + 3];
    PositionLineRead(exon, pos);
    PositionLineMarkers(exon, pos);
    assert StatsAt(ls, pos, 0) == Skip;
    CountLineRead(count, "");
    assert lines[i + 1] == CountMarker + NatToString(count) + "";
    ContainsPrefix(ValuesMarker, "");
    assert ValuesMarker + "" == lines[i + 2];
    assert StatsAt(ls, pos, 1) == Fail;
    assert LineOutcome(ls, exon) == Fail;
    ParsedExonFailed(lines, exon, i);
  }

  // ---------------------------------------------------------------- the method

  /**
   * The inner loop of parse_exon6 / parse_exon7: up to ten lines from the
   * position line ls[0] on, stopping at the first recorded block; Fail
   * stands for the exception that sends the whole parse to its except branch.
   */
  method ScanWindow(ls: seq<string>, pos: int) returns (outcome: Outcome)
    ensures outcome == WindowFrom(ls, pos, 0)
  {
    var end := if 10 < |ls| then 10 else |ls|;
    var j := 0;
    while j < end
      invariant 0 <= j <= end
      invariant WindowFrom(ls, pos, 0) == WindowFrom(ls, pos, j)
      decreases end - j
    {
      var o := ScanLine(ls, pos, j);
      assert WindowFrom(ls, pos, j) == if o.Skip? then WindowFrom(ls, pos, j + 1) else o;
      if !o.Skip? {
        return o;
      }
      j := j + 1;
    }
    return Skip;
  }

  /** One turn of the inner loop: the line at offset j of the window. */
  method ScanLine(ls: seq<string>, pos: int, j: nat) returns (o: Outcome)
    requires j < |ls|
    ensures o == StatsAt(ls, pos, j)
  {
    if Contains(ls[j], CountMarker) {
      var countMatch := ColonNumber(ls[j]);
      if countMatch.Some? && j + 2 < |ls| && Contains(ls[j + 1], ValuesMarker) {
        var stats := Words(ls[j + 2]);
        if |stats| >= 8 {
          var values := ParseAll(stats);
          if values.None? || |values.value| > 8 {
            return Fail;
          }
          var v := values.value;
          return Record(Reading(pos, countMatch.value, v[0], v[1], v[2], v[3], v[4], v[5], v[6], v[7]));
        }
      }
    }
    return Skip;
  }

  /** The zero-fill loop over all_positions. */
  method FillRequired(found: seq<Reading>, req: seq<int>) returns (filled: seq<Reading>)
    ensures filled == ZeroFill(found, req)
  {
    filled := found;
    for k := 0 to |req|
      invariant filled == ZeroFill(found, req[..k])
    {
      assert req[..k + 1][..k] == req[..k];
      if req[k] !in Positions(filled) {
        filled := filled + [ZeroReading(req[k])];
      }
    }
    assert req[..|req|] == req;
  }

  /** The outer scan loop of parse_exon6 / parse_exon7, then zero fill, sort and call. */
  method ParseExon(lines: seq<string>, exon: Exon) returns (rows: seq<Row>)
    ensures rows == ParsedExon(lines, exon)
  {
    var found: seq<Reading> := [];
    var i := 0;
    assert lines[0..] == lines;
    PrependNothing(Readings(lines, exon));
    while i < |lines|
      invariant 0 <= i <= |lines|
      invariant Readings(lines, exon) == Prepend(found, Readings(lines[i..], exon))
    {
      var ls := lines[i..];
      assert ls[0] == lines[i] && ls[1..] == lines[i + 1..];
      var line := Strip(lines[i]);
      if Contains(line, PositionMarker(exon)) {
        var posMatch := ColonNumber(line);
        if posMatch.Some? {
          var outcome := ScanWindow(ls, posMatch.value);
          if outcome.Fail? {
            assert Readings(lines, exon) == None;
            return Fallback(exon);
          }
          if outcome.Record? {
            PrependTwice(found, [outcome.reading], Readings(lines[i + 1..], exon));
            found := found + [outcome.reading];
          }
        }
      }
      i := i + 1;
    }
    assert lines[i..] == [];
    assert found + [] == found;
    assert Readings(lines, exon) == Some(found);
    var filled := FillRequired(found, Required(exon));
    rows := Typed(exon, SortByPosition(filled));
  }
}
