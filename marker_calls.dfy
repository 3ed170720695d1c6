/**
 * The position classifiers of bin/aggregate_abo_reports.py: get_type_exon6
 * for the four exon-6 positions and get_type for the twelve exon-7 positions.
 * Each turns one position's base and deletion percentages into a marker call,
 * the label of the first threshold rule that holds, or "" when none does.
 */
module MarkerCalls {

  // Exon 6, primary position 22 (c.261)
  const AOrBOrO := "A or B or O"
  const O1 := "O1"
  const O1AndAOrBOrO := "O1 and (A or B or O)"
  // Exon 6 and exon 7 A-subtype calls
  const A1OrA3 := "A1 or A3"
  const A1OrA2 := "A1 or A2"
  const A2OrA3 := "A2 or A3"
  const A1 := "A1"
  const A2 := "A2"
  const A3 := "A3"
  const AnyA := "A"
  // Exon 7 primary positions 422, 428, 429, 431
  const AOrO := "A or O"
  const B := "B"
  const AOrOAndB := "(A or O) and B"
  const OAndAOrB := "O and (A or B)"
  const O2 := "O2"
  const O2AndOOrAOrB := "O2 and (O or A or B)"
  const O3 := "O3"
  const O3AndOOrAOrB := "O3 and (O or A or B)"
  /** No rule held: the dead zone between the thresholds. */
  const NoCall := ""

  const Exon6Primary := 22
  const Exon7Primary: seq<int> := [422, 428, 429, 431]

  function Abs(x: int): nat { if x < 0 then -x else x }

  /** The labels a position of exon 6 can receive, besides "". */
  function Exon6Labels(pos: int): set<string>
  {
    if pos == 22 then {AOrBOrO, O1, O1AndAOrBOrO}
    else if pos == 27 || pos == 29 || pos == 58 then {A1OrA3, A2, AnyA}
    else {}
  }

  /** The labels a position of exon 7 can receive, besides "". */
  function Exon7Labels(pos: int): set<string>
  {
    if pos == 422 || pos == 429 then {AOrO, B, AOrOAndB}
    else if pos == 428 then {OAndAOrB, O2, O2AndOOrAOrB}
    else if pos == 431 then {OAndAOrB, O3, O3AndOOrAOrB}
    else if pos == 93 || pos == 687 then {A1, A2OrA3}
    else if pos == 165 || pos == 307 || pos == 371 || pos == 446 then {A1OrA2, A3}
    else if pos == 272 then {A1, A2}
    else if pos == 680 then {A1OrA3, A2, AnyA}
    else {}
  }

  /** get_type_exon6: first matching rule wins; "" when none holds or the position is unknown. */
  function GetTypeExon6(pos: int, a: int, g: int, c: int, t: int, del: int): (r: string)
    ensures r == NoCall || r in Exon6Labels(pos)
  {
    if pos == 22 then
      if g >= 80 && g > del then AOrBOrO
      else if del >= 80 && del > g then O1
      else if Abs(g + del) >= 20 then O1AndAOrBOrO
      else if 20 < del < 80 && 20 < g < 80 then O1AndAOrBOrO
      else NoCall
    else if pos == 27 then
      if c >= 80 then A1OrA3
      else if t >= 80 then A2
      else if 20 < c < 80 && 20 < t < 80 then AnyA
      else NoCall
    else if pos == 29 then
      if t >= 80 then A1OrA3
      else if c >= 80 then A2
      else if 20 < t < 80 && 20 < c < 80 then AnyA
      else NoCall
    else if pos == 58 then
      if a >= 80 then A1OrA3
      else if g >= 80 then A2
      else if 20 < a < 80 && 20 < g < 80 then AnyA
      else NoCall
    else NoCall
  }

  /** get_type: first matching rule wins; "" when none holds or the position is unknown. */
  function GetType(pos: int, a: int, g: int, c: int, t: int, del: int): (r: string)
    ensures r == NoCall || r in Exon7Labels(pos)
  {
    if pos == 422 then
      if c >= 80 then AOrO
      else if a >= 80 then B
      else if Abs(a - c) <= 20 then AOrOAndB
      else if 15 < a < 80 && 15 < c < 80 then AOrOAndB
      else NoCall
    else if pos == 428 then
      if g >= 70 then OAndAOrB
      else if a >= 70 then O2
      else if Abs(g - a) <= 20 then O2AndOOrAOrB
      else if 15 < g < 70 && 15 < a < 70 then O2AndOOrAOrB
      else NoCall
    else if pos == 429 then
      if g >= 80 then AOrO
      else if c >= 80 then B
      else if Abs(g - c) <= 20 then AOrOAndB
      else if 15 < g < 80 && 20 < c < 80 then AOrOAndB
      else NoCall
    else if pos == 431 then
      if t >= 80 then OAndAOrB
      else if g >= 80 then O3
      else if Abs(t - g) <= 20 then O3AndOOrAOrB
      else if 15 < t < 80 && 15 < g < 80 then O3AndOOrAOrB
      else NoCall
    else if pos == 93 then
      if c >= 80 then A1 else if t >= 80 then A2OrA3 else NoCall
    else if pos == 165 then
      if c >= 80 then A1OrA2 else if t >= 80 then A3 else NoCall
    else if pos == 272 then
      if t >= 80 then A1 else if a >= 80 then A2 else NoCall
    else if pos == 307 then
      if g >= 80 then A1OrA2 else if a >= 80 then A3 else NoCall
    else if pos == 371 then
      if c >= 80 then A1OrA2 else if t >= 80 then A3 else NoCall
    else if pos == 446 then
      if a >= 80 then A1OrA2 else if c >= 80 then A3 else NoCall
    else if pos == 680 then
      if g >= 80 then A1OrA3
      else if a >= 80 then A2
      else if 20 < g < 80 && 20 < a < 80 then AnyA
      else NoCall
    else if pos == 687 then
      if c >= 80 then A1 else if del >= 80 then A2OrA3 else NoCall
    else NoCall
  }

  /**
   * At position 22 the fourth rule can never fire: both percentages in (20, 80)
   * already make |G + Del| at least 20. So the call is "" exactly when
   * |G + Del| < 20, whatever the other bases (for non-negative percentages).
   */
  lemma Position22DeadZone(a: int, g: int, c: int, t: int, del: int)
    requires 0 <= g && 0 <= del
    ensures GetTypeExon6(22, a, g, c, t, del) == NoCall <==> Abs(g + del) < 20
    ensures GetTypeExon6(22, a, g, c, t, del) ==
      if g >= 80 && g > del then AOrBOrO
      else if del >= 80 && del > g then O1
      else if Abs(g + del) >= 20 then O1AndAOrBOrO
      else NoCall
  {
  }

  /** A percentage vector a decoder row can carry: non-negative, summing to at most 100. */
  predicate Plausible(a: int, g: int, c: int, t: int, del: int)
  {
    0 <= a && 0 <= g && 0 <= c && 0 <= t && 0 <= del && a + g + c + t + del <= 100
  }

  /**
   * On a plausible vector at most one of a position's two high-threshold rules
   * can hold, so their order does not matter: a dominant base always receives
   * its own label.
   */
  lemma DominantBaseDecides(a: int, g: int, c: int, t: int, del: int)
    requires Plausible(a, g, c, t, del)
    ensures c >= 80 ==> GetType(422, a, g, c, t, del) == AOrO
    ensures a >= 80 ==> GetType(422, a, g, c, t, del) == B
    ensures g >= 70 ==> GetType(428, a, g, c, t, del) == OAndAOrB
    ensures a >= 70 ==> GetType(428, a, g, c, t, del) == O2
    ensures g >= 80 ==> GetType(429, a, g, c, t, del) == AOrO
    ensures c >= 80 ==> GetType(429, a, g, c, t, del) == B
    ensures t >= 80 ==> GetType(431, a, g, c, t, del) == OAndAOrB
    ensures g >= 80 ==> GetType(431, a, g, c, t, del) == O3
    ensures g >= 80 ==> GetTypeExon6(22, a, g, c, t, del) == AOrBOrO
    ensures del >= 80 ==> GetTypeExon6(22, a, g, c, t, del) == O1
  {
  }

  /**
   * The all-zero record that fills a missing position: every subtype position
   * and position 22 give "", while the four exon-7 primary positions fall into
   * their "both alleles" band because |x - y| = 0 <= 20.
   */
  lemma ZeroRecordCalls()
    ensures GetTypeExon6(22, 0, 0, 0, 0, 0) == NoCall
    ensures forall p | p in {27, 29, 58} :: GetTypeExon6(p, 0, 0, 0, 0, 0) == NoCall
    ensures forall p | p in {93, 165, 272, 307, 371, 446, 680, 687} :: GetType(p, 0, 0, 0, 0, 0) == NoCall
    ensures GetType(422, 0, 0, 0, 0, 0) == AOrOAndB
    ensures GetType(428, 0, 0, 0, 0, 0) == O2AndOOrAOrB
    ensures GetType(429, 0, 0, 0, 0, 0) == AOrOAndB
    ensures GetType(431, 0, 0, 0, 0, 0) == O3AndOOrAOrB
  {
  }
}
