/** The derivations on the grades page: the letter-grade table, the colour
    band of a percentage, the summary statistics and the assignments still
    waiting for a grade. The add-grade form uses the same letter table. */
module GradesPage {
  import opened Common
  import opened Entities

  datatype Letter = A | B | C | D | F

  function LetterName(l: Letter): string {
    match l
    case A => "A"
    case B => "B"
    case C => "C"
    case D => "D"
    case F => "F"
  }

  /** Better letters rank higher: F is 0, A is 4. */
  function Rank(l: Letter): nat {
    match l
    case A => 4
    case B => 3
    case C => 2
    case D => 1
    case F => 0
  }

  /** `getLetterGrade`: bands of ten points from 60 up, each lower bound
      inclusive. */
  function LetterGrade(percentage: real): (l: Letter)
    ensures l == A <==> 90.0 <= percentage
    ensures l == B <==> 80.0 <= percentage < 90.0
    ensures l == C <==> 70.0 <= percentage < 80.0
    ensures l == D <==> 60.0 <= percentage < 70.0
    ensures l == F <==> percentage < 60.0
  {
    if percentage >= 90.0 then A
    else if percentage >= 80.0 then B
    else if percentage >= 70.0 then C
    else if percentage >= 60.0 then D
    else F
  }

  /** A higher percentage never earns a worse letter. */
  lemma LetterGradeMonotone(p: real, q: real)
    requires p <= q
    ensures Rank(LetterGrade(p)) <= Rank(LetterGrade(q))
  {
  }

  /** `getGradeColor`: the text colour of a percentage. */
  function GradeColor(percentage: real): (c: string)
    ensures c == LetterColor(LetterGrade(percentage))
  {
    if percentage >= 90.0 then "text-green-600"
    else if percentage >= 80.0 then "text-blue-600"
    else if percentage >= 70.0 then "text-yellow-600"
    else if percentage >= 60.0 then "text-orange-600"
    else "text-red-600"
  }

  /** The colour belonging to each letter band. */
  function LetterColor(l: Letter): string {
    match l
    case A => "text-green-600"
    case B => "text-blue-600"
    case C => "text-yellow-600"
    case D => "text-orange-600"
    case F => "text-red-600"
  }

  /** Colour and letter use the same bands: the colour of a percentage is
      the colour of its letter, and different letters have different
      colours, so the colour also determines the letter. */
  lemma GradeColorMatchesLetter(p: real, q: real)
    ensures GradeColor(p) == LetterColor(LetterGrade(p))
    ensures GradeColor(p) == GradeColor(q) <==> LetterGrade(p) == LetterGrade(q)
  {
    var lp, lq := LetterGrade(p), LetterGrade(q);
    if lp != lq {
      assert LetterColor(lp)[5] != LetterColor(lq)[5];
    }
  }

  datatype GradeStats = GradeStats(averageGrade: real, highestGrade: real, lowestGrade: real, totalGrades: nat)

  /** `grades.map(g => g.percentage)`. */
  function Percentages(grades: seq<Grade>): (ps: seq<real>)
    ensures |ps| == |grades|
    ensures forall i :: 0 <= i < |grades| ==> ps[i] == grades[i].percentage
  {
    seq(|grades|, i requires 0 <= i < |grades| => grades[i].percentage)
  }

  /** `Math.max(...s)`. */
  function MaxOf(s: seq<real>): (m: real)
    requires |s| > 0
    ensures m in s
    ensures forall i :: 0 <= i < |s| ==> s[i] <= m
  {
    if |s| == 1 then s[0]
    else
      var rest := MaxOf(s[1..]);
      if s[0] >= rest then s[0] else rest
  }

  /** `Math.min(...s)`. */
  function MinOf(s: seq<real>): (m: real)
    requires |s| > 0
    ensures m in s
    ensures forall i :: 0 <= i < |s| ==> m <= s[i]
  {
    if |s| == 1 then s[0]
    else
      var rest := MinOf(s[1..]);
      if s[0] <= rest then s[0] else rest
  }

  /** The mean lies between the smallest and the largest value. */
  lemma MeanBetween(s: seq<real>)
    requires |s| > 0
    ensures MinOf(s) <= Mean(s) <= MaxOf(s)
  {
    MeanWithin(s, MinOf(s), MaxOf(s));
  }

  /** `calculateStats`: zeros for no grades; otherwise the mean percentage
      rounded to one decimal, the extremes and the count. */
  function CalculateStats(grades: seq<Grade>): (st: GradeStats)
    ensures st.totalGrades == |grades|
    ensures |grades| == 0 ==> st == GradeStats(0.0, 0.0, 0.0, 0)
    ensures |grades| > 0 ==> st.averageGrade == RoundToTenth(Mean(Percentages(grades)))
    ensures |grades| > 0 ==> st.highestGrade in Percentages(grades) && st.lowestGrade in Percentages(grades)
    ensures forall i :: 0 <= i < |grades| ==> st.lowestGrade <= grades[i].percentage <= st.highestGrade
  {
    if |grades| == 0 then GradeStats(0.0, 0.0, 0.0, 0)
    else
      var ps := Percentages(grades);
      GradeStats(RoundToTenth(Mean(ps)), MaxOf(ps), MinOf(ps), |grades|)
  }

  /** For a non-empty list the unrounded mean lies between the lowest and
      the highest grade, and the shown average is within 0.05 of it. */
  lemma StatsAverageBetween(grades: seq<Grade>)
    requires |grades| > 0
    ensures var st := CalculateStats(grades);
      st.lowestGrade <= Mean(Percentages(grades)) <= st.highestGrade
      && st.lowestGrade - 0.05 < st.averageGrade <= st.highestGrade + 0.05
  {
    MeanBetween(Percentages(grades));
  }

  /** `grades.some(grade => grade.assignmentId === id)`. */
  predicate HasGrade(grades: seq<Grade>, id: Id) {
    exists i :: 0 <= i < |grades| && grades[i].assignmentId == id
  }

  /** `ungraduatedAssignments`: the assignments no grade refers to, in their
      original order. */
  function UngradedAssignments(assignments: seq<Assignment>, grades: seq<Grade>): (r: seq<Assignment>)
    ensures IsSubsequence(r, assignments)
    ensures forall i :: 0 <= i < |r| ==> r[i] in assignments && !HasGrade(grades, r[i].id)
    ensures forall i :: 0 <= i < |assignments| && !HasGrade(grades, assignments[i].id) ==> assignments[i] in r
  {
    Filter(assignments, (a: Assignment) => !HasGrade(grades, a.id))
  }
}
