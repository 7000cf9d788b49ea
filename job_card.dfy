/**
 * The grade badge of a job card: the score is mapped to one of four grades,
 * each with its label and its style class.
 */
module JobCard {
  import opened JobData

  datatype MatchGrade = Excellent | Good | Average | Low

  /** The badge text. */
  function Label(g: MatchGrade): string
  {
    match g
    case Excellent => "최적"
    case Good => "우수"
    case Average => "보통"
    case Low => "낮음"
  }

  /** The badge's style class. */
  function ColorClass(g: MatchGrade): string
  {
    match g
    case Excellent => "match-excellent"
    case Good => "match-good"
    case Average => "match-average"
    case Low => "match-low"
  }

  /** 0 for the lowest grade up to 3 for the highest. */
  function GradeLevel(g: MatchGrade): nat
  {
    match g
    case Low => 0
    case Average => 1
    case Good => 2
    case Excellent => 3
  }

  /**
   * The thresholds 80, 60 and 40, tried from the top. A NaN score fails every
   * comparison and falls through to the lowest grade.
   */
  function GradeOf(score: Score): MatchGrade
  {
    match score
    case NaN => Low
    case Num(v) =>
      if v >= 80 then Excellent
      else if v >= 60 then Good
      else if v >= 40 then Average
      else Low
  }

  /** Each grade covers exactly one band of scores. */
  lemma GradeBands(v: int)
    ensures GradeOf(Num(v)) == Excellent <==> 80 <= v
    ensures GradeOf(Num(v)) == Good <==> 60 <= v < 80
    ensures GradeOf(Num(v)) == Average <==> 40 <= v < 60
    ensures GradeOf(Num(v)) == Low <==> v < 40
  {
  }

  /** A higher score never earns a lower grade. */
  lemma GradeMonotone(v: int, w: int)
    requires v <= w
    ensures GradeLevel(GradeOf(Num(v))) <= GradeLevel(GradeOf(Num(w)))
  {
  }

  /** The four grades have four different labels and four different classes. */
  lemma BadgesDistinct(g: MatchGrade, h: MatchGrade)
    ensures Label(g) == Label(h) <==> g == h
    ensures ColorClass(g) == ColorClass(h) <==> g == h
  {
  }
}
