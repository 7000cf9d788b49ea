/**
 * The records the job-matching engine works on: the candidate profile, the
 * job postings, and the scored results the ranker hands to the card renderer.
 */
module JobData {

  /** Work arrangements, spelt as the site spells them. */
  const OnSite: string := "출근"
  const Hybrid: string := "하이브리드"
  const Remote: string := "재택근무"

  /** A self-reported skill; `level` is a proficiency on the scale 1..5. */
  datatype Skill = Skill(name: string, level: int)

  /** A salary range in units of 10,000 won. */
  datatype SalaryRange = SalaryRange(min: int, max: int)

  /** A calendar date; it stands for the `YYYY-MM-DD` strings of the postings. */
  datatype Date = Date(year: int, month: int, day: int)

  datatype CandidateProfile = CandidateProfile(
    name: string,
    skills: seq<Skill>,
    interests: seq<string>,
    personality: seq<string>,
    preferredWorkType: string,
    salaryRange: SalaryRange,
    experienceLevel: string,
    preferredLocation: string)

  datatype JobPosting = JobPosting(
    id: int,
    title: string,
    company: string,
    location: string,
    workType: string,
    salary: SalaryRange,
    experienceLevel: string,
    description: string,
    requiredSkills: seq<string>,
    preferredSkills: seq<string>,
    keywords: seq<string>,
    postedDate: Date,
    deadline: Date)

  /**
   * A JavaScript match score: an integer, or NaN when the salary term divides
   * zero by zero (a profile whose salary range is a single point).
   */
  datatype Score = Num(value: int) | NaN

  /** One `{job, score}` entry of the result list. */
  datatype MatchResult = MatchResult(job: JobPosting, score: Score)

  /** Every skill level of the profile lies on the scale 1..5. */
  predicate LevelsInScale(skills: seq<Skill>)
  {
    forall i :: 0 <= i < |skills| ==> 1 <= skills[i].level <= 5
  }

  /** Gregorian leap years. */
  predicate IsLeapYear(y: int)
  {
    (y % 4 == 0 && y % 100 != 0) || y % 400 == 0
  }

  /** The number of days in month `m` (1..12) of year `y`. */
  function DaysInMonth(y: int, m: int): (n: int)
    requires 1 <= m <= 12
    ensures 28 <= n <= 31
    ensures n == 29 <==> m == 2 && IsLeapYear(y)
  {
    if m == 2 then (if IsLeapYear(y) then 29 else 28)
    else if m == 4 || m == 6 || m == 9 || m == 11 then 30
    else 31
  }

  /** A day that exists in the Gregorian calendar. */
  predicate ValidDate(d: Date)
  {
    1 <= d.month <= 12 && 1 <= d.day <= DaysInMonth(d.year, d.month)
  }

  /** Calendar order: `a` is a strictly earlier day than `b`. */
  predicate Before(a: Date, b: Date)
  {
    a.year < b.year
    || (a.year == b.year && a.month < b.month)
    || (a.year == b.year && a.month == b.month && a.day < b.day)
  }

  /**
   * An integer key for a date. Only the sign of `new Date(b) - new Date(a)`
   * matters to the sort comparator, and this key has the same sign.
   */
  function DateKey(d: Date): int
  {
    (d.year * 12 + (d.month - 1)) * 31 + (d.day - 1)
  }

  /** The date key orders valid dates exactly as the calendar does. */
  lemma DateKeyOrder(a: Date, b: Date)
    requires ValidDate(a) && ValidDate(b)
    ensures DateKey(a) < DateKey(b) <==> Before(a, b)
    ensures DateKey(a) == DateKey(b) <==> a == b
  {
    var ma := a.year * 12 + (a.month - 1);
    var mb := b.year * 12 + (b.month - 1);
    assert DateKey(a) == ma * 31 + (a.day - 1);
    assert DateKey(b) == mb * 31 + (b.day - 1);
    if ma < mb {
      assert ma * 31 + 31 <= mb * 31;
      assert a.year < b.year || (a.year == b.year && a.month < b.month);
    } else if ma > mb {
      assert mb * 31 + 31 <= ma * 31;
      assert b.year < a.year || (a.year == b.year && b.month < a.month);
    } else {
      assert a.year == b.year && a.month == b.month;
    }
  }
}
