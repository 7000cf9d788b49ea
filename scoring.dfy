/**
 * The match scorer: five weighted sub-scores of a profile against a job
 * posting, added up and normalised to a whole number between 0 and 100.
 *
 * The specification functions state the formula term by term; the method
 * `CalculateMatchScore` is the accumulating computation of the site, and its
 * postcondition ties it to `MatchScore`. Sub-scores are exact rationals.
 */
module Scoring {
  import opened Wrappers
  import opened JobData

  const SkillWeight: int := 40
  const PreferredWeight: int := 15
  const InterestWeight: int := 20
  const WorkTypeWeight: int := 10
  const SalaryWeight: int := 15

  /** The sum of the five weights, which is what `maxScore` always reaches. */
  const MaxScore: int := SkillWeight + PreferredWeight + InterestWeight + WorkTypeWeight + SalaryWeight

  /** JavaScript `Math.round`: the nearest integer, ties rounded up. */
  function Round(x: real): (n: int)
    ensures n as real - 0.5 <= x < n as real + 0.5
  {
    (x + 0.5).Floor
  }

  /** `profile.skills.find(s => s.name === name)`: the first skill with exactly that name. */
  function FindSkill(skills: seq<Skill>, name: string): (r: Option<Skill>)
    ensures r.None? <==> forall i :: 0 <= i < |skills| ==> skills[i].name != name
    ensures r.Some? ==>
      exists i :: 0 <= i < |skills| && skills[i] == r.value && r.value.name == name
        && forall k :: 0 <= k < i ==> skills[k].name != name
  {
    if |skills| == 0 then None
    else if skills[0].name == name then Some(skills[0])
    else
      var r := FindSkill(skills[1..], name);
      FindSkillShift(skills, name, r);
      r
  }

  /** A first match in the tail of the list is a first match in the whole list. */
  lemma FindSkillShift(skills: seq<Skill>, name: string, r: Option<Skill>)
    requires |skills| > 0 && skills[0].name != name
    requires r.Some? ==>
      exists i :: 0 <= i < |skills| - 1 && skills[1..][i] == r.value && r.value.name == name
        && forall k :: 0 <= k < i ==> skills[1..][k].name != name
    ensures r.Some? ==>
      exists i :: 0 <= i < |skills| && skills[i] == r.value && r.value.name == name
        && forall k :: 0 <= k < i ==> skills[k].name != name
  {
    if r.Some? {
      var i :| 0 <= i < |skills| - 1 && skills[1..][i] == r.value && r.value.name == name
        && forall k :: 0 <= k < i ==> skills[1..][k].name != name;
      forall k | 0 <= k < i + 1 ensures skills[k].name != name {
        if k > 0 { assert skills[k] == skills[1..][k - 1]; }
      }
      assert skills[i + 1] == r.value;
    }
  }

  /** The skill at index `i` is what the lookup finds when no earlier skill has its name. */
  lemma FindSkillAt(skills: seq<Skill>, i: nat)
    requires i < |skills|
    requires forall k :: 0 <= k < i ==> skills[k].name != skills[i].name
    ensures FindSkill(skills, skills[i].name) == Some(skills[i])
  {
    var r := FindSkill(skills, skills[i].name);
    var m :| 0 <= m < |skills| && skills[m] == r.value && r.value.name == skills[i].name
      && forall k :: 0 <= k < m ==> skills[k].name != skills[i].name;
    assert !(m < i) && !(i < m);
  }

  /** What one named skill earns: level / 5 of the profile's skill, 0 when it is missing. */
  function SkillCredit(skills: seq<Skill>, name: string): real
  {
    match FindSkill(skills, name)
    case Some(s) => s.level as real / 5.0
    case None => 0.0
  }

  /** The `matched...Skills` accumulator after visiting every name of `names`. */
  function SkillPoints(skills: seq<Skill>, names: seq<string>): real
  {
    if |names| == 0 then 0.0
    else SkillPoints(skills, names[..|names| - 1]) + SkillCredit(skills, names[|names| - 1])
  }

  /** Visiting one more name adds that name's credit. */
  lemma SkillPointsSnoc(skills: seq<Skill>, names: seq<string>, name: string)
    ensures SkillPoints(skills, names + [name]) == SkillPoints(skills, names) + SkillCredit(skills, name)
  {
    assert (names + [name])[..|names|] == names;
  }

  /** The `matchedInterests` counter: how many keywords appear among the interests. */
  function KeywordHits(interests: seq<string>, keywords: seq<string>): nat
  {
    if |keywords| == 0 then 0
    else
      var hit := if keywords[|keywords| - 1] in interests then 1 else 0;
      KeywordHits(interests, keywords[..|keywords| - 1]) + hit
  }

  /** Visiting one more keyword adds 1 when it is an interest. */
  lemma KeywordHitsSnoc(interests: seq<string>, keywords: seq<string>, keyword: string)
    ensures KeywordHits(interests, keywords + [keyword])
      == KeywordHits(interests, keywords) + (if keyword in interests then 1 else 0)
  {
    assert (keywords + [keyword])[..|keywords|] == keywords;
  }

  /** matched / count * weight, and 0 for an empty list. */
  function Share(matched: real, count: nat, weight: int): real
  {
    if count > 0 then matched / count as real * weight as real else 0.0
  }

  function RequiredSkillScore(p: CandidateProfile, j: JobPosting): real
  {
    Share(SkillPoints(p.skills, j.requiredSkills), |j.requiredSkills|, SkillWeight)
  }

  function PreferredSkillScore(p: CandidateProfile, j: JobPosting): real
  {
    Share(SkillPoints(p.skills, j.preferredSkills), |j.preferredSkills|, PreferredWeight)
  }

  function InterestScore(p: CandidateProfile, j: JobPosting): real
  {
    Share(KeywordHits(p.interests, j.keywords) as real, |j.keywords|, InterestWeight)
  }

  /** Full weight on an exact match; half when the job is remote or the profile prefers hybrid. */
  function WorkTypeScore(p: CandidateProfile, j: JobPosting): real
  {
    if j.workType == p.preferredWorkType then WorkTypeWeight as real
    else if j.workType == Remote || p.preferredWorkType == Hybrid then WorkTypeWeight as real * 0.5
    else 0.0
  }

  /** The two salary ranges share at least one point. */
  predicate SalaryOverlaps(p: CandidateProfile, j: JobPosting)
  {
    j.salary.max >= p.salaryRange.min && j.salary.min <= p.salaryRange.max
  }

  /**
   * The overlap's length as a share of the profile's range, times the weight;
   * None stands for NaN, the value of 0 / 0 when the profile's range is a point.
   */
  function SalaryScore(p: CandidateProfile, j: JobPosting): Option<real>
  {
    if !SalaryOverlaps(p, j) then Some(0.0)
    else
      var overlapMin := if j.salary.min >= p.salaryRange.min then j.salary.min else p.salaryRange.min;
      var overlapMax := if j.salary.max <= p.salaryRange.max then j.salary.max else p.salaryRange.max;
      var totalRange := p.salaryRange.max - p.salaryRange.min;
      if totalRange == 0 then None
      else Some((overlapMax - overlapMin) as real / totalRange as real * SalaryWeight as real)
  }

  /** `totalScore`, the sum of the five sub-scores (None when it is NaN). */
  function TotalScore(p: CandidateProfile, j: JobPosting): Option<real>
  {
    match SalaryScore(p, j)
    case None => None
    case Some(s) =>
      Some(RequiredSkillScore(p, j) + PreferredSkillScore(p, j) + InterestScore(p, j)
        + WorkTypeScore(p, j) + s)
  }

  /** `Math.round((totalScore / maxScore) * 100)`. */
  function MatchScore(p: CandidateProfile, j: JobPosting): Score
  {
    match TotalScore(p, j)
    case None => NaN
    case Some(t) => Num(Round(t / MaxScore as real * 100.0))
  }

  /**
   * The skill loop of calculateMatchScore, the same for required and
   * preferred skills: each listed skill the candidate holds adds its level
   * over five.
   */
  method MatchedSkillPoints(skills: seq<Skill>, names: seq<string>) returns (matched: real)
    ensures matched == SkillPoints(skills, names)
  {
    matched := 0.0;
    var i := 0;
    while i < |names|
      invariant 0 <= i <= |names|
      invariant matched == SkillPoints(skills, names[..i])
    {
      assert names[..i + 1][..i] == names[..i];
      var userSkill := FindSkill(skills, names[i]);
      if userSkill.Some? {
        matched := matched + userSkill.value.level as real / 5.0;
      }
      i := i + 1;
    }
    assert names[..i] == names;
  }

  /** The keyword loop of calculateMatchScore: how many keywords are among the interests. */
  method MatchedKeywords(interests: seq<string>, keywords: seq<string>) returns (matched: nat)
    ensures matched == KeywordHits(interests, keywords)
  {
    matched := 0;
    var i := 0;
    while i < |keywords|
      invariant 0 <= i <= |keywords|
      invariant matched == KeywordHits(interests, keywords[..i])
    {
      assert keywords[..i + 1][..i] == keywords[..i];
      if keywords[i] in interests {
        matched := matched + 1;
      }
      i := i + 1;
    }
    assert keywords[..i] == keywords;
  }

  /**
   * calculateMatchScore: visits the required skills, the preferred skills
   * and the keywords one at a time, adding to the accumulators, then adds
   * the work-type and salary terms and rounds.
   */
  method CalculateMatchScore(profile: CandidateProfile, job: JobPosting) returns (finalScore: Score)
    ensures finalScore == MatchScore(profile, job)
  {
    var totalScore: real := 0.0;
    var maxScore: int := 0;

    // Required skills.
    maxScore := maxScore + SkillWeight;
    var matchedRequiredSkills := MatchedSkillPoints(profile.skills, job.requiredSkills);
    if |job.requiredSkills| > 0 {
      totalScore := totalScore
        + (matchedRequiredSkills / |job.requiredSkills| as real) * SkillWeight as real;
    }
    assert totalScore == RequiredSkillScore(profile, job);

    // Preferred skills.
    maxScore := maxScore + PreferredWeight;
    var matchedPreferredSkills := MatchedSkillPoints(profile.skills, job.preferredSkills);
    if |job.preferredSkills| > 0 {
      totalScore := totalScore
        + (matchedPreferredSkills / |job.preferredSkills| as real) * PreferredWeight as real;
    }
    assert totalScore == RequiredSkillScore(profile, job) + PreferredSkillScore(profile, job);

    // Keywords against interests.
    maxScore := maxScore + InterestWeight;
    var matchedInterests := MatchedKeywords(profile.interests, job.keywords);
    if |job.keywords| > 0 {
      totalScore := totalScore
        + (matchedInterests as real / |job.keywords| as real) * InterestWeight as real;
    }
    ghost var listScore := RequiredSkillScore(profile, job) + PreferredSkillScore(profile, job)
      + InterestScore(profile, job);
    assert totalScore == listScore;

    // Work type.
    maxScore := maxScore + WorkTypeWeight;
    if job.workType == profile.preferredWorkType {
      totalScore := totalScore + WorkTypeWeight as real;
    } else if job.workType == Remote || profile.preferredWorkType == Hybrid {
      totalScore := totalScore + WorkTypeWeight as real * 0.5;
    }
    assert totalScore == listScore + WorkTypeScore(profile, job);

    // Salary range.
    maxScore := maxScore + SalaryWeight;
    var salaryOverlap := job.salary.max >= profile.salaryRange.min
      && job.salary.min <= profile.salaryRange.max;
    if salaryOverlap {
      var overlapMin := if job.salary.min >= profile.salaryRange.min then job.salary.min
        else profile.salaryRange.min;
      var overlapMax := if job.salary.max <= profile.salaryRange.max then job.salary.max
        else profile.salaryRange.max;
      var overlapRange := overlapMax - overlapMin;
      var totalRange := profile.salaryRange.max - profile.salaryRange.min;
      if totalRange == 0 {
        // 0 / 0 is NaN, and NaN survives the rest of the arithmetic and Math.round.
        return NaN;
      }
      assert SalaryScore(profile, job)
        == Some((overlapRange as real / totalRange as real) * SalaryWeight as real);
      totalScore := totalScore + (overlapRange as real / totalRange as real) * SalaryWeight as real;
    } else {
      assert SalaryScore(profile, job) == Some(0.0);
    }

    assert TotalScore(profile, job) == Some(totalScore);
    assert maxScore == MaxScore;
    finalScore := Num(Round((totalScore / maxScore as real) * 100.0));
  }

  // ---------------------------------------------------------------------
  // Properties of the formula
  // ---------------------------------------------------------------------

  /** A present skill earns `level / 5`, in 1/5..1 on the 1..5 scale; a missing one earns 0. */
  lemma SkillCreditBounds(skills: seq<Skill>, name: string)
    requires LevelsInScale(skills)
    ensures 0.0 <= SkillCredit(skills, name) <= 1.0
    ensures FindSkill(skills, name).Some? ==> 0.2 <= SkillCredit(skills, name)
    ensures SkillCredit(skills, name) == 0.0
      <==> forall i :: 0 <= i < |skills| ==> skills[i].name != name
  {
    var r := FindSkill(skills, name);
    if r.Some? {
      var i :| 0 <= i < |skills| && skills[i] == r.value;
      assert 1 <= r.value.level <= 5;
    }
  }

  /** The skill accumulator ends between 0 and the number of names. */
  lemma {:induction false} SkillPointsBounds(skills: seq<Skill>, names: seq<string>)
    requires LevelsInScale(skills)
    ensures 0.0 <= SkillPoints(skills, names) <= |names| as real
  {
    if |names| > 0 {
      SkillPointsBounds(skills, names[..|names| - 1]);
      SkillCreditBounds(skills, names[|names| - 1]);
    }
  }

  /** The keyword counter ends between 0 and the number of keywords. */
  lemma {:induction false} KeywordHitsBounds(interests: seq<string>, keywords: seq<string>)
    ensures KeywordHits(interests, keywords) <= |keywords|
  {
    if |keywords| > 0 {
      KeywordHitsBounds(interests, keywords[..|keywords| - 1]);
    }
  }

  /** A share of at most all of the list stays within its weight. */
  lemma ShareBounds(matched: real, count: nat, weight: int)
    requires 0.0 <= matched <= count as real && weight >= 0
    ensures 0.0 <= Share(matched, count, weight) <= weight as real
  {
    if count > 0 {
      var q := matched / count as real;
      assert 0.0 <= q <= 1.0;
      assert q * weight as real <= 1.0 * weight as real;
    }
  }

  /** A list matched in full earns its whole weight. */
  lemma ShareOfAll(count: nat, weight: int)
    requires count > 0
    ensures Share(count as real, count, weight) == weight as real
  {
    assert count as real / count as real == 1.0;
  }

  /** The three list-based sub-scores and the work-type sub-score stay within their weights. */
  lemma ListSubScoreBounds(p: CandidateProfile, j: JobPosting)
    requires LevelsInScale(p.skills)
    ensures 0.0 <= RequiredSkillScore(p, j) <= SkillWeight as real
    ensures 0.0 <= PreferredSkillScore(p, j) <= PreferredWeight as real
    ensures 0.0 <= InterestScore(p, j) <= InterestWeight as real
    ensures 0.0 <= WorkTypeScore(p, j) <= WorkTypeWeight as real
  {
    SkillPointsBounds(p.skills, j.requiredSkills);
    ShareBounds(SkillPoints(p.skills, j.requiredSkills), |j.requiredSkills|, SkillWeight);
    SkillPointsBounds(p.skills, j.preferredSkills);
    ShareBounds(SkillPoints(p.skills, j.preferredSkills), |j.preferredSkills|, PreferredWeight);
    KeywordHitsBounds(p.interests, j.keywords);
    ShareBounds(KeywordHits(p.interests, j.keywords) as real, |j.keywords|, InterestWeight);
  }

  /**
   * With a proper profile range and a job range whose ends are in order, the
   * salary sub-score is a number in 0..15: 0 for disjoint ranges, otherwise
   * the overlap's share of the profile's range.
   */
  lemma SalaryScoreBounds(p: CandidateProfile, j: JobPosting)
    requires p.salaryRange.min < p.salaryRange.max
    requires j.salary.min <= j.salary.max
    ensures SalaryScore(p, j).Some?
    ensures 0.0 <= SalaryScore(p, j).value <= SalaryWeight as real
    ensures !SalaryOverlaps(p, j) ==> SalaryScore(p, j).value == 0.0
  {
    if SalaryOverlaps(p, j) {
      var overlapMin := if j.salary.min >= p.salaryRange.min then j.salary.min else p.salaryRange.min;
      var overlapMax := if j.salary.max <= p.salaryRange.max then j.salary.max else p.salaryRange.max;
      var totalRange := p.salaryRange.max - p.salaryRange.min;
      assert 0 <= overlapMax - overlapMin <= totalRange;
      ShareBounds((overlapMax - overlapMin) as real, totalRange, SalaryWeight);
      assert SalaryScore(p, j).value == Share((overlapMax - overlapMin) as real, totalRange, SalaryWeight);
    }
  }

  /** A job range that covers the profile's whole range earns the full salary weight. */
  lemma SalaryFullCover(p: CandidateProfile, j: JobPosting)
    requires p.salaryRange.min < p.salaryRange.max
    requires j.salary.min <= p.salaryRange.min && p.salaryRange.max <= j.salary.max
    ensures SalaryScore(p, j) == Some(SalaryWeight as real)
  {
    var totalRange := (p.salaryRange.max - p.salaryRange.min) as real;
    assert totalRange / totalRange == 1.0;
  }

  /** The score is NaN exactly when the profile's range is one point that the job's range reaches. */
  lemma ScoreIsNaNIff(p: CandidateProfile, j: JobPosting)
    ensures MatchScore(p, j).NaN? <==> p.salaryRange.min == p.salaryRange.max && SalaryOverlaps(p, j)
  {
  }

  /** maxScore is always 100, so the score is the rounded total. */
  lemma ScoreIsRoundedTotal(p: CandidateProfile, j: JobPosting)
    ensures MaxScore == 100
    ensures TotalScore(p, j).Some? ==> MatchScore(p, j) == Num(Round(TotalScore(p, j).value))
  {
  }

  /**
   * The site's promise of a score between 0 and 100: it holds for levels on
   * the 1..5 scale, a proper profile range and an ordered job range.
   */
  lemma ScoreInRange(p: CandidateProfile, j: JobPosting)
    requires LevelsInScale(p.skills)
    requires p.salaryRange.min < p.salaryRange.max
    requires j.salary.min <= j.salary.max
    ensures MatchScore(p, j).Num?
    ensures 0 <= MatchScore(p, j).value <= 100
  {
    ListSubScoreBounds(p, j);
    SalaryScoreBounds(p, j);
    var t := TotalScore(p, j).value;
    assert 0.0 <= t <= 100.0;
    assert t / MaxScore as real * 100.0 == t;
  }

  /**
   * Work-type credit is withheld only when nothing matches, the job is not
   * remote and the profile does not prefer hybrid; full credit needs equal
   * types, and half credit is the remote-or-hybrid fallback.
   */
  lemma WorkTypeScoreZeroIff(p: CandidateProfile, j: JobPosting)
    ensures WorkTypeScore(p, j) == 0.0
      <==> j.workType != p.preferredWorkType && j.workType != Remote && p.preferredWorkType != Hybrid
    ensures WorkTypeScore(p, j) == WorkTypeWeight as real <==> j.workType == p.preferredWorkType
    ensures WorkTypeScore(p, j) == WorkTypeWeight as real * 0.5
      <==> j.workType != p.preferredWorkType && (j.workType == Remote || p.preferredWorkType == Hybrid)
  {
  }

  /** Every name present at level 5 makes the accumulator equal the number of names. */
  lemma {:induction false} SkillPointsAllTopLevel(skills: seq<Skill>, names: seq<string>)
    requires forall i :: 0 <= i < |names| ==>
      FindSkill(skills, names[i]).Some? && FindSkill(skills, names[i]).value.level == 5
    ensures SkillPoints(skills, names) == |names| as real
  {
    if |names| > 0 {
      SkillPointsAllTopLevel(skills, names[..|names| - 1]);
    }
  }

  /** No name present makes the accumulator 0. */
  lemma {:induction false} SkillPointsNoneHeld(skills: seq<Skill>, names: seq<string>)
    requires forall i, k :: 0 <= i < |names| && 0 <= k < |skills| ==> skills[k].name != names[i]
    ensures SkillPoints(skills, names) == 0.0
  {
    if |names| > 0 {
      SkillPointsNoneHeld(skills, names[..|names| - 1]);
      assert FindSkill(skills, names[|names| - 1]).None?;
    }
  }

  /** Every keyword among the interests makes the counter equal the number of keywords. */
  lemma {:induction false} KeywordHitsAll(interests: seq<string>, keywords: seq<string>)
    requires forall i :: 0 <= i < |keywords| ==> keywords[i] in interests
    ensures KeywordHits(interests, keywords) == |keywords|
  {
    if |keywords| > 0 {
      KeywordHitsAll(interests, keywords[..|keywords| - 1]);
    }
  }

  /** No keyword among the interests makes the counter 0. */
  lemma {:induction false} KeywordHitsNone(interests: seq<string>, keywords: seq<string>)
    requires forall i :: 0 <= i < |keywords| ==> keywords[i] !in interests
    ensures KeywordHits(interests, keywords) == 0
  {
    if |keywords| > 0 {
      KeywordHitsNone(interests, keywords[..|keywords| - 1]);
    }
  }

  /**
   * A posting the profile meets perfectly scores 100: every required and
   * preferred skill held at level 5, every keyword an interest, the same work
   * type and the same salary range. The three lists must be non-empty, since
   * an empty list earns nothing while its weight still counts.
   */
  lemma PerfectPostingScores100(p: CandidateProfile, j: JobPosting)
    requires |j.requiredSkills| > 0 && |j.preferredSkills| > 0 && |j.keywords| > 0
    requires forall i :: 0 <= i < |j.requiredSkills| ==>
      FindSkill(p.skills, j.requiredSkills[i]).Some? && FindSkill(p.skills, j.requiredSkills[i]).value.level == 5
    requires forall i :: 0 <= i < |j.preferredSkills| ==>
      FindSkill(p.skills, j.preferredSkills[i]).Some? && FindSkill(p.skills, j.preferredSkills[i]).value.level == 5
    requires forall i :: 0 <= i < |j.keywords| ==> j.keywords[i] in p.interests
    requires j.workType == p.preferredWorkType
    requires j.salary == p.salaryRange && p.salaryRange.min < p.salaryRange.max
    ensures MatchScore(p, j) == Num(100)
  {
    SkillPointsAllTopLevel(p.skills, j.requiredSkills);
    ShareOfAll(|j.requiredSkills|, SkillWeight);
    assert RequiredSkillScore(p, j) == 40.0;
    SkillPointsAllTopLevel(p.skills, j.preferredSkills);
    ShareOfAll(|j.preferredSkills|, PreferredWeight);
    assert PreferredSkillScore(p, j) == 15.0;
    KeywordHitsAll(p.interests, j.keywords);
    ShareOfAll(|j.keywords|, InterestWeight);
    assert InterestScore(p, j) == 20.0;
    SalaryFullCover(p, j);
    FullMarks(p, j);
  }

  /** Every sub-score at its weight makes a score of 100. */
  lemma FullMarks(p: CandidateProfile, j: JobPosting)
    requires RequiredSkillScore(p, j) == 40.0 && PreferredSkillScore(p, j) == 15.0
    requires InterestScore(p, j) == 20.0 && j.workType == p.preferredWorkType
    requires SalaryScore(p, j) == Some(15.0)
    ensures MatchScore(p, j) == Num(100)
  {
    assert TotalScore(p, j) == Some(100.0);
    assert 100.0 / MaxScore as real * 100.0 == 100.0;
  }

  /**
   * A posting with nothing in common scores 0: no skill of either list held,
   * no keyword an interest, a non-remote work type the profile does not
   * prefer (and the profile not preferring hybrid), and disjoint salaries.
   */
  lemma HopelessPostingScoresZero(p: CandidateProfile, j: JobPosting)
    requires forall i, k :: 0 <= i < |j.requiredSkills| && 0 <= k < |p.skills| ==>
      p.skills[k].name != j.requiredSkills[i]
    requires forall i, k :: 0 <= i < |j.preferredSkills| && 0 <= k < |p.skills| ==>
      p.skills[k].name != j.preferredSkills[i]
    requires forall i :: 0 <= i < |j.keywords| ==> j.keywords[i] !in p.interests
    requires j.workType != p.preferredWorkType && j.workType != Remote && p.preferredWorkType != Hybrid
    requires !SalaryOverlaps(p, j)
    ensures MatchScore(p, j) == Num(0)
  {
    SkillPointsNoneHeld(p.skills, j.requiredSkills);
    SkillPointsNoneHeld(p.skills, j.preferredSkills);
    KeywordHitsNone(p.interests, j.keywords);
    assert TotalScore(p, j) == Some(0.0);
  }

  /**
   * A posting with no required skills, no preferred skills and no keywords
   * is scored on work type and salary alone, out of 100: at most 25.
   */
  lemma EmptyListsScoreAtMost25(p: CandidateProfile, j: JobPosting)
    requires |j.requiredSkills| == 0 && |j.preferredSkills| == 0 && |j.keywords| == 0
    requires p.salaryRange.min < p.salaryRange.max && j.salary.min <= j.salary.max
    ensures TotalScore(p, j) == Some(WorkTypeScore(p, j) + SalaryScore(p, j).value)
    ensures MatchScore(p, j).Num? && 0 <= MatchScore(p, j).value <= 25
  {
    SalaryScoreBounds(p, j);
    var t := TotalScore(p, j).value;
    assert 0.0 <= t <= 25.0;
    assert t / MaxScore as real * 100.0 == t;
  }
}
