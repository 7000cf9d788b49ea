/**
 * The site's built-in data: the profile of the candidate 유비 and the ten
 * job postings, with the scores the formula gives them.
 */
module Catalog {
  import opened JobData
  import opened Wrappers
  import opened Scoring

  const YubiProfile: CandidateProfile := CandidateProfile(
    "유비",
    [ Skill("ChatGPT", 4),
      Skill("프롬프트 엔지니어링", 4),
      Skill("Midjourney", 3),
      Skill("Stable Diffusion", 2),
      Skill("콘텐츠 제작", 4),
      Skill("데이터 분석", 2),
      Skill("SNS 마케팅", 3),
      Skill("영상 편집", 2),
      Skill("Python 기초", 2),
      Skill("기획서 작성", 3) ],
    ["AI 기술", "이미지 생성", "콘텐츠 크리에이션", "교육", "마케팅"],
    ["창의적", "소통 능력 우수", "꼼꼼함", "자기주도적", "팀워크"],
    Hybrid,
    SalaryRange(3000, 5000),
    "신입~1년",
    "서울")

  const Posting1: JobPosting := JobPosting(
    1, "AI 프롬프트 엔지니어", "(주)스마트AI 솔루션", "서울 강남구", Hybrid,
    SalaryRange(3500, 5000), "신입~3년",
    "ChatGPT, Claude 등 대규모 언어모델을 활용한 프롬프트 설계 및 최적화 업무를 담당합니다.",
    ["ChatGPT", "프롬프트 엔지니어링", "콘텐츠 제작", "기획서 작성"],
    ["Python 기초", "데이터 분석"],
    ["AI 기술", "콘텐츠 크리에이션"],
    Date(2026, 2, 5), Date(2026, 3, 5))

  const Posting2: JobPosting := JobPosting(
    2, "AI 콘텐츠 크리에이터", "크리에이티브 랩스", "서울 마포구", Hybrid,
    SalaryRange(3000, 4500), "신입~2년",
    "AI 도구를 활용하여 블로그, SNS, 영상 등 다양한 콘텐츠를 기획하고 제작합니다.",
    ["ChatGPT", "콘텐츠 제작", "SNS 마케팅"],
    ["Midjourney", "영상 편집", "프롬프트 엔지니어링"],
    ["콘텐츠 크리에이션", "마케팅", "AI 기술"],
    Date(2026, 2, 3), Date(2026, 2, 28))

  const Posting3: JobPosting := JobPosting(
    3, "AI 이미지 디자이너", "비주얼 스튜디오 코리아", "서울 성수동", Remote,
    SalaryRange(3200, 4800), "1년~3년",
    "Midjourney, Stable Diffusion 등 AI 이미지 생성 도구를 활용한 디자인 업무를 수행합니다.",
    ["Midjourney", "Stable Diffusion", "프롬프트 엔지니어링"],
    ["콘텐츠 제작", "영상 편집"],
    ["이미지 생성", "AI 기술", "콘텐츠 크리에이션"],
    Date(2026, 2, 1), Date(2026, 2, 25))

  const Posting4: JobPosting := JobPosting(
    4, "AI 교육 강사 (주니어)", "AI Academy", "서울 강남구", Hybrid,
    SalaryRange(3000, 4000), "신입~2년",
    "생성형 AI 교육 과정의 강의 보조 및 수강생 멘토링을 담당합니다. AI 도구 실습을 지도합니다.",
    ["ChatGPT", "프롬프트 엔지니어링", "Midjourney"],
    ["콘텐츠 제작", "Stable Diffusion", "기획서 작성"],
    ["교육", "AI 기술", "콘텐츠 크리에이션"],
    Date(2026, 2, 7), Date(2026, 3, 10))

  const Posting5: JobPosting := JobPosting(
    5, "AI 마케팅 스페셜리스트", "디지털 마케팅 그룹", "서울 역삼동", OnSite,
    SalaryRange(3500, 5500), "1년~3년",
    "AI 도구를 활용하여 디지털 마케팅 캠페인을 기획하고 실행합니다.",
    ["ChatGPT", "SNS 마케팅", "콘텐츠 제작", "데이터 분석"],
    ["Midjourney", "영상 편집"],
    ["마케팅", "AI 기술", "콘텐츠 크리에이션"],
    Date(2026, 2, 6), Date(2026, 3, 1))

  const Posting6: JobPosting := JobPosting(
    6, "AI 제품 기획자 (PM)", "테크스타트업 이노베이트", "서울 판교", Hybrid,
    SalaryRange(4000, 6000), "2년~5년",
    "AI 기반 서비스의 제품 기획 및 프로젝트 매니징을 담당합니다.",
    ["기획서 작성", "ChatGPT", "데이터 분석"],
    ["프롬프트 엔지니어링", "Python 기초"],
    ["AI 기술"],
    Date(2026, 2, 4), Date(2026, 3, 15))

  const Posting7: JobPosting := JobPosting(
    7, "AI 챗봇 운영 담당자", "고객서비스 AI", "서울 종로구", OnSite,
    SalaryRange(2800, 3800), "신입",
    "AI 기반 챗봇 시스템의 운영 및 프롬프트 관리, 응답 품질 개선 업무를 수행합니다.",
    ["ChatGPT", "프롬프트 엔지니어링"],
    ["데이터 분석", "기획서 작성", "콘텐츠 제작"],
    ["AI 기술"],
    Date(2026, 2, 7), Date(2026, 2, 28))

  const Posting8: JobPosting := JobPosting(
    8, "SNS 콘텐츠 매니저 (AI 활용)", "브랜드 커뮤니케이션즈", "서울 홍대", Hybrid,
    SalaryRange(3000, 4200), "신입~2년",
    "AI 도구를 활용하여 브랜드 SNS 콘텐츠를 기획, 제작, 관리합니다.",
    ["SNS 마케팅", "콘텐츠 제작", "ChatGPT"],
    ["Midjourney", "영상 편집", "프롬프트 엔지니어링"],
    ["마케팅", "콘텐츠 크리에이션", "AI 기술"],
    Date(2026, 2, 2), Date(2026, 2, 20))

  const Posting9: JobPosting := JobPosting(
    9, "AI 데이터 라벨러 / 품질 관리자", "데이터웍스", "서울 구로구", Remote,
    SalaryRange(2500, 3500), "신입",
    "AI 학습 데이터의 라벨링 및 품질 관리 업무를 수행합니다.",
    ["데이터 분석"],
    ["ChatGPT", "Python 기초"],
    ["AI 기술"],
    Date(2026, 1, 28), Date(2026, 2, 15))

  const Posting10: JobPosting := JobPosting(
    10, "AI 기반 영상 편집자", "미디어 프로덕션 AI", "서울 상암동", OnSite,
    SalaryRange(3200, 4500), "1년~3년",
    "AI 도구를 활용하여 유튜브, 광고 등 영상 콘텐츠를 편집하고 제작합니다.",
    ["영상 편집", "콘텐츠 제작"],
    ["Midjourney", "Stable Diffusion", "ChatGPT"],
    ["콘텐츠 크리에이션", "이미지 생성"],
    Date(2026, 2, 6), Date(2026, 3, 6))

  /** The catalog in its display order. */
  const JobPostings: seq<JobPosting> :=
    [Posting1, Posting2, Posting3, Posting4, Posting5, Posting6, Posting7, Posting8, Posting9, Posting10]

  /** No two skills of the profile share a name. */
  lemma ProfileNamesDistinct()
    ensures forall i, k :: 0 <= i < k < |YubiProfile.skills| ==>
      YubiProfile.skills[i].name != YubiProfile.skills[k].name
  {
    var s := YubiProfile.skills;
    var initials := ['C', '프', 'M', 'S', '콘', '데', 'S', '영', 'P', '기'];
    assert forall i :: 0 <= i < |s| ==> |s[i].name| >= 2 && s[i].name[0] == initials[i];
    assert s[3].name[1] != s[6].name[1];
  }

  /** Each of the profile's skills is what the lookup finds under its name. */
  lemma ProfileSkillFound(i: nat)
    requires i < |YubiProfile.skills|
    ensures FindSkill(YubiProfile.skills, YubiProfile.skills[i].name) == Some(YubiProfile.skills[i])
  {
    ProfileNamesDistinct();
    FindSkillAt(YubiProfile.skills, i);
  }

  /** Posting 1's required skills are held at levels 4, 4, 4 and 3: 3 of 4 points. */
  lemma Posting1RequiredPoints()
    ensures SkillPoints(YubiProfile.skills, Posting1.requiredSkills) == 3.0
  {
    var s := YubiProfile.skills;
    assert Posting1.requiredSkills == [] + [s[0].name] + [s[1].name] + [s[4].name] + [s[9].name];
    ProfileSkillFound(0);
    ProfileSkillFound(1);
    ProfileSkillFound(4);
    ProfileSkillFound(9);
    SkillPointsSnoc(s, [], s[0].name);
    SkillPointsSnoc(s, [] + [s[0].name], s[1].name);
    SkillPointsSnoc(s, [] + [s[0].name] + [s[1].name], s[4].name);
    SkillPointsSnoc(s, [] + [s[0].name] + [s[1].name] + [s[4].name], s[9].name);
  }

  /** Posting 1's preferred skills are held at levels 2 and 2: 0.8 of 2 points. */
  lemma Posting1PreferredPoints()
    ensures SkillPoints(YubiProfile.skills, Posting1.preferredSkills) == 0.8
  {
    var s := YubiProfile.skills;
    assert Posting1.preferredSkills == [] + [s[8].name] + [s[5].name];
    ProfileSkillFound(8);
    ProfileSkillFound(5);
    SkillPointsSnoc(s, [], s[8].name);
    SkillPointsSnoc(s, [] + [s[8].name], s[5].name);
  }

  /** Both of posting 1's keywords are interests of the profile. */
  lemma Posting1KeywordHits()
    ensures KeywordHits(YubiProfile.interests, Posting1.keywords) == 2
  {
    var interests := YubiProfile.interests;
    assert Posting1.keywords == [] + [interests[0]] + [interests[2]];
    KeywordHitsSnoc(interests, [], interests[0]);
    KeywordHitsSnoc(interests, [] + [interests[0]], interests[2]);
  }

  /** The salary ranges of the profile and of posting 1. */
  lemma Posting1Salary()
    ensures YubiProfile.salaryRange == SalaryRange(3000, 5000)
    ensures Posting1.salary == SalaryRange(3500, 5000)
    ensures Posting1.workType == YubiProfile.preferredWorkType
    ensures SalaryScore(YubiProfile, Posting1) == Some(11.25)
  {
    assert YubiProfile.salaryRange == SalaryRange(3000, 5000);
    assert Posting1.salary == SalaryRange(3500, 5000);
    assert 1500.0 / 2000.0 * 15.0 == 11.25;
  }

  /**
   * Posting 1 against the profile: 30 (required) + 6 (preferred) + 20
   * (keywords) + 10 (work type) + 11.25 (salary) = 77.25, shown as 77.
   */
  lemma Posting1Scores77()
    ensures RequiredSkillScore(YubiProfile, Posting1) == 30.0
    ensures PreferredSkillScore(YubiProfile, Posting1) == 6.0
    ensures InterestScore(YubiProfile, Posting1) == 20.0
    ensures WorkTypeScore(YubiProfile, Posting1) == 10.0
    ensures SalaryScore(YubiProfile, Posting1) == Some(11.25)
    ensures MatchScore(YubiProfile, Posting1) == Num(77)
  {
    Posting1RequiredPoints();
    Posting1PreferredPoints();
    Posting1KeywordHits();
    Posting1Salary();
    var p, j := YubiProfile, Posting1;
    assert RequiredSkillScore(p, j) == 3.0 / 4.0 * 40.0 == 30.0;
    assert PreferredSkillScore(p, j) == 0.8 / 2.0 * 15.0 == 6.0;
    assert InterestScore(p, j) == 2.0 / 2.0 * 20.0 == 20.0;
    assert TotalScore(p, j) == Some(77.25);
    assert Round(77.25 / MaxScore as real * 100.0) == 77;
  }

  /** Against the shipped profile, every posting of the catalog gets a numeric score between 0 and 100. */
  lemma CatalogScoresInRange()
    ensures forall i :: 0 <= i < |JobPostings| ==>
      MatchScore(YubiProfile, JobPostings[i]).Num? && 0 <= MatchScore(YubiProfile, JobPostings[i]).value <= 100
  {
    assert LevelsInScale(YubiProfile.skills);
    assert YubiProfile.salaryRange.min < YubiProfile.salaryRange.max;
    forall i | 0 <= i < |JobPostings|
      ensures MatchScore(YubiProfile, JobPostings[i]).Num? && 0 <= MatchScore(YubiProfile, JobPostings[i]).value <= 100
    {
      assert JobPostings[i].salary.min <= JobPostings[i].salary.max;
      ScoreInRange(YubiProfile, JobPostings[i]);
    }
  }

  /** Every posting date of the catalog is a day that exists, so the 'recent' ordering applies to it. */
  lemma CatalogDatesValid()
    ensures forall i :: 0 <= i < |JobPostings| ==> ValidDate(JobPostings[i].postedDate)
  {
  }
}
