# AI job matching for a career-portal landing page, in Dafny

The site scores a fixed candidate profile against a small catalog of AI job postings. The model covers:

- **The score.** `calculateMatchScore` adds five weighted sub-scores out of 100:
  - required skills, 40;
  - preferred skills, 15;
  - keywords against interests, 20;
  - work type, 10;
  - salary-range overlap, 15.

  It then rounds the share of 100.
- **The ranking.** `runJobMatching` scores every posting and sorts the list in place by score, by salary ceiling or by posting date, largest first. It then counts the postings that score at least 60.
- **The card badge.** The grade of a job card uses the thresholds 80, 60 and 40.
- **The contact form.** The validator runs four checks in order and reports the first one that fails.
- **The hero statistics.** A figure such as `5,000+` is split into a number and a suffix before its counter animation.

## How the model is laid out

| file | module | what it holds |
|---|---|---|
| `wrappers.dfy` | `Wrappers` | `Option` |
| `job_data.dfy` | `JobData` | The records, as datatypes: skill, salary range, date, candidate profile, job posting, score, match result. It also holds the work-type strings and a calendar key for dates. |
| `scoring.dfy` | `Scoring` | `calculateMatchScore` as the imperative method `CalculateMatchScore`. Its three counting loops are the methods `MatchedSkillPoints` and `MatchedKeywords`. Each method is proved equal to a specification function: `MatchScore`, `SkillPoints` or `KeywordHits`. The file also holds the lemmas about those functions. |
| `ranking.dfy` | `Ranking` | `runJobMatching` as the method `RunJobMatching`. It fills a fresh array and sorts it in place with `SortResults` and `InsertInPlace`. Stable insertion sort is the order `Array.prototype.sort` guarantees. The method is proved equal to `Rank`, which is built on the functional `StableSort`. The lemmas prove that the sort is a permutation, that it is ordered and that it is stable. |
| `job_card.dfy` | `JobCard` | The grade thresholds of `createJobCard`. |
| `form_validation.dfy` | `FormValidation` | `validateForm`, the two regular expressions, `trim` and UTF-16 `length`. |
| `stat_text.dfy` | `StatText` | The stat-text split. |
| `catalog.dfy` | `Catalog` | The profile and the ten postings as constants, plus the worked score of posting 1. |

Modelling decisions:

- **Exact reals.** Scores are computed on exact reals. `Math.round(x)` is `Floor(x + 0.5)`, which rounds ties upward as JavaScript does.
- **NaN scores.** When the profile's salary range is a single point and the posting's range reaches it, the source computes `0 / 0`. NaN then propagates through `Math.round`, so the score is `Score.NaN` (see `ScoreIsNaNIff`).
  - The source comments promise a score in 0..100. `ScoreInRange` proves this holds for skill levels on the 1..5 scale, a proper profile range and an ordered job range.
  - `CatalogScoresInRange` proves it for the shipped data.
- **Order of postings.** The in-place sort compares keys with the same sign as the source's comparators:
  - the score;
  - `salary.max`;
  - a calendar key in place of `new Date(b) - new Date(a)`.
- **Unicode.** `\s` and `trim` remove the ECMAScript white-space and line-terminator characters. `.length` counts UTF-16 code units.
- **Empty lists.** `maxScore` always adds all five weights, so an empty skill or keyword list contributes 0 out of its full weight. `ScoreIsRoundedTotal` proves the denominator is always 100, and `EmptyListsScoreAtMost25` gives the consequence.
- **The phone pattern.** `/^[0-9-+() ]{8,}$/` accepts eight blanks. The model keeps this as written (`PhoneRegexAdmitsBlanks`).

## Model

| member | source | states |
|---|---|---|
| JobData.DateKey | script.js:880 | The calendar key standing in for `new Date(postedDate)`. `DateKeyOrder` states its meaning. |
| JobData.DaysInMonth | script.js:880 | The length of each Gregorian month, 28 to 31 days. It has 29 days exactly in February of a leap year. `ValidDate` uses it to admit only days that exist, as `new Date` parses them. |
| JobData.DateKeyOrder | script.js:879-881 | For valid dates, the date key is smaller exactly when the date is earlier in the calendar, and equal exactly when the dates are the same. `Before` is (year, month, day) order, which is calendar order on days that exist, and `ValidDate` admits only those. So sorting by the key orders by `postedDate`. |
| Scoring.SkillCredit | script.js:650-656 | What one listed skill adds: the profile's `level / 5` when it holds the skill, else 0. `SkillCreditBounds` states its range. |
| Scoring.SkillPoints | script.js:647-657 | The skill accumulator over a whole list. `SkillPointsSnoc`, `SkillPointsBounds`, `SkillPointsAllTopLevel` and `SkillPointsNoneHeld` state its properties, and `MatchedSkillPoints` computes it with the source's loop. |
| Scoring.KeywordHits | script.js:687-692 | The keyword counter. `KeywordHitsSnoc`, `KeywordHitsBounds`, `KeywordHitsAll` and `KeywordHitsNone` state its properties, and `MatchedKeywords` computes it with the source's loop. |
| Scoring.Share | script.js:660-662 | A list's contribution, `matched / count * weight`, or 0 for an empty list. `ShareBounds` and `ShareOfAll` state its properties. |
| Scoring.RequiredSkillScore | script.js:642-662 | The required-skill sub-score, weight 40. `ListSubScoreBounds` states its range. |
| Scoring.PreferredSkillScore | script.js:664-680 | The preferred-skill sub-score, weight 15. `ListSubScoreBounds` states its range. |
| Scoring.InterestScore | script.js:682-696 | The keyword sub-score, weight 20. `ListSubScoreBounds` states its range. |
| Scoring.WorkTypeScore | script.js:698-708 | The work-type sub-score: 10 for the same type, 5 for a remote job or a profile preferring hybrid, else 0. `WorkTypeScoreZeroIff` states when each value occurs. |
| Scoring.SalaryOverlaps | script.js:715-717 | The overlap test of the two salary ranges. `SalaryScoreBounds` uses it. |
| Scoring.SalaryScore | script.js:710-726 | The salary sub-score, or None where `overlapRange / totalRange` is `0 / 0`. `SalaryScoreBounds`, `SalaryFullCover` and `ScoreIsNaNIff` state its properties. |
| Scoring.TotalScore | script.js:638-726 | `totalScore`, the sum of the five sub-scores, or None when the salary share is NaN. `ScoreIsRoundedTotal` relates it to the score. |
| Scoring.MatchScore | script.js:636-731 | The score, the value `CalculateMatchScore` is proved to return. `ScoreIsNaNIff`, `ScoreInRange`, `PerfectPostingScores100`, `HopelessPostingScoresZero` and `EmptyListsScoreAtMost25` state its properties. |
| Scoring.Round | script.js:729 | `Math.round` returns the integer nearest its argument, with halves going up: `n - 0.5 <= x < n + 0.5`. |
| Scoring.FindSkill | script.js:650-652 | `profile.skills.find` by exact name. The result is None exactly when no skill has that name. Otherwise it is a skill with that name, and no earlier skill has that name. |
| Scoring.FindSkillAt | script.js:650-652 | When no earlier skill shares its name, the lookup by a skill's name returns that very skill. |
| Scoring.SkillPointsSnoc | script.js:648-657 | One more skill name adds `level / 5` when the profile holds that skill, and 0 otherwise. |
| Scoring.KeywordHitsSnoc | script.js:688-692 | One more keyword adds 1 exactly when it is among the interests. |
| Scoring.MatchedSkillPoints | script.js:647-676 | The skill loop, used for both the required and the preferred list, ends with `SkillPoints` of the whole list. |
| Scoring.MatchedKeywords | script.js:687-692 | The keyword loop ends with `KeywordHits` of the whole list. |
| Scoring.CalculateMatchScore | script.js:636-731 | The imperative scorer returns `MatchScore(profile, job)`: the rounded percentage of the five weighted sub-scores, or NaN when the salary share is `0 / 0`. |
| Scoring.SkillCreditBounds | script.js:653-656 | For levels on the 1..5 scale, a listed skill earns between 0 and 1, and at least 1/5 when the profile holds it. It earns 0 exactly when the profile has no skill of that name. |
| Scoring.SkillPointsBounds | script.js:647-657 | The skill accumulator lies between 0 and the number of listed skills. |
| Scoring.KeywordHitsBounds | script.js:687-692 | The keyword counter is at most the number of keywords. |
| Scoring.ShareBounds | script.js:660-662 | `matched / count * weight`, guarded against an empty list, lies in 0..weight when `matched` lies in 0..count. |
| Scoring.ShareOfAll | script.js:660-662 | A list matched in full earns exactly its weight. |
| Scoring.ListSubScoreBounds | script.js:642-708 | The required, preferred, keyword and work-type sub-scores each stay within 0 and their weight (40, 15, 20, 10). |
| Scoring.SalaryScoreBounds | script.js:714-726 | With a proper profile range and an ordered job range, the salary sub-score is a number in 0..15. It is 0 when the ranges do not overlap. |
| Scoring.SalaryFullCover | script.js:719-726 | A job range that covers the whole profile range earns the full 15. |
| Scoring.ScoreIsNaNIff | script.js:719-729 | The score is NaN exactly when the profile's range is a single point and the job's range reaches it. |
| Scoring.ScoreIsRoundedTotal | script.js:643-729 | `maxScore` always sums to 100. So the score is the rounded total of the sub-scores. |
| Scoring.ScoreInRange | script.js:635-731 | The promised 0..100. For levels on the 1..5 scale, a proper profile range and an ordered job range, the score is a number between 0 and 100. |
| Scoring.WorkTypeScoreZeroIff | script.js:698-708 | Work type earns 0 exactly when none of the three conditions holds: the types differ, the job is not remote, and the profile does not prefer hybrid. It earns the full 10 exactly when the types are equal. It earns 5 exactly when the types differ and the job is remote or the profile prefers hybrid. |
| Scoring.SkillPointsAllTopLevel | script.js:647-662 | When every listed skill is held at level 5, the accumulator equals the number of skills. |
| Scoring.SkillPointsNoneHeld | script.js:647-662 | When no listed skill is held, the accumulator is 0. |
| Scoring.KeywordHitsAll | script.js:687-696 | When every keyword is an interest, the counter equals the number of keywords. |
| Scoring.KeywordHitsNone | script.js:687-696 | When no keyword is an interest, the counter is 0. |
| Scoring.PerfectPostingScores100 | script.js:636-731 | A posting the profile meets in full scores exactly 100. That means every skill held at level 5, every keyword an interest, the same work type and the same salary range, with non-empty lists. |
| Scoring.FullMarks | script.js:728-730 | Sub-scores of 40, 15, 20, 10 and 15 round to a score of 100. |
| Scoring.HopelessPostingScoresZero | script.js:636-731 | A posting with nothing in common with the profile scores exactly 0: no skill held, no keyword shared, no work-type credit and disjoint salaries. |
| Scoring.EmptyListsScoreAtMost25 | script.js:642-696 | A posting whose three lists are empty is scored on work type and salary alone. The score is a number of at most 25. |
| JobCard.GradeOf | script.js:789-801 | The grade of a score by the thresholds 80, 60 and 40. A NaN score fails every `>=` test and is graded low. `GradeBands` and `GradeMonotone` state its meaning. |
| JobCard.Label | script.js:789-801 | The grade's badge text. `BadgesDistinct` states that the four differ. |
| JobCard.ColorClass | script.js:789-801 | The grade's style class. `BadgesDistinct` states that the four differ. |
| JobCard.GradeBands | script.js:787-801 | Each grade covers exactly one band: 최적 for 80 and up, 우수 for 60..79, 보통 for 40..59, 낮음 below 40. |
| JobCard.GradeMonotone | script.js:789-801 | A higher score never gets a lower grade. |
| JobCard.BadgesDistinct | script.js:789-801 | The four grades have four different labels and four different style classes. |
| Ranking.FieldFor | script.js:871-882 | The key the `sortBy` chain selects: score, `salary.max` or posting date, or none for any other `sortBy`. `RankOtherKeyIsCatalogOrder` states the last case. |
| Ranking.Key | script.js:873-880 | The number each comparator subtracts. `RankByMatchOrdered`, `RankBySalaryOrdered` and `RankByRecentOrdered` state what ordering by it means. |
| Ranking.Insert | script.js:871-882 | One step of the stable insertion sort. `InsertPermutation`, `InsertSorted`, `InsertWithKey` and `InsertAt` state its properties. |
| Ranking.StableSort | script.js:871-882 | The stable sort, largest key first, that `SortResults` is proved to perform. `StableSortPermutation`, `StableSortSorted` and `StableSortWithKey` state its properties. |
| Ranking.Rank | script.js:859-882 | The displayed order, the value `RunJobMatching` is proved to return. The `Rank...` lemmas state its properties. |
| Ranking.IsHighMatch | script.js:888 | `r.score >= 60`. A NaN score is not a high match. `HighMatchIffTopGrades` states its meaning. |
| Ranking.HighMatchCount | script.js:888 | `results.filter(r => r.score >= 60).length`. The `HighMatchCount...` lemmas state its properties. |
| Ranking.InsertPermutation | script.js:871-882 | Inserting into the sorted prefix adds exactly the inserted result to the multiset. |
| Ranking.InsertKeysAtLeast | script.js:871-882 | Inserting keeps any lower bound on the keys that the prefix and the new element share. |
| Ranking.InsertSorted | script.js:871-882 | Inserting into a list sorted with the largest key first keeps it sorted. |
| Ranking.StableSortPermutation | script.js:871-882 | Sorting is a permutation of its input. |
| Ranking.StableSortSorted | script.js:871-882 | Sorting yields keys that never increase from left to right. |
| Ranking.WithKeyAppend | script.js:871-882 | The results with a given key, taken from a concatenation, are those from each part in turn. |
| Ranking.InsertWithKey | script.js:871-882 | Inserting appends the new element after every equal-keyed result already in the prefix. |
| Ranking.StableSortWithKey | script.js:871-882 | The sort is stable: for every key value, the results with that key keep their input order. |
| Ranking.SortResults | script.js:871-882 | The in-place sort leaves `StableSort` of the old array contents in the array. |
| Ranking.InsertInPlace | script.js:871-882 | The inner loop moves `a[i]` left past every smaller key. The array then holds `Insert` of the prefix, then the untouched rest. |
| Ranking.InsertAt | script.js:871-882 | Insert places the new element right after the last element whose key is at least its own. |
| Ranking.CatalogResults | script.js:861-868 | One `{job, score}` per posting, in catalog order, each scored by `MatchScore`. |
| Ranking.RunJobMatching | script.js:859-888 | The imperative run returns `Rank(profile, jobs, sortBy)` and the number of its results that score at least 60. |
| Ranking.ScoresAreNumbers | script.js:861-868 | When the profile's salary range is not a single point, every posting's score is a number. |
| Ranking.RankIsPermutation | script.js:861-882 | Every ordering is a permutation of the catalog results, one result per posting. Each result carries its own posting's score. |
| Ranking.RankOtherKeyIsCatalogOrder | script.js:871-882 | A `sortBy` other than 'match', 'salary' and 'recent' leaves catalog order. |
| Ranking.RankByMatchOrdered | script.js:871-873 | 'match' lists numeric scores in non-increasing order. |
| Ranking.RankBySalaryOrdered | script.js:874-876 | 'salary' lists `salary.max` in non-increasing order. |
| Ranking.RankByRecentOrdered | script.js:877-881 | 'recent' never lists a posting before one with a later posting date. |
| Ranking.RankIsStable | script.js:871-882 | Under each of the three sorts, postings with equal keys stay in catalog order. |
| Ranking.HighMatchCountAppend | script.js:888 | The high-match count of a concatenation is the sum of the counts of its parts. |
| Ranking.InsertHighMatchCount | script.js:888 | Inserting a result adds its own share to the high-match count. |
| Ranking.StableSortHighMatchCount | script.js:888 | Sorting by any key leaves the high-match count unchanged. |
| Ranking.HighMatchCountBound | script.js:888 | The count is at most the number of results. |
| Ranking.HighMatchCountIgnoresSortKey | script.js:888 | The summary's count is the same whichever sort was chosen, and is at most the number of postings. |
| Ranking.HighMatchIffTopGrades | script.js:888 | A result counts as a high match exactly when its card shows 최적 or 우수. |
| FormValidation.IsJsWhitespace | script.js:156-176 | The characters `\s` and `trim()` treat as white space: ECMAScript's WhiteSpace and LineTerminator. |
| FormValidation.TrimStart | script.js:156 | The leading half of `trim()`. `TrimStartDrops` states what it removes. |
| FormValidation.TrimEnd | script.js:156 | The trailing half of `trim()`. `TrimEndDrops` states what it removes. |
| FormValidation.Trim | script.js:156 | `trim()`. `TrimEnds` and `TrimBlank` state its properties. |
| FormValidation.Utf16Length | script.js:156 | `.length`, in UTF-16 code units. `Utf16LengthBounds` and `NameLengthCountsCodeUnits` state its properties. |
| FormValidation.EmailPart | script.js:162 | A slice matching `[^\s@]+`. `EmailPartSlice` states its meaning. |
| FormValidation.MatchesEmailRegex | script.js:162-163 | `emailRegex.test`, as a split into three such parts around one `@` and a `.`. `EmailRegexMeaning` states the shape it accepts. |
| FormValidation.IsPhoneChar | script.js:169 | The class `[0-9-+() ]`. |
| FormValidation.MatchesPhoneRegex | script.js:169-170 | `phoneRegex.test`: at least eight characters of that class. `PhoneRegexAdmitsBlanks` states examples. |
| FormValidation.Passes | script.js:156-176 | Whether the form data passes one of the four checks. |
| FormValidation.Order | script.js:154-182 | The position of each check in the source's sequence. |
| FormValidation.ErrorMessage | script.js:157-177 | The toast text shown for each failed check. |
| FormValidation.ValidateForm | script.js:154-182 | `validateForm`, with the first failed check as its error. `ValidIffAllPass`, `ReportsFirstFailure`, `BlankNameRejected` and `CourseNotChecked` state its meaning. |
| FormValidation.TrimStartDrops | script.js:156 | Trimming the front removes exactly a leading run of white space. What is left does not start with white space. |
| FormValidation.TrimEndDrops | script.js:156 | Trimming the back removes exactly a trailing run of white space. What is left does not end with white space. |
| FormValidation.TrimEnds | script.js:156 | `trim()` never lengthens a string. A non-empty result starts and ends with a character that is not white space. |
| FormValidation.TrimBlank | script.js:156 | A string of white space alone trims to the empty string. |
| FormValidation.BlankNameRejected | script.js:156-159 | A name made only of white space is rejected with the name error. |
| FormValidation.Utf16LengthBounds | script.js:156 | `.length` counts one or two code units per character. It equals the number of characters when every character is in the Basic Multilingual Plane. |
| FormValidation.NameLengthCountsCodeUnits | script.js:156 | One emoji already has length 2, so after trimming it passes the name check. |
| FormValidation.EmailPartSlice | script.js:162 | A slice matches `[^\s@]+` exactly when it is non-empty and holds neither white space nor `@`. |
| FormValidation.EmailRegexSound | script.js:162-163 | A string the email regex accepts has no white space and exactly one `@`, not at the start. It also has a `.` after the `@` with at least one character on each side. |
| FormValidation.EmailRegexComplete | script.js:162-163 | Every string of that shape is accepted by the email regex. |
| FormValidation.EmailRegexMeaning | script.js:162-166 | The email regex accepts exactly the strings of that shape (both directions). |
| FormValidation.PhoneRegexAdmitsBlanks | script.js:169-170 | The phone pattern checks the alphabet and the length only. It accepts eight blanks and a dashed number, but rejects seven characters. |
| FormValidation.ValidIffAllPass | script.js:154-182 | The form is accepted exactly when all four checks pass. |
| FormValidation.ReportsFirstFailure | script.js:154-182 | A rejection names check `e` exactly when `e` fails and every earlier check passes. The order is name, email, phone, message. |
| FormValidation.CourseNotChecked | script.js:154-182 | The selected course never affects the outcome. |
| StatText.SplitStat | script.js:415-422 | What the counter does with a statistic's text: the number read from its digits and the suffix, or nothing when `parseInt` gives NaN. `AnimatedIffDigit`, `SplitPartitions` and the examples state its properties. |
| StatText.DecimalValue | script.js:419 | `parseInt` of a string of decimal digits, most significant first. The examples fix its values. |
| StatText.CommaCount | script.js:420 | The commas the suffix filter drops. `SplitPartitions` states its role. |
| StatText.IsAsciiDigit | script.js:419-420 | The class `[0-9]` of the two `replace` patterns. |
| StatText.KeepDigits | script.js:419 | `replace(/[^0-9]/g, '')` leaves only ASCII digits and never lengthens the text. |
| StatText.StripDigitsAndCommas | script.js:420 | `replace(/[0-9,]/g, '')` leaves no digit and no comma, and never lengthens the text. |
| StatText.KeepDigitsFilters | script.js:419 | The digit filter maps a concatenation to the concatenation of the filtered parts. A single character is kept exactly when it is a digit. So the result is the text's digits, in order. |
| StatText.StripDigitsAndCommasFilters | script.js:420 | The suffix filter maps a concatenation to the concatenation of the filtered parts. A single character is kept exactly when it is neither a digit nor a comma. So the result is the text's other characters, in order. |
| StatText.SplitPartitions | script.js:419-420 | As multisets, the text is its digits, plus its suffix, plus as many commas as it holds. So the lengths add up too. |
| StatText.KeepDigitsEmptyIff | script.js:419 | Nothing is left after dropping non-digits exactly when the text has no digit. |
| StatText.AnimatedIffDigit | script.js:419-422 | A statistic is animated (`parseInt` is not NaN) exactly when its text holds a digit. |
| StatText.SplitThousands | script.js:418-420 | `5,000+` splits into 5000 and `+`. |
| StatText.SplitPercent | script.js:419-420 | `98%` splits into 98 and `%`. |
| StatText.SplitJoinsDigits | script.js:419-420 | Digits on both sides of a separator run together: `24/7` gives 247 and `/`. |
| StatText.SplitWithoutDigits | script.js:419-422 | `N/A` has no digit and is not animated. The general fact is `AnimatedIffDigit`. |
| Catalog.YubiProfile | script.js:445-473 | The `yubiProfile` constant: name, ten skills with their levels, interests, preferred work type, salary range and the fields scoring ignores. `ProfileNamesDistinct` and `ProfileSkillFound` state facts about it. |
| Catalog.JobPostings | script.js:477-628 | The `jobPostings` constant: the ten postings `Posting1` to `Posting10`, in source order. `CatalogScoresInRange` and the posting-1 lemmas state facts about them. |
| Catalog.CatalogDatesValid | script.js:477-628 | Every shipped `postedDate` is a day that exists, so `RankByRecentOrdered` covers the shipped catalog. |
| Catalog.ProfileNamesDistinct | script.js:449-460 | No two of the profile's skills share a name. |
| Catalog.ProfileSkillFound | script.js:449-460 | Looking up any of the profile's skills by name finds that skill. |
| Catalog.Posting1RequiredPoints | script.js:487 | Posting 1's required skills are held at levels 4, 4, 4 and 3, for 3 points out of 4. |
| Catalog.Posting1PreferredPoints | script.js:488 | Posting 1's preferred skills are held at levels 2 and 2, for 0.8 points out of 2. |
| Catalog.Posting1KeywordHits | script.js:489 | Both of posting 1's keywords are interests of the profile. |
| Catalog.Posting1Salary | script.js:484 | For the ranges 3500..5000 against 3000..5000, the salary sub-score is 11.25, and the work types are equal. |
| Catalog.Posting1Scores77 | script.js:478-492 | Posting 1 scores 30 + 6 + 20 + 10 + 11.25 = 77.25, shown as 77. |
| Catalog.CatalogScoresInRange | script.js:477-628 | Against the shipped profile, every posting gets a numeric score between 0 and 100. |

## Left out

- **Rendering.** The DOM, the result cards' HTML, `toLocaleString` and the summary markup are not modelled, and neither are toasts, timers, `animateCounter`, the IntersectionObserver and event wiring. The model keeps only the values they are computed from.
- **The `resultsContainer` guard.** In the source, `highMatchCount` is computed only when the container exists. `RunJobMatching` always returns it.
- **Dates.** `new Date(string)` parsing is not modelled. Dates are `Date(year, month, day)` and are compared through `DateKey`, which orders valid dates as the calendar does. `ValidDate` admits only days that exist, counting leap years.
- **Floating point.** IEEE-754 doubles are not modelled: scores are exact reals. The two can differ only where a double rounding error moves a value across a `.5` rounding boundary.
- **Sorting NaN scores.** When `sortBy` is 'match', `RunJobMatching` and `RankByMatchOrdered` require every posting's score to be a number. With a NaN score, the source's comparator returns NaN for that pair, so it is not a consistent comparator, and the order `Array.prototype.sort` then produces is implementation-defined. `ScoresAreNumbers` shows that a profile salary range which is not a single point meets the requirement. `Ranking.Key` uses 0 for NaN only so that the key is total.
- **`parseInt` limits.** `StatText.SplitStat` reads the digits as an unbounded natural number. The limits of `parseInt` and of double precision on very long digit strings are not modelled.
- **Number text.** The number shown during the animation and the `toLocaleString` formatting of the final value are not modelled.
- **Unused scoring inputs.** Scoring ignores a profile's `personality`, `experienceLevel` and `preferredLocation` and a posting's `location`, `experienceLevel`, `description` and `deadline`, as the source does. The records keep them: the text fields as strings, `personality` as a list of strings and `deadline` as a `Date`.
- **The catalog's other postings.** Only posting 1's score is worked out as a lemma. For the other nine postings, the model proves that the score lies in 0..100, not its exact value.
