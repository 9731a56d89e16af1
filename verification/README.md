# CareerMate tools in Dafny

CareerMate is a career-planning assistant. A conversational agent greets the
user and may hand a query to one of three specialist agents, or answer it
itself. Each specialist calls one deterministic tool:

- `get_missing_skills` looks up the skills a role requires and lists those the
  user lacks;
- `find_jobs` returns the job listings whose required skills the user holds,
  optionally narrowed by location;
- `recommend_courses` maps each requested skill to its course catalog entry.

This project models those three tools as pure Dafny functions and proves what
they compute. The module-level tables (`JOB_SKILLS`, `JOB_LISTINGS`, `COURSES`)
become parameters, so every result holds for any table contents.

Modules:

- `Wrappers`: `Option` (Python's `Optional`) and `Result` (a value, or an error
  record with a message).
- `Seqs`: `IsSubsequence`, order-preserving selection.
- `Text`: ASCII lowercasing, Python's substring test `a in b`, and `sep.join`.
- `Records`: the record shapes `SkillGap`, `JobListing`, `CourseRecommendation`,
  and the listing-table row `Listing`.
- `Skills`: comparing required skills against held skills (shared by two tools).
- `SkillGapTool`, `JobFinder`, `CourseRecommender`: one module per tool.

Three details of the code that a reader might not expect, all modelled as written:

- A role that maps to an empty skill list is reported as "no data", the same as
  an unknown role (`if not required_skills`).
- `find_jobs` returns the listing-table rows themselves, with their `skills`
  field. It does not return `JobListing` records with a `requirements` field.
- `recommend_courses` drops a skill whose catalog entry is an empty list, as
  well as a skill that has no entry at all.

## Model

| member | source | states |
|---|---|---|
| `Skills.MissingSkills` | careermate.py:77 | The gap is a subsequence of the required skills, in their order. A skill is in it iff it is required and not held. |
| `Skills.MissingSkillsCounts` | careermate.py:77 | Each unheld required skill occurs in the gap as often as in the requirements, and each held skill does not occur. |
| `Skills.NoGapIffHoldsAll` | careermate.py:77 | The gap is empty iff the user holds every required skill. |
| `Skills.MissingSkillsAntitone` | careermate.py:77 | Holding more skills never widens the gap. The gap for a superset of skills is a subsequence of the gap for the subset. |
| `Skills.SkillMatchIsCaseSensitive` | careermate.py:77 | Skill comparison is exact: holding "python" does not cover a required "Python". |
| `SkillGapTool.GetMissingSkills` | careermate.py:74-82 | It returns the error record iff the lowercased role is absent from the table or maps to an empty list. The error message quotes the caller's role. Otherwise `target_job` is the caller's un-lowercased string. `missing_skills` is the ordered filter of the role's requirements: a subsequence of them that keeps every occurrence of each unheld skill and no held skill. It is empty iff all are held. `explanation` is built from the role and that gap. |
| `SkillGapTool.ExplanationMentionsGap` | careermate.py:81 | The explanation text contains the role and every missing skill. |
| `SkillGapTool.RoleLookupIgnoresCase` | careermate.py:74-80 | Two role spellings that lowercase to the same key both succeed or both fail. When they succeed they give the same missing skills. |
| `JobFinder.FindJobs` | careermate.py:98-104 | The result is a subsequence of the listing table, in table order, and no longer than it. A listing is in it iff it is in the table, all its skills are held, and its location passes the filter. |
| `JobFinder.FindJobsCounts` | careermate.py:99-103 | Each qualifying table row occurs in the result as often as in the table, and every other row does not occur. |
| `JobFinder.QualifiesIffNoGap` | careermate.py:100-101 | The job finder's skill check holds iff the skill-gap computation over the listing's skills is empty. |
| `JobFinder.NoRequirementsAlwaysQualify` | careermate.py:100 | A listing with an empty skill list is returned for every user whenever its location passes. |
| `JobFinder.FindJobsMonotone` | careermate.py:99-103 | If the user's skills grow, every listing returned before is still returned. The earlier result is a subsequence of the later one. |
| `JobFinder.EmptyLocationIsNoFilter` | careermate.py:101 | An empty location string gives the same result as no location. |
| `JobFinder.LocationFilterNarrows` | careermate.py:101-102 | Any location filter gives a subsequence of the unfiltered result. |
| `JobFinder.LocationMatchIsCaseInsensitive` | careermate.py:101 | The location test gives the same answer for filter and listing spellings that differ only in ASCII case. |
| `JobFinder.VerbatimLocationMatches` | careermate.py:101 | A listing whose location contains the filter verbatim always passes the location test. |
| `CourseRecommender.RecommendCourses` | careermate.py:118-126 | There is at most one entry per input skill. Every entry's `courses` is exactly the skill's non-empty catalog value. The entries' skills are a subsequence of the input, in input order. |
| `CourseRecommender.RecommendCoursesCounts` | careermate.py:119-125 | Each skill with a non-empty entry gets as many entries as it has occurrences in the input, so duplicates give duplicate entries. Every other skill gets none. |
| `CourseRecommender.RecommendCoursesAppend` | careermate.py:119-125 | Skills are handled independently: recommending for `a + b` gives the recommendations for `a` followed by those for `b`. |
| `CourseRecommender.RecommendOne` | careermate.py:120-125 | A single skill with a non-empty catalog entry yields exactly that entry. One without an entry, or with an empty one, yields nothing and no error. |
| `Skills.HoldsAll` | careermate.py:100 | The user holds a skill list when every skill in it is a member of the user's list, compared by exact string equality. An empty list is always held. |
| `SkillGapTool.NoDataMessage` | careermate.py:76 | The error text is "No data for job: " followed by the role as the caller wrote it. |
| `SkillGapTool.Explanation` | careermate.py:81 | The explanation is "To become a ", the role, ", you need to learn: ", then the missing skills joined by ", ". |
| `Text.Join` | careermate.py:81 | Joining gives the empty string for no parts and the part itself for one part. Otherwise it gives the parts in order with the separator between neighbours. |
| `Text.IsSubstring` | careermate.py:101 | One string is in another iff it occurs at some offset. The empty string is in every string. |
| `JobFinder.LocationMatches` | careermate.py:101 | An absent or empty location turns the filter off. Otherwise a listing passes iff the lowercased filter is a substring of its lowercased location. |
| `CourseRecommender.HasCourses` | careermate.py:120-121 | A skill has courses iff it is a catalog key whose list is non-empty. |
| `Text.Lower` | careermate.py:74 | Lowercasing keeps the length and maps each character through ASCII lowercasing. |
| `Text.JoinContainsEachPart` | careermate.py:81 | Every part occurs in the comma-joined text. |
| `Text.SubstringLower` | careermate.py:101 | Lowercasing both sides keeps every substring occurrence. |

## Left out

- Environment loading and the missing-configuration `ValueError` (careermate.py:10-17): process configuration, not tool logic.
- The OpenAI client, the tracing switch, the specialist and controller agents and their handoffs (careermate.py:19-21, 130-178): the language model chooses the specialist, so there is no deterministic routing code to model.
- The `main` loop and console output, including its `isinstance` dispatch (careermate.py:181-224): I/O and presentation.
- Pydantic validation of the agents' structured outputs: library behaviour. `Records.JobListing` is declared for completeness, but no code builds it, because the language model fills it.
- The contents of the hard-coded tables (careermate.py:40-58): they are parameters of every function.
- Text.Lower: models ASCII lowercasing only, where Python's `str.lower` applies full Unicode case mapping.
- Text.SubstringLower: holds only under the ASCII, character-by-character lowering. Python's `str.lower` depends on context: `"ΑΣ".lower()` is `"ας"` but `"Σ".lower()` is `"σ"`, so an occurrence need not survive lowercasing.
- JobFinder.VerbatimLocationMatches: holds only under the ASCII lowering. With Python's `str.lower`, `find_jobs(location="Σ")` drops a listing located at "ΑΣ", although that location contains the filter verbatim.
- The error result of `get_missing_skills` is a Python dict with one `"error"` key. Here it is `Result.Err` carrying the same message.
