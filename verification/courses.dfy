/** The course-recommendation tool `recommend_courses`. */
module CourseRecommender {
  import opened Seqs
  import opened Records

  /** `COURSES.get(skill)` is truthy: the skill has a non-empty catalog entry. */
  predicate HasCourses(catalog: map<string, seq<string>>, skill: string) {
    skill in catalog && catalog[skill] != []
  }

  /** The skills named by a list of recommendations, in order. */
  function SkillsOf(recs: seq<CourseRecommendation>): (skills: seq<string>)
    ensures |skills| == |recs|
    ensures forall k :: 0 <= k < |recs| ==> skills[k] == recs[k].skill
  {
    if recs == [] then [] else [recs[0].skill] + SkillsOf(recs[1..])
  }

  /** `recommend_courses(missing_skills)` against the course catalog `catalog`. */
  function RecommendCourses(catalog: map<string, seq<string>>, skills: seq<string>): (recs: seq<CourseRecommendation>)
    ensures |recs| <= |skills|
    ensures forall k :: 0 <= k < |recs| ==>
              HasCourses(catalog, recs[k].skill) && recs[k].courses == catalog[recs[k].skill]
    ensures IsSubsequence(SkillsOf(recs), skills)
  {
    if skills == [] then []
    else
      assert skills == [skills[0]] + skills[1..];
      var rest := RecommendCourses(catalog, skills[1..]);
      if HasCourses(catalog, skills[0]) then
        var recs := [CourseRecommendation(skills[0], catalog[skills[0]])] + rest;
        assert SkillsOf(recs) == [skills[0]] + SkillsOf(rest);
        recs
      else rest
  }

  /** Each skill with courses gets one entry per occurrence in the input, so
      duplicates give duplicate entries; every other skill gets none. */
  lemma {:induction false} RecommendCoursesCounts(catalog: map<string, seq<string>>, skills: seq<string>)
    ensures forall s :: multiset(SkillsOf(RecommendCourses(catalog, skills)))[s]
                        == if HasCourses(catalog, s) then multiset(skills)[s] else 0
  {
    if skills != [] {
      assert skills == [skills[0]] + skills[1..];
      RecommendCoursesCounts(catalog, skills[1..]);
      var rest := RecommendCourses(catalog, skills[1..]);
      if HasCourses(catalog, skills[0]) {
        var recs := [CourseRecommendation(skills[0], catalog[skills[0]])] + rest;
        assert SkillsOf(recs) == [skills[0]] + SkillsOf(rest);
      }
    }
  }

  /** Skills are handled one at a time and independently: recommending for
      a concatenation concatenates the recommendations. */
  lemma {:induction false} RecommendCoursesAppend(catalog: map<string, seq<string>>, first: seq<string>, second: seq<string>)
    ensures RecommendCourses(catalog, first + second)
            == RecommendCourses(catalog, first) + RecommendCourses(catalog, second)
  {
    if first == [] {
      assert first + second == second;
    } else {
      var both := first + second;
      assert both[0] == first[0] && both[1..] == first[1..] + second;
      RecommendCoursesAppend(catalog, first[1..], second);
      var tail := RecommendCourses(catalog, first[1..]);
      var later := RecommendCourses(catalog, second);
      if HasCourses(catalog, first[0]) {
        var head := CourseRecommendation(first[0], catalog[first[0]]);
        calc {
          RecommendCourses(catalog, both);
          [head] + RecommendCourses(catalog, first[1..] + second);
          [head] + (tail + later);
          ([head] + tail) + later;
          RecommendCourses(catalog, first) + later;
        }
      } else {
        calc {
          RecommendCourses(catalog, both);
          RecommendCourses(catalog, first[1..] + second);
          tail + later;
          RecommendCourses(catalog, first) + later;
        }
      }
    }
  }

  /** A skill with a catalog entry yields exactly one recommendation per
      occurrence; a skill without one yields nothing and no error. */
  lemma RecommendOne(catalog: map<string, seq<string>>, skill: string)
    ensures HasCourses(catalog, skill) ==>
              RecommendCourses(catalog, [skill]) == [CourseRecommendation(skill, catalog[skill])]
    ensures !HasCourses(catalog, skill) ==> RecommendCourses(catalog, [skill]) == []
  {
    assert [skill][1..] == [];
  }
}
