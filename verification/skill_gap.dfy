/** The skill-gap tool `get_missing_skills`. */
module SkillGapTool {
  import opened Wrappers
  import opened Seqs
  import opened Text
  import opened Records
  import opened Skills

  /** Error message for a role with no data; it quotes the caller's spelling. */
  function NoDataMessage(targetJob: string): string {
    "No data for job: " + targetJob
  }

  /** "To become a <job>, you need to learn: <skills joined by ', '>". */
  function Explanation(targetJob: string, missing: seq<string>): string {
    "To become a " + targetJob + ", you need to learn: " + Join(", ", missing)
  }

  /** The explanation names the role and every missing skill. */
  lemma ExplanationMentionsGap(targetJob: string, missing: seq<string>)
    ensures IsSubstring(targetJob, Explanation(targetJob, missing))
    ensures forall s :: s in missing ==> IsSubstring(s, Explanation(targetJob, missing))
  {
    var e := Explanation(targetJob, missing);
    var tail := ", you need to learn: " + Join(", ", missing);
    SubstringSelf(targetJob);
    SubstringWiden(targetJob, "To become a ", targetJob, tail);
    assert "To become a " + targetJob + tail == e;
    var joined := Join(", ", missing);
    JoinContainsEachPart(", ", missing);
    forall s | s in missing
      ensures IsSubstring(s, e)
    {
      var k :| 0 <= k < |missing| && missing[k] == s;
      SubstringWiden(s, "To become a " + targetJob + ", you need to learn: ", joined, "");
      assert "To become a " + targetJob + ", you need to learn: " + joined + "" == e;
    }
  }

  /** `get_missing_skills(user_skills, target_job)` against the role table
      `jobSkills`, keyed by lowercase role name. */
  function GetMissingSkills(jobSkills: map<string, seq<string>>, userSkills: seq<string>, targetJob: string): (r: Result<SkillGap>)
    ensures r.Err? <==> Lower(targetJob) !in jobSkills || jobSkills[Lower(targetJob)] == []
    ensures r.Err? ==> r.message == NoDataMessage(targetJob)
    ensures r.Ok? ==> r.value.targetJob == targetJob
    ensures r.Ok? ==>
              var required := jobSkills[Lower(targetJob)];
              && IsSubsequence(r.value.missingSkills, required)
              && (forall s :: s in r.value.missingSkills <==> s in required && s !in userSkills)
              && (forall s :: multiset(r.value.missingSkills)[s] == if s in userSkills then 0 else multiset(required)[s])
              && (r.value.missingSkills == [] <==> HoldsAll(required, userSkills))
    ensures r.Ok? ==> r.value.explanation == Explanation(targetJob, r.value.missingSkills)
  {
    var key := Lower(targetJob);
    if key !in jobSkills || jobSkills[key] == [] then
      Err(NoDataMessage(targetJob))
    else
      var missing := MissingSkills(jobSkills[key], userSkills);
      NoGapIffHoldsAll(jobSkills[key], userSkills);
      MissingSkillsCounts(jobSkills[key], userSkills);
      Ok(SkillGap(targetJob, missing, Explanation(targetJob, missing)))
  }

  /** The role lookup ignores ASCII case; the reported role keeps the caller's
      spelling. */
  lemma RoleLookupIgnoresCase(jobSkills: map<string, seq<string>>, userSkills: seq<string>, job1: string, job2: string)
    requires Lower(job1) == Lower(job2)
    ensures GetMissingSkills(jobSkills, userSkills, job1).Ok? <==> GetMissingSkills(jobSkills, userSkills, job2).Ok?
    ensures GetMissingSkills(jobSkills, userSkills, job1).Ok? ==>
              GetMissingSkills(jobSkills, userSkills, job1).value.missingSkills
              == GetMissingSkills(jobSkills, userSkills, job2).value.missingSkills
  {
  }
}
