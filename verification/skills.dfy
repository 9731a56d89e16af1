/** Comparing a list of required skills against the skills a user holds.
    Skills are compared by exact string equality, so case matters. */
module Skills {
  import opened Seqs

  /** Python's `all(skill in user for skill in required)`. */
  predicate HoldsAll(required: seq<string>, user: seq<string>) {
    forall s :: s in required ==> s in user
  }

  /** `[skill for skill in required if skill not in user]`. */
  function MissingSkills(required: seq<string>, user: seq<string>): (missing: seq<string>)
    ensures IsSubsequence(missing, required)
    ensures forall s :: s in missing <==> s in required && s !in user
  {
    if required == [] then []
    else
      assert required == [required[0]] + required[1..];
      if required[0] in user then MissingSkills(required[1..], user)
      else [required[0]] + MissingSkills(required[1..], user)
  }

  /** The gap keeps every occurrence of each unheld required skill and no
      occurrence of a held one. */
  lemma {:induction false} MissingSkillsCounts(required: seq<string>, user: seq<string>)
    ensures forall s :: multiset(MissingSkills(required, user))[s] == if s in user then 0 else multiset(required)[s]
  {
    if required != [] {
      assert required == [required[0]] + required[1..];
      MissingSkillsCounts(required[1..], user);
    }
  }

  /** There is no gap exactly when the user holds every required skill. */
  lemma NoGapIffHoldsAll(required: seq<string>, user: seq<string>)
    ensures MissingSkills(required, user) == [] <==> HoldsAll(required, user)
  {
  }

  /** Learning more skills never widens the gap: the gap for a larger skill
      set is a subsequence of the gap for a smaller one. */
  lemma {:induction false} MissingSkillsAntitone(required: seq<string>, user: seq<string>, more: seq<string>)
    requires forall s :: s in user ==> s in more
    ensures IsSubsequence(MissingSkills(required, more), MissingSkills(required, user))
  {
    if required != [] {
      var rest := required[1..];
      MissingSkillsAntitone(rest, user, more);
      var r0 := required[0];
      if r0 !in user {
        if r0 in more {
          SubsequenceSkip(r0, MissingSkills(rest, more), MissingSkills(rest, user));
        } else {
          SubsequenceCons(r0, MissingSkills(rest, more), MissingSkills(rest, user));
        }
      }
    }
  }

  /** Skill membership is case-sensitive: "python" does not cover "Python". */
  lemma SkillMatchIsCaseSensitive()
    ensures MissingSkills(["Python"], ["python"]) == ["Python"]
  {
    assert "Python" != "python" by {
      assert "Python"[0] != "python"[0];
    }
  }
}
