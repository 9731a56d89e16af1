/** The job-matching tool `find_jobs`. */
module JobFinder {
  import opened Wrappers
  import opened Seqs
  import opened Text
  import opened Records
  import opened Skills

  /** The optional location filter: absent or empty means no filtering;
      otherwise the lowercased filter must occur in the lowercased listing
      location. */
  predicate LocationMatches(location: Option<string>, jobLocation: string) {
    match location
    case None => true
    case Some(wanted) => wanted == "" || IsSubstring(Lower(wanted), Lower(jobLocation))
  }

  /** A listing is returned when the user holds all its skills and its
      location passes the filter. */
  predicate Qualifies(job: Listing, userSkills: seq<string>, location: Option<string>) {
    HoldsAll(job.skills, userSkills) && LocationMatches(location, job.location)
  }

  /** `find_jobs(user_skills, location)` over the listing table `listings`. */
  function FindJobs(listings: seq<Listing>, userSkills: seq<string>, location: Option<string>): (matches: seq<Listing>)
    ensures |matches| <= |listings|
    ensures IsSubsequence(matches, listings)
    ensures forall job :: job in matches <==> job in listings && Qualifies(job, userSkills, location)
  {
    if listings == [] then []
    else
      assert listings == [listings[0]] + listings[1..];
      if Qualifies(listings[0], userSkills, location) then [listings[0]] + FindJobs(listings[1..], userSkills, location)
      else FindJobs(listings[1..], userSkills, location)
  }

  /** Every occurrence of a qualifying row is kept and every other row is
      dropped, so duplicated table rows are returned as often as they appear. */
  lemma {:induction false} FindJobsCounts(listings: seq<Listing>, userSkills: seq<string>, location: Option<string>)
    ensures forall job :: multiset(FindJobs(listings, userSkills, location))[job]
                          == if Qualifies(job, userSkills, location) then multiset(listings)[job] else 0
  {
    if listings != [] {
      assert listings == [listings[0]] + listings[1..];
      FindJobsCounts(listings[1..], userSkills, location);
    }
  }

  /** The skill check agrees with the skill-gap tool: a listing's skills are
      all held exactly when the gap for them is empty. */
  lemma QualifiesIffNoGap(job: Listing, userSkills: seq<string>, location: Option<string>)
    ensures Qualifies(job, userSkills, location)
            <==> MissingSkills(job.skills, userSkills) == [] && LocationMatches(location, job.location)
  {
    NoGapIffHoldsAll(job.skills, userSkills);
  }

  /** A listing that requires no skills passes the skill check for every user. */
  lemma NoRequirementsAlwaysQualify(listings: seq<Listing>, userSkills: seq<string>, location: Option<string>, job: Listing)
    requires job in listings && job.skills == [] && LocationMatches(location, job.location)
    ensures job in FindJobs(listings, userSkills, location)
  {
  }

  /** Monotonicity: a user with more skills sees every listing a user with
      fewer skills sees, in the same order. */
  lemma {:induction false} FindJobsMonotone(listings: seq<Listing>, userSkills: seq<string>, more: seq<string>, location: Option<string>)
    requires forall s :: s in userSkills ==> s in more
    ensures IsSubsequence(FindJobs(listings, userSkills, location), FindJobs(listings, more, location))
    ensures forall job :: job in FindJobs(listings, userSkills, location) ==> job in FindJobs(listings, more, location)
  {
    if listings != [] {
      var job := listings[0];
      var rest := listings[1..];
      FindJobsMonotone(rest, userSkills, more, location);
      var few := FindJobs(rest, userSkills, location);
      var many := FindJobs(rest, more, location);
      if Qualifies(job, userSkills, location) {
        assert Qualifies(job, more, location);
        SubsequenceCons(job, few, many);
      } else if Qualifies(job, more, location) {
        SubsequenceSkip(job, few, many);
      }
      SubsequenceMembers(FindJobs(listings, userSkills, location), FindJobs(listings, more, location));
    }
  }

  /** An absent and an empty location filter both mean "no filtering". */
  lemma {:induction false} EmptyLocationIsNoFilter(listings: seq<Listing>, userSkills: seq<string>)
    ensures FindJobs(listings, userSkills, Some("")) == FindJobs(listings, userSkills, None)
  {
    if listings != [] {
      EmptyLocationIsNoFilter(listings[1..], userSkills);
    }
  }

  /** A location filter only narrows the result: filtered matches are a
      subsequence of the unfiltered ones. */
  lemma {:induction false} LocationFilterNarrows(listings: seq<Listing>, userSkills: seq<string>, location: Option<string>)
    ensures IsSubsequence(FindJobs(listings, userSkills, location), FindJobs(listings, userSkills, None))
  {
    if listings != [] {
      var job := listings[0];
      var rest := listings[1..];
      LocationFilterNarrows(rest, userSkills, location);
      var filtered := FindJobs(rest, userSkills, location);
      var all := FindJobs(rest, userSkills, None);
      if Qualifies(job, userSkills, location) {
        SubsequenceCons(job, filtered, all);
      } else if Qualifies(job, userSkills, None) {
        SubsequenceSkip(job, filtered, all);
      }
    }
  }

  /** The location filter ignores ASCII case in both the filter and the
      listing location. */
  lemma LocationMatchIsCaseInsensitive(wanted: string, other: string, jobLocation: string, otherJobLocation: string)
    requires Lower(wanted) == Lower(other) && Lower(jobLocation) == Lower(otherJobLocation)
    ensures LocationMatches(Some(wanted), jobLocation) <==> LocationMatches(Some(other), otherJobLocation)
  {
  }

  /** A listing whose location contains the filter verbatim always passes. */
  lemma VerbatimLocationMatches(wanted: string, jobLocation: string)
    requires IsSubstring(wanted, jobLocation)
    ensures LocationMatches(Some(wanted), jobLocation)
  {
    SubstringLower(wanted, jobLocation);
  }
}
