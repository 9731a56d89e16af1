/** The record shapes the tools read and produce. */
module Records {

  /** Result of the skill-gap tool: the role as the caller wrote it, the
      required skills the caller lacks, and a one-line explanation. */
  datatype SkillGap = SkillGap(targetJob: string, missingSkills: seq<string>, explanation: string)

  /** Structured output shape of the job-finder specialist. The language model
      fills it from the tool's listings; no deterministic code builds it. */
  datatype JobListing = JobListing(title: string, company: string, location: string, requirements: seq<string>)

  /** One catalog entry returned by the course recommender. */
  datatype CourseRecommendation = CourseRecommendation(skill: string, courses: seq<string>)

  /** One row of the job listing table; the job finder returns these rows
      themselves, with their `skills` list. */
  datatype Listing = Listing(title: string, company: string, location: string, skills: seq<string>)
}
