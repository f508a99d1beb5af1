/** Report assembly in app.py: matched and missing skills as set algebra, and the
    three-way suggestion tier chosen from the score. */
module Report {

  /** The suggestion shown for a score. */
  datatype Tier = Low | Medium | High

  /** The report of one scan. The score is the rounded similarity percentage. */
  datatype ScanResult = ScanResult(score: real, matched: set<string>, missing: set<string>, tier: Tier)

  /** The `if`/`elif`/`else` suggestion selection. Each tier covers exactly its band of
      scores: LOW below 60, MEDIUM from 60 up to but not including 80, HIGH from 80 on. */
  function TierOf(score: real): (t: Tier)
    ensures t == Low <==> score < 60.0
    ensures t == Medium <==> 60.0 <= score < 80.0
    ensures t == High <==> 80.0 <= score
  {
    if score < 60.0 then Low
    else if score < 80.0 then Medium
    else High
  }

  /** Position of a tier in the order LOW < MEDIUM < HIGH. */
  function Rank(t: Tier): nat {
    match t
    case Low => 0
    case Medium => 1
    case High => 2
  }

  /** A higher score never gets a lower tier. */
  lemma TierMonotone(a: real, b: real)
    requires a <= b
    ensures Rank(TierOf(a)) <= Rank(TierOf(b))
  {
  }

  /** The boundary cases: 59.99 is LOW, 60.00 and 79.99 are MEDIUM, 80.00 is HIGH. */
  lemma TierBoundaries()
    ensures TierOf(59.99) == Low
    ensures TierOf(60.00) == Medium
    ensures TierOf(79.99) == Medium
    ensures TierOf(80.00) == High
  {
  }

  /** Skills the resume shares with the job description. */
  function Matched(resumeSkills: set<string>, jdSkills: set<string>): (matched: set<string>)
    ensures matched <= resumeSkills && matched <= jdSkills
    ensures forall s :: s in resumeSkills && s in jdSkills ==> s in matched
  {
    resumeSkills * jdSkills
  }

  /** Skills the job description asks for that the resume lacks. */
  function Missing(resumeSkills: set<string>, jdSkills: set<string>): (missing: set<string>)
    ensures missing <= jdSkills && missing !! resumeSkills
    ensures forall s :: s in jdSkills && s !in resumeSkills ==> s in missing
  {
    jdSkills - resumeSkills
  }

  /** Matched and missing split the job description's skills into two disjoint parts,
      and nothing missing appears in the resume. */
  lemma MatchedMissingPartition(resumeSkills: set<string>, jdSkills: set<string>)
    ensures Matched(resumeSkills, jdSkills) + Missing(resumeSkills, jdSkills) == jdSkills
    ensures Matched(resumeSkills, jdSkills) * Missing(resumeSkills, jdSkills) == {}
    ensures Missing(resumeSkills, jdSkills) * resumeSkills == {}
    ensures Matched(resumeSkills, jdSkills) <= resumeSkills
  {
  }

  /** Puts a report together from the score and the two skill sets. */
  function Assemble(score: real, resumeSkills: set<string>, jdSkills: set<string>): (r: ScanResult)
    ensures r.score == score
    ensures r.matched + r.missing == jdSkills && r.matched * r.missing == {}
    ensures r.matched <= resumeSkills && r.missing * resumeSkills == {}
    ensures r.tier == Low <==> score < 60.0
    ensures r.tier == Medium <==> 60.0 <= score < 80.0
    ensures r.tier == High <==> 80.0 <= score
  {
    ScanResult(score, Matched(resumeSkills, jdSkills), Missing(resumeSkills, jdSkills), TierOf(score))
  }
}
