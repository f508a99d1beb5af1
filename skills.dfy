/** The skill matcher of app.py: a fixed vocabulary tested by plain substring containment
    against the lowercased text. */
module Skills {
  import opened Text

  /** The skill vocabulary, in the order the source lists it. */
  const SKILLS: seq<string> := [
    "python", "java", "c", "c++", "sql", "mysql", "mongodb",
    "machine learning", "deep learning", "artificial intelligence",
    "nlp", "data science", "data analysis",
    "tensorflow", "pytorch", "scikit-learn",
    "pandas", "numpy", "matplotlib",
    "git", "github", "docker", "aws", "azure",
    "html", "css", "javascript", "react", "node.js",
    "flask", "django"
  ]

  /** The vocabulary as a set. */
  function Vocabulary(): set<string> {
    set s | s in SKILLS
  }

  /** The specification of `extract_skills`: the vocabulary entries occurring in the lowercased text. */
  function SkillsOf(text: string): (found: set<string>)
    ensures found <= Vocabulary()
  {
    set s | s in SKILLS && IsSubstring(s, Lower(text))
  }

  /** `extract_skills`: lowercases once, then adds every vocabulary entry found in the text. */
  method ExtractSkills(text: string) returns (found: set<string>)
    ensures found == SkillsOf(text)
    ensures forall s :: s in found <==> s in SKILLS && IsSubstring(s, Lower(text))
  {
    var lowered := Lower(text);
    found := {};
    for i := 0 to |SKILLS|
      invariant found == set j | 0 <= j < i && IsSubstring(SKILLS[j], lowered) :: SKILLS[j]
    {
      if IsSubstring(SKILLS[i], lowered) {
        found := found + {SKILLS[i]};
      }
    }
  }

  /** Every vocabulary entry is written in lower case. */
  lemma VocabularyIsLowercase()
    ensures forall s :: s in SKILLS ==> Lower(s) == s
  {
    assert forall i :: 0 <= i < |SKILLS| ==> forall j :: 0 <= j < |SKILLS[i]| ==> !IsUpper(SKILLS[i][j]);
    forall s | s in SKILLS ensures Lower(s) == s {
      LowerOfLowercase(s);
    }
  }

  /** Matching ignores case: two texts with the same lower-case form have the same skills,
      and so a text and its lower-case form have the same skills. */
  lemma SkillsIgnoreCase(t: string, u: string)
    requires Lower(t) == Lower(u)
    ensures SkillsOf(t) == SkillsOf(u)
  {
  }

  lemma SkillsOfLower(t: string)
    ensures SkillsOf(Lower(t)) == SkillsOf(t)
  {
    LowerIdempotent(t);
    SkillsIgnoreCase(Lower(t), t);
  }

  /** Every skill is found in a text that contains it, in any letter case and whatever
      surrounds it. */
  lemma SkillFoundInContext(skill: string, before: string, word: string, after: string)
    requires skill in SKILLS && Lower(word) == skill
    ensures skill in SkillsOf(before + word + after)
  {
    LowerAppend(before + word, after);
    LowerAppend(before, word);
    assert IsPrefix(skill, skill);
    SubstringOfAppend(skill, skill, Lower(before), Lower(after));
  }

  /** A skill written in the vocabulary's own spelling is found. */
  lemma SkillFoundVerbatim(skill: string, before: string, after: string)
    requires skill in SKILLS
    ensures skill in SkillsOf(before + skill + after)
  {
    VocabularyIsLowercase();
    SkillFoundInContext(skill, before, skill, after);
  }

  /** Substring matching finds skills inside unrelated words: any text containing
      "experience" is credited with the skill "c". */
  lemma ExperienceMatchesC(before: string, after: string)
    ensures "c" in SkillsOf(before + "experience" + after)
  {
    assert "experience" == "experien" + "c" + "e";
    SkillFoundInContext("c", before + "experien", "c", "e" + after);
    assert before + "experien" + "c" + ("e" + after) == before + "experience" + after;
  }

  /** Extending a text never loses a skill, whether the extension comes before or after it. */
  lemma SkillsMonotone(before: string, t: string, after: string)
    ensures SkillsOf(t) <= SkillsOf(before + t + after)
  {
    LowerAppend(before + t, after);
    LowerAppend(before, t);
    forall s | s in SkillsOf(t) ensures s in SkillsOf(before + t + after) {
      SubstringOfAppend(s, Lower(t), Lower(before), Lower(after));
    }
  }

  /** A vocabulary entry contained in another is found whenever the other is found. */
  lemma ContainedSkillFollows(inner: string, outer: string, t: string)
    requires inner in SKILLS && IsSubstring(inner, outer)
    requires outer in SkillsOf(t)
    ensures inner in SkillsOf(t)
  {
    SubstringTransitive(inner, outer, Lower(t));
  }

  // Consequences of substring matching over this vocabulary: an entry found inside
  // another entry comes along with it.

  lemma CppImpliesC(t: string)
    ensures "c++" in SkillsOf(t) ==> "c" in SkillsOf(t)
  {
    if "c++" in SkillsOf(t) {
      assert IsPrefix("c", "c++");
      ContainedSkillFollows("c", "c++", t);
    }
  }

  lemma MysqlImpliesSql(t: string)
    ensures "mysql" in SkillsOf(t) ==> "sql" in SkillsOf(t)
  {
    if "mysql" in SkillsOf(t) {
      assert IsPrefix("sql", "mysql"[2..]);
      ContainedSkillFollows("sql", "mysql", t);
    }
  }

  lemma GithubImpliesGit(t: string)
    ensures "github" in SkillsOf(t) ==> "git" in SkillsOf(t)
  {
    if "github" in SkillsOf(t) {
      assert IsPrefix("git", "github");
      ContainedSkillFollows("git", "github", t);
    }
  }

  lemma JavascriptImpliesJava(t: string)
    ensures "javascript" in SkillsOf(t) ==> "java" in SkillsOf(t)
  {
    if "javascript" in SkillsOf(t) {
      assert IsPrefix("java", "javascript");
      ContainedSkillFollows("java", "javascript", t);
    }
  }
}
