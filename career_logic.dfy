/**
 * The backend's rule-based career recommendation: a priority chain over the
 * request's `interests` and `skills` lists that yields one of four titles.
 */
module CareerLogic {

  const SoftwareDeveloper: string := "Software Developer"
  const Designer: string := "UI/UX Designer"
  const Educator: string := "Educator"
  const GeneralAnalyst: string := "General Analyst"

  /** The request body: each key holds a list of strings; a missing key reads as empty. */
  type Profile = map<string, seq<string>>

  /** `data.get(key, [])` */
  function Get(data: Profile, key: string): seq<string> {
    if key in data then data[key] else []
  }

  /** `get_career_recommendation`: the first matching rule wins. */
  function Recommend(data: Profile): (title: string)
    ensures title in {SoftwareDeveloper, Designer, Educator, GeneralAnalyst}
  {
    var skills := Get(data, "skills");
    var interests := Get(data, "interests");
    var qualification := Get(data, "qualification");
    if "coding" in interests || "programming" in skills then SoftwareDeveloper
    else if "design" in interests then Designer
    else if "teaching" in interests then Educator
    else GeneralAnalyst
  }

  /** The first rule overrides the rest: coding interest or programming skill always gives a developer. */
  lemma DeveloperFirst(data: Profile)
    requires "coding" in Get(data, "interests") || "programming" in Get(data, "skills")
    ensures Recommend(data) == SoftwareDeveloper
  {
  }

  /** Each title, exactly when its rule is the first one to match. */
  lemma RecommendExactly(data: Profile)
    ensures var interests, skills := Get(data, "interests"), Get(data, "skills");
      var developer := "coding" in interests || "programming" in skills;
      && (Recommend(data) == SoftwareDeveloper <==> developer)
      && (Recommend(data) == Designer <==> !developer && "design" in interests)
      && (Recommend(data) == Educator <==> !developer && "design" !in interests && "teaching" in interests)
      && (Recommend(data) == GeneralAnalyst <==>
            !developer && "design" !in interests && "teaching" !in interests)
  {
  }

  /** An empty request falls through every rule. */
  lemma EmptyProfileIsGeneral()
    ensures Recommend(map[]) == GeneralAnalyst
  {
  }

  /** Only the two lists matter: the qualification and every other key are read but never decide. */
  lemma OnlySkillsAndInterestsMatter(a: Profile, b: Profile)
    requires Get(a, "skills") == Get(b, "skills") && Get(a, "interests") == Get(b, "interests")
    ensures Recommend(a) == Recommend(b)
  {
  }

  /** Changing the qualification never changes the title. */
  lemma QualificationIgnored(data: Profile, qualification: seq<string>)
    ensures Recommend(data["qualification" := qualification]) == Recommend(data)
  {
    var d := data["qualification" := qualification];
    assert Get(d, "skills") == Get(data, "skills");
    assert Get(d, "interests") == Get(data, "interests");
    OnlySkillsAndInterestsMatter(d, data);
  }
}
