/** The weighted total score of a candidate: four category scores, each
    multiplied by the weight its profile gives the category. The sum is
    exact over the reals; the final `round(..., 2)` is not modelled. */
module Scoring {
  import opened Values

  /** The four category weights of a profile. */
  datatype Weights = Weights(skills: real, experience: real, education: real, certifications: real)

  /** The four category scores of a candidate. */
  datatype Scores = Scores(skills: real, experience: real, education: real, certifications: real)

  /** No category counts against the total. */
  predicate NonNegative(w: Weights)
  {
    w.skills >= 0.0 && w.experience >= 0.0 && w.education >= 0.0 && w.certifications >= 0.0
  }

  /** Non-negative weights that sum to one. */
  predicate Normalised(w: Weights)
  {
    NonNegative(w) && w.skills + w.experience + w.education + w.certifications == 1.0
  }

  /** Every profile of a table is normalised, and the default one exists. */
  predicate UsableProfiles(profiles: map<string, Weights>)
  {
    SeniorEngineer in profiles && forall k :: k in profiles ==> Normalised(profiles[k])
  }

  const SeniorEngineer: string := "senior_engineer"
  const MidProfessional: string := "mid_professional"
  const Fresher: string := "fresher"

  /** `WEIGHT_PROFILES`: three profiles, each normalised. */
  function WeightProfiles(): (p: map<string, Weights>)
    ensures p.Keys == {SeniorEngineer, MidProfessional, Fresher}
    ensures forall k :: k in p ==> Normalised(p[k])
    ensures p[SeniorEngineer].experience > p[MidProfessional].experience > p[Fresher].experience
  {
    map[SeniorEngineer := Weights(0.30, 0.50, 0.10, 0.10),
        MidProfessional := Weights(0.30, 0.40, 0.20, 0.10),
        Fresher := Weights(0.30, 0.20, 0.30, 0.20)]
  }

  /** A value as a factor of `score * weight`: numbers as they are, booleans
      as 1 and 0; anything else raises a TypeError. */
  function ScoreValue(v: Value): Option<real>
  {
    match v
    case Num(n) => Some(n)
    case Bool(b) => Some(if b then 1.0 else 0.0)
    case _ => None
  }

  /** `candidate.get(key, 0)` as a factor. */
  function CategoryScore(candidate: Record, key: string): Option<real>
  {
    ScoreValue(Get(candidate, key, Num(0.0)))
  }

  /** The profile type the candidate names, "senior_engineer" when absent. */
  function ProfileType(candidate: Record): Value
  {
    Get(candidate, "profile_type", Str(SeniorEngineer))
  }

  /** `weight_profiles.get(profile_type, weight_profiles["senior_engineer"])`:
      the default is evaluated first, so a table without a senior profile
      raises a KeyError; an unhashable profile type raises a TypeError; any
      profile type that is not a key of the table gets the senior weights. */
  function SelectWeights(candidate: Record, profiles: map<string, Weights>): (r: Result<Weights, string>)
    ensures r.Ok? <==> SeniorEngineer in profiles && Hashable(ProfileType(candidate))
    ensures r.Ok? ==>
      var t := ProfileType(candidate);
      r.value == if t.Str? && t.s in profiles then profiles[t.s] else profiles[SeniorEngineer]
  {
    if SeniorEngineer !in profiles then Err("KeyError: 'senior_engineer'")
    else
      var t := ProfileType(candidate);
      if !Hashable(t) then Err("TypeError: unhashable type")
      else if t.Str? && t.s in profiles then Ok(profiles[t.s])
      else Ok(profiles[SeniorEngineer])
  }

  /** The weighted sum of four scores. */
  function Weighted(s: Scores, w: Weights): real
  {
    s.skills * w.skills + s.experience * w.experience + s.education * w.education
    + s.certifications * w.certifications
  }

  const SkillsKey: string := "skills_score"
  const ExperienceKey: string := "experience_score"
  const EducationKey: string := "education_score"
  const CertificationsKey: string := "certifications_score"

  /** `calculate_total_score` before rounding. It fails exactly when the
      weights cannot be chosen or a category score is not a number, and
      otherwise is the weighted sum of the candidate's four scores. */
  function CalculateTotalScore(candidate: Record, profiles: map<string, Weights>): (r: Result<real, string>)
    ensures r.Ok? <==>
      && SelectWeights(candidate, profiles).Ok?
      && CategoryScore(candidate, SkillsKey).Some? && CategoryScore(candidate, ExperienceKey).Some?
      && CategoryScore(candidate, EducationKey).Some? && CategoryScore(candidate, CertificationsKey).Some?
    ensures r.Ok? ==> r.value == Weighted(
      Scores(CategoryScore(candidate, SkillsKey).value, CategoryScore(candidate, ExperienceKey).value,
             CategoryScore(candidate, EducationKey).value, CategoryScore(candidate, CertificationsKey).value),
      SelectWeights(candidate, profiles).value)
  {
    match SelectWeights(candidate, profiles)
    case Err(e) => Err(e)
    case Ok(w) =>
      match (CategoryScore(candidate, SkillsKey), CategoryScore(candidate, ExperienceKey),
             CategoryScore(candidate, EducationKey), CategoryScore(candidate, CertificationsKey))
      case (Some(sk), Some(ex), Some(ed), Some(ce)) =>
        Ok(sk * w.skills + ex * w.experience + ed * w.education + ce * w.certifications)
      case _ => Err("TypeError: unsupported operand type(s) for *")
  }

  /** A missing `profile_type` and a profile type the table does not know
      both give the senior-engineer weights. */
  lemma UnknownProfileIsSenior(candidate: Record, profiles: map<string, Weights>)
    requires SeniorEngineer in profiles
    requires "profile_type" !in candidate
      || (Hashable(candidate["profile_type"])
          && !(candidate["profile_type"].Str? && candidate["profile_type"].s in profiles))
    ensures SelectWeights(candidate, profiles) == Ok(profiles[SeniorEngineer])
  {
  }

  const MidLevelLabel: string := "mid-level professional"

  /** The label the scoring prompt asks for, "mid-level professional", is
      not a key of the table, so such candidates are scored with the
      senior-engineer weights rather than the mid-professional ones. */
  lemma MidLevelLabelGetsSeniorWeights(candidate: Record)
    requires "profile_type" in candidate && candidate["profile_type"] == Str(MidLevelLabel)
    ensures SelectWeights(candidate, WeightProfiles()) == Ok(WeightProfiles()[SeniorEngineer])
    ensures SelectWeights(candidate, WeightProfiles()).value != WeightProfiles()[MidProfessional]
  {
    assert MidLevelLabel !in WeightProfiles();
  }

  /** A category the candidate does not mention scores as an explicit 0. */
  lemma MissingScoreCountsAsZero(candidate: Record, key: string, profiles: map<string, Weights>)
    requires key in {SkillsKey, ExperienceKey, EducationKey, CertificationsKey}
    requires key !in candidate
    ensures CalculateTotalScore(candidate, profiles) == CalculateTotalScore(candidate[key := Num(0.0)], profiles)
  {
    var c0 := candidate[key := Num(0.0)];
    assert ProfileType(c0) == ProfileType(candidate);
    forall k | k in {SkillsKey, ExperienceKey, EducationKey, CertificationsKey}
      ensures CategoryScore(c0, k) == CategoryScore(candidate, k)
    {
    }
  }

  /** Multiplying by a non-negative weight keeps the order of scores. */
  lemma MulLe(a: real, b: real, c: real)
    requires a <= b && 0.0 <= c
    ensures a * c <= b * c
  {
    assert b * c - a * c == (b - a) * c;
  }

  /** With non-negative weights, the weighted sum is monotone in each
      score. */
  lemma WeightedMonotone(s1: Scores, s2: Scores, w: Weights)
    requires NonNegative(w)
    requires s1.skills <= s2.skills && s1.experience <= s2.experience
    requires s1.education <= s2.education && s1.certifications <= s2.certifications
    ensures Weighted(s1, w) <= Weighted(s2, w)
  {
    MulLe(s1.skills, s2.skills, w.skills);
    MulLe(s1.experience, s2.experience, w.experience);
    MulLe(s1.education, s2.education, w.education);
    MulLe(s1.certifications, s2.certifications, w.certifications);
  }

  /** With weights that are non-negative and sum to one, scores in
      [0, 100] give a total in [0, 100]: the total lies between the totals
      of the all-0 and the all-100 scores. */
  lemma WeightedInRange(s: Scores, w: Weights)
    requires Normalised(w)
    requires 0.0 <= s.skills <= 100.0 && 0.0 <= s.experience <= 100.0
    requires 0.0 <= s.education <= 100.0 && 0.0 <= s.certifications <= 100.0
    ensures 0.0 <= Weighted(s, w) <= 100.0
  {
    var low := Scores(0.0, 0.0, 0.0, 0.0);
    var high := Scores(100.0, 100.0, 100.0, 100.0);
    WeightedMonotone(low, s, w);
    WeightedMonotone(s, high, w);
    assert Weighted(low, w) == 0.0;
    assert Weighted(high, w) == 100.0 * (w.skills + w.experience + w.education + w.certifications);
  }

  /** A category score that is present and numeric lies in [0, 100]. */
  predicate InRange(candidate: Record, key: string)
  {
    var v := CategoryScore(candidate, key);
    v.Some? && 0.0 <= v.value <= 100.0
  }

  /** The scores of a candidate whose total can be computed. */
  function CandidateScores(candidate: Record): Scores
    requires CategoryScore(candidate, SkillsKey).Some? && CategoryScore(candidate, ExperienceKey).Some?
    requires CategoryScore(candidate, EducationKey).Some? && CategoryScore(candidate, CertificationsKey).Some?
  {
    Scores(CategoryScore(candidate, SkillsKey).value, CategoryScore(candidate, ExperienceKey).value,
           CategoryScore(candidate, EducationKey).value, CategoryScore(candidate, CertificationsKey).value)
  }

  /** With a table of normalised profiles, such as the built-in one, a
      candidate whose four scores lie in [0, 100] gets a total in
      [0, 100]. */
  lemma TotalInRange(candidate: Record, profiles: map<string, Weights>)
    requires UsableProfiles(profiles)
    requires Hashable(ProfileType(candidate))
    requires InRange(candidate, SkillsKey) && InRange(candidate, ExperienceKey)
    requires InRange(candidate, EducationKey) && InRange(candidate, CertificationsKey)
    ensures CalculateTotalScore(candidate, profiles).Ok?
    ensures 0.0 <= CalculateTotalScore(candidate, profiles).value <= 100.0
  {
    var w := SelectWeights(candidate, profiles).value;
    WeightedInRange(CandidateScores(candidate), w);
  }

  /** With a table of normalised profiles, raising one category score never
      lowers the total. */
  lemma TotalMonotone(candidate: Record, key: string, higher: real, profiles: map<string, Weights>)
    requires UsableProfiles(profiles)
    requires key in {SkillsKey, ExperienceKey, EducationKey, CertificationsKey}
    requires CalculateTotalScore(candidate, profiles).Ok?
    requires CategoryScore(candidate, key).value <= higher
    ensures CalculateTotalScore(candidate[key := Num(higher)], profiles).Ok?
    ensures CalculateTotalScore(candidate, profiles).value
            <= CalculateTotalScore(candidate[key := Num(higher)], profiles).value
  {
    var c2 := candidate[key := Num(higher)];
    SameWeights(candidate, key, higher, profiles);
    var w := SelectWeights(candidate, profiles).value;
    RaisedScores(candidate, key, higher);
    WeightedMonotone(CandidateScores(candidate), CandidateScores(c2), w);
  }

  /** Changing a category score does not change the profile chosen. */
  lemma SameWeights(candidate: Record, key: string, higher: real, profiles: map<string, Weights>)
    requires key in {SkillsKey, ExperienceKey, EducationKey, CertificationsKey}
    ensures SelectWeights(candidate[key := Num(higher)], profiles) == SelectWeights(candidate, profiles)
  {
    assert ProfileType(candidate[key := Num(higher)]) == ProfileType(candidate);
  }
  /** Raising one category score raises that score only. */
  lemma RaisedScores(candidate: Record, key: string, higher: real)
    requires key in {SkillsKey, ExperienceKey, EducationKey, CertificationsKey}
    requires CategoryScore(candidate, SkillsKey).Some? && CategoryScore(candidate, ExperienceKey).Some?
    requires CategoryScore(candidate, EducationKey).Some? && CategoryScore(candidate, CertificationsKey).Some?
    requires CategoryScore(candidate, key).value <= higher
    ensures var c2 := candidate[key := Num(higher)];
      && CategoryScore(c2, SkillsKey).Some? && CategoryScore(c2, ExperienceKey).Some?
      && CategoryScore(c2, EducationKey).Some? && CategoryScore(c2, CertificationsKey).Some?
      && var s1 := CandidateScores(candidate); var s2 := CandidateScores(c2);
      && s1.skills <= s2.skills && s1.experience <= s2.experience
      && s1.education <= s2.education && s1.certifications <= s2.certifications
  {
  }
}
