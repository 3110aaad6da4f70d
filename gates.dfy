/** The two gates every recommended scheme must pass (app.py:170-195): the
    mandatory eligibility gate `passes_core_filters`, the category gate
    `allowed_category`, and the tier matches built on them. */
module Gates {
  import opened Strings
  import opened Schemes
  import opened Rules

  /** `passes_core_filters` (app.py:170-179): the state clause, then the age
      window, then education, then gender; the first failing clause rejects. */
  predicate PassesCoreFilters(row: Scheme, u: Profile) {
    if !IsCentral(row.state) && !Contains(Norm(row.state), Norm(u.state)) then false
    else if !(row.minAge <= u.age <= row.maxAge) then false
    else if !EduOk(u.education, row.minEducation) then false
    else if !GenderOk(row.gender, u.gender) then false
    else true
  }

  /** `allowed_category` (app.py:182-191): a health scheme needs a
      "Pregnant Women" or "Senior Citizen" tag, an agriculture scheme needs a
      "Farmer" tag, and a scheme named for another state is refused. */
  predicate AllowedCategory(row: Scheme, u: Profile) {
    if IsHealthScheme(row) && "Pregnant Women" !in u.tags && "Senior Citizen" !in u.tags then false
    else if IsAgriScheme(row) && "Farmer" !in u.tags then false
    else if IsOtherStateSpecific(row, u) then false
    else true
  }

  /** `strong_match` (app.py:194). */
  predicate StrongMatch(row: Scheme, u: Profile) {
    TagHit(row, u)
  }

  /** `mild_match` (app.py:195). */
  predicate MildMatch(row: Scheme, u: Profile) {
    TagHit(row, u) || GenderOk(row.gender, u.gender)
  }

  // ---- properties of the gates ----

  /** The eligibility gate is the conjunction of its four clauses, with the
      gender clause spelled out: open gender ("" or "any") or the user's own,
      ignoring case. Clause order does not matter. */
  lemma CoreFiltersMeaning(row: Scheme, u: Profile)
    ensures PassesCoreFilters(row, u) <==>
              && (IsCentral(row.state) || Contains(Norm(row.state), Norm(u.state)))
              && row.minAge <= u.age <= row.maxAge
              && EduOk(u.education, row.minEducation)
              && (Norm(row.gender) in {"", "any"} || Norm(row.gender) == Norm(u.gender))
  {
  }

  /** An empty user state satisfies the state clause for every scheme. */
  lemma EmptyUserStateMatchesAnyState(row: Scheme, u: Profile)
    requires Norm(u.state) == ""
    ensures IsCentral(row.state) || Contains(Norm(row.state), Norm(u.state))
  {
    ContainsEmpty(Norm(row.state));
  }

  /** The age window is inclusive at both ends: with the other clauses
      holding, ages `minAge` and `maxAge` pass and the ages just outside fail. */
  lemma AgeWindowInclusive(row: Scheme, u: Profile)
    requires IsCentral(row.state) || Contains(Norm(row.state), Norm(u.state))
    requires EduOk(u.education, row.minEducation) && GenderOk(row.gender, u.gender)
    requires row.minAge <= row.maxAge
    ensures PassesCoreFilters(row, u.(age := row.minAge))
    ensures PassesCoreFilters(row, u.(age := row.maxAge))
    ensures !PassesCoreFilters(row, u.(age := row.minAge - 1))
    ensures !PassesCoreFilters(row, u.(age := row.maxAge + 1))
  {
  }

  /** Nothing enforces `minAge <= maxAge`; a record whose range is inverted
      rejects every applicant. */
  lemma InvertedAgeRangeRejectsAll(row: Scheme, u: Profile)
    requires row.minAge > row.maxAge
    ensures !PassesCoreFilters(row, u)
  {
  }

  /** Every eligible scheme is gender-compatible, so `mild_match` holds of
      every eligible scheme: the mild tier adds nothing to eligibility. */
  lemma EligibleIsMildMatch(row: Scheme, u: Profile)
    requires PassesCoreFilters(row, u)
    ensures MildMatch(row, u)
    ensures GenderOk(row.gender, u.gender)
  {
  }

  /** A record requiring "any" education, as every record whose education
      was left empty does after normalising, rejects an applicant who gives
      no education. */
  lemma NoEducationFailsAnyRequirement(row: Scheme, u: Profile)
    requires row.minEducation == "any" && u.education == ""
    ensures !PassesCoreFilters(row, u)
  {
    EduAnyOnlyAny(u.education);
    EmptyNorm();
  }

  /** The category gate is the conjunction of three independent conditions. */
  lemma AllowedCategoryMeaning(row: Scheme, u: Profile)
    ensures AllowedCategory(row, u) <==>
              && (!IsHealthScheme(row) || "Pregnant Women" in u.tags || "Senior Citizen" in u.tags)
              && (!IsAgriScheme(row) || "Farmer" in u.tags)
              && !IsOtherStateSpecific(row, u)
  {
  }
}

/** The scorer (app.py:198-204), in tenths of a point. */
module Scorer {
  import opened Schemes
  import opened Rules
  import opened Gates

  /** `score_row`: 3 points for gender compatibility, 3 for nationwide
      scope, 2 for a tag hit, plus the link's trust score; `netloc` stands for
      `urlparse(link).netloc`. */
  function ScoreRow(row: Scheme, u: Profile, netloc: string -> string): (r: nat)
    ensures 3 <= r <= 100
  {
    (if GenderOk(row.gender, u.gender) then 30 else 0)
    + (if IsCentral(row.state) then 30 else 0)
    + (if TagHit(row, u) then 20 else 0)
    + LinkScore(netloc(row.applicationLink))
  }

  /** An eligible scheme is gender-compatible, so it scores at least 3.3. */
  lemma EligibleScoreFloor(row: Scheme, u: Profile, netloc: string -> string)
    requires PassesCoreFilters(row, u)
    ensures ScoreRow(row, u, netloc) >= 33
  {
  }

  /** A score of 8.0 or more is reached only by a scheme that is both
      gender-compatible and nationwide, since without either the most it can
      reach is 7.0. */
  lemma HighScoreNeedsGenderAndCentral(row: Scheme, u: Profile, netloc: string -> string)
    requires ScoreRow(row, u, netloc) >= 80
    ensures GenderOk(row.gender, u.gender) && IsCentral(row.state)
  {
  }

  /** The top score 10.0 is reached exactly when all four parts are at
      their maximum. */
  lemma TopScore(row: Scheme, u: Profile, netloc: string -> string)
    ensures ScoreRow(row, u, netloc) == 100 <==>
              GenderOk(row.gender, u.gender) && IsCentral(row.state) && TagHit(row, u)
              && LinkScore(netloc(row.applicationLink)) == 20
  {
  }
}
