/** The predicate library of the recommender (app.py:71-167): the fixed
    tables, the state-scope, education and gender tests, the link-trust
    heuristic, the two text forms of a record, the health, agriculture and
    other-state classifiers and the tag match. */
module Rules {
  import opened Strings
  import opened Schemes

  /** Education levels, lowest first; a level's rank is its index, so "any"
      ranks 6, above "phd" (app.py:71-72). */
  const EDU_ORDER: seq<string> :=
    ["class 8", "class 10", "class 12", "graduate", "postgraduate", "phd", "any"]

  /** The keywords each profile tag looks for (app.py:74-81). */
  const TAG_KEYWORDS: map<string, seq<string>> := map[
    "Student" := ["student", "scholar", "nsp", "inspire", "school", "college"],
    "Unemployed" := ["unemployed", "rojgar", "ncs", "employment"],
    "Youth" := ["youth", "skill", "pmkvy", "apprentice", "internship"],
    "Women" := ["women", "woman", "mahila", "beti", "kanya", "ladli", "girl"],
    "Entrepreneur" := ["startup", "entrepreneur", "mudra", "pmegp", "odop", "udyam", "pm-fme", "msme"],
    "Farmer" := ["farmer", "kisan", "agri", "agriculture", "crop", "horticulture", "irrigation", "dairy", "bamboo", "rythu"]
  ]

  /** The 34 state and territory names searched for in scheme names (app.py:83-90). */
  const INDIAN_STATES: seq<string> := [
    "andhra pradesh", "arunachal pradesh", "assam", "bihar", "chhattisgarh", "goa",
    "gujarat", "haryana", "himachal pradesh", "jharkhand", "karnataka", "kerala",
    "madhya pradesh", "maharashtra", "manipur", "meghalaya", "mizoram", "nagaland",
    "odisha", "orissa", "punjab", "rajasthan", "sikkim", "tamil nadu", "telangana",
    "tripura", "uttar pradesh", "uttarakhand", "west bengal", "delhi", "ladakh",
    "jammu", "kashmir", "jammu and kashmir"
  ]

  /** Words that mark a health scheme (app.py:140). */
  const HEALTH_WORDS: seq<string> :=
    ["health", "disease", "hospital", "mental", "virus", "cancer", "medical", "ayush", "covid"]

  /** Words that mark an agriculture scheme (app.py:146). */
  const AGRI_WORDS: seq<string> :=
    ["kisan", "farmer", "agri", "crop", "irrigation", "dairy", "bamboo", "rythu"]

  /** `is_central` (app.py:107-109): the scheme's state is empty, "any", or
      names all of India. */
  predicate IsCentral(state: string) {
    var s := Norm(state);
    s == "" || s == "any" || Contains(s, "all india") || Contains(s, "pan india")
  }

  /** The position of `x` in `xs`, if it is there: the `EDU_RANK` lookup. */
  function IndexOf(xs: seq<string>, x: string): (r: Option<nat>)
    ensures r.Some? ==> r.value < |xs| && xs[r.value] == x && x !in xs[..r.value]
    ensures r.None? ==> x !in xs
  {
    if xs == [] then None
    else if xs[0] == x then Some(0)
    else match IndexOf(xs[1..], x) {
      case None => None
      case Some(i) =>
        assert xs[1..][..i] == xs[1..i + 1];
        Some(i + 1)
    }
  }

  /** `EDU_RANK.get(level, -1)` for the ranking `order`. */
  function RankOrMinusOne(order: seq<string>, level: string): int {
    match IndexOf(order, level)
    case None => -1
    case Some(i) => i
  }

  /** The comparison of `edu_ok` for the ranking `order`: an unranked
      requirement always passes; otherwise `level` must rank at or above it. */
  predicate RanksAtLeast(order: seq<string>, level: string, req: string) {
    match IndexOf(order, req)
    case None => true
    case Some(rank) => RankOrMinusOne(order, level) >= rank
  }

  /** `edu_ok` (app.py:112-116): a requirement that is not a listed level
      always passes; otherwise the user passes exactly when their level is
      listed at or after the requirement (an unlisted user level ranks -1). */
  predicate EduOk(userEd: string, reqEd: string)
  {
    RanksAtLeast(EDU_ORDER, Norm(userEd), Norm(reqEd))
  }

  /** `gender_ok` (app.py:119-121): the scheme is open to every gender, or
      names the user's gender, ignoring case and surrounding space. */
  predicate GenderOk(rowGender: string, userGender: string) {
    var g := Norm(rowGender);
    g == "" || g == "any" || g == Norm(userGender)
  }

  /** `link_score` (app.py:124-130) in tenths, given the link's network
      location as `urlparse` reports it. */
  function LinkScore(netloc: string): (r: nat)
    ensures r == 20 || r == 10 || r == 3
    ensures r == 20 <==> EndsWith(Lower(netloc), ".gov.in") || EndsWith(Lower(netloc), ".nic.in")
    ensures r == 10 <==> r != 20 && (EndsWith(Lower(netloc), ".gov") || EndsWith(Lower(netloc), ".org"))
  {
    var host := Lower(netloc);
    if EndsWith(host, ".gov.in") || EndsWith(host, ".nic.in") then 20
    else if EndsWith(host, ".gov") || EndsWith(host, ".org") then 10
    else 3
  }

  /** The text `tag_hit` searches (app.py:162): name, summary and target
      group, each normalised, joined by single spaces. */
  function SearchText(row: Scheme): string {
    Norm(row.name) + " " + Norm(row.summary) + " " + Norm(row.targetGroup)
  }

  /** `combined_text` (app.py:133-135): the same text with every character
      other than `a-z` removed. */
  function CombinedText(row: Scheme): string {
    KeepLetters(SearchText(row))
  }

  /** `any(w in text for w in words)`. */
  function AnyWordIn(text: string, words: seq<string>): (r: bool)
    ensures r <==> exists i :: 0 <= i < |words| && Contains(text, words[i])
  {
    if words == [] then false
    else Contains(text, words[0]) || AnyWordIn(text, words[1..])
  }

  /** `is_health_scheme` (app.py:138-141). */
  predicate IsHealthScheme(row: Scheme) {
    AnyWordIn(CombinedText(row), HEALTH_WORDS)
  }

  /** `is_agri_scheme` (app.py:144-147). */
  predicate IsAgriScheme(row: Scheme) {
    AnyWordIn(CombinedText(row), AGRI_WORDS)
  }

  /** The list `[s for s in states if s in name]` (app.py:153), in order. */
  function MentionedStates(name: string, states: seq<string>): (r: seq<string>)
    ensures forall st :: st in r <==> st in states && Contains(name, st)
  {
    if states == [] then []
    else (if Contains(name, states[0]) then [states[0]] else [])
         + MentionedStates(name, states[1..])
  }

  /** The loop of app.py:155-158: some mentioned state neither occurs in the
      user's state nor contains it. */
  function AnyForeign(mentioned: seq<string>, userState: string): (r: bool)
    ensures r <==> exists i :: 0 <= i < |mentioned|
                     && !Contains(userState, mentioned[i]) && !Contains(mentioned[i], userState)
  {
    if mentioned == [] then false
    else if !Contains(userState, mentioned[0]) && !Contains(mentioned[0], userState) then true
    else AnyForeign(mentioned[1..], userState)
  }

  /** `is_other_state_specific` (app.py:150-158): the scheme's name mentions
      a listed state that is unrelated, by substring either way, to the
      user's state. */
  predicate IsOtherStateSpecific(row: Scheme, u: Profile) {
    var name := Norm(row.name);
    var userState := Norm(u.state);
    var mentioned := MentionedStates(name, INDIAN_STATES);
    if mentioned == [] then false
    else AnyForeign(mentioned, userState)
  }

  /** Some state of `states` occurs in `name` and is unrelated, by
      substring either way, to `userState`, exactly when the loop over the
      mentioned states finds one. */
  lemma ForeignMentionMeaning(name: string, userState: string, states: seq<string>)
    ensures (var m := MentionedStates(name, states); m != [] && AnyForeign(m, userState)) <==>
              exists st :: st in states && Contains(name, st)
                           && !Contains(userState, st) && !Contains(st, userState)
  {
    var m := MentionedStates(name, states);
    if m != [] && AnyForeign(m, userState) {
      var i :| 0 <= i < |m| && !Contains(userState, m[i]) && !Contains(m[i], userState);
      assert m[i] in m;
    }
  }

  /** A scheme is other-state specific exactly when some listed state occurs
      in its name and is unrelated, by substring either way, to the user's
      state. */
  lemma OtherStateSpecificMeaning(row: Scheme, u: Profile)
    ensures IsOtherStateSpecific(row, u) <==>
              exists st :: st in INDIAN_STATES && Contains(Norm(row.name), st)
                           && !Contains(Norm(u.state), st) && !Contains(st, Norm(u.state))
  {
    ForeignMentionMeaning(Norm(row.name), Norm(u.state), INDIAN_STATES);
  }

  /** `TAG_KEYWORDS.get(tag, [])`. */
  function KeywordsOf(tag: string): seq<string> {
    if tag in TAG_KEYWORDS then TAG_KEYWORDS[tag] else []
  }

  /** The nested loop of `tag_hit` over a list of tags. */
  function AnyTagHit(text: string, tags: seq<string>): (r: bool)
    ensures r <==> exists i :: 0 <= i < |tags| && AnyWordIn(text, KeywordsOf(tags[i]))
  {
    if tags == [] then false
    else AnyWordIn(text, KeywordsOf(tags[0])) || AnyTagHit(text, tags[1..])
  }

  /** `tag_hit` (app.py:161-167): some tag of the profile that is a key of
      `TAG_KEYWORDS` has a keyword occurring in the record's search text. */
  predicate TagHit(row: Scheme, u: Profile) {
    AnyTagHit(SearchText(row), u.tags)
  }

  /** A tag hit is a tag of the profile that is a key of `TAG_KEYWORDS`
      together with one of its keywords occurring in the search text. */
  lemma TagHitMeaning(row: Scheme, u: Profile)
    ensures TagHit(row, u) <==>
              exists t, kw :: t in u.tags && t in TAG_KEYWORDS && kw in TAG_KEYWORDS[t]
                              && Contains(SearchText(row), kw)
  {
    AnyTagHitMeaning(SearchText(row), u.tags);
  }

  lemma AnyTagHitMeaning(text: string, tags: seq<string>)
    ensures AnyTagHit(text, tags) <==>
              (exists t, kw :: t in tags && t in TAG_KEYWORDS && kw in TAG_KEYWORDS[t]
                               && Contains(text, kw))
  {
    if AnyTagHit(text, tags) {
      var i :| 0 <= i < |tags| && AnyWordIn(text, KeywordsOf(tags[i]));
      var j :| 0 <= j < |KeywordsOf(tags[i])| && Contains(text, KeywordsOf(tags[i])[j]);
      var t, kw := tags[i], KeywordsOf(tags[i])[j];
      assert t in TAG_KEYWORDS;
      assert t in tags && kw in TAG_KEYWORDS[t] && Contains(text, kw);
      assert exists t, kw :: t in tags && t in TAG_KEYWORDS && kw in TAG_KEYWORDS[t]
                               && Contains(text, kw);
    } else {
      forall t, kw | t in tags && t in TAG_KEYWORDS && kw in TAG_KEYWORDS[t]
        ensures !Contains(text, kw)
      {
        var i :| 0 <= i < |tags| && tags[i] == t;
        var j :| 0 <= j < |TAG_KEYWORDS[t]| && TAG_KEYWORDS[t][j] == kw;
        assert !AnyWordIn(text, KeywordsOf(tags[i]));
      }
    }
  }

  // ---- properties of the predicates ----

  lemma EduOrderDistinct()
    ensures forall a, b :: 0 <= a < b < |EDU_ORDER| ==> EDU_ORDER[a] != EDU_ORDER[b]
  {
  }

  /** `edu_ok` by positions in `EDU_ORDER`: it holds exactly when the
      normalised requirement is not a listed level, or the normalised user
      level is listed at the requirement's position or after it. */
  lemma EduOkMeaning(userEd: string, reqEd: string)
    ensures EduOk(userEd, reqEd) <==>
              (Norm(reqEd) !in EDU_ORDER ||
               exists i, j :: 0 <= i <= j < |EDU_ORDER|
                              && EDU_ORDER[i] == Norm(reqEd) && EDU_ORDER[j] == Norm(userEd))
  {
    EduOrderDistinct();
    RanksAtLeastMeaning(EDU_ORDER, Norm(userEd), Norm(reqEd));
  }

  /** In a ranking without repeats, `level` ranks at least `req` exactly when
      `req` is unranked or is listed at or before `level`. */
  lemma RanksAtLeastMeaning(order: seq<string>, level: string, req: string)
    requires forall a, b :: 0 <= a < b < |order| ==> order[a] != order[b]
    ensures RanksAtLeast(order, level, req) <==>
              (req !in order ||
               exists i, j :: 0 <= i <= j < |order| && order[i] == req && order[j] == level)
  {
    match IndexOf(order, req)
    case None =>
    case Some(rank) =>
      if RanksAtLeast(order, level, req) {
        var j := RankOrMinusOne(order, level);
        assert order[j] == level;
        assert rank <= j;
      }
      if exists i, j :: 0 <= i <= j < |order| && order[i] == req && order[j] == level {
        var i, j :| 0 <= i <= j < |order| && order[i] == req && order[j] == level;
        assert i == rank;
        match IndexOf(order, level)
        case None =>
        case Some(uj) => assert uj == j;
      }
  }

  /** A requirement of "any", the normalised form of an empty requirement,
      is the highest rank: only a user whose education is "any" meets it. */
  lemma EduAnyOnlyAny(userEd: string)
    ensures EduOk(userEd, "any") <==> Norm(userEd) == "any"
  {
    NormOfAny();
    EduOkMeaning(userEd, "any");
    EduOrderDistinct();
    assert EDU_ORDER[6] == "any";
    if Norm(userEd) == "any" {
      assert 0 <= 6 <= 6 < |EDU_ORDER| && EDU_ORDER[6] == Norm("any") && EDU_ORDER[6] == Norm(userEd);
    }
  }

  lemma NormOfAny()
    ensures Norm("any") == "any"
  {
    LowerOfLowered("any");
    StripOfStripped("any");
  }

  /** A user whose education is not a listed level fails every listed
      requirement, and every user passes an unlisted requirement. */
  lemma EduUnlisted(userEd: string, reqEd: string)
    ensures Norm(reqEd) !in EDU_ORDER ==> EduOk(userEd, reqEd)
    ensures Norm(userEd) !in EDU_ORDER && Norm(reqEd) in EDU_ORDER ==> !EduOk(userEd, reqEd)
  {
    EduOkMeaning(userEd, reqEd);
  }

  /** An empty user state is related to every state, so no scheme counts as
      specific to another state. */
  lemma EmptyUserStateNeverOtherState(row: Scheme, u: Profile)
    requires Norm(u.state) == ""
    ensures !IsOtherStateSpecific(row, u)
  {
    OtherStateSpecificMeaning(row, u);
    forall st | st in INDIAN_STATES
      ensures Contains(st, Norm(u.state))
    {
      ContainsEmpty(st);
    }
  }

  /** A scheme whose name mentions no listed state is never specific to
      another state. */
  lemma NoListedStateNotOtherState(row: Scheme, u: Profile)
    requires forall st :: st in INDIAN_STATES ==> !Contains(Norm(row.name), st)
    ensures !IsOtherStateSpecific(row, u)
  {
    OtherStateSpecificMeaning(row, u);
  }

  /** Without a tag that is a key of `TAG_KEYWORDS` there is no tag hit. */
  lemma NoKnownTagNoHit(row: Scheme, u: Profile)
    requires forall t :: t in u.tags ==> t !in TAG_KEYWORDS
    ensures !TagHit(row, u)
  {
    TagHitMeaning(row, u);
  }

  /** The link score ignores the case of the host. */
  lemma LinkScoreIgnoresCase(netloc: string)
    ensures LinkScore(Lower(netloc)) == LinkScore(netloc)
  {
    LowerOfLowered(Lower(netloc));
  }

  /** Lower-casing before `norm` changes nothing, since `norm` lower-cases. */
  lemma NormOfLower(s: string)
    ensures Norm(Lower(s)) == Norm(s)
  {
    LowerOfLowered(Lower(s));
  }

  /** `gender_ok` compares without regard to case, on both sides. */
  lemma GenderOkIgnoresCase(rowGender: string, userGender: string)
    ensures GenderOk(Lower(rowGender), Lower(userGender)) == GenderOk(rowGender, userGender)
  {
    NormOfLower(rowGender);
    NormOfLower(userGender);
  }

  /** `is_central` does not depend on the case of the state. */
  lemma IsCentralIgnoresCase(state: string)
    ensures IsCentral(Lower(state)) == IsCentral(state)
  {
    NormOfLower(state);
  }

  /** A record whose state was left empty is nationwide once normalised. */
  lemma DefaultStateIsCentral(raw: RawScheme)
    requires raw.state == ""
    ensures IsCentral(FixDefaults(raw).state)
  {
    NormOfAny();
  }

  /** A record whose gender was left empty is open to every applicant once
      normalised. */
  lemma DefaultGenderIsOpen(raw: RawScheme, userGender: string)
    requires raw.gender == ""
    ensures GenderOk(FixDefaults(raw).gender, userGender)
  {
    NormOfAny();
  }

  /** An agriculture word found in the spaced search text is also found
      once everything but `a-z` is removed, so the scheme is agricultural. */
  lemma SpacedAgriWordIsAgri(row: Scheme, w: string)
    requires w in AGRI_WORDS && Contains(SearchText(row), w)
    ensures IsAgriScheme(row)
  {
    AgriWordLetters(w);
    LetterKeywordSurvivesFilter(SearchText(row), w);
    var k :| 0 <= k < |AGRI_WORDS| && AGRI_WORDS[k] == w;
  }

  lemma AgriWordLetters(w: string)
    requires w in AGRI_WORDS
    ensures forall i :: 0 <= i < |w| ==> IsLowerLetter(w[i])
  {
    var k :| 0 <= k < |AGRI_WORDS| && AGRI_WORDS[k] == w;
    if k == 0 { assert w == "kisan"; }
    else if k == 1 { assert w == "farmer"; }
    else if k == 2 { assert w == "agri"; }
    else if k == 3 { assert w == "crop"; }
    else if k == 4 { assert w == "irrigation"; }
    else if k == 5 { assert w == "dairy"; }
    else if k == 6 { assert w == "bamboo"; }
    else { assert w == "rythu"; }
  }

  /** The two text forms disagree: a scheme named "ki san", with no summary
      and no target group, is agricultural, since its letters spell "kisan",
      yet a lone "Farmer" tag does not hit it, since no farmer keyword occurs
      in the spaced text. */
  lemma TextFormsDiffer(row: Scheme, u: Profile)
    requires row.name == "ki san" && row.summary == "" && row.targetGroup == ""
    requires u.tags == ["Farmer"]
    ensures IsAgriScheme(row) && !TagHit(row, u)
  {
    KiSanSearchText(row);
    KiSanLetters();
    KiSanNoFarmerHit();
    AgriFromText(row, "ki san  ");
    NoHitFromText(row, u, "ki san  ");
  }

  lemma AgriFromText(row: Scheme, t: string)
    requires SearchText(row) == t && AnyWordIn(KeepLetters(t), AGRI_WORDS)
    ensures IsAgriScheme(row)
  {
  }

  lemma NoHitFromText(row: Scheme, u: Profile, t: string)
    requires SearchText(row) == t && !AnyTagHit(t, u.tags)
    ensures !TagHit(row, u)
  {
  }

  lemma KiSanNoFarmerHit()
    ensures !AnyTagHit("ki san  ", ["Farmer"])
  {
    forall w | w in KeywordsOf("Farmer")
      ensures !Contains("ki san  ", w)
    {
      FarmerWordAbsent(w);
    }
    assert !AnyWordIn("ki san  ", KeywordsOf("Farmer"));
    assert ["Farmer"][1..] == [];
  }

  lemma KiSanSearchText(row: Scheme)
    requires row.name == "ki san" && row.summary == "" && row.targetGroup == ""
    ensures SearchText(row) == "ki san  "
  {
    KiSanNorm(row.name);
    EmptyNorm();
    PlainSearchText(row);
    assert row.name + "  " == "ki san  ";
  }

  /** The search text of a scheme whose name is already normalised and whose
      summary and target group are empty. */
  lemma PlainSearchText(row: Scheme)
    requires Norm(row.name) == row.name && Norm(row.summary) == "" && Norm(row.targetGroup) == ""
    ensures SearchText(row) == row.name + "  "
  {
  }

  lemma KiSanNorm(s: string)
    requires s == "ki san"
    ensures Norm(s) == s
  {
    LowerOfLowered(s);
    StripOfStripped(s);
  }

  lemma EmptyNorm()
    ensures Norm("") == ""
  {
  }

  lemma KiSanLetters()
    ensures AnyWordIn(KeepLetters("ki san  "), AGRI_WORDS)
  {
    assert KeepLetters("ki san  ") == "kisan";
    assert Contains("kisan", AGRI_WORDS[0]);
  }

  lemma FarmerWordAbsent(w: string)
    requires w in KeywordsOf("Farmer")
    ensures !Contains("ki san  ", w)
  {
    FarmerKeywords();
    if w == "kisan" {
      KisanAbsent("ki san  ", w);
    } else if w == "agri" || w == "agriculture" || w == "irrigation" {
      MissingCharNotContained("ki san  ", w, 1);
    } else {
      MissingCharNotContained("ki san  ", w, 0);
    }
  }

  lemma FarmerKeywords()
    ensures KeywordsOf("Farmer") == ["farmer", "kisan", "agri", "agriculture", "crop",
                                     "horticulture", "irrigation", "dairy", "bamboo", "rythu"]
  {
  }

  /** "kisan" does not occur in "ki san  ": the only "k" is followed by "i "
      rather than "is". */
  lemma KisanAbsent(t: string, w: string)
    requires t == "ki san  " && w == "kisan"
    ensures !Contains(t, w)
  {
    ContainsIff(t, w);
    forall i
      ensures !OccursAt(t, w, i)
    {
      if 0 <= i && i + 5 <= |t| {
        if i == 0 {
          assert t[i..i + 5][2] == ' ';
        } else {
          assert t[i..i + 5][0] == t[i] != 'k';
        }
      }
    }
  }
}
