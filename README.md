# Welfare scheme recommender: a verified model of its decision core

The service matches a citizen profile against a catalogue of government
welfare schemes. The profile holds age, gender, education, state and
self-declared category tags. The service returns a ranked shortlist of at
most `k` schemes. This project models the decision core of `app.py` in Dafny
and proves properties of it. The core has five parts:

- **Normaliser.** The missing-column fill and numeric coercion of
  `load_dataset`, and the defaults of `fix_defaults`. These live in
  `schemes.dfy`, module `Schemes`.
- **Text helpers.** `norm` (`str.lower().strip()`), the substring test
  `in`, `str.endswith` and the `[^a-z]` letter filter. These live in
  `strings.dfy`, module `Strings`.
- **Predicates and constants.** The education ranking, the tag keyword
  table, the 34 state names, `is_central`, `edu_ok`, `gender_ok`,
  `link_score`, the two text forms (`tag_hit`'s spaced text and
  `combined_text`'s letters-only text), `is_health_scheme`,
  `is_agri_scheme`, `is_other_state_specific` and `tag_hit`. These live in
  `rules.dfy`, module `Rules`.
- **Gates and scorer.** `passes_core_filters`, `allowed_category`,
  `strong_match`, `mild_match` and `score_row`. These live in `gates.dfy`,
  modules `Gates` and `Scorer`.
- **Recommender.** `recommend_schemes` with its three tiers: strong (tag
  hit), mild (tag hit or gender match) and core (eligible only). Each tier
  is ranked by score. Rows whose names are already taken are dropped, and
  the result is cut to `k`. This lives in `recommender.dfy`. Module
  `Ranking` holds the generic sort, filter, name exclusion and tier
  assembly. Module `Recommender` instantiates them for scheme records.

Scores are whole numbers of tenths of a point:

- The link trust score is 20, 10 or 3.
- Gender compatibility and nationwide scope add 30 each.
- A tag hit adds 20.

The recommender is a method that assembles the tiers the way the source
does, and it is proved equal to a closed form. The closed form is the ranked
strong tier followed by the ranked eligible rows whose names the strong tier
does not already hold, cut to `k`. The proof shows that the mild tier equals
the core tier, because every eligible row is gender-compatible. So the third
pass can never add a row.

In several places the code behaves otherwise than one might expect from
its purpose. The model follows the code:

- **Education "any".** The code lists "any" as the highest education rank,
  not as an unranked level that always passes. Empty requirements default
  to "any", so such a scheme admits only users whose education is "any"
  (`Rules.EduAnyOnlyAny`). An applicant who gives no education is therefore
  refused by every such scheme (`Gates.NoEducationFailsAnyRequirement`).
- **Duplicate names.** Names are removed only across tiers. Two records
  with the same name in one tier both survive
  (`Recommender.StrongTierKeepsDuplicates`).
- **Two text forms.** `tag_hit` searches the spaced text, while the health
  and agriculture checks search the letters-only text. The two can
  disagree (`Rules.TextFormsDiffer`).
- **Tie order.** `sort_values` uses pandas' default sort, which is not
  stable, so the order of rows with equal scores is not fixed by the code.
  The model's sort keeps dataset order among ties, which is one order the
  code may produce.

## Model

| member | source | states |
|---|---|---|
| Strings.Lower | app.py:102-104 | lower-casing keeps the length and lower-cases each character in place |
| Strings.TrimStart | app.py:102-104 | `lstrip` removes exactly the leading ASCII whitespace: the result is a suffix, everything cut is whitespace, and it does not start with whitespace |
| Strings.TrimEnd | app.py:102-104 | `rstrip` removes exactly the trailing ASCII whitespace: the result is a prefix, everything cut is whitespace, and it does not end with whitespace |
| Strings.StripMeaning | app.py:102-104 | `strip()` returns a slice of its input with only whitespace outside the slice |
| Strings.StripEnds | app.py:102-104 | the stripped text neither starts nor ends with whitespace |
| Strings.NormShape | app.py:102-104 | `norm` output has no upper-case letter and no surrounding whitespace |
| Strings.NormIdempotent | app.py:102-104 | `norm(norm(x)) == norm(x)` |
| Strings.ContainsIff | app.py:107-109 | the substring test holds exactly when the needle occurs at some position of the text |
| Strings.ContainsEmpty | app.py:171 | the empty string occurs in every text, so an empty user state is inside every scheme state |
| Strings.KeepLettersOnlyLetters | app.py:133-135 | the `[^a-z]` filter leaves only the letters a-z and never lengthens the text |
| Strings.KeepLettersOfLetters | app.py:133-135 | a text made only of a-z passes the filter unchanged |
| Strings.KeepLettersAppend | app.py:133-135 | filtering a concatenation is the concatenation of the filtered parts |
| Strings.LetterKeywordSurvivesFilter | app.py:133-135 | a keyword of letters a-z that occurs in the spaced text still occurs in the filtered text |
| Schemes.AddMissingColumns | app.py:40-42 | the row gains exactly the absent required columns, each holding "", and its existing cells are unchanged; every required column then holds what `FilledCell` reads for it |
| Schemes.ToNumeric | app.py:43-44 | `to_numeric(errors="coerce")` keeps numbers and turns empty cells into missing values |
| Schemes.Coerce | app.py:38-45 | each of the eight text columns absent from the row reads as "", an absent age is a missing number, and a present age is coerced |
| Schemes.DigitsValueShowNat | app.py:43-44 | the digits of a natural number read back as that number |
| Schemes.ParseShowInt | app.py:43-44 | an integer written as text in an age column is read back as that integer |
| Schemes.AnyIfEmpty | app.py:54-57 | `replace("", "any")` turns "" into "any", leaves a non-empty value alone, and never yields "" |
| Schemes.FixDefaults | app.py:50-62 | missing minimum age becomes 0; missing or zero maximum age becomes 200; an empty gender, education, area or state becomes "any"; other fields are kept |
| Schemes.FixDefaultsAll | app.py:50-62 | `fix_defaults` keeps the table's length and order and applies the row defaults to each row |
| Schemes.FixDefaultsIdempotent | app.py:50-62 | applying the defaults to a normalised record changes nothing |
| Schemes.EmptyRowIsWidest | app.py:38-62 | a row without any required column becomes ages 0-200, "any" gender/education/area/state, empty texts |
| Schemes.MaxAgeZeroBecomes200 | app.py:53 | a stored maximum age of 0 is read as 200 |
| Rules.IndexOf | app.py:72 | the rank lookup finds the first position holding the level, or reports that it is absent |
| Rules.EduOrderDistinct | app.py:71 | the education scale has no repeated level |
| Rules.RanksAtLeastMeaning | app.py:112-116 | for a scale without repeats, the rank comparison holds iff the requirement is unranked or listed at or before the user's level |
| Rules.EduOkMeaning | app.py:112-116 | `edu_ok` holds iff the normalised requirement is not on the scale or the normalised user level is listed at or after it |
| Rules.EduUnlisted | app.py:112-116 | an unlisted requirement always passes; an unlisted user level fails every listed requirement |
| Rules.EduAnyOnlyAny | app.py:71-72 | a requirement of "any" is met exactly by users whose education is "any" |
| Rules.LinkScore | app.py:124-130 | the score is 2.0 iff the host ends in .gov.in or .nic.in, 1.0 iff otherwise it ends in .gov or .org, else 0.3 |
| Rules.LinkScoreIgnoresCase | app.py:125 | the score depends on the host only up to letter case |
| Rules.NormOfLower | app.py:102-104 | lower-casing before `norm` changes nothing |
| Rules.GenderOkIgnoresCase | app.py:119-121 | `gender_ok` gives the same answer when both genders are lower-cased first |
| Rules.IsCentralIgnoresCase | app.py:107-109 | `is_central` gives the same answer when the state is lower-cased first |
| Rules.DefaultStateIsCentral | app.py:57 | a record whose state was left empty is nationwide after the defaults |
| Rules.DefaultGenderIsOpen | app.py:54 | a record whose gender was left empty admits every gender after the defaults |
| Rules.AnyWordIn | app.py:141 | `any(w in text for w in words)` holds iff some listed word occurs in the text |
| Rules.MentionedStates | app.py:153 | the mentioned states are exactly the listed states occurring in the name |
| Rules.AnyForeign | app.py:155-158 | the loop reports true iff some mentioned state neither occurs in the user's state nor contains it |
| Rules.ForeignMentionMeaning | app.py:150-158 | "mentions some state and one of them is foreign" iff some listed state occurs in the name and is unrelated to the user's state |
| Rules.OtherStateSpecificMeaning | app.py:150-158 | a scheme is other-state specific iff its normalised name holds a listed state unrelated, by substring either way, to the user's normalised state |
| Rules.EmptyUserStateNeverOtherState | app.py:150-158 | with an empty user state no scheme is other-state specific |
| Rules.NoListedStateNotOtherState | app.py:153-154 | a name mentioning no listed state is never other-state specific |
| Rules.AnyTagHit | app.py:163-167 | the nested loop finds a hit iff some tag's keyword list has a word occurring in the text |
| Rules.AnyTagHitMeaning | app.py:163-167 | a hit is a profile tag that is a key of the keyword table plus one of its keywords occurring in the text |
| Rules.TagHitMeaning | app.py:161-167 | `tag_hit` holds iff a known profile tag has a keyword in the spaced search text |
| Rules.NoKnownTagNoHit | app.py:164 | a profile without any known tag never has a tag hit |
| Rules.SpacedAgriWordIsAgri | app.py:144-147 | an agriculture word found in the spaced text makes the scheme agricultural |
| Rules.TextFormsDiffer | app.py:144-147 | a scheme named "ki san" is agricultural, yet a lone "Farmer" tag does not hit it |
| Gates.CoreFiltersMeaning | app.py:170-179 | eligibility is the conjunction of the state, inclusive age, education and gender clauses |
| Gates.EmptyUserStateMatchesAnyState | app.py:171 | an empty user state satisfies the state clause for every scheme |
| Gates.AgeWindowInclusive | app.py:173 | the age window admits both ends and rejects the ages just outside |
| Gates.InvertedAgeRangeRejectsAll | app.py:173 | a record whose minimum age exceeds its maximum rejects every applicant |
| Gates.NoEducationFailsAnyRequirement | app.py:112-116 | a record requiring "any" education rejects an applicant who gives no education |
| Gates.EligibleIsMildMatch | app.py:195 | every eligible scheme is gender-compatible and so a mild match |
| Gates.AllowedCategoryMeaning | app.py:182-191 | the category gate is: not health or a pregnancy/senior tag, and not agriculture or a farmer tag, and not other-state specific |
| Scorer.ScoreRow | app.py:198-204 | a score lies between 0.3 and 10.0 |
| Scorer.EligibleScoreFloor | app.py:198-204 | an eligible scheme scores at least 3.3 |
| Scorer.HighScoreNeedsGenderAndCentral | app.py:198-204 | a score of 8.0 or more needs both gender compatibility and nationwide scope |
| Scorer.TopScore | app.py:198-204 | the score is 10.0 iff every part is at its maximum |
| Ranking.InsertDescPerm | app.py:217 | inserting into the ranking adds exactly that row |
| Ranking.InsertDescSorted | app.py:217 | inserting into a score-descending ranking keeps it score-descending |
| Ranking.SortDesc | app.py:217 | ranking by score is a permutation of the rows |
| Ranking.SortDescSorted | app.py:217 | ranking by score yields scores in non-increasing order |
| Ranking.Filter | app.py:213 | a masked selection holds no row more often than the dataset |
| Ranking.FilterCounts | app.py:213 | a masked selection holds every row satisfying the mask exactly as often as the dataset does, and no other row |
| Ranking.FilterAppend | app.py:213 | a masked selection distributes over concatenation, so it keeps the dataset order |
| Ranking.FilterMembers | app.py:213 | a masked selection holds exactly the dataset rows satisfying the mask |
| Ranking.FilterAgreeing | app.py:223-226 | two masks that agree on every row select the same rows in the same order |
| Ranking.ExcludeNames | app.py:227 | the `isin` exclusion keeps exactly the rows whose name is not taken and never adds a row |
| Ranking.ExcludeNamesIsFilter | app.py:227 | the `isin` exclusion is the masked selection of rows whose name is not taken, so it keeps their order and multiplicity |
| Ranking.NamesOfBound | app.py:227 | a set of rows has at most as many distinct names as rows |
| Ranking.FallbackCoversNames | app.py:219-243 | the strong rows and the fallback rows together are at least as many as the distinct names of the eligible rows |
| Ranking.AllNamesExcluded | app.py:239 | when every name is taken, the exclusion leaves nothing |
| Ranking.CoreTierFindsNothingNew | app.py:235-243 | once the mild pass left the result short of `k`, the core pass finds no row with a new name |
| Ranking.TwoTierShape | app.py:219-248 | the result has min(k, strong + fallback) rows, equals the first `k` strong rows when those suffice, keeps the strong rows as prefix, and appends only eligible rows with untaken names |
| Ranking.TwoTierSorted | app.py:219-248 | the strong prefix and the appended rows are each in non-increasing score order |
| Ranking.AssembleTiers | app.py:213-248 | the three-pass tier assembly, with the mild tier equal to the core tier, returns the two-tier closed form |
| Ranking.HeadOfTierState | app.py:245-248 | the final `head(k)`, or the empty frame returned as is, is the two-tier closed form |
| Ranking.TierRowDrawnFrom | app.py:207-248 | each result row comes from the dataset and satisfies the strong mask in the prefix, the core mask after it |
| Recommender.RecommendSchemes | app.py:207-248 | the recommendation equals the two-tier closed form, holds at most `k` rows, and each row is a dataset row passing eligibility and the category gate |
| Recommender.MildTierIsCoreTier | app.py:223-226 | the mild tier's candidates are exactly the core tier's |
| Recommender.ResultRowsEligible | app.py:207-248 | every recommended row is a dataset row that passes both gates, and the strong prefix rows have a tag hit |
| Recommender.ResultShape | app.py:219-248 | the result has min(k, strong + fallback) rows; strong rows alone when they suffice; later rows reuse no strong name |
| Recommender.ResultReachesK | app.py:219-248 | when the eligible, category-allowed rows carry at least `k` distinct names, the recommendation holds exactly `k` rows |
| Recommender.ResultRanked | app.py:215-230 | within the strong prefix and within the appended rows, scores never increase |
| Recommender.StrongTierKeepsDuplicates | app.py:210-217 | a dataset holding the same strongly matching record twice yields it twice |

## Left out

- HTTP routes, CORS, the PDF export and the browser script are not part of this model: they only carry input and output.
- Downloading and parsing the CSV is left out; the model starts from a row as a map from column names to cells.
- `urlparse(link).netloc` is a function parameter `netloc`, because URL parsing is a library call.
- Scores are whole tenths rather than floating point; every sum of 3, 3, 2 and 2.0/1.0/0.3 is exact in tenths, so the order is the same.
- pandas NaN: an empty text cell reads as "" instead of the string "nan" that `str(NaN)` gives, and the `except` fallback of `norm` is not modelled.
- Schemes.ToNumeric: reads only integer numerals (optional sign and digits); decimals, exponents and surrounding whitespace that pandas also accepts are not modelled.
- Scorer.ScoreRow: never fails, whereas `urlparse` raises an error on a link whose host part has an unbalanced `[` or `]`, which makes `score_row` and so `recommend_schemes` fail; the model takes the link's host as a total function and does not model that error.
- Recommender.RecommendSchemes: on a dataset with no rows it returns no rows; how pandas' row-wise `apply` and the boolean selection behave on a frame without rows (and whether the code then fails) is not modelled.
- Strings.Lower: case folding covers ASCII letters only; Unicode case mapping is not modelled.
- Strings.TrimStart: cuts only ASCII whitespace; leading Unicode whitespace that Python's `lstrip` also removes (such as U+00A0 no-break space, U+2000-U+200A, U+2028, U+2029, U+3000 and U+0085) is kept.
- Strings.TrimEnd: cuts only ASCII whitespace; trailing Unicode whitespace that Python's `rstrip` also removes (such as U+00A0 no-break space, U+2000-U+200A, U+2028, U+2029, U+3000 and U+0085) is kept.
- Recommender.RecommendSchemes: fixes one tie order among equal scores (dataset order), whereas pandas' default sort is not stable and leaves that order open.
- Schemes.FixDefaults: follows the reading of `replace(0, None)` in pandas 1.4 and later, where a maximum age of 0 becomes missing and then 200; older pandas ignored the explicit `None` and forward-filled a 0 from the row above, so the value depended on other rows, which the model does not capture. Apart from that, the defaults are applied row by row, and the column-wise operations give the same values per row.
- Recommender.RecommendSchemes: computes the three tier masks up front rather than only when a tier is reached; they are pure, so the result is the same.
- The `Area` field is carried but never read by the core, as in the source.
