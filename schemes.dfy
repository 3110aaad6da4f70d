/** The records of the recommender and the normaliser that turns a raw table
    row into a scheme record: the missing-column fill and numeric coercion of
    `load_dataset`, then the defaults of `fix_defaults` (app.py:38-62). */
module Schemes {

  datatype Option<T> = None | Some(value: T)

  /** One cell of the raw table: empty (NaN), a number, or text. */
  datatype Cell = Missing | Num(n: int) | Text(s: string)

  /** One row of the raw table, keyed by column name. */
  type RawRow = map<string, Cell>

  /** The ten columns every row must have (app.py:33-36). */
  const REQUIRED_COLS: seq<string> := [
    "Scheme_Name", "Min_Age", "Max_Age", "Gender_Eligibility", "Min_Education",
    "Area", "State", "Target_Group", "Application_Link", "Summary"
  ]

  /** A row after the column fill and `pd.to_numeric`, before the defaults:
      an age is `None` where the cell was empty or not a number. */
  datatype RawScheme = RawScheme(
    name: string,
    minAge: Option<int>,
    maxAge: Option<int>,
    gender: string,
    minEducation: string,
    area: string,
    state: string,
    targetGroup: string,
    applicationLink: string,
    summary: string)

  /** A scheme record as the recommender reads it. Nothing forces
      `minAge <= maxAge`. */
  datatype Scheme = Scheme(
    name: string,
    minAge: int,
    maxAge: int,
    gender: string,
    minEducation: string,
    area: string,
    state: string,
    targetGroup: string,
    applicationLink: string,
    summary: string)

  /** The applicant (app.py:92-99); `tags` keeps order and duplicates. */
  datatype Profile = Profile(
    age: int,
    gender: string,
    education: string,
    area: string,
    state: string,
    tags: seq<string>)

  /** The cell a row holds in column `c` once missing columns are filled
      with the empty string. */
  function FilledCell(row: RawRow, c: string): Cell {
    if c in row then row[c] else Text("")
  }

  /** The loop of app.py:40-42: every required column absent from the row
      is added, holding the empty string; nothing else changes. */
  method AddMissingColumns(row: RawRow) returns (r: RawRow)
    ensures r.Keys == row.Keys + set c | c in REQUIRED_COLS
    ensures forall c :: c in row ==> r[c] == row[c]
    ensures forall c :: c in r && c !in row ==> r[c] == Text("")
    ensures forall c :: c in REQUIRED_COLS ==> c in r && r[c] == FilledCell(row, c)
  {
    var cols := REQUIRED_COLS;
    r := row;
    for n := 0 to |cols|
      invariant forall c :: c in r <==> c in row || c in cols[..n]
      invariant forall c :: c in row ==> r[c] == row[c]
      invariant forall c :: c in r && c !in row ==> r[c] == Text("")
    {
      var c := cols[n];
      assert cols[..n + 1] == cols[..n] + [c];
      if c !in r {
        r := r[c := Text("")];
      }
    }
    assert cols[..|cols|] == cols;
  }

  predicate IsDigit(c: char) {
    '0' <= c <= '9'
  }

  predicate AllDigits(s: string) {
    forall i :: 0 <= i < |s| ==> IsDigit(s[i])
  }

  /** The value of a string of decimal digits. */
  function DigitsValue(s: string): nat
    requires AllDigits(s)
  {
    if s == [] then 0
    else DigitsValue(s[..|s| - 1]) * 10 + (s[|s| - 1] as int - '0' as int)
  }

  /** The decimal numerals `pd.to_numeric` reads as integers: an optional
      sign followed by at least one digit. Anything else is not a number. */
  function ParseInt(s: string): Option<int> {
    if |s| > 1 && (s[0] == '-' || s[0] == '+') && AllDigits(s[1..]) then
      Some(if s[0] == '-' then -(DigitsValue(s[1..]) as int) else DigitsValue(s[1..]))
    else if |s| > 0 && AllDigits(s) then Some(DigitsValue(s))
    else None
  }

  /** `str(n)` for a natural number: its decimal digits, most significant first. */
  function ShowNat(n: nat): (r: string)
    ensures |r| > 0 && AllDigits(r)
  {
    if n < 10 then ['0' + n as char]
    else ShowNat(n / 10) + ['0' + (n % 10) as char]
  }

  /** `str(i)` for an integer. */
  function ShowInt(i: int): string {
    if i < 0 then "-" + ShowNat(-i) else ShowNat(i)
  }

  /** `pd.to_numeric(cell, errors="coerce")`: a number stays a number, a
      numeral is parsed, and an empty cell or any other text becomes missing. */
  function ToNumeric(c: Cell): (r: Option<int>)
    ensures c.Missing? ==> r == None
    ensures c == Text("") ==> r == None
    ensures c.Num? ==> r == Some(c.n)
  {
    match c
    case Missing => None
    case Num(n) => Some(n)
    case Text(s) => ParseInt(s)
  }

  /** A cell read as text; an empty cell reads as the empty string. */
  function AsText(c: Cell): string {
    match c
    case Missing => ""
    case Num(n) => ShowInt(n)
    case Text(s) => s
  }

  /** The typed row `load_dataset` produces (app.py:40-44): a column missing
      from the row reads as the empty string, and the two age columns are
      coerced to numbers. */
  function Coerce(row: RawRow): (r: RawScheme)
    ensures "Min_Age" !in row ==> r.minAge == None
    ensures "Max_Age" !in row ==> r.maxAge == None
    ensures "Min_Age" in row ==> r.minAge == ToNumeric(row["Min_Age"])
    ensures "Max_Age" in row ==> r.maxAge == ToNumeric(row["Max_Age"])
    ensures "Scheme_Name" !in row ==> r.name == ""
    ensures "State" !in row ==> r.state == ""
    ensures "Gender_Eligibility" !in row ==> r.gender == ""
    ensures "Min_Education" !in row ==> r.minEducation == ""
    ensures "Area" !in row ==> r.area == ""
    ensures "Target_Group" !in row ==> r.targetGroup == ""
    ensures "Application_Link" !in row ==> r.applicationLink == ""
    ensures "Summary" !in row ==> r.summary == ""
    ensures "State" in row && row["State"].Text? ==> r.state == row["State"].s
  {
    RawScheme(
      AsText(FilledCell(row, "Scheme_Name")),
      ToNumeric(FilledCell(row, "Min_Age")),
      ToNumeric(FilledCell(row, "Max_Age")),
      AsText(FilledCell(row, "Gender_Eligibility")),
      AsText(FilledCell(row, "Min_Education")),
      AsText(FilledCell(row, "Area")),
      AsText(FilledCell(row, "State")),
      AsText(FilledCell(row, "Target_Group")),
      AsText(FilledCell(row, "Application_Link")),
      AsText(FilledCell(row, "Summary")))
  }

  /** `replace("", "any")` on one value. */
  function AnyIfEmpty(s: string): (r: string)
    ensures r != ""
    ensures s == "" ==> r == "any"
    ensures s != "" ==> r == s
  {
    if s == "" then "any" else s
  }

  /** `fix_defaults` (app.py:50-62) on one row: a missing minimum age becomes
      0, a missing or zero maximum age becomes 200, an exactly-empty gender,
      education, area or state becomes "any", and every other field is kept. */
  function FixDefaults(raw: RawScheme): (s: Scheme)
    ensures s.minAge == (if raw.minAge == None then 0 else raw.minAge.value)
    ensures raw.maxAge == None || raw.maxAge == Some(0) ==> s.maxAge == 200
    ensures raw.maxAge.Some? && raw.maxAge.value != 0 ==> s.maxAge == raw.maxAge.value
    ensures s.gender == (if raw.gender == "" then "any" else raw.gender)
    ensures s.minEducation == (if raw.minEducation == "" then "any" else raw.minEducation)
    ensures s.area == (if raw.area == "" then "any" else raw.area)
    ensures s.state == (if raw.state == "" then "any" else raw.state)
    ensures s.name == raw.name && s.targetGroup == raw.targetGroup
    ensures s.applicationLink == raw.applicationLink && s.summary == raw.summary
  {
    Scheme(
      raw.name,
      match raw.minAge { case None => 0 case Some(a) => a },
      match raw.maxAge { case None => 200 case Some(a) => if a == 0 then 200 else a },
      AnyIfEmpty(raw.gender),
      AnyIfEmpty(raw.minEducation),
      AnyIfEmpty(raw.area),
      AnyIfEmpty(raw.state),
      raw.targetGroup,
      raw.applicationLink,
      raw.summary)
  }

  /** `fix_defaults` over the whole table: one record per row, in order. */
  function FixDefaultsAll(frame: seq<RawScheme>): (df: seq<Scheme>)
    ensures |df| == |frame|
    ensures forall i :: 0 <= i < |frame| ==> df[i] == FixDefaults(frame[i])
  {
    seq(|frame|, i requires 0 <= i < |frame| => FixDefaults(frame[i]))
  }

  // ---- properties of the normaliser ----

  /** A normalised record viewed as a raw row again, both ages present. */
  function AsRaw(s: Scheme): RawScheme {
    RawScheme(s.name, Some(s.minAge), Some(s.maxAge), s.gender, s.minEducation,
              s.area, s.state, s.targetGroup, s.applicationLink, s.summary)
  }

  /** Normalising is idempotent: a normalised record has no empty gender,
      education, area or state and no zero maximum age, so the defaults
      change nothing the second time. */
  lemma FixDefaultsIdempotent(raw: RawScheme)
    ensures FixDefaults(AsRaw(FixDefaults(raw))) == FixDefaults(raw)
  {
  }

  /** A row that has none of the required columns becomes the widest record:
      ages 0 to 200, "any" gender, education, area and state, empty text. */
  lemma EmptyRowIsWidest()
    ensures FixDefaults(Coerce(map[])) ==
      Scheme("", 0, 200, "any", "any", "any", "any", "", "", "")
  {
  }

  /** A maximum age of 0, as stored, is read as "no upper bound". */
  lemma MaxAgeZeroBecomes200(row: RawRow)
    requires "Max_Age" in row && row["Max_Age"] == Num(0)
    ensures FixDefaults(Coerce(row)).maxAge == 200
  {
  }

  /** Printing a natural number and reading it back gives the number. */
  lemma {:induction false} DigitsValueShowNat(n: nat)
    ensures DigitsValue(ShowNat(n)) == n
  {
    if n >= 10 {
      DigitsValueShowNat(n / 10);
      var s := ShowNat(n);
      assert s[..|s| - 1] == ShowNat(n / 10);
    }
  }

  /** A number written as text in an age column is read back as that number. */
  lemma ParseShowInt(i: int)
    ensures ParseInt(ShowInt(i)) == Some(i)
  {
    if i < 0 {
      var d := ShowNat(-i);
      var t := ShowInt(i);
      DigitsValueShowNat(-i);
      assert t == "-" + d;
      assert |t| > 1 && t[0] == '-' && t[1..] == d;
    } else {
      var d := ShowNat(i);
      DigitsValueShowNat(i);
      assert ShowInt(i) == d;
      assert IsDigit(d[0]);
      assert !(d[0] == '-' || d[0] == '+');
    }
  }
}
