/** The date strings of the prepopulation script: `YYYY-MM-DD` as the
    script writes it, the day arithmetic it does on such strings, their
    comparison with `<`, and the `YYYY/MM/DD` form Panorama queries use. */
module DateText {
  import opened JsString
  import opened Calendar

  /** `${date.getFullYear()}-${String(date.getMonth() + 1).padStart(2, '0')}-${…}`. */
  function FormatIso(d: Date): string
    requires Valid(d)
  {
    IntToString(d.year) + "-" + Pad2(d.month) + "-" + Pad2(d.day)
  }

  /** `new Date(y, m, …)` reads a year from 0 to 99 as 1900 to 1999. */
  function JsYear(y: int): int {
    if 0 <= y <= 99 then 1900 + y else y
  }

  /** `new Date(year, month - 1, day)`: a month or day out of range
      carries into the neighbouring months and years. */
  function MakeDate(year: int, month: int, day: int): (d: Date)
    ensures Valid(d)
    ensures DayNumber(d) == DayNumber(Date(JsYear(year) + (month - 1) / 12, (month - 1) % 12 + 1, 1)) + day - 1
  {
    var first := Date(JsYear(year) + (month - 1) / 12, (month - 1) % 12 + 1, 1);
    AddDaysNumber(first, day - 1);
    AddDays(first, day - 1)
  }

  /** `Number(parts[i])`, where a missing part is `undefined`, which is NaN. */
  function Field(parts: seq<string>, i: nat): Option<int> {
    if i < |parts| then StringToNumber(parts[i]) else None
  }

  const NaNDate: string := "NaN-NaN-NaN"

  /** `addDaysToDate`: read the three numbers before, between and after
      the dashes, build the local date, move it by `days` and print it.
      A part that is not a number makes an invalid date, and so does a
      date outside the range of a `Date`, before or after the move; an
      invalid date prints as NaN. */
  function AddDaysToDate(s: string, days: int): (r: string)
    ensures var parts := Split(s, {'-'});
      Field(parts, 0).None? || Field(parts, 1).None? || Field(parts, 2).None? ==> r == NaNDate
    ensures var parts := Split(s, {'-'});
      (Field(parts, 0).Some? && Field(parts, 1).Some? && Field(parts, 2).Some? &&
       !InTimeRange(MakeDate(Field(parts, 0).value, Field(parts, 1).value, Field(parts, 2).value)))
      ==> r == NaNDate
    ensures r == NaNDate || exists d :: Valid(d) && InTimeRange(d) && r == FormatIso(d)
  {
    var parts := Split(s, {'-'});
    match (Field(parts, 0), Field(parts, 1), Field(parts, 2))
    case (Some(y), Some(m), Some(d)) =>
      var made := MakeDate(y, m, d);
      if !InTimeRange(made) then NaNDate
      else
        var moved := AddDays(made, days);
        if !InTimeRange(moved) then NaNDate else FormatIso(moved)
    case _ => NaNDate
  }

  /** The printed date splits at its dashes into its three numbers. */
  lemma {:induction false} FieldsOfDashed(a: string, b: string, c: string, x: int, y: int, z: int)
    requires FreeOf(a, {'-'}) && FreeOf(b, {'-'}) && FreeOf(c, {'-'})
    requires StringToNumber(a) == Some(x) && StringToNumber(b) == Some(y) && StringToNumber(c) == Some(z)
    ensures var parts := Split(a + "-" + b + "-" + c, {'-'});
      Field(parts, 0) == Some(x) && Field(parts, 1) == Some(y) && Field(parts, 2) == Some(z)
  {
    Split3(a, b, c, '-', {'-'});
  }

  /** The three numbers of a printed date read back. */
  lemma {:induction false} FieldsOfIso(d: Date)
    requires Valid(d) && d.year >= 0
    ensures Field(Split(FormatIso(d), {'-'}), 0) == Some(d.year)
    ensures Field(Split(FormatIso(d), {'-'}), 1) == Some(d.month)
    ensures Field(Split(FormatIso(d), {'-'}), 2) == Some(d.day)
  {
    var y, m, dd := IntToString(d.year), Pad2(d.month), Pad2(d.day);
    DigitsFree(y, {'-'});
    DigitsFree(m, {'-'});
    DigitsFree(dd, {'-'});
    StringToNumberOfDecimal(d.year);
    StringToNumberOfPad2(d.month);
    StringToNumberOfPad2(d.day);
    FieldsOfDashed(y, m, dd, d.year, d.month, d.day);
  }

  lemma {:induction false} MakeDateOfValid(d: Date)
    requires Valid(d) && d.year >= 100
    ensures MakeDate(d.year, d.month, d.day) == d
  {
    assert JsYear(d.year) + (d.month - 1) / 12 == d.year;
    assert (d.month - 1) % 12 + 1 == d.month;
    AddDaysInMonth(d);
  }

  /** On a date the script printed itself (a year from 100 on),
      `addDaysToDate` is day arithmetic on the calendar while the moved
      date stays in the range of a `Date` ... */
  lemma {:induction false} AddDaysToIso(d: Date, days: int)
    requires Valid(d) && d.year >= 100 && InTimeRange(d) && InTimeRange(AddDays(d, days))
    ensures AddDaysToDate(FormatIso(d), days) == FormatIso(AddDays(d, days))
  {
    FieldsOfIso(d);
    MakeDateOfValid(d);
  }

  /** ... and prints `NaN-NaN-NaN` once it leaves that range. */
  lemma {:induction false} AddDaysToIsoOutOfRange(d: Date, days: int)
    requires Valid(d) && d.year >= 100 && !InTimeRange(AddDays(d, days))
    ensures AddDaysToDate(FormatIso(d), days) == NaNDate
  {
    FieldsOfIso(d);
    MakeDateOfValid(d);
  }

  /** The same for every offset at once. */
  lemma {:induction false} ShiftIso(d: Date)
    requires Valid(d) && d.year >= 100 && InTimeRange(d)
    ensures forall days :: InTimeRange(AddDays(d, days)) ==>
      AddDaysToDate(FormatIso(d), days) == FormatIso(AddDays(d, days))
  {
    forall days | InTimeRange(AddDays(d, days))
      ensures AddDaysToDate(FormatIso(d), days) == FormatIso(AddDays(d, days))
    {
      AddDaysToIso(d, days);
    }
  }

  /** Between four-digit years, `addDaysToDate` is day arithmetic ... */
  lemma {:induction false} ShiftFourDigit(d: Date, days: int)
    requires Valid(d) && FourDigitYear(d) && FourDigitYear(AddDays(d, days))
    ensures AddDaysToDate(FormatIso(d), days) == FormatIso(AddDays(d, days))
  {
    InTimeRangeOfYears(d);
    InTimeRangeOfYears(AddDays(d, days));
    AddDaysToIso(d, days);
  }

  /** ... and a printed date from year 276000 on is already invalid when
      it is read back, whatever the offset. */
  lemma {:induction false} FarFutureIsNaN(d: Date, days: int)
    requires Valid(d) && d.year >= 276_000
    ensures AddDaysToDate(FormatIso(d), days) == NaNDate
  {
    FieldsOfIso(d);
    MakeDateOfValid(d);
    OutOfTimeRangeOfYears(d);
  }

  /** A year from 1000 to 9999, which prints as four digits. */
  predicate FourDigitYear(d: Date) {
    1000 <= d.year <= 9999
  }

  lemma {:induction false} DashStep(x: string, y: string)
    ensures LexLess("-" + x, "-" + y) <==> LexLess(x, y)
  {
    assert ("-" + x)[1..] == x && ("-" + y)[1..] == y;
  }

  /** Strings laid out as three fields of fixed widths compare field by
      field. */
  lemma {:induction false} LexFields(ya: string, ma: string, da: string, yb: string, mb: string, db: string)
    requires |ya| == |yb| && |ma| == |mb|
    ensures LexLess(ya + "-" + ma + "-" + da, yb + "-" + mb + "-" + db) <==>
      LexLess(ya, yb) || (ya == yb && (LexLess(ma, mb) || (ma == mb && LexLess(da, db))))
  {
    assert ya + "-" + ma + "-" + da == ya + ("-" + (ma + ("-" + da)));
    assert yb + "-" + mb + "-" + db == yb + ("-" + (mb + ("-" + db)));
    LexLessAppend(ya, "-" + (ma + ("-" + da)), yb, "-" + (mb + ("-" + db)));
    DashStep(ma + ("-" + da), mb + ("-" + db));
    LexLessAppend(ma, "-" + da, mb, "-" + db);
    DashStep(da, db);
  }

  /** String order of the padded numbers is numeric order. */
  lemma {:induction false} Pad2Order(a: nat, b: nat)
    requires a < 100 && b < 100
    ensures LexLess(Pad2(a), Pad2(b)) <==> a < b
    ensures Pad2(a) == Pad2(b) <==> a == b
  {
    Pad2Value(a);
    Pad2Value(b);
    DigitsOrder(Pad2(a), Pad2(b));
  }

  lemma {:induction false} YearOrder(a: int, b: int)
    requires 1000 <= a <= 9999 && 1000 <= b <= 9999
    ensures |IntToString(a)| == |IntToString(b)|
    ensures LexLess(IntToString(a), IntToString(b)) <==> a < b
    ensures IntToString(a) == IntToString(b) <==> a == b
  {
    NatToStringLength4(a);
    NatToStringLength4(b);
    NatToStringValue(a);
    NatToStringValue(b);
    DigitsOrder(NatToString(a), NatToString(b));
  }

  /** `a < b` on the printed dates is calendar order, as long as both
      years have four digits. */
  lemma {:induction false} IsoOrder(a: Date, b: Date)
    requires Valid(a) && Valid(b) && FourDigitYear(a) && FourDigitYear(b)
    ensures LexLess(FormatIso(a), FormatIso(b)) <==> Earlier(a, b)
  {
    YearOrder(a.year, b.year);
    Pad2Order(a.month, b.month);
    Pad2Order(a.day, b.day);
    Pad2Value(a.month);
    Pad2Value(b.month);
    LexFields(IntToString(a.year), Pad2(a.month), Pad2(a.day), IntToString(b.year), Pad2(b.month), Pad2(b.day));
  }

  // ---------------------------------------------------------------------
  // Dates for Panorama queries

  /** `${year}/${month.padStart(2, '0')}/${day.padStart(2, '0')}`. */
  function Slashed(year: string, month: string, day: string): string {
    year + "/" + PadStart(month, 2, '0') + "/" + PadStart(day, 2, '0')
  }

  const DateSeparators: set<char> := {'-', '/'}

  /** `formatDateForPanorama`: three parts separated by `-` or `/` are
      year, month, day when the first has four characters and month,
      day, year otherwise; any other string only has its dashes turned
      into slashes. */
  function FormatDateForPanorama(s: string): (r: string)
    ensures FreeOf(r, {'-'})
  {
    var parts := Split(s, DateSeparators);
    if |parts| == 3 then
      if |parts[0]| == 4 then
        SlashedFree(parts[0], parts[1], parts[2]);
        Slashed(parts[0], parts[1], parts[2])
      else
        SlashedFree(parts[2], parts[0], parts[1]);
        Slashed(parts[2], parts[0], parts[1])
    else ReplaceAll(s, '-', '/')
  }

  /** The slashed form of separator-free parts has no dash. */
  lemma {:induction false} SlashedFree(year: string, month: string, day: string)
    requires FreeOf(year, DateSeparators) && FreeOf(month, DateSeparators) && FreeOf(day, DateSeparators)
    ensures FreeOf(Slashed(year, month, day), {'-'})
  {
    PadFree(month, 2);
    PadFree(day, 2);
    FreeOf3(year, PadStart(month, 2, '0'), PadStart(day, 2, '0'), '/', {'-'});
  }

  lemma {:induction false} PadFree(s: string, len: nat)
    requires FreeOf(s, DateSeparators)
    ensures FreeOf(PadStart(s, len, '0'), DateSeparators)
  {
    var r := PadStart(s, len, '0');
    forall k | 0 <= k < |r| ensures r[k] !in DateSeparators {
      if k >= |r| - |s| {
        assert r[k] == r[|r| - |s|..][k - (|r| - |s|)];
      }
    }
  }

  /** The slashed form splits back into its year and its padded month
      and day. */
  lemma {:induction false} SplitSlashed(year: string, month: string, day: string)
    requires FreeOf(year, DateSeparators) && FreeOf(month, DateSeparators) && FreeOf(day, DateSeparators)
    ensures Split(Slashed(year, month, day), DateSeparators) ==
      [year, PadStart(month, 2, '0'), PadStart(day, 2, '0')]
  {
    var m, d := PadStart(month, 2, '0'), PadStart(day, 2, '0');
    PadFree(month, 2);
    PadFree(day, 2);
    Split3(year, m, d, '/', DateSeparators);
  }

  /** Any other string keeps its length and its characters, except that
      every dash becomes a slash. */
  lemma {:induction false} PanoramaDateOfOther(s: string)
    requires |Split(s, DateSeparators)| != 3
    ensures var r := FormatDateForPanorama(s);
      |r| == |s| && FreeOf(r, {'-'}) && forall k :: 0 <= k < |s| && s[k] != '-' ==> r[k] == s[k]
    ensures forall k :: 0 <= k < |s| && s[k] == '-' ==> FormatDateForPanorama(s)[k] == '/'
  {
  }

  /** A year/month/day date with a four-character year keeps its order. */
  lemma {:induction false} PanoramaDateOfYearFirst(year: string, month: string, day: string, sep: char)
    requires sep in DateSeparators && |year| == 4
    requires FreeOf(year, DateSeparators) && FreeOf(month, DateSeparators) && FreeOf(day, DateSeparators)
    ensures FormatDateForPanorama(year + [sep] + month + [sep] + day) == Slashed(year, month, day)
  {
    Split3(year, month, day, sep, DateSeparators);
  }

  /** A dashed date whose year has four characters and whose month and
      day have at least two becomes the same date with slashes. */
  lemma {:induction false} PanoramaDateOfDashed(year: string, month: string, day: string)
    requires |year| == 4 && |month| >= 2 && |day| >= 2
    requires FreeOf(year, DateSeparators) && FreeOf(month, DateSeparators) && FreeOf(day, DateSeparators)
    ensures FormatDateForPanorama(year + "-" + month + "-" + day) == year + "/" + month + "/" + day
  {
    PanoramaDateOfYearFirst(year, month, day, '-');
    assert year + "-" + month + "-" + day == year + ['-'] + month + ['-'] + day;
    assert PadStart(month, 2, '0') == month && PadStart(day, 2, '0') == day;
  }

  /** A date the script wrote becomes the same date with slashes. */
  lemma {:induction false} PanoramaDateOfIso(d: Date)
    requires Valid(d) && FourDigitYear(d)
    ensures FormatDateForPanorama(FormatIso(d)) == IntToString(d.year) + "/" + Pad2(d.month) + "/" + Pad2(d.day)
  {
    var y, m, dd := IntToString(d.year), Pad2(d.month), Pad2(d.day);
    DigitsFree(y, DateSeparators);
    DigitsFree(m, DateSeparators);
    DigitsFree(dd, DateSeparators);
    NatToStringLength4(d.year);
    PanoramaDateOfDashed(y, m, dd);
  }

  /** A month/day/year date is reordered to year first. */
  lemma {:induction false} PanoramaDateOfUs(month: string, day: string, year: string, sep: char)
    requires sep in DateSeparators && |month| != 4
    requires FreeOf(month, DateSeparators) && FreeOf(day, DateSeparators) && FreeOf(year, DateSeparators)
    ensures FormatDateForPanorama(month + [sep] + day + [sep] + year) == Slashed(year, month, day)
  {
    Split3(month, day, year, sep, DateSeparators);
  }

  /** A slashed date with a four-character year formats to itself. */
  lemma {:induction false} SlashedFixed(year: string, month: string, day: string)
    requires |year| == 4
    requires FreeOf(year, DateSeparators) && FreeOf(month, DateSeparators) && FreeOf(day, DateSeparators)
    ensures FormatDateForPanorama(Slashed(year, month, day)) == Slashed(year, month, day)
  {
    SplitSlashed(year, month, day);
    var m, d := PadStart(month, 2, '0'), PadStart(day, 2, '0');
    assert PadStart(m, 2, '0') == m && PadStart(d, 2, '0') == d;
  }

  /** Once the year comes first with four characters, formatting again
      changes nothing. */
  lemma {:induction false} FormatDateForPanoramaIdempotent(s: string)
    requires |Split(s, DateSeparators)| == 3
    requires |Split(s, DateSeparators)[0]| == 4 || |Split(s, DateSeparators)[2]| == 4
    ensures FormatDateForPanorama(FormatDateForPanorama(s)) == FormatDateForPanorama(s)
  {
    var p := Split(s, DateSeparators);
    if |p[0]| == 4 {
      SlashedFixed(p[0], p[1], p[2]);
    } else {
      SlashedFixed(p[2], p[0], p[1]);
    }
  }
}
