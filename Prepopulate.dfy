/** The date-window loop of the prepopulation script's `main`: starting
    from today, it walks back over `DAYS_TO_PREPOPULATE` days in windows of
    `BATCH_SIZE_DAYS` days and processes each window's change logs. */
module Prepopulate {
  import opened JsString
  import opened Calendar
  import opened DateText
  import opened ChangeLogs

  /** A window of days, first and last day included. */
  datatype Batch = Batch(start: Date, end: Date)

  /** The start of the window ending on `end`: `size` days back, but never
      before `overall`. */
  function FirstStart(end: Date, overall: Date, size: int): (s: Date)
    requires Valid(end) && Valid(overall)
    ensures Valid(s)
  {
    var start := AddDays(end, 1 - size);
    if Earlier(start, overall) then overall else start
  }

  /** The loop stops once the window starts on or before `overall`. */
  predicate IsLast(end: Date, overall: Date, size: int)
    requires Valid(end) && Valid(overall)
  {
    !Earlier(overall, FirstStart(end, overall, size))
  }

  /** The windows the loop visits, latest first: each one ends the day
      before the previous one starts. */
  function Windows(end: Date, overall: Date, size: int): (ws: seq<Batch>)
    requires Valid(end) && Valid(overall) && size >= 1
    ensures |ws| >= 1 && ws[0].end == end
    ensures forall k :: 0 <= k < |ws| ==> Valid(ws[k].start) && Valid(ws[k].end)
    decreases DayNumber(end) - DayNumber(overall)
  {
    var start := FirstStart(end, overall, size);
    if IsLast(end, overall, size) then [Batch(start, end)]
    else
      AddDaysNumber(end, 1 - size);
      PrevDayNumber(start);
      OrderByNumber(overall, start);
      [Batch(start, end)] + Windows(PrevDay(start), overall, size)
  }

  /** The number of pieces of `size` needed to cover `n`: `Math.ceil(n / size)`. */
  function CeilDiv(n: int, size: int): nat
    requires size >= 1
    decreases n
  {
    if n <= 0 then 0 else 1 + CeilDiv(n - size, size)
  }

  /** `CeilDiv` is the ceiling of the quotient: the least count of pieces
      that covers `n`. */
  lemma {:induction false} CeilDivIsCeiling(n: int, size: int)
    requires n >= 0 && size >= 1
    ensures CeilDiv(n, size) * size >= n
    ensures n > 0 ==> (CeilDiv(n, size) - 1) * size < n
    decreases n
  {
    if n > size {
      CeilDivIsCeiling(n - size, size);
      var c := CeilDiv(n - size, size);
      assert (c + 1) * size == c * size + size;
      assert c * size == (c - 1) * size + size;
    }
  }

  /** Window `k` ends the day before window `k - 1` starts. */
  lemma {:induction false} WindowsAdjacent(end: Date, overall: Date, size: int, k: nat)
    requires Valid(end) && Valid(overall) && size >= 1
    requires 1 <= k < |Windows(end, overall, size)|
    ensures var ws := Windows(end, overall, size);
      ws[k].end == PrevDay(ws[k - 1].start)
    decreases k
  {
    var ws := Windows(end, overall, size);
    var start := FirstStart(end, overall, size);
    AddDaysNumber(end, 1 - size);
    PrevDayNumber(start);
    OrderByNumber(overall, start);
    var rest := Windows(PrevDay(start), overall, size);
    assert ws == [Batch(start, end)] + rest;
    if k > 1 {
      WindowsAdjacent(PrevDay(start), overall, size, k - 1);
      assert ws[k] == rest[k - 1] && ws[k - 1] == rest[k - 2];
    } else {
      assert ws[0].start == start && ws[1] == rest[0];
    }
  }

  /** Each window but the first ends the day before the one before it
      starts, so no day is skipped and none is visited twice. */
  lemma {:induction false} WindowsContiguous(end: Date, overall: Date, size: int)
    requires Valid(end) && Valid(overall) && size >= 1
    ensures var ws := Windows(end, overall, size);
      forall k :: 1 <= k < |ws| ==> ws[k].end == PrevDay(ws[k - 1].start)
  {
    var ws := Windows(end, overall, size);
    forall k | 1 <= k < |ws| ensures ws[k].end == PrevDay(ws[k - 1].start) {
      WindowsAdjacent(end, overall, size, k);
    }
  }

  /** The first window: a full one of `size` days that leaves a
      non-empty range behind it, or the last one, starting on `overall`
      and at most `size` days long. */
  lemma {:induction false} FirstWindowSpan(end: Date, overall: Date, size: int)
    requires Valid(end) && Valid(overall) && size >= 1
    requires !Earlier(end, overall)
    ensures var start := FirstStart(end, overall, size);
      if IsLast(end, overall, size) then
        start == overall && 0 <= DayNumber(end) - DayNumber(start) < size
      else
        DayNumber(end) - DayNumber(start) == size - 1 && !Earlier(PrevDay(start), overall) &&
        DayNumber(overall) <= DayNumber(PrevDay(start)) < DayNumber(end)
  {
    var start := FirstStart(end, overall, size);
    AddDaysNumber(end, 1 - size);
    OrderByNumber(end, overall);
    OrderByNumber(AddDays(end, 1 - size), overall);
    if !IsLast(end, overall, size) {
      PrevDayNumber(start);
      OrderByNumber(overall, start);
      OrderByNumber(PrevDay(start), overall);
    } else {
      OrderByNumber(start, overall);
    }
  }

  /** A window of exactly `size` days. */
  predicate Full(b: Batch, size: int) {
    ValidBatch(b) && DayNumber(b.end) - DayNumber(b.start) == size - 1
  }

  /** A full window put before windows that are all full but the last. */
  lemma {:induction false} ConsFull(b: Batch, rest: seq<Batch>, size: int)
    requires rest != [] && Full(b, size)
    requires forall k :: 0 <= k < |rest| - 1 ==> Full(rest[k], size)
    ensures var ws := [b] + rest;
      ws[|ws| - 1] == rest[|rest| - 1] && forall k :: 0 <= k < |ws| - 1 ==> Full(ws[k], size)
  {
    var ws := [b] + rest;
    forall k | 0 <= k < |ws| - 1 ensures Full(ws[k], size) {
      if k > 0 {
        assert ws[k] == rest[k - 1];
      }
    }
  }

  /** When the range is not empty, the last window starts on `overall`,
      every window but the last spans exactly `size` days and the last
      at most `size`. */
  lemma {:induction false} WindowsSpan(end: Date, overall: Date, size: int)
    requires Valid(end) && Valid(overall) && size >= 1
    requires !Earlier(end, overall)
    ensures var ws := Windows(end, overall, size);
      ws[|ws| - 1].start == overall &&
      (forall k :: 0 <= k < |ws| - 1 ==> Full(ws[k], size)) &&
      0 <= DayNumber(ws[|ws| - 1].end) - DayNumber(ws[|ws| - 1].start) < size
    decreases DayNumber(end) - DayNumber(overall)
  {
    var ws := Windows(end, overall, size);
    var start := FirstStart(end, overall, size);
    FirstWindowSpan(end, overall, size);
    if !IsLast(end, overall, size) {
      WindowsSpan(PrevDay(start), overall, size);
      var rest := Windows(PrevDay(start), overall, size);
      assert ws == [Batch(start, end)] + rest;
      ConsFull(Batch(start, end), rest, size);
    }
  }

  /** The number of windows is the number of days in the range divided
      by `size`, rounded up. */
  lemma {:induction false} WindowsCount(end: Date, overall: Date, size: int)
    requires Valid(end) && Valid(overall) && size >= 1
    requires !Earlier(end, overall)
    ensures DayNumber(end) - DayNumber(overall) >= 0
    ensures |Windows(end, overall, size)| == CeilDiv(DayNumber(end) - DayNumber(overall) + 1, size)
    decreases DayNumber(end) - DayNumber(overall)
  {
    var start := FirstStart(end, overall, size);
    FirstWindowSpan(end, overall, size);
    if !IsLast(end, overall, size) {
      PrevDayNumber(start);
      WindowsCount(PrevDay(start), overall, size);
    }
  }

  /** A range that ends before it starts is a single window from
      `overall` back to `end`. */
  lemma {:induction false} WindowsOfEmptyRange(end: Date, overall: Date, size: int)
    requires Valid(end) && Valid(overall) && size >= 1
    requires Earlier(end, overall)
    ensures Windows(end, overall, size) == [Batch(overall, end)]
  {
    AddDaysNumber(end, 1 - size);
    OrderByNumber(end, overall);
    OrderByNumber(AddDays(end, 1 - size), overall);
  }

  // ---------------------------------------------------------------------
  // The windows as the script prints them

  type Range = (string, string)

  predicate ValidBatch(b: Batch) {
    Valid(b.start) && Valid(b.end)
  }

  /** Every window in `ws` is made of valid dates. */
  predicate AllValid(ws: seq<Batch>) {
    ws == [] || (AllValid(ws[..|ws| - 1]) && ValidBatch(ws[|ws| - 1]))
  }

  lemma {:induction false} AllValidOf(ws: seq<Batch>)
    requires forall k :: 0 <= k < |ws| ==> Valid(ws[k].start) && Valid(ws[k].end)
    ensures AllValid(ws)
  {
    if ws != [] {
      AllValidOf(ws[..|ws| - 1]);
    }
  }

  /** A window as the script passes it on: its first and last day. */
  function Print(b: Batch): Range
    requires ValidBatch(b)
  {
    (FormatIso(b.start), FormatIso(b.end))
  }

  /** The windows as the script passes them on, one by one. */
  function Printed(ws: seq<Batch>): (r: seq<Range>)
    requires AllValid(ws)
    ensures |r| == |ws|
  {
    if ws == [] then [] else Printed(ws[..|ws| - 1]) + [Print(ws[|ws| - 1])]
  }

  lemma {:induction false} PrintedSnoc(ws: seq<Batch>, b: Batch, range: Range)
    requires AllValid(ws) && ValidBatch(b) && range == Print(b)
    ensures AllValid(ws + [b])
    ensures Printed(ws + [b]) == Printed(ws) + [range]
  {
    assert (ws + [b])[..|ws|] == ws;
  }

  /** `totalBatches`, the count the script prints beside each window. */
  function TotalBatches(days: int, size: int): int
    requires days >= 0 && size >= 1
  {
    CeilDiv(days, size)
  }

  /** The number of windows the loop visits over `days` days before
      today: the range holds `days + 1` days, today included. */
  function BatchCount(days: int, size: int): int
    requires days >= 0 && size >= 1
  {
    CeilDiv(days + 1, size)
  }

  /** Over `days` days the loop visits `BatchCount(days, size)` windows. */
  lemma {:induction false} WindowsOverDays(today: Date, days: int, size: int)
    requires Valid(today) && days >= 0 && size >= 1
    ensures |Windows(today, AddDays(today, -days), size)| == BatchCount(days, size)
  {
    var overall := AddDays(today, -days);
    AddDaysNumber(today, -days);
    if Earlier(today, overall) {
      EarlierIsSmaller(today, overall);
    }
    WindowsCount(today, overall, size);
  }

  /** When `size` divides `days`, the printed count is one short: 30
      days in batches of 30 make two windows, and `totalBatches` says one. */
  lemma {:induction false} TotalBatchesShort(k: nat, size: int)
    requires size >= 1
    ensures k * size >= 0
    ensures TotalBatches(k * size, size) == k && BatchCount(k * size, size) == k + 1
  {
    if k > 0 {
      TotalBatchesShort(k - 1, size);
      assert k * size - size == (k - 1) * size;
      assert k * size + 1 - size == (k - 1) * size + 1;
    }
  }

  // ---------------------------------------------------------------------
  // Dates stay within four-digit years

  function Abs(n: int): int {
    if n < 0 then -n else n
  }

  /** A date between two others in day numbers has a year between theirs. */
  lemma {:induction false} YearBetween(lo: Date, x: Date, hi: Date)
    requires Valid(lo) && Valid(x) && Valid(hi)
    requires DayNumber(lo) <= DayNumber(x) <= DayNumber(hi)
    ensures lo.year <= x.year <= hi.year
  {
    if x.year < lo.year {
      EarlierIsSmaller(x, lo);
    }
    if hi.year < x.year {
      EarlierIsSmaller(hi, x);
    }
  }

  /** Every date the loop prints lies within `Abs(days) + size` days of
      today; these must have four-digit years for the string comparison
      to be calendar order. */
  predicate InFourDigitYears(today: Date, days: int, size: int)
    requires Valid(today)
  {
    FourDigitYear(AddDays(today, -Abs(days) - size)) && FourDigitYear(AddDays(today, Abs(days)))
  }

  lemma {:induction false} FourDigitBetween(today: Date, days: int, size: int, x: Date)
    requires Valid(today) && Valid(x) && InFourDigitYears(today, days, size)
    requires DayNumber(today) - Abs(days) - size <= DayNumber(x) <= DayNumber(today) + Abs(days)
    ensures FourDigitYear(x)
  {
    AddDaysNumber(today, -Abs(days) - size);
    AddDaysNumber(today, Abs(days));
    YearBetween(AddDays(today, -Abs(days) - size), x, AddDays(today, Abs(days)));
  }

  /** The dates one turn of the loop handles have four-digit years. */
  lemma {:induction false} TurnYears(today: Date, days: int, size: int, cur: Date)
    requires Valid(today) && Valid(cur) && size >= 1 && InFourDigitYears(today, days, size)
    requires DayNumber(today) - Abs(days) <= DayNumber(cur) <= DayNumber(today)
    ensures FourDigitYear(cur) && FourDigitYear(AddDays(cur, 1 - size)) && FourDigitYear(AddDays(today, -days))
  {
    AddDaysNumber(today, -days);
    AddDaysNumber(cur, 1 - size);
    FourDigitBetween(today, days, size, cur);
    FourDigitBetween(today, days, size, AddDays(cur, 1 - size));
    FourDigitBetween(today, days, size, AddDays(today, -days));
  }

  /** One turn of the loop on the printed dates is one window on the
      calendar: the start `size - 1` days back ... */
  lemma {:induction false} TurnStart(today: Date, days: int, size: int, cur: Date)
    requires Valid(today) && Valid(cur) && size >= 1 && InFourDigitYears(today, days, size)
    requires DayNumber(today) - Abs(days) <= DayNumber(cur) <= DayNumber(today)
    ensures AddDaysToDate(FormatIso(cur), -size + 1) == FormatIso(AddDays(cur, 1 - size))
  {
    TurnYears(today, days, size, cur);
    ShiftFourDigit(cur, 1 - size);
  }

  /** ... clamped when it falls before the overall start ... */
  lemma {:induction false} TurnClamp(today: Date, days: int, size: int, cur: Date)
    requires Valid(today) && Valid(cur) && size >= 1 && InFourDigitYears(today, days, size)
    requires DayNumber(today) - Abs(days) <= DayNumber(cur) <= DayNumber(today)
    ensures LexLess(FormatIso(AddDays(cur, 1 - size)), FormatIso(AddDays(today, -days))) <==>
      Earlier(AddDays(cur, 1 - size), AddDays(today, -days))
  {
    TurnYears(today, days, size, cur);
    IsoOrder(AddDays(cur, 1 - size), AddDays(today, -days));
  }

  /** ... and the last window once it starts on or before the overall
      start. */
  lemma {:induction false} TurnStop(today: Date, days: int, size: int, cur: Date)
    requires Valid(today) && Valid(cur) && size >= 1 && InFourDigitYears(today, days, size)
    requires DayNumber(today) - Abs(days) <= DayNumber(cur) <= DayNumber(today)
    ensures var overall := AddDays(today, -days);
      LexLess(FormatIso(overall), FormatIso(FirstStart(cur, overall, size))) <==> !IsLast(cur, overall, size)
  {
    TurnYears(today, days, size, cur);
    var overall := AddDays(today, -days);
    IsoOrder(overall, FirstStart(cur, overall, size));
  }

  /** The overall start, on the printed dates. */
  lemma {:induction false} OverallStart(today: Date, days: int, size: int)
    requires Valid(today) && size >= 1 && InFourDigitYears(today, days, size)
    ensures AddDaysToDate(FormatIso(today), -days) == FormatIso(AddDays(today, -days))
  {
    TurnYears(today, days, size, today);
    ShiftFourDigit(today, -days);
  }

  /** When the window is not the last, the loop goes on from the day
      before its start, which stays within range and comes before `cur`. */
  lemma {:induction false} NextTurn(today: Date, days: int, size: int, cur: Date)
    requires Valid(today) && Valid(cur) && size >= 1
    requires DayNumber(today) - Abs(days) <= DayNumber(cur) <= DayNumber(today)
    requires !IsLast(cur, AddDays(today, -days), size)
    ensures var start := FirstStart(cur, AddDays(today, -days), size);
      start == AddDays(cur, 1 - size) &&
      DayNumber(today) - Abs(days) <= DayNumber(PrevDay(start)) < DayNumber(cur)
  {
    var overall := AddDays(today, -days);
    var start := FirstStart(cur, overall, size);
    AddDaysNumber(today, -days);
    AddDaysNumber(cur, 1 - size);
    PrevDayNumber(start);
    OrderByNumber(overall, start);
  }

  /** The day before a window's start, on the printed dates. */
  lemma {:induction false} NextText(today: Date, days: int, size: int, cur: Date)
    requires Valid(today) && Valid(cur) && size >= 1 && InFourDigitYears(today, days, size)
    requires DayNumber(today) - Abs(days) <= DayNumber(cur) <= DayNumber(today)
    ensures var start := AddDays(cur, 1 - size);
      AddDaysToDate(FormatIso(start), -1) == FormatIso(PrevDay(start))
  {
    TurnYears(today, days, size, cur);
    var start := AddDays(cur, 1 - size);
    AddDaysNumber(cur, 1 - size);
    AddDaysNumber(start, -1);
    FourDigitBetween(today, days, size, AddDays(start, -1));
    assert AddDays(start, -1) == PrevDay(start);
    ShiftFourDigit(start, -1);
  }

  /** The windows from `cur` are its own window, then, unless it is the
      last, the windows from the day before its start. */
  lemma {:induction false} WindowsStep(cur: Date, overall: Date, size: int)
    requires Valid(cur) && Valid(overall) && size >= 1
    ensures IsLast(cur, overall, size) ==>
      Windows(cur, overall, size) == [Batch(FirstStart(cur, overall, size), cur)]
    ensures !IsLast(cur, overall, size) ==>
      Windows(cur, overall, size) ==
        [Batch(FirstStart(cur, overall, size), cur)] + Windows(PrevDay(FirstStart(cur, overall, size)), overall, size)
  {
  }

  /** Past a window that is not the last, the windows still to visit are
      those from the day before its start. */
  lemma {:induction false} WindowsNext(all: seq<Batch>, done: seq<Batch>, cur: Date, overall: Date, size: int)
    requires Valid(cur) && Valid(overall) && size >= 1
    requires !IsLast(cur, overall, size)
    requires all == done + Windows(cur, overall, size)
    ensures all == (done + [Batch(FirstStart(cur, overall, size), cur)]) +
      Windows(PrevDay(FirstStart(cur, overall, size)), overall, size)
  {
    WindowsStep(cur, overall, size);
    var start := FirstStart(cur, overall, size);
    Regroup(all, done, Batch(start, cur), Windows(cur, overall, size), Windows(PrevDay(start), overall, size));
  }

  lemma {:induction false} Regroup<T>(all: seq<T>, done: seq<T>, x: T, rest: seq<T>, tail: seq<T>)
    requires all == done + rest && rest == [x] + tail
    ensures all == (done + [x]) + tail
  {
  }

  // ---------------------------------------------------------------------
  // What the windows store

  function StoredOver(table: map<string, Row>, ranges: seq<Range>,
                      fetch: (string, string) -> seq<FetchResult>,
                      detailOf: string -> Option<Details>): map<string, Row>
    requires forall s, e :: Ends(fetch(s, e))
  {
    if ranges == [] then table
    else
      var r := ranges[|ranges| - 1];
      StoreAll(StoredOver(table, ranges[..|ranges| - 1], fetch, detailOf),
               Completed(Gathered(fetch(r.0, r.1)), detailOf))
  }

  function StoredCount(ranges: seq<Range>, fetch: (string, string) -> seq<FetchResult>): nat
    requires forall s, e :: Ends(fetch(s, e))
  {
    if ranges == [] then 0
    else
      var r := ranges[|ranges| - 1];
      StoredCount(ranges[..|ranges| - 1], fetch) + |DescribedOnes(Gathered(fetch(r.0, r.1)))|
  }

  lemma {:induction false} StoredStep(table: map<string, Row>, ranges: seq<Range>, startDate: string, endDate: string,
                   fetch: (string, string) -> seq<FetchResult>, detailOf: string -> Option<Details>)
    requires forall s, e :: Ends(fetch(s, e))
    ensures StoredOver(table, ranges + [(startDate, endDate)], fetch, detailOf) ==
      StoreAll(StoredOver(table, ranges, fetch, detailOf), Completed(Gathered(fetch(startDate, endDate)), detailOf))
    ensures StoredCount(ranges + [(startDate, endDate)], fetch) ==
      StoredCount(ranges, fetch) + |DescribedOnes(Gathered(fetch(startDate, endDate)))|
  {
    assert (ranges + [(startDate, endDate)])[..|ranges|] == ranges;
  }

  /** `processDateRange` on one window: the window's logs are added to
      what the earlier windows stored, and the count to their total. */
  method StoreBatch(table: ChangeLogTable, ghost ranges: seq<Range>, startDate: string, endDate: string,
                    fetch: (string, string) -> seq<FetchResult>, detailOf: string -> Option<Details>, total: nat)
    returns (stored: nat)
    requires forall s, e :: Ends(fetch(s, e))
    requires table.rows == StoredOver(map[], ranges, fetch, detailOf) && total == StoredCount(ranges, fetch)
    modifies table
    ensures table.rows == StoredOver(map[], ranges + [(startDate, endDate)], fetch, detailOf)
    ensures total + stored == StoredCount(ranges + [(startDate, endDate)], fetch)
  {
    stored := table.ProcessDateRange(fetch(startDate, endDate), detailOf);
    StoredStep(map[], ranges, startDate, endDate, fetch, detailOf);
  }

  /** The first day of the window ending on `currentEndDate`, on the
      printed dates: `size - 1` days back, clamped to the overall start;
      the window is the last one exactly when the overall start does not
      come before it. */
  method WindowStart(currentEndDate: string, overallStartDate: string, size: int,
                     ghost today: Date, ghost days: int, ghost cur: Date) returns (batchStartDate: string)
    requires Valid(today) && Valid(cur) && size >= 1 && InFourDigitYears(today, days, size)
    requires DayNumber(today) - Abs(days) <= DayNumber(cur) <= DayNumber(today)
    requires currentEndDate == FormatIso(cur) && overallStartDate == FormatIso(AddDays(today, -days))
    ensures batchStartDate == FormatIso(FirstStart(cur, AddDays(today, -days), size))
    ensures LexLess(overallStartDate, batchStartDate) <==> !IsLast(cur, AddDays(today, -days), size)
  {
    TurnStart(today, days, size, cur);
    TurnClamp(today, days, size, cur);
    TurnStop(today, days, size, cur);
    batchStartDate := AddDaysToDate(currentEndDate, -size + 1);
    if LexLess(batchStartDate, overallStartDate) {
      batchStartDate := overallStartDate;
    }
  }

  /** The day before the start of a window that is not the last, on the
      printed dates; it lies in the range and before `cur`. */
  method NextEnd(batchStartDate: string, ghost today: Date, ghost days: int, size: int, ghost cur: Date)
    returns (currentEndDate: string)
    requires Valid(today) && Valid(cur) && size >= 1 && InFourDigitYears(today, days, size)
    requires DayNumber(today) - Abs(days) <= DayNumber(cur) <= DayNumber(today)
    requires !IsLast(cur, AddDays(today, -days), size)
    requires batchStartDate == FormatIso(FirstStart(cur, AddDays(today, -days), size))
    ensures var start := FirstStart(cur, AddDays(today, -days), size);
      currentEndDate == FormatIso(PrevDay(start)) &&
      DayNumber(today) - Abs(days) <= DayNumber(PrevDay(start)) < DayNumber(cur)
  {
    NextTurn(today, days, size, cur);
    NextText(today, days, size, cur);
    currentEndDate := AddDaysToDate(batchStartDate, -1);
  }

  /** `main` after opening the database: empty the table, then process the
      windows from `today` back `days` days, batch by batch. `fetch` gives
      the pages Panorama answers for a range and `detailOf` the details of
      a log. Returns the windows visited, the last batch number and the
      total stored. */
  method Populate(table: ChangeLogTable, today: Date, days: int, size: int,
              fetch: (string, string) -> seq<FetchResult>, detailOf: string -> Option<Details>)
    returns (ranges: seq<Range>, batchNumber: nat, totalStored: nat)
    requires Valid(today) && size >= 1 && InFourDigitYears(today, days, size)
    requires forall s, e :: Ends(fetch(s, e))
    modifies table
    ensures var ws := Windows(today, AddDays(today, -days), size);
      AllValid(ws) && ranges == Printed(ws)
    ensures batchNumber == |ranges|
    ensures table.rows == StoredOver(map[], ranges, fetch, detailOf)
    ensures totalStored == StoredCount(ranges, fetch)
  {
    table.Truncate();
    var endDate := FormatIso(today);
    ghost var overall := AddDays(today, -days);
    OverallStart(today, days, size);
    var overallStartDate := AddDaysToDate(endDate, -days);
    ghost var all := Windows(today, overall, size);
    AllValidOf(all);
    totalStored := 0;
    var currentEndDate := endDate;
    batchNumber := 1;
    ranges := [];
    ghost var cur := today;
    ghost var done: seq<Batch> := [];
    while true
      invariant Valid(cur) && currentEndDate == FormatIso(cur)
      invariant DayNumber(today) - Abs(days) <= DayNumber(cur) <= DayNumber(today)
      invariant all == done + Windows(cur, overall, size)
      invariant AllValid(done)
      invariant ranges == Printed(done)
      invariant batchNumber == |ranges| + 1
      invariant table.rows == StoredOver(map[], ranges, fetch, detailOf)
      invariant totalStored == StoredCount(ranges, fetch)
      decreases DayNumber(cur) - (DayNumber(today) - Abs(days))
    {
      ghost var start := FirstStart(cur, overall, size);
      var batchStartDate := WindowStart(currentEndDate, overallStartDate, size, today, days, cur);
      var batchStored := StoreBatch(table, ranges, batchStartDate, currentEndDate, fetch, detailOf, totalStored);
      totalStored := totalStored + batchStored;
      var range := (batchStartDate, currentEndDate);
      ghost var b := Batch(start, cur);
      PrintedSnoc(done, b, range);
      ranges := ranges + [range];
      if !LexLess(overallStartDate, batchStartDate) {
        done := done + [b];
        break;
      }
      WindowsNext(all, done, cur, overall, size);
      done := done + [b];
      currentEndDate := NextEnd(batchStartDate, today, days, size, cur);
      cur := PrevDay(start);
      batchNumber := batchNumber + 1;
    }
  }
}
