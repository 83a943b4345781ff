/** The log table of the main page: the summary statistics over the
    fetched logs, the column order changed by drag and drop, and the sort
    chosen by clicking a header. */
module TableView {
  import opened JsString
  import opened Types

  // ---------------------------------------------------------------------
  // Columns

  function Col(id: LogField, labelText: string, visible: bool, width: int, mono: bool): ColumnDef {
    ColumnDef(id, labelText, visible, Some(width), if mono then Some(true) else None)
  }

  /** `INITIAL_COLUMNS`. */
  const InitialColumns: seq<ColumnDef> := [
    Col(ReceiveTime, "Receive Time", true, 180, false),
    Col(DeviceName, "Device", true, 200, false),
    Col(SrcZone, "Source Zone", true, 120, false),
    Col(SrcIp, "Source IP", true, 140, true),
    Col(SrcPort, "Src Port", false, 90, true),
    Col(DstZone, "Dest Zone", true, 120, false),
    Col(DstIp, "Dest IP", true, 140, true),
    Col(DstPort, "# Dst Port", true, 90, true),
    Col(App, "Application", true, 130, false),
    Col(IpProtocol, "IP Proto", true, 80, false),
    Col(Action, "Action", true, 150, false),
    Col(SessionEndReason, "End Reason", true, 140, false),
    Col(Rule, "Rule", true, 150, false),
    Col(Bytes, "Bytes", true, 100, false),
    Col(Packets, "Packets", true, 100, false),
    Col(IngressInterface, "Ingress Int", false, 140, false),
    Col(EgressInterface, "Egress Int", false, 140, false),
    Col(PacketsSent, "Pkts Sent", false, 100, false),
    Col(PacketsReceived, "Pkts Rcvd", false, 100, false)]

  /** `cols.findIndex(c => c.id === id)`. */
  function FindIndex(cols: seq<ColumnDef>, id: LogField): (i: int)
    ensures -1 <= i < |cols|
    ensures i >= 0 ==> cols[i].id == id
  {
    if cols == [] then -1
    else if cols[0].id == id then 0
    else
      var i := FindIndex(cols[1..], id);
      if i < 0 then -1 else i + 1
  }

  /** The index found is the first with that id, and -1 means there is none. */
  lemma {:induction false} FindIndexFirst(cols: seq<ColumnDef>, id: LogField)
    ensures forall j :: 0 <= j < |cols| && (FindIndex(cols, id) < 0 || j < FindIndex(cols, id)) ==> cols[j].id != id
  {
    if cols != [] && cols[0].id != id {
      FindIndexFirst(cols[1..], id);
      forall j | 1 <= j < |cols| ensures cols[j] == cols[1..][j - 1] { }
    }
  }

  /** The columns after a drop of the dragged column onto `target`: taken
      out of its place and put back next to the target. */
  function Dropped(cols: seq<ColumnDef>, dragged: Option<LogField>, target: LogField, dropAfter: bool): (r: seq<ColumnDef>)
    ensures |r| == |cols|
    ensures dragged.None? || dragged == Some(target) || FindIndex(cols, dragged.value) < 0 ==> r == cols
  {
    if dragged.None? || dragged.value == target then cols
    else
      var dragIndex := FindIndex(cols, dragged.value);
      if dragIndex < 0 then cols
      else Place(cols[..dragIndex] + cols[dragIndex + 1..], cols[dragIndex], target, dropAfter)
  }

  /** Inserts x just before the target, or just after it when the pointer
      is past the target's middle; at the front when the target is not
      there (`findIndex` gives -1, clamped to 0). */
  function Place(rest: seq<ColumnDef>, x: ColumnDef, target: LogField, dropAfter: bool): (r: seq<ColumnDef>)
    ensures |r| == |rest| + 1
  {
    var found := FindIndex(rest, target);
    var at := if dropAfter then found + 1 else found;
    var at' := if at < 0 then 0 else at;
    rest[..at'] + [x] + rest[at'..]
  }

  lemma {:induction false} SpliceIn(rest: seq<ColumnDef>, at: nat, x: ColumnDef)
    requires at <= |rest|
    ensures multiset(rest[..at] + [x] + rest[at..]) == multiset(rest) + multiset{x}
    ensures var r := rest[..at] + [x] + rest[at..];
            r[at] == x && r[..at] + r[at + 1..] == rest &&
            (at < |rest| ==> r[at + 1] == rest[at]) && (at > 0 ==> r[at - 1] == rest[at - 1])
  {
    var r := rest[..at] + [x] + rest[at..];
    assert rest == rest[..at] + rest[at..];
    assert r[..at] == rest[..at];
    assert r[at + 1..] == rest[at..];
  }

  lemma {:induction false} PlaceMultiset(rest: seq<ColumnDef>, x: ColumnDef, target: LogField, dropAfter: bool)
    ensures multiset(Place(rest, x, target, dropAfter)) == multiset(rest) + multiset{x}
  {
    var found := FindIndex(rest, target);
    var at := if dropAfter then found + 1 else found;
    SpliceIn(rest, if at < 0 then 0 else at, x);
  }

  lemma {:induction false} RemoveMultiset(s: seq<ColumnDef>, d: nat)
    requires d < |s|
    ensures multiset(s[..d] + s[d + 1..]) + multiset{s[d]} == multiset(s)
  {
    assert s == s[..d] + [s[d]] + s[d + 1..];
  }

  /** A drop rearranges the columns and loses or adds none. */
  lemma {:induction false} DroppedPermutes(cols: seq<ColumnDef>, dragged: Option<LogField>, target: LogField, dropAfter: bool)
    ensures multiset(Dropped(cols, dragged, target, dropAfter)) == multiset(cols)
  {
    if dragged.Some? && dragged.value != target && FindIndex(cols, dragged.value) >= 0 {
      var d := FindIndex(cols, dragged.value);
      PlaceMultiset(cols[..d] + cols[d + 1..], cols[d], target, dropAfter);
      RemoveMultiset(cols, d);
    }
  }

  /** r is rest with x put in at index at. */
  predicate PutAt(r: seq<ColumnDef>, rest: seq<ColumnDef>, at: int, x: ColumnDef) {
    0 <= at < |r| && r[at] == x && r[..at] + r[at + 1..] == rest
  }

  /** The entry at index at has the target right after it, or right before
      it for `dropAfter`. */
  predicate NextTo(r: seq<ColumnDef>, at: int, target: LogField, dropAfter: bool) {
    if dropAfter then 0 < at <= |r| && r[at - 1].id == target
    else 0 <= at < |r| - 1 && r[at + 1].id == target
  }

  /** Next to a target that is there: x sits right before it, or right
      after it for `dropAfter`, and the others keep their order. */
  lemma {:induction false} PlaceNextToTarget(rest: seq<ColumnDef>, x: ColumnDef, target: LogField, dropAfter: bool)
    requires FindIndex(rest, target) >= 0
    ensures var t := FindIndex(rest, target);
            var at := if dropAfter then t + 1 else t;
            var r := Place(rest, x, target, dropAfter);
            PutAt(r, rest, at, x) && NextTo(r, at, target, dropAfter)
  {
    var t := FindIndex(rest, target);
    SpliceIn(rest, if dropAfter then t + 1 else t, x);
  }

  /** A drop that moves something takes the dragged column out and places it. */
  lemma {:induction false} DroppedPlaces(cols: seq<ColumnDef>, dragged: LogField, target: LogField, dropAfter: bool)
    requires dragged != target
    requires FindIndex(cols, dragged) >= 0
    ensures var d := FindIndex(cols, dragged);
            Dropped(cols, Some(dragged), target, dropAfter) == Place(cols[..d] + cols[d + 1..], cols[d], target, dropAfter)
  {
  }

  /** When the target is among the other columns, the moved column ends up
      next to it: right before it, or right after it for `dropAfter`; the
      other columns keep their relative order. */
  lemma {:induction false} DroppedNextToTarget(cols: seq<ColumnDef>, dragged: LogField, target: LogField, dropAfter: bool)
    requires dragged != target
    requires FindIndex(cols, dragged) >= 0
    ensures var d := FindIndex(cols, dragged);
            var rest := cols[..d] + cols[d + 1..];
            var t := FindIndex(rest, target);
            var at := if dropAfter then t + 1 else t;
            var r := Dropped(cols, Some(dragged), target, dropAfter);
            t >= 0 ==> PutAt(r, rest, at, cols[d]) && NextTo(r, at, target, dropAfter)
  {
    var d := FindIndex(cols, dragged);
    var rest := cols[..d] + cols[d + 1..];
    DroppedPlaces(cols, dragged, target, dropAfter);
    var t := FindIndex(rest, target);
    if t >= 0 {
      PlaceNextToTarget(rest, cols[d], target, dropAfter);
      var r := Place(rest, cols[d], target, dropAfter);
      var at := if dropAfter then t + 1 else t;
      assert PutAt(r, rest, at, cols[d]) && NextTo(r, at, target, dropAfter);
    }
  }

  // ---------------------------------------------------------------------
  // Sorting

  datatype SortDir = Asc | Desc

  /** `valA < valB` for two values of the same column. */
  predicate KeyLess(x: FieldValue, y: FieldValue) {
    match (x, y)
    case (Num(a), Num(b)) => a < b
    case (Str(a), Str(b)) => LexLess(a, b)
    case _ => false
  }

  /** The comparator returns a negative number for (a, b). */
  predicate Precedes(a: TrafficLog, b: TrafficLog, col: LogField, dir: SortDir) {
    if dir == Asc then KeyLess(Get(a, col), Get(b, col)) else KeyLess(Get(b, col), Get(a, col))
  }

  predicate SortedBy(s: seq<TrafficLog>, col: LogField, dir: SortDir) {
    forall i, j :: 0 <= i < j < |s| ==> !Precedes(s[j], s[i], col, dir)
  }

  /** Puts x before the first element that does not strictly precede it. */
  function Insert(x: TrafficLog, s: seq<TrafficLog>, col: LogField, dir: SortDir): (r: seq<TrafficLog>)
    ensures multiset(r) == multiset(s) + multiset{x}
  {
    if s == [] || !Precedes(s[0], x, col, dir) then [x] + s
    else
      assert s == [s[0]] + s[1..];
      [s[0]] + Insert(x, s[1..], col, dir)
  }

  /** `[...logs].sort(comparator)`: a stable sort of a copy. */
  function SortLogs(logs: seq<TrafficLog>, col: LogField, dir: SortDir): seq<TrafficLog> {
    if logs == [] then [] else Insert(logs[0], SortLogs(logs[1..], col, dir), col, dir)
  }

  lemma {:induction false} KeyOrder(x: FieldValue, y: FieldValue, z: FieldValue)
    requires x.Num? == y.Num? == z.Num?
    ensures KeyLess(x, y) ==> !KeyLess(y, x)
    ensures !KeyLess(x, y) && !KeyLess(y, z) ==> !KeyLess(x, z)
  {
    if x.Str? {
      if LexLess(x.s, y.s) && LexLess(y.s, x.s) {
        LexLessTransitive(x.s, y.s, x.s);
        LexLessIrreflexive(x.s);
      }
      if !LexLess(x.s, y.s) && !LexLess(y.s, z.s) && LexLess(x.s, z.s) {
        LexLessTotal(x.s, y.s);
        LexLessTotal(y.s, z.s);
        if y.s != x.s && z.s != y.s {
          LexLessTransitive(z.s, y.s, x.s);
          LexLessTransitive(x.s, z.s, x.s);
          LexLessIrreflexive(x.s);
        }
      }
    }
  }

  /** The comparator is a strict weak order on the logs of one column. */
  lemma {:induction false} PrecedesOrder(a: TrafficLog, b: TrafficLog, c: TrafficLog, col: LogField, dir: SortDir)
    ensures Precedes(a, b, col, dir) ==> !Precedes(b, a, col, dir)
    ensures !Precedes(a, b, col, dir) && !Precedes(b, c, col, dir) ==> !Precedes(a, c, col, dir)
  {
    if dir == Asc {
      KeyOrder(Get(a, col), Get(b, col), Get(c, col));
    } else {
      KeyOrder(Get(b, col), Get(a, col), Get(c, col));
      KeyOrder(Get(c, col), Get(b, col), Get(a, col));
    }
  }

  /** A sorted sequence stays sorted with a head that no element precedes. */
  lemma {:induction false} ConsSorted(h: TrafficLog, t: seq<TrafficLog>, col: LogField, dir: SortDir)
    requires SortedBy(t, col, dir)
    requires forall j :: 0 <= j < |t| ==> !Precedes(t[j], h, col, dir)
    ensures SortedBy([h] + t, col, dir)
  {
    var r := [h] + t;
    forall i, j | 0 <= i < j < |r| ensures !Precedes(r[j], r[i], col, dir) {
      assert r[j] == t[j - 1];
      if i > 0 {
        assert r[i] == t[i - 1];
      }
    }
  }

  lemma {:induction false} InsertElements(x: TrafficLog, s: seq<TrafficLog>, col: LogField, dir: SortDir)
    ensures forall j :: 0 <= j < |Insert(x, s, col, dir)| ==>
      Insert(x, s, col, dir)[j] == x || Insert(x, s, col, dir)[j] in s
  {
    var r := Insert(x, s, col, dir);
    forall j | 0 <= j < |r| ensures r[j] == x || r[j] in s {
      assert r[j] in multiset(r);
    }
  }

  lemma {:induction false} InsertSorted(x: TrafficLog, s: seq<TrafficLog>, col: LogField, dir: SortDir)
    requires SortedBy(s, col, dir)
    ensures SortedBy(Insert(x, s, col, dir), col, dir)
    decreases |s|
  {
    if s == [] || !Precedes(s[0], x, col, dir) {
      forall j | 0 <= j < |s| ensures !Precedes(s[j], x, col, dir) {
        if j > 0 {
          PrecedesOrder(s[j], s[0], x, col, dir);
        }
      }
      ConsSorted(x, s, col, dir);
    } else {
      var t := s[1..];
      InsertSorted(x, t, col, dir);
      var tail := Insert(x, t, col, dir);
      InsertElements(x, t, col, dir);
      forall j | 0 <= j < |tail| ensures !Precedes(tail[j], s[0], col, dir) {
        if tail[j] == x {
          PrecedesOrder(s[0], x, x, col, dir);
        } else {
          var k :| 0 <= k < |t| && t[k] == tail[j];
          assert s[k + 1] == tail[j];
        }
      }
      assert SortedBy(t, col, dir) by {
        forall i, j | 0 <= i < j < |t| ensures !Precedes(t[j], t[i], col, dir) {
          assert t[i] == s[i + 1] && t[j] == s[j + 1];
        }
      }
      ConsSorted(s[0], tail, col, dir);
    }
  }

  /** The sorted copy is ordered by the column in the chosen direction. */
  lemma {:induction false} SortLogsSorted(logs: seq<TrafficLog>, col: LogField, dir: SortDir)
    ensures SortedBy(SortLogs(logs, col, dir), col, dir)
  {
    if logs != [] {
      SortLogsSorted(logs[1..], col, dir);
      InsertSorted(logs[0], SortLogs(logs[1..], col, dir), col, dir);
    }
  }

  /** The sorted copy holds the same logs, each as often. */
  lemma {:induction false} SortLogsPermutes(logs: seq<TrafficLog>, col: LogField, dir: SortDir)
    ensures multiset(SortLogs(logs, col, dir)) == multiset(logs)
  {
    if logs != [] {
      SortLogsPermutes(logs[1..], col, dir);
      assert logs == [logs[0]] + logs[1..];
      assert multiset(logs) == multiset{logs[0]} + multiset(logs[1..]);
    }
  }

  /** A header click: that column becomes the sort column, descending only
      when it was already the sort column in ascending order. */
  function NextSort(sortCol: LogField, sortDir: SortDir, clicked: LogField): (r: (LogField, SortDir))
    ensures r.0 == clicked
    ensures r.1 == Desc <==> sortCol == clicked && sortDir == Asc
  {
    (clicked, if sortCol == clicked && sortDir == Asc then Desc else Asc)
  }

  /** Clicking the same header again flips the direction. */
  lemma {:induction false} NextSortAlternates(sortCol: LogField, sortDir: SortDir, clicked: LogField)
    ensures var (c, d) := NextSort(sortCol, sortDir, clicked);
            NextSort(c, d, clicked).1 != d
  {
  }

  // ---------------------------------------------------------------------
  // Statistics

  function SumBytes(logs: seq<TrafficLog>): int {
    if logs == [] then 0 else SumBytes(logs[..|logs| - 1]) + logs[|logs| - 1].bytes
  }

  function SumPackets(logs: seq<TrafficLog>): int {
    if logs == [] then 0 else SumPackets(logs[..|logs| - 1]) + logs[|logs| - 1].packets
  }

  /** The number of logs with the given action. */
  function Count(logs: seq<TrafficLog>, action: string): nat {
    if logs == [] then 0
    else Count(logs[..|logs| - 1], action) + if logs[|logs| - 1].action == action then 1 else 0
  }

  /** The count held for `name` in a distribution. */
  function CountIn(dist: seq<ActionCount>, name: string): nat {
    if dist == [] then 0
    else (if dist[0].name == name then dist[0].count else 0) + CountIn(dist[1..], name)
  }

  function Total(dist: seq<ActionCount>): nat {
    if dist == [] then 0 else dist[0].count + Total(dist[1..])
  }

  function Names(dist: seq<ActionCount>): set<string> {
    if dist == [] then {} else {dist[0].name} + Names(dist[1..])
  }

  /** No name is held by two entries. */
  predicate DistinctNames(dist: seq<ActionCount>) {
    dist == [] || (dist[0].name !in Names(dist[1..]) && DistinctNames(dist[1..]))
  }

  /** `actionCounts[name] = (actionCounts[name] || 0) + 1` on a dictionary
      kept in insertion order. */
  function Bump(dist: seq<ActionCount>, name: string): seq<ActionCount> {
    if dist == [] then [ActionCount(name, 1)]
    else if dist[0].name == name then [ActionCount(name, dist[0].count + 1)] + dist[1..]
    else [dist[0]] + Bump(dist[1..], name)
  }

  /** The dictionary after counting every log, in first-seen order. */
  function Tally(logs: seq<TrafficLog>): seq<ActionCount> {
    if logs == [] then [] else Bump(Tally(logs[..|logs| - 1]), logs[|logs| - 1].action)
  }

  /** Bumping adds one to the count of `name` and to the total, and adds
      `name` to the names. */
  lemma {:induction false} BumpCounts(dist: seq<ActionCount>, name: string)
    ensures forall a :: CountIn(Bump(dist, name), a) == CountIn(dist, a) + if a == name then 1 else 0
    ensures Total(Bump(dist, name)) == Total(dist) + 1
    ensures Names(Bump(dist, name)) == Names(dist) + {name}
  {
    if dist != [] && dist[0].name != name {
      BumpCounts(dist[1..], name);
      var b := Bump(dist, name);
      assert b[1..] == Bump(dist[1..], name);
    } else if dist != [] {
      var b := Bump(dist, name);
      assert b[1..] == dist[1..];
    }
  }

  /** Bumping keeps the names distinct. */
  lemma {:induction false} BumpDistinct(dist: seq<ActionCount>, name: string)
    requires DistinctNames(dist)
    ensures DistinctNames(Bump(dist, name))
  {
    var b := Bump(dist, name);
    if dist != [] && dist[0].name != name {
      BumpDistinct(dist[1..], name);
      BumpCounts(dist[1..], name);
      assert b[1..] == Bump(dist[1..], name);
    } else if dist != [] {
      assert b[1..] == dist[1..];
    }
  }

  lemma {:induction false} NamesHolds(dist: seq<ActionCount>, k: nat)
    requires k < |dist|
    ensures dist[k].name in Names(dist)
    decreases k
  {
    if k > 0 {
      NamesHolds(dist[1..], k - 1);
      assert dist[1..][k - 1] == dist[k];
    }
  }

  /** With distinct names, no two entries hold the same name. */
  lemma {:induction false} DistinctNamesApart(dist: seq<ActionCount>)
    requires DistinctNames(dist)
    ensures forall i, j :: 0 <= i < j < |dist| ==> dist[i].name != dist[j].name
  {
    if dist != [] {
      var rest := dist[1..];
      DistinctNamesApart(rest);
      forall i, j | 0 <= i < j < |dist| ensures dist[i].name != dist[j].name {
        assert dist[j] == rest[j - 1];
        NamesHolds(rest, j - 1);
        if i > 0 {
          assert dist[i] == rest[i - 1];
        }
      }
    }
  }

  /** The distribution holds one entry per distinct action, each with the
      number of logs having that action, and its counts add up to the
      number of logs. */
  lemma {:induction false} TallyCounts(logs: seq<TrafficLog>)
    ensures DistinctNames(Tally(logs))
    ensures forall a :: CountIn(Tally(logs), a) == Count(logs, a)
    ensures Total(Tally(logs)) == |logs|
  {
    if logs != [] {
      var init := logs[..|logs| - 1];
      TallyCounts(init);
      BumpCounts(Tally(init), logs[|logs| - 1].action);
      BumpDistinct(Tally(init), logs[|logs| - 1].action);
    }
  }

  /** The names in the distribution are the actions of the logs. */
  lemma {:induction false} TallyNames(logs: seq<TrafficLog>)
    ensures Names(Tally(logs)) == set k | 0 <= k < |logs| :: logs[k].action
  {
    if logs != [] {
      var init := logs[..|logs| - 1];
      TallyNames(init);
      BumpCounts(Tally(init), logs[|logs| - 1].action);
      assert (set k | 0 <= k < |logs| :: logs[k].action) ==
             (set k | 0 <= k < |init| :: init[k].action) + {logs[|logs| - 1].action} by {
        forall k | 0 <= k < |init| ensures init[k] == logs[k] { }
      }
    }
  }

  /** With distinct names, the count read from an entry is its name's count. */
  lemma {:induction false} CountInEntry(dist: seq<ActionCount>, k: nat)
    requires k < |dist| && DistinctNames(dist)
    ensures CountIn(dist, dist[k].name) == dist[k].count
    decreases k
  {
    if k == 0 {
      CountInAbsent(dist[1..], dist[0].name);
    } else {
      CountInEntry(dist[1..], k - 1);
      assert dist[1..][k - 1] == dist[k];
      NamesHolds(dist[1..], k - 1);
    }
  }

  lemma {:induction false} CountInAbsent(dist: seq<ActionCount>, name: string)
    requires name !in Names(dist)
    ensures CountIn(dist, name) == 0
  {
    if dist != [] {
      CountInAbsent(dist[1..], name);
    }
  }

  /** Each entry of the distribution counts the logs with its action. */
  lemma {:induction false} TallyEntries(logs: seq<TrafficLog>)
    ensures forall k :: 0 <= k < |Tally(logs)| ==> Tally(logs)[k].count == Count(logs, Tally(logs)[k].name)
  {
    TallyCounts(logs);
    forall k | 0 <= k < |Tally(logs)| ensures Tally(logs)[k].count == Count(logs, Tally(logs)[k].name) {
      CountInEntry(Tally(logs), k);
    }
  }

  /** A step of the counting loop: the first entry with that name, if any,
      is the one incremented. */
  lemma {:induction false} BumpAt(dist: seq<ActionCount>, name: string, j: nat)
    requires j <= |dist|
    requires forall k :: 0 <= k < j ==> dist[k].name != name
    requires j < |dist| ==> dist[j].name == name
    ensures Bump(dist, name) ==
      if j < |dist| then dist[j := ActionCount(name, dist[j].count + 1)] else dist + [ActionCount(name, 1)]
  {
    if dist != [] && j > 0 {
      BumpAt(dist[1..], name, j - 1);
      if j < |dist| {
        assert dist[j := ActionCount(name, dist[j].count + 1)] ==
               [dist[0]] + dist[1..][j - 1 := ActionCount(name, dist[j].count + 1)];
      } else {
        assert dist + [ActionCount(name, 1)] == [dist[0]] + (dist[1..] + [ActionCount(name, 1)]);
      }
    } else if dist != [] {
      assert dist[0 := ActionCount(name, dist[0].count + 1)] == [ActionCount(name, dist[0].count + 1)] + dist[1..];
    }
  }

  /** `calculateLocalStats`: the two totals are reductions over the logs;
      the actions are counted one log at a time. */
  method CalculateLocalStats(logs: seq<TrafficLog>) returns (stats: LogStats)
    ensures stats == LogStats(SumBytes(logs), SumPackets(logs), Tally(logs))
  {
    var counts: seq<ActionCount> := [];
    var i := 0;
    while i < |logs|
      invariant 0 <= i <= |logs|
      invariant counts == Tally(logs[..i])
    {
      assert logs[..i + 1][..i] == logs[..i];
      counts := CountAction(counts, logs[i].action);
      i := i + 1;
    }
    assert logs[..i] == logs;
    return LogStats(SumBytes(logs), SumPackets(logs), counts);
  }

  /** `actionCounts[name] = (actionCounts[name] || 0) + 1`: find the entry
      for `name` and increment it, or add one with count 1 at the end. */
  method CountAction(counts: seq<ActionCount>, name: string) returns (r: seq<ActionCount>)
    ensures r == Bump(counts, name)
  {
    var j := 0;
    while j < |counts| && counts[j].name != name
      invariant 0 <= j <= |counts|
      invariant forall k :: 0 <= k < j ==> counts[k].name != name
    {
      j := j + 1;
    }
    BumpAt(counts, name, j);
    if j < |counts| {
      r := counts[j := ActionCount(name, counts[j].count + 1)];
    } else {
      r := counts + [ActionCount(name, 1)];
    }
  }

  // ---------------------------------------------------------------------
  // The page state

  /** The table's part of the `App` component state. */
  class TableState {
    var columns: seq<ColumnDef>
    var draggedColId: Option<LogField>
    var sortCol: LogField
    var sortDir: SortDir

    /** A fresh page with nothing saved: the initial columns, newest first. */
    constructor()
      ensures columns == InitialColumns && draggedColId == None
      ensures sortCol == ReceiveTime && sortDir == Desc
    {
      columns := InitialColumns;
      draggedColId := None;
      sortCol := ReceiveTime;
      sortDir := Desc;
    }

    method HandleResetColumns()
      modifies this
      ensures columns == InitialColumns
      ensures draggedColId == old(draggedColId) && sortCol == old(sortCol) && sortDir == old(sortDir)
    {
      columns := InitialColumns;
    }

    method HandleDragStart(id: LogField)
      modifies this
      ensures draggedColId == Some(id)
      ensures columns == old(columns) && sortCol == old(sortCol) && sortDir == old(sortDir)
    {
      draggedColId := Some(id);
    }

    method HandleDragEnd()
      modifies this
      ensures draggedColId == None
      ensures columns == old(columns) && sortCol == old(sortCol) && sortDir == old(sortDir)
    {
      draggedColId := None;
    }

    /** `handleDrop`: the early return for no drag or a drop on itself
        leaves the dragged id set. */
    method HandleDrop(targetId: LogField, dropAfter: bool)
      modifies this
      ensures columns == Dropped(old(columns), old(draggedColId), targetId, dropAfter)
      ensures draggedColId == if old(draggedColId).None? || old(draggedColId) == Some(targetId) then old(draggedColId) else None
      ensures sortCol == old(sortCol) && sortDir == old(sortDir)
    {
      if draggedColId.None? || draggedColId.value == targetId {
        return;
      }
      var newCols := columns;
      var dragIndex := FindIndex(newCols, draggedColId.value);
      if dragIndex > -1 {
        var movedItem := newCols[dragIndex];
        newCols := newCols[..dragIndex] + newCols[dragIndex + 1..];
        var targetIndex := FindIndex(newCols, targetId);
        if dropAfter {
          targetIndex := targetIndex + 1;
        }
        if targetIndex < 0 {
          targetIndex := 0;
        }
        DroppedPlaces(columns, draggedColId.value, targetId, dropAfter);
        assert newCols[..targetIndex] + [movedItem] + newCols[targetIndex..] == Place(newCols, movedItem, targetId, dropAfter);
        newCols := newCols[..targetIndex] + [movedItem] + newCols[targetIndex..];
        columns := newCols;
      }
      draggedColId := None;
    }

    method HandleHeaderClick(id: LogField)
      modifies this
      ensures (sortCol, sortDir) == NextSort(old(sortCol), old(sortDir), id)
      ensures columns == old(columns) && draggedColId == old(draggedColId)
    {
      var wasAsc := sortCol == id && sortDir == Asc;
      sortCol := id;
      sortDir := if wasAsc then Desc else Asc;
    }
  }
}
