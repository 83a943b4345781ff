/** The PAN-OS log filter built from the search form
    (`buildPaloAltoQuery`). Each clause reads `(field op value)`; the
    clauses are joined by " and " in a fixed field order. */
module PanoramaQuery {
  import opened JsString
  import opened Types

  datatype Clause = Clause(field: string, op: string, value: string, quoted: bool)

  function Render(c: Clause): string {
    "(" + c.field + " " + c.op + " " + (if c.quoted then "'" + c.value + "'" else c.value) + ")"
  }

  function RenderAll(cs: seq<Clause>): (r: seq<string>)
    ensures |r| == |cs|
  {
    if cs == [] then [] else [Render(cs[0])] + RenderAll(cs[1..])
  }

  /** The clause that is always present: only session-end logs are shown. */
  const SubtypeEnd: Clause := Clause("subtype", "eq", "end", true)

  /** The operator chosen by a negation flag. */
  function OpFor(negate: Option<bool>): string {
    if IsSet(negate) then "neq" else "eq"
  }

  /** A clause that is present only when the field is filled in. */
  function WhenFilled(value: string, c: Clause): seq<Clause> {
    if value != "" then [c] else []
  }

  function ActionClauses(action: string): seq<Clause> {
    if action == "" || action == "all" then []
    else if action == "deny_drop" then [Clause("action", "neq", "allow", true)]
    else [Clause("action", "eq", action, true)]
  }

  function TimeClauses(timeRange: string): seq<Clause> {
    if timeRange != "" && timeRange != "custom" then [Clause("receive_time", "in", timeRange, false)]
    else []
  }

  /** The clauses of the filter, in the order they are pushed: the
      segments of `Segments`, one after the other. */
  function Clauses(p: SearchParams): (cs: seq<Clause>)
    ensures |cs| >= 1 && cs[0] == SubtypeEnd
  {
    var s := Segments(p);
    assert Concat(s) == s[0] + Concat(s[1..]);
    Concat(s)
  }

  /** `buildPaloAltoQuery`: the filter string, the rendered clauses joined
      by " and ". The source pushes the rendered clauses onto a local list
      one by one; here the list is the expression `Clauses(p)`. The filter
      always begins with the subtype clause and is never empty. */
  function Query(p: SearchParams): (q: string)
    ensures StartsWith(q, "(subtype eq 'end')") && q != ""
  {
    JoinStartsWith(RenderAll(Clauses(p)), " and ");
    assert RenderAll(Clauses(p))[0] == "(subtype eq 'end')";
    Join(RenderAll(Clauses(p)), " and ")
  }

  // ---------------------------------------------------------------------
  // Properties of the filter

  lemma {:induction false} JoinStartsWith(parts: seq<string>, sep: string)
    requires |parts| >= 1
    ensures StartsWith(Join(parts, sep), parts[0])
  {
    if |parts| > 1 {
      var s := Join(parts, sep);
      assert s == parts[0] + (sep + Join(parts[1..], sep));
      assert s[..|parts[0]|] == parts[0];
    }
  }

  /** The clauses on one field, in order. */
  function On(cs: seq<Clause>, field: string): (r: seq<Clause>)
    ensures |r| <= |cs|
    ensures forall k :: 0 <= k < |r| ==> r[k].field == field
  {
    if cs == [] then []
    else (if cs[0].field == field then [cs[0]] else []) + On(cs[1..], field)
  }

  lemma {:induction false} OnAppend(a: seq<Clause>, b: seq<Clause>, field: string)
    ensures On(a + b, field) == On(a, field) + On(b, field)
  {
    if a != [] {
      assert (a + b)[1..] == a[1..] + b;
      OnAppend(a[1..], b, field);
    } else {
      assert a + b == b;
    }
  }

  /** The eight segments of `Clauses` and the fields of their clauses. */
  function Segments(p: SearchParams): seq<seq<Clause>> {
    [[SubtypeEnd],
     WhenFilled(p.srcIp, Clause("addr.src", OpFor(p.isNotSrcIp), p.srcIp, true)),
     WhenFilled(p.dstIp, Clause("addr.dst", OpFor(p.isNotDstIp), p.dstIp, true)),
     WhenFilled(p.srcZone, Clause("zone.src", "eq", p.srcZone, true)),
     WhenFilled(p.dstZone, Clause("zone.dst", "eq", p.dstZone, true)),
     WhenFilled(p.dstPort, Clause("port.dst", OpFor(p.isNotDstPort), p.dstPort, false)),
     ActionClauses(p.action),
     TimeClauses(p.timeRange)]
  }

  /** The field order of the filter. */
  const FieldOrder: seq<string> :=
    ["subtype", "addr.src", "addr.dst", "zone.src", "zone.dst", "port.dst", "action", "receive_time"]

  function Concat(ss: seq<seq<Clause>>): seq<Clause> {
    if ss == [] then [] else ss[0] + Concat(ss[1..])
  }

  /** The eight field names are distinct. */
  lemma {:induction false} FieldOrderDistinct()
    ensures forall j, k :: 0 <= j < 8 && 0 <= k < 8 && j != k ==> FieldOrder[j] != FieldOrder[k]
  {
  }

  /** `Rank` numbers the fields in `FieldOrder`. */
  lemma {:induction false} FieldOrderRanks()
    ensures forall j :: 0 <= j < 8 ==> Rank(FieldOrder[j]) == j
  {
  }

  /** Segment k holds only clauses on field `FieldOrder[k]`. */
  lemma {:induction false} SegmentFields(p: SearchParams, k: int)
    requires 0 <= k < 8
    ensures forall c :: c in Segments(p)[k] ==> c.field == FieldOrder[k]
  {
  }

  lemma {:induction false} OnConcat(ss: seq<seq<Clause>>, fields: seq<string>, k: int)
    requires |ss| == |fields| && 0 <= k < |ss|
    requires forall j, c :: 0 <= j < |ss| && c in ss[j] ==> c.field == fields[j]
    requires forall j :: 0 <= j < |ss| && j != k ==> fields[j] != fields[k]
    ensures On(Concat(ss), fields[k]) == ss[k]
  {
    OnAppend(ss[0], Concat(ss[1..]), fields[k]);
    OnOwn(ss[0], fields[0]);
    if k == 0 {
      OnNone(Concat(ss[1..]), fields[1..], ss[1..], fields[0]);
    } else {
      OnOther(ss[0], fields[0], fields[k]);
      OnConcat(ss[1..], fields[1..], k - 1);
    }
  }

  lemma {:induction false} OnOwn(cs: seq<Clause>, field: string)
    requires forall c :: c in cs ==> c.field == field
    ensures On(cs, field) == cs
  {
    if cs != [] {
      assert cs[0] in cs;
      OnOwn(cs[1..], field);
    }
  }

  lemma {:induction false} OnOther(cs: seq<Clause>, field: string, other: string)
    requires forall c :: c in cs ==> c.field == field
    requires other != field
    ensures On(cs, other) == []
  {
    if cs != [] {
      assert cs[0] in cs;
      OnOther(cs[1..], field, other);
    }
  }

  lemma {:induction false} OnNone(cs: seq<Clause>, fields: seq<string>, ss: seq<seq<Clause>>, other: string)
    requires cs == Concat(ss) && |ss| == |fields|
    requires forall j, c :: 0 <= j < |ss| && c in ss[j] ==> c.field == fields[j]
    requires forall j :: 0 <= j < |fields| ==> fields[j] != other
    ensures On(cs, other) == []
    decreases |ss|
  {
    if ss != [] {
      OnAppend(ss[0], Concat(ss[1..]), other);
      OnOther(ss[0], fields[0], other);
      OnNone(Concat(ss[1..]), fields[1..], ss[1..], other);
    }
  }

  /** The clauses on field `FieldOrder[k]` are exactly segment k. */
  lemma {:induction false} OnField(p: SearchParams, k: int)
    requires 0 <= k < 8
    ensures On(Clauses(p), FieldOrder[k]) == Segments(p)[k]
  {
    forall j | 0 <= j < 8
      ensures forall c :: c in Segments(p)[j] ==> c.field == FieldOrder[j]
    {
      SegmentFields(p, j);
    }
    FieldOrderDistinct();
    OnConcat(Segments(p), FieldOrder, k);
  }

  /** Source and destination addresses: a clause iff the field is filled
      in, `neq` iff its negation flag is set, the value single-quoted. */
  lemma {:induction false} AddressClauses(p: SearchParams)
    ensures On(Clauses(p), "addr.src") ==
      if p.srcIp == "" then []
      else [Clause("addr.src", if p.isNotSrcIp == Some(true) then "neq" else "eq", p.srcIp, true)]
    ensures On(Clauses(p), "addr.dst") ==
      if p.dstIp == "" then []
      else [Clause("addr.dst", if p.isNotDstIp == Some(true) then "neq" else "eq", p.dstIp, true)]
  {
    OnField(p, 1);
    OnField(p, 2);
  }

  /** Zones: a clause iff the field is filled in, always `eq`, quoted. */
  lemma {:induction false} ZoneClauses(p: SearchParams)
    ensures On(Clauses(p), "zone.src") ==
      if p.srcZone == "" then [] else [Clause("zone.src", "eq", p.srcZone, true)]
    ensures On(Clauses(p), "zone.dst") ==
      if p.dstZone == "" then [] else [Clause("zone.dst", "eq", p.dstZone, true)]
  {
    OnField(p, 3);
    OnField(p, 4);
  }

  /** Destination port: a clause iff filled in, `neq` iff negated, the
      value unquoted. */
  lemma {:induction false} PortClause(p: SearchParams)
    ensures On(Clauses(p), "port.dst") ==
      if p.dstPort == "" then []
      else [Clause("port.dst", if p.isNotDstPort == Some(true) then "neq" else "eq", p.dstPort, false)]
  {
    OnField(p, 5);
  }

  /** Action: none for "" or "all", `neq 'allow'` for "deny_drop", `eq`
      on the value otherwise. */
  lemma {:induction false} ActionClause(p: SearchParams)
    ensures On(Clauses(p), "action") ==
      if p.action == "" || p.action == "all" then []
      else if p.action == "deny_drop" then [Clause("action", "neq", "allow", true)]
      else [Clause("action", "eq", p.action, true)]
  {
    OnField(p, 6);
  }

  /** Time range: `in <token>` unless blank or "custom"; no other field
      produces a receive-time clause, so custom start and end times never
      reach the filter. */
  lemma {:induction false} TimeClause(p: SearchParams)
    ensures On(Clauses(p), "receive_time") ==
      if p.timeRange == "" || p.timeRange == "custom" then []
      else [Clause("receive_time", "in", p.timeRange, false)]
  {
    OnField(p, 7);
  }

  /** Exactly one subtype clause, and it is the first. */
  lemma {:induction false} SubtypeClause(p: SearchParams)
    ensures On(Clauses(p), "subtype") == [SubtypeEnd]
  {
    OnField(p, 0);
  }

  /** Every clause is on one of the eight fields, and their positions
      follow `FieldOrder` strictly, so no field appears twice. */
  lemma {:induction false} ClauseOrder(p: SearchParams)
    ensures forall i :: 0 <= i < |Clauses(p)| ==> Clauses(p)[i].field in FieldOrder
    ensures forall i, j :: 0 <= i < j < |Clauses(p)| ==>
      Rank(Clauses(p)[i].field) < Rank(Clauses(p)[j].field)
  {
    forall j | 0 <= j < 8
      ensures forall c :: c in Segments(p)[j] ==> c.field == FieldOrder[j]
    {
      SegmentFields(p, j);
    }
    SegmentsAreShort(p);
    RankedConcat(Segments(p), 0);
  }

  function Rank(field: string): int {
    if field == "subtype" then 0
    else if field == "addr.src" then 1
    else if field == "addr.dst" then 2
    else if field == "zone.src" then 3
    else if field == "zone.dst" then 4
    else if field == "port.dst" then 5
    else if field == "action" then 6
    else if field == "receive_time" then 7
    else 8
  }

  lemma {:induction false} RankedConcat(ss: seq<seq<Clause>>, base: int)
    requires 0 <= base && base + |ss| <= 8
    requires forall j :: 0 <= j < |ss| ==> |ss[j]| <= 1
    requires forall j, c :: 0 <= j < |ss| && c in ss[j] ==> c.field == FieldOrder[base + j]
    ensures forall i :: 0 <= i < |Concat(ss)| ==>
      Concat(ss)[i].field in FieldOrder && base <= Rank(Concat(ss)[i].field) < base + |ss|
    ensures forall i, j :: 0 <= i < j < |Concat(ss)| ==>
      Rank(Concat(ss)[i].field) < Rank(Concat(ss)[j].field)
  {
    if ss != [] {
      RankedConcat(ss[1..], base + 1);
      var rest := Concat(ss[1..]);
      assert Concat(ss) == ss[0] + rest;
      if ss[0] != [] {
        assert ss[0][0] in ss[0];
        FieldOrderRanks();
      }
    }
  }

  lemma {:induction false} SegmentsAreShort(p: SearchParams)
    ensures forall j :: 0 <= j < 8 ==> |Segments(p)[j]| <= 1
  {
  }

  /** A negation flag has no effect when its field is empty. */
  lemma {:induction false} FlagIgnoredWhenEmpty(p: SearchParams, flag: Option<bool>)
    ensures p.srcIp == "" ==> Query(p.(isNotSrcIp := flag)) == Query(p)
    ensures p.dstIp == "" ==> Query(p.(isNotDstIp := flag)) == Query(p)
    ensures p.dstPort == "" ==> Query(p.(isNotDstPort := flag)) == Query(p)
  {
  }

  /** The custom start and end times are never read. */
  lemma {:induction false} TimesUnused(p: SearchParams, startTime: string, endTime: string)
    ensures Query(p.(startTime := startTime, endTime := endTime)) == Query(p)
  {
  }
}
