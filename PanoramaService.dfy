/** The traffic-log side of the query service: turning `<entry>` elements
    into traffic logs, polling an asynchronous log job, the record-count
    arithmetic of the fetch, and the timestamp format. */
module PanoramaService {
  import opened JsString
  import opened Xml
  import opened Types

  // ---------------------------------------------------------------------
  // Receive-time normalisation

  /** `raw.replace(/\//g, '-').replace('T', ' ')`: every slash becomes a
      dash, then only the first 'T' becomes a space. */
  function NormalizeTime(raw: string): (r: string)
    ensures |r| == |raw|
    ensures forall k :: 0 <= k < |r| ==> r[k] != '/'
    ensures forall k :: 0 <= k < |raw| && raw[k] != '/' && raw[k] != 'T' ==> r[k] == raw[k]
    ensures forall k :: 0 <= k < |raw| && raw[k] == '/' ==> r[k] == '-'
    ensures forall k :: 0 <= k < |raw| && raw[k] == 'T' ==>
      (r[k] == ' ' <==> k == FirstIndexIn(raw, {'T'})) && (r[k] != ' ' ==> r[k] == 'T')
  {
    var dashed := ReplaceAll(raw, '/', '-');
    assert forall k :: 0 <= k < |raw| ==> (dashed[k] == 'T' <==> raw[k] == 'T');
    FirstIndexOfSameMarks(raw, dashed, 'T');
    ReplaceFirst(dashed, 'T', ' ')
  }

  lemma {:induction false} FirstIndexOfSameMarks(a: string, b: string, c: char)
    requires |a| == |b|
    requires forall k :: 0 <= k < |a| ==> (a[k] == c <==> b[k] == c)
    ensures FirstIndexIn(a, {c}) == FirstIndexIn(b, {c})
  {
    if a != [] && a[0] != c {
      FirstIndexOfSameMarks(a[1..], b[1..], c);
    }
  }

  // ---------------------------------------------------------------------
  // Entries to traffic logs

  /** `getVal(tag)`: the first element's text, or "" when it is absent or empty. */
  function Val(e: Entry, tag: string): string {
    TextOr(e, tag, "")
  }

  /** `parseInt(getVal(tag)) || 0`. */
  function NumVal(e: Entry, tag: string): int {
    ParseIntOrZero(Val(e, tag))
  }

  /** Only entries with a receive_time element become logs. */
  predicate Keeps(e: Entry) {
    HasTag(e, "receive_time")
  }

  /** One traffic log from one kept entry; `id` is the fresh UUID. */
  function ToTrafficLog(e: Entry, id: string): (log: TrafficLog)
    ensures log.id == id
    ensures log.logType == TrafficType
    ensures log.protocol == log.ipProtocol
    ensures log.deviceName != "" && log.subtype != "" && log.action != "" && log.sessionEndReason != ""
  {
    TrafficLog(
      id := id,
      receiveTime := NormalizeTime(Val(e, "receive_time")),
      serial := Val(e, "serial"),
      deviceName := TextOr(e, "device_name", "Panorama"),
      logType := TrafficType,
      subtype := TextOr(e, "subtype", "end"),
      srcIp := Val(e, "src"),
      dstIp := Val(e, "dst"),
      srcPort := NumVal(e, "sport"),
      dstPort := NumVal(e, "dport"),
      protocol := Val(e, "proto"),
      ipProtocol := Val(e, "proto"),
      app := Val(e, "app"),
      action := TextOr(e, "action", "allow"),
      rule := Val(e, "rule"),
      sessionId := Val(e, "sessionid"),
      sessionEndReason := TextOr(e, "session_end_reason", "unknown"),
      bytes := NumVal(e, "bytes"),
      packets := NumVal(e, "packets"),
      packetsSent := NumVal(e, "pkts_sent"),
      packetsReceived := NumVal(e, "pkts_received"),
      srcZone := Val(e, "from"),
      dstZone := Val(e, "to"),
      ingressInterface := Val(e, "ingress_interface"),
      egressInterface := Val(e, "egress_interface"),
      duration := NumVal(e, "elapsed"))
  }

  /** The defaults: a missing or empty element gives "Panorama", "end",
      "allow" or "unknown" for the four defaulted text fields and 0 for a
      numeric field; a present element is copied. */
  lemma {:induction false} ToTrafficLogDefaults(e: Entry, id: string)
    ensures FirstText(e, "device_name") in {None, Some("")} ==> ToTrafficLog(e, id).deviceName == "Panorama"
    ensures FirstText(e, "subtype") in {None, Some("")} ==> ToTrafficLog(e, id).subtype == "end"
    ensures FirstText(e, "action") in {None, Some("")} ==> ToTrafficLog(e, id).action == "allow"
    ensures FirstText(e, "session_end_reason") in {None, Some("")} ==>
      ToTrafficLog(e, id).sessionEndReason == "unknown"
    ensures !HasTag(e, "sport") ==> ToTrafficLog(e, id).srcPort == 0
    ensures forall t :: FirstText(e, "action") == Some(t) && t != "" ==> ToTrafficLog(e, id).action == t
    ensures forall t :: FirstText(e, "from") == Some(t) ==> ToTrafficLog(e, id).srcZone == t
    ensures forall t :: FirstText(e, "to") == Some(t) ==> ToTrafficLog(e, id).dstZone == t
  {
    FirstTextNone(e, "sport");
  }

  /** A numeric element holding the decimal text of n is read back as n. */
  lemma {:induction false} NumValOfDecimal(e: Entry, tag: string, n: int)
    requires FirstText(e, tag) == Some(IntToString(n))
    ensures NumVal(e, tag) == n
  {
    ParseIntOfDecimal(n);
    assert IntToString(n) != "" by {
      if n < 0 {
        assert IntToString(n)[0] == '-';
      } else {
        assert |NatToString(n)| >= 1;
      }
    }
  }

  /** The logs made from the entries, `make` building each one: entry by
      entry, the kept ones in order; the k-th log made gets the k-th UUID. */
  function ParsedWith(entries: seq<Entry>, uuid: nat -> string, make: (Entry, string) -> TrafficLog): (logs: seq<TrafficLog>)
    ensures |logs| <= |entries|
  {
    if entries == [] then []
    else
      var logs := ParsedWith(entries[..|entries| - 1], uuid, make);
      var e := entries[|entries| - 1];
      if Keeps(e) then logs + [make(e, uuid(|logs|))] else logs
  }

  /** The logs `parsePaloAltoXML` makes from the entries. */
  function Parsed(entries: seq<Entry>, uuid: nat -> string): seq<TrafficLog> {
    ParsedWith(entries, uuid, ToTrafficLog)
  }

  /** `parsePaloAltoXML` over the document's `<entry>` elements. */
  method ParsePaloAltoXml(entries: seq<Entry>, uuid: nat -> string) returns (logs: seq<TrafficLog>)
    ensures logs == Parsed(entries, uuid)
  {
    logs := [];
    var i := 0;
    while i < |entries|
      invariant 0 <= i <= |entries|
      invariant logs == Parsed(entries[..i], uuid)
    {
      var entry := entries[i];
      assert entries[..i + 1][..i] == entries[..i];
      if !HasTag(entry, "receive_time") {
        i := i + 1;
        continue;
      }
      logs := logs + [ToTrafficLog(entry, uuid(|logs|))];
      i := i + 1;
    }
    assert entries[..i] == entries;
  }

  /** The entries that have a receive_time element, in order. */
  function Kept(entries: seq<Entry>): (r: seq<Entry>)
    ensures |r| <= |entries|
  {
    if entries == [] then []
    else Kept(entries[..|entries| - 1]) + (if Keeps(entries[|entries| - 1]) then [entries[|entries| - 1]] else [])
  }

  /** The k-th of the given entries made into a log with the k-th UUID. */
  function LogsWith(kept: seq<Entry>, uuid: nat -> string, make: (Entry, string) -> TrafficLog): (logs: seq<TrafficLog>)
    ensures |logs| == |kept|
  {
    if kept == [] then []
    else LogsWith(kept[..|kept| - 1], uuid, make) + [make(kept[|kept| - 1], uuid(|kept| - 1))]
  }

  lemma {:induction false} LogsWithIndex(kept: seq<Entry>, uuid: nat -> string, make: (Entry, string) -> TrafficLog)
    ensures forall k :: 0 <= k < |kept| ==> LogsWith(kept, uuid, make)[k] == make(kept[k], uuid(k))
  {
    if kept != [] {
      var init := kept[..|kept| - 1];
      LogsWithIndex(init, uuid, make);
      forall k | 0 <= k < |kept| ensures LogsWith(kept, uuid, make)[k] == make(kept[k], uuid(k)) {
        if k < |init| {
          assert kept[k] == init[k];
        }
      }
    }
  }

  /** Parsing makes logs of exactly the kept entries. */
  lemma {:induction false} ParsedWithIsLogsOfKept(entries: seq<Entry>, uuid: nat -> string, make: (Entry, string) -> TrafficLog)
    ensures ParsedWith(entries, uuid, make) == LogsWith(Kept(entries), uuid, make)
  {
    if entries != [] {
      var init := entries[..|entries| - 1];
      var e := entries[|entries| - 1];
      ParsedWithIsLogsOfKept(init, uuid, make);
      var q := Kept(init);
      if Keeps(e) {
        assert Kept(entries) == q + [e];
        assert (q + [e])[..|q|] == q;
        assert LogsWith(q + [e], uuid, make) == LogsWith(q, uuid, make) + [make(e, uuid(|q|))];
      } else {
        assert Kept(entries) == q;
      }
    }
  }

  /** The logs are the kept entries, mapped one to one. */
  lemma {:induction false} ParsedMapsKept(entries: seq<Entry>, uuid: nat -> string)
    ensures |Parsed(entries, uuid)| == |Kept(entries)|
    ensures forall k :: 0 <= k < |Kept(entries)| ==>
      Parsed(entries, uuid)[k] == ToTrafficLog(Kept(entries)[k], uuid(k))
  {
    ParsedWithIsLogsOfKept(entries, uuid, ToTrafficLog);
    LogsWithIndex(Kept(entries), uuid, ToTrafficLog);
  }

  /** An entry is kept iff it is one of the entries and has a receive_time. */
  lemma {:induction false} KeptMembers(entries: seq<Entry>)
    ensures forall e :: e in Kept(entries) <==> e in entries && Keeps(e)
  {
    if entries != [] {
      var init := entries[..|entries| - 1];
      KeptMembers(init);
      assert entries == init + [entries[|entries| - 1]];
    }
  }

  /** Keeping commutes with concatenation, so the order of the entries is
      kept. */
  lemma {:induction false} KeptAppend(a: seq<Entry>, b: seq<Entry>)
    ensures Kept(a + b) == Kept(a) + Kept(b)
    decreases |b|
  {
    if b == [] {
      assert a + b == a;
    } else {
      var init := b[..|b| - 1];
      assert (a + b)[..|a + b| - 1] == a + init;
      KeptAppend(a, init);
    }
  }

  // ---------------------------------------------------------------------
  // Polling an asynchronous job

  /** One poll response: the body text and the entries of the document it
      parses to, or a failed request. */
  datatype PollReply = Fetched(text: string, doc: seq<Entry>) | FetchFailed

  datatype PollOutcome = Logs(logs: seq<TrafficLog>) | Failed(message: string)

  const PollAttempts: nat := 40
  const FinMarker: string := "<status>FIN</status>"

  predicate IsFin(reply: PollReply) {
    reply.Fetched? && Contains(reply.text, FinMarker)
  }

  /** Where the polling loop stops: at the first FIN reply, or with the
      timeout error once every attempt is used up. */
  datatype PollEnd = FinAt(index: nat) | TimedOut(message: string)

  /** Polling from the i-th request on. */
  function PollFrom(respond: nat -> PollReply, i: nat, jobId: string): (e: PollEnd)
    requires i <= PollAttempts
    ensures e.FinAt? ==> i <= e.index < PollAttempts && IsFin(respond(e.index))
    decreases PollAttempts - i
  {
    if i == PollAttempts then TimedOut("Timeout polling job " + jobId)
    else if IsFin(respond(i)) then FinAt(i)
    else PollFrom(respond, i + 1, jobId)
  }

  /** The outcome of polling and how many requests were made in all. */
  function PollResult(respond: nat -> PollReply, jobId: string, uuid: nat -> string): (PollOutcome, nat) {
    match PollFrom(respond, 0, jobId)
    case FinAt(k) => (Logs(Parsed(respond(k).doc, uuid)), k + 1)
    case TimedOut(message) => (Failed(message), PollAttempts)
  }

  /** The check `pollJob` makes on a body it received. */
  method CheckFin(reply: PollReply) returns (fin: bool)
    ensures fin <==> IsFin(reply)
  {
    fin := reply.Fetched? && Contains(reply.text, FinMarker);
  }

  /** One request of the loop: stop at a FIN, otherwise go on. */
  lemma {:induction false} PollStep(respond: nat -> PollReply, i: nat, jobId: string)
    requires i < PollAttempts
    ensures IsFin(respond(i)) ==> PollFrom(respond, i, jobId) == FinAt(i)
    ensures !IsFin(respond(i)) ==> PollFrom(respond, i, jobId) == PollFrom(respond, i + 1, jobId)
  {
  }

  /** The loop of `pollJob`: request after request until a body holds the
      FIN marker or the 40 attempts are used up. */
  method PollLoop(respond: nat -> PollReply, jobId: string) returns (end: PollEnd)
    ensures end == PollFrom(respond, 0, jobId)
  {
    var i := 0;
    while i < PollAttempts
      invariant 0 <= i <= PollAttempts
      invariant PollFrom(respond, i, jobId) == PollFrom(respond, 0, jobId)
    {
      var reply := respond(i);
      var fin := CheckFin(reply);
      PollStep(respond, i, jobId);
      if fin {
        return FinAt(i);
      }
      i := i + 1;
    }
    return TimedOut("Timeout polling job " + jobId);
  }

  /** `pollJob`: `respond(i)` is the reply to the i-th request. A body
      with the error marker throws inside the same `try` that catches
      failed requests, so it is retried like them. The FIN body is parsed. */
  method PollJob(respond: nat -> PollReply, jobId: string, uuid: nat -> string)
    returns (outcome: PollOutcome, requests: nat)
    ensures (outcome, requests) == PollResult(respond, jobId, uuid)
  {
    var end := PollLoop(respond, jobId);
    match end
    case FinAt(k) =>
      var logs := ParsePaloAltoXml(respond(k).doc, uuid);
      return Logs(logs), k + 1;
    case TimedOut(message) =>
      return Failed(message), PollAttempts;
  }

  /** The loop stops at the first FIN: every reply before it is something
      else, and it times out only when none of the replies is a FIN. */
  lemma {:induction false} PollFromIsFirst(respond: nat -> PollReply, i: nat, jobId: string)
    requires i <= PollAttempts
    ensures var e := PollFrom(respond, i, jobId);
      forall j :: i <= j < (if e.FinAt? then e.index else PollAttempts) ==> !IsFin(respond(j))
    ensures PollFrom(respond, i, jobId).TimedOut? ==>
      PollFrom(respond, i, jobId).message == "Timeout polling job " + jobId
    decreases PollAttempts - i
  {
    if i < PollAttempts && !IsFin(respond(i)) {
      PollFromIsFirst(respond, i + 1, jobId);
    }
  }

  /** At most 40 requests, and the timeout error comes only after all 40. */
  lemma {:induction false} PollBounds(respond: nat -> PollReply, jobId: string, uuid: nat -> string)
    ensures 1 <= PollResult(respond, jobId, uuid).1 <= PollAttempts
    ensures PollResult(respond, jobId, uuid).0.Failed? ==>
      PollResult(respond, jobId, uuid) == (Failed("Timeout polling job " + jobId), PollAttempts)
  {
    PollFromIsFirst(respond, 0, jobId);
  }

  /** Polling yields logs exactly when one of the 40 replies is a FIN. */
  lemma {:induction false} PollSucceedsIffFin(respond: nat -> PollReply, jobId: string, uuid: nat -> string)
    ensures PollResult(respond, jobId, uuid).0.Logs? <==> exists j :: 0 <= j < PollAttempts && IsFin(respond(j))
  {
    PollFromIsFirst(respond, 0, jobId);
    if exists j :: 0 <= j < PollAttempts && IsFin(respond(j)) {
      var j :| 0 <= j < PollAttempts && IsFin(respond(j));
      assert PollFrom(respond, 0, jobId).FinAt?;
    }
  }

  /** The logs come from the first FIN reply, which is the last request made. */
  lemma {:induction false} PollUsesFirstFin(respond: nat -> PollReply, jobId: string, uuid: nat -> string)
    requires PollResult(respond, jobId, uuid).0.Logs?
    ensures var (outcome, n) := PollResult(respond, jobId, uuid);
      n >= 1 && IsFin(respond(n - 1)) && outcome.logs == Parsed(respond(n - 1).doc, uuid) &&
      forall j :: 0 <= j < n - 1 ==> !IsFin(respond(j))
  {
    PollFromIsFirst(respond, 0, jobId);
  }

  /** Only FIN replies count: two reply sequences with their FINs in the
      same places stop polling at the same request. */
  lemma {:induction false} PollFromIgnoresOthers(respond: nat -> PollReply, other: nat -> PollReply, i: nat, jobId: string)
    requires i <= PollAttempts
    requires forall j :: IsFin(respond(j)) <==> IsFin(other(j))
    ensures PollFrom(respond, i, jobId) == PollFrom(other, i, jobId)
    decreases PollAttempts - i
  {
    if i < PollAttempts && !IsFin(respond(i)) {
      PollFromIgnoresOthers(respond, other, i + 1, jobId);
    }
  }

  /** So error bodies, other bodies and failed requests alike are retried:
      replacing every reply that is not a FIN by anything else that is not
      a FIN changes nothing. */
  lemma {:induction false} PollIgnoresOtherReplies(respond: nat -> PollReply, other: nat -> PollReply, jobId: string, uuid: nat -> string)
    requires forall j :: IsFin(respond(j)) <==> IsFin(other(j))
    requires forall j :: IsFin(respond(j)) ==> other(j) == respond(j)
    ensures PollResult(respond, jobId, uuid) == PollResult(other, jobId, uuid)
  {
    PollFromIgnoresOthers(respond, other, 0, jobId);
  }

  // ---------------------------------------------------------------------
  // Record counts

  /** `Number(params.limit)`; None stands for NaN. */
  function NumberOf(limit: Limit): Option<int> {
    match limit
    case LimitNumber(n) => Some(n)
    case LimitNaN => None
    case LimitText(s) => StringToNumber(s)
  }

  /** `limitVal`: NaN becomes 50. */
  function LimitValue(limit: Limit): (v: int)
    ensures NumberOf(limit).None? ==> v == 50
    ensures NumberOf(limit).Some? ==> v == NumberOf(limit).value
  {
    match NumberOf(limit)
    case None => 50
    case Some(n) => n
  }

  /** The number of logs asked of Panorama: twice the limit capped at
      5000, or 100 for a zero limit. */
  function QueryLimit(limit: Limit): (n: int)
    ensures n <= 5000
    ensures NumberOf(limit) == None ==> n == 100
    ensures NumberOf(limit) == Some(0) ==> n == 100
    ensures forall v :: NumberOf(limit) == Some(v) && v != 0 ==> n == Min(2 * v, 5000)
  {
    var v := LimitValue(limit);
    if v != 0 then Min(v * 2, 5000) else 100
  }

  function Min(a: int, b: int): int {
    if a <= b then a else b
  }

  /** The number of mock logs returned: `limitVal || 50`. */
  function MockCount(limit: Limit): (n: int)
    ensures n != 0
    ensures NumberOf(limit) in {None, Some(0)} ==> n == 50
    ensures forall v :: NumberOf(limit) == Some(v) && v != 0 ==> n == v
  {
    var v := LimitValue(limit);
    if v != 0 then v else 50
  }

  /** The limit typed as text counts like the number it spells. */
  lemma {:induction false} QueryLimitOfText(n: int)
    ensures QueryLimit(LimitText(IntToString(n))) == QueryLimit(LimitNumber(n))
    ensures MockCount(LimitText(IntToString(n))) == MockCount(LimitNumber(n))
  {
    StringToNumberOfDecimal(n);
  }

  /** An empty limit field is the number 0, so it asks for 100 logs. */
  lemma {:induction false} QueryLimitOfEmpty()
    ensures QueryLimit(LimitText("")) == 100
  {
  }

  // ---------------------------------------------------------------------
  // Timestamps

  /** The local-time fields of a JavaScript Date, month counted from 1. */
  datatype LocalTime = LocalTime(year: int, month: nat, day: nat, hours: nat, minutes: nat, seconds: nat)

  /** Exactly two decimal digits that spell `n`, as `padStart(2, '0')`
      makes of a number below 100. */
  predicate TwoDigits(s: string, n: nat) {
    |s| == 2 && AllDigits(s, 10) && DigitsValue(s, 10) == n
  }

  /** `formatDate`: `yyyy-mm-dd hh:mm:ss` in local time. The year comes
      first as printed; every other field below 100 takes exactly two
      digits at a fixed place after it. Every timestamp of a year from 0
      on reads back as the fields it was made from. */
  function FormatDate(t: LocalTime): (r: string)
    ensures var y := IntToString(t.year);
      t.month < 100 && t.day < 100 && t.hours < 100 && t.minutes < 100 && t.seconds < 100 ==>
        |r| == |y| + 15 && r[..|y|] == y &&
        r[|y|] == '-' && TwoDigits(r[|y| + 1..|y| + 3], t.month) &&
        r[|y| + 3] == '-' && TwoDigits(r[|y| + 4..|y| + 6], t.day) &&
        r[|y| + 6] == ' ' && TwoDigits(r[|y| + 7..|y| + 9], t.hours) &&
        r[|y| + 9] == ':' && TwoDigits(r[|y| + 10..|y| + 12], t.minutes) &&
        r[|y| + 12] == ':' && TwoDigits(r[|y| + 13..], t.seconds)
    ensures t.year >= 0 ==> ReadTimestamp(r) == Some(t)
  {
    var r := (IntToString(t.year) + "-" + Pad2(t.month) + "-" + Pad2(t.day)) + " " +
             (Pad2(t.hours) + ":" + Pad2(t.minutes) + ":" + Pad2(t.seconds));
    assert t.year >= 0 ==> ReadTimestamp(r) == Some(t) by {
      if t.year >= 0 {
        YearNumeral(t.year);
        Pad2Numeral(t.month);
        Pad2Numeral(t.day);
        Pad2Numeral(t.hours);
        Pad2Numeral(t.minutes);
        Pad2Numeral(t.seconds);
        ReadLayout(IntToString(t.year), Pad2(t.month), Pad2(t.day),
                   Pad2(t.hours), Pad2(t.minutes), Pad2(t.seconds),
                   t.year, t.month, t.day, t.hours, t.minutes, t.seconds);
      }
    }
    if t.month < 100 && t.day < 100 && t.hours < 100 && t.minutes < 100 && t.seconds < 100 then
      PaddedLayout(IntToString(t.year), t.month, t.day, t.hours, t.minutes, t.seconds);
      r
    else
      r
  }

  /** Where the parts of a `date time` layout lie when every part after
      the first has two characters. */
  lemma {:induction false} LayoutParts(y: string, a: string, b: string, c: string, d: string, e: string)
    requires |a| == 2 && |b| == 2 && |c| == 2 && |d| == 2 && |e| == 2
    ensures var r := (y + "-" + a + "-" + b) + " " + (c + ":" + d + ":" + e);
      |r| == |y| + 15 && r[..|y|] == y &&
      r[|y|] == '-' && r[|y| + 1..|y| + 3] == a && r[|y| + 3] == '-' && r[|y| + 4..|y| + 6] == b &&
      r[|y| + 6] == ' ' && r[|y| + 7..|y| + 9] == c && r[|y| + 9] == ':' && r[|y| + 10..|y| + 12] == d &&
      r[|y| + 12] == ':' && r[|y| + 13..] == e
  {
    var date := y + "-" + a + "-" + b;
    var time := c + ":" + d + ":" + e;
    var r := date + " " + time;
    assert r[..|y|] == y;
    assert r[|y| + 1..|y| + 3] == a;
    assert r[|y| + 4..|y| + 6] == b;
    assert r[|y| + 7..|y| + 9] == c;
    assert r[|y| + 10..|y| + 12] == d;
    assert r[|y| + 13..] == e;
  }

  /** The `date time` layout of fields below 100 puts each of them, as two
      digits, at its fixed place after the year. */
  lemma {:induction false} PaddedLayout(y: string, month: nat, day: nat, hours: nat, minutes: nat, seconds: nat)
    requires month < 100 && day < 100 && hours < 100 && minutes < 100 && seconds < 100
    ensures var r := (y + "-" + Pad2(month) + "-" + Pad2(day)) + " " +
                     (Pad2(hours) + ":" + Pad2(minutes) + ":" + Pad2(seconds));
      |r| == |y| + 15 && r[..|y|] == y &&
      r[|y|] == '-' && TwoDigits(r[|y| + 1..|y| + 3], month) &&
      r[|y| + 3] == '-' && TwoDigits(r[|y| + 4..|y| + 6], day) &&
      r[|y| + 6] == ' ' && TwoDigits(r[|y| + 7..|y| + 9], hours) &&
      r[|y| + 9] == ':' && TwoDigits(r[|y| + 10..|y| + 12], minutes) &&
      r[|y| + 12] == ':' && TwoDigits(r[|y| + 13..], seconds)
  {
    Pad2Value(month);
    Pad2Value(day);
    Pad2Value(hours);
    Pad2Value(minutes);
    Pad2Value(seconds);
    LayoutParts(y, Pad2(month), Pad2(day), Pad2(hours), Pad2(minutes), Pad2(seconds));
  }

  /** A non-empty decimal numeral. */
  predicate Numeral(s: string) {
    |s| >= 1 && AllDigits(s, 10)
  }

  /** Reads a `date time` timestamp back: three numerals joined by '-',
      a space, three numerals joined by ':'. */
  function ReadTimestamp(s: string): Option<LocalTime> {
    var halves := Split(s, {' '});
    if |halves| == 2 then ReadFields(Split(halves[0], {'-'}), Split(halves[1], {':'})) else None
  }

  /** The value of a non-empty decimal numeral. */
  function NumeralValue(s: string): Option<nat> {
    if Numeral(s) then Some(DigitsValue(s, 10)) else None
  }

  function ReadFields(date: seq<string>, time: seq<string>): Option<LocalTime> {
    if |date| == 3 && |time| == 3 &&
       NumeralValue(date[0]).Some? && NumeralValue(date[1]).Some? && NumeralValue(date[2]).Some? &&
       NumeralValue(time[0]).Some? && NumeralValue(time[1]).Some? && NumeralValue(time[2]).Some?
    then
      Some(LocalTime(NumeralValue(date[0]).value, NumeralValue(date[1]).value, NumeralValue(date[2]).value,
                     NumeralValue(time[0]).value, NumeralValue(time[1]).value, NumeralValue(time[2]).value))
    else None
  }

  lemma {:induction false} NumeralFree(s: string, seps: set<char>)
    requires NumeralValue(s).Some?
    requires forall c :: c in seps ==> !('0' <= c <= '9')
    ensures FreeOf(s, seps)
  {
    forall k | 0 <= k < |s| ensures s[k] !in seps {
      DecimalDigitChar(s[k]);
    }
  }

  /** Three numerals joined by a separator that is not a digit split
      back, and the joined text has no space. */
  lemma {:induction false} NumeralsSplit(a: string, b: string, c: string, sep: char)
    requires NumeralValue(a).Some? && NumeralValue(b).Some? && NumeralValue(c).Some?
    requires sep != ' ' && !('0' <= sep <= '9')
    ensures Split(a + [sep] + b + [sep] + c, {sep}) == [a, b, c]
    ensures FreeOf(a + [sep] + b + [sep] + c, {' '})
  {
    NumeralFree(a, {sep, ' '});
    NumeralFree(b, {sep, ' '});
    NumeralFree(c, {sep, ' '});
    Split3(a, b, c, sep, {sep});
    FreeOf3(a, b, c, sep, {' '});
  }

  lemma {:induction false} ReadTimestampOf(s: string, date: string, time: string)
    requires Split(s, {' '}) == [date, time]
    ensures ReadTimestamp(s) == ReadFields(Split(date, {'-'}), Split(time, {':'}))
  {
  }

  lemma {:induction false} ReadFieldsOf(date: seq<string>, time: seq<string>,
                   va: nat, vb: nat, vc: nat, vd: nat, ve: nat, vf: nat)
    requires |date| == 3 && |time| == 3
    requires NumeralValue(date[0]) == Some(va) && NumeralValue(date[1]) == Some(vb) && NumeralValue(date[2]) == Some(vc)
    requires NumeralValue(time[0]) == Some(vd) && NumeralValue(time[1]) == Some(ve) && NumeralValue(time[2]) == Some(vf)
    ensures ReadFields(date, time) == Some(LocalTime(va, vb, vc, vd, ve, vf))
  {
  }

  /** Six numerals laid out as a timestamp read back as their values. */
  lemma {:induction false} ReadLayout(a: string, b: string, c: string, d: string, e: string, f: string,
                   va: nat, vb: nat, vc: nat, vd: nat, ve: nat, vf: nat)
    requires NumeralValue(a) == Some(va) && NumeralValue(b) == Some(vb) && NumeralValue(c) == Some(vc)
    requires NumeralValue(d) == Some(vd) && NumeralValue(e) == Some(ve) && NumeralValue(f) == Some(vf)
    ensures ReadTimestamp((a + "-" + b + "-" + c) + " " + (d + ":" + e + ":" + f)) ==
      Some(LocalTime(va, vb, vc, vd, ve, vf))
  {
    var date, time := a + "-" + b + "-" + c, d + ":" + e + ":" + f;
    NumeralsSplit(a, b, c, '-');
    NumeralsSplit(d, e, f, ':');
    SplitStep(date, ' ', time, {' '});
    SplitFree(time, {' '});
    ReadTimestampOf(date + " " + time, date, time);
    ReadFieldsOf([a, b, c], [d, e, f], va, vb, vc, vd, ve, vf);
  }

  /** A padded number is a numeral of that number. */
  lemma {:induction false} Pad2Numeral(n: nat)
    ensures NumeralValue(Pad2(n)) == Some(n)
  {
    Pad2Value(n);
  }

  lemma {:induction false} YearNumeral(year: nat)
    ensures NumeralValue(IntToString(year)) == Some(year)
  {
    NatToStringValue(year);
  }
}
