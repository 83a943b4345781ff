/** The search form above the log table: its state is one `SearchParams`
    record, changed one field at a time by the input handlers, reset by
    the clear button, and checked before a search is started. */
module SearchHeader {
  import opened JsString
  import opened Types
  import PanoramaQuery
  import PanoramaService

  /** `DEFAULT_PARAMS`. */
  const DefaultParams: SearchParams := SearchParams(
    "", "", "", "", "", "all", "last-15-minutes", "", "",
    LimitNumber(50), Some(false), Some(false), Some(false))

  /** The `name` of a text input or select (a key of `SearchParams`). */
  datatype InputField =
    | SrcIpInput | DstIpInput | SrcZoneInput | DstZoneInput | DstPortInput
    | ActionInput | TimeRangeInput | StartTimeInput | EndTimeInput | LimitInput

  /** The `name` of a NOT checkbox. */
  datatype FlagField = NotSrcIp | NotDstIp | NotDstPort

  /** The string a text input shows. */
  function TextOf(p: SearchParams, f: InputField): string
    requires f != LimitInput
  {
    match f
    case SrcIpInput => p.srcIp
    case DstIpInput => p.dstIp
    case SrcZoneInput => p.srcZone
    case DstZoneInput => p.dstZone
    case DstPortInput => p.dstPort
    case ActionInput => p.action
    case TimeRangeInput => p.timeRange
    case StartTimeInput => p.startTime
    case EndTimeInput => p.endTime
  }

  function FlagOf(p: SearchParams, f: FlagField): Option<bool> {
    match f
    case NotSrcIp => p.isNotSrcIp
    case NotDstIp => p.isNotDstIp
    case NotDstPort => p.isNotDstPort
  }

  /** The limit typed into the limit input: the empty string stays a
      string, anything else goes through `parseInt`. */
  function TypedLimit(value: string): (l: Limit)
    ensures value == "" ==> l == LimitText("")
    ensures value != "" ==> l == match ParseInt(value) case Some(n) => LimitNumber(n) case None => LimitNaN
  {
    if value == "" then LimitText("")
    else match ParseInt(value)
      case Some(n) => LimitNumber(n)
      case None => LimitNaN
  }

  /** The record after `handleChange` on input `name` with `value`: the
      named field changes and no other. */
  function WithInput(p: SearchParams, name: InputField, value: string): (q: SearchParams)
    ensures forall f :: f != LimitInput ==> TextOf(q, f) == if f == name then value else TextOf(p, f)
    ensures q.limit == if name == LimitInput then TypedLimit(value) else p.limit
    ensures forall g :: FlagOf(q, g) == FlagOf(p, g)
  {
    match name
    case SrcIpInput => p.(srcIp := value)
    case DstIpInput => p.(dstIp := value)
    case SrcZoneInput => p.(srcZone := value)
    case DstZoneInput => p.(dstZone := value)
    case DstPortInput => p.(dstPort := value)
    case ActionInput => p.(action := value)
    case TimeRangeInput => p.(timeRange := value)
    case StartTimeInput => p.(startTime := value)
    case EndTimeInput => p.(endTime := value)
    case LimitInput => p.(limit := TypedLimit(value))
  }

  /** The record after `handleCheckboxChange`: the named flag becomes
      `checked` and nothing else changes. */
  function WithFlag(p: SearchParams, name: FlagField, checked: bool): (q: SearchParams)
    ensures forall g :: FlagOf(q, g) == if g == name then Some(checked) else FlagOf(p, g)
    ensures forall f :: f != LimitInput ==> TextOf(q, f) == TextOf(p, f)
    ensures q.limit == p.limit
  {
    match name
    case NotSrcIp => p.(isNotSrcIp := Some(checked))
    case NotDstIp => p.(isNotDstIp := Some(checked))
    case NotDstPort => p.(isNotDstPort := Some(checked))
  }

  /** What pressing search does: start the search with the record, or
      show one alert and stop. */
  datatype Submission = Search(params: SearchParams) | Alert(message: string)

  const SrcIpMissing: string := "Please enter a Source IP to exclude, or uncheck the 'NOT' box."
  const DstIpMissing: string := "Please enter a Destination IP to exclude, or uncheck the 'NOT' box."
  const DstPortMissing: string := "Please enter a Destination Port to exclude, or uncheck the 'NOT' box."

  /** `!s.trim()`. */
  predicate Blank(s: string) {
    Trim(s) == ""
  }

  /** A NOT box that is ticked while its field is blank. */
  predicate Dangling(flag: Option<bool>, value: string) {
    IsSet(flag) && Blank(value)
  }

  /** `validateAndSearch`: the checks run in the order source IP,
      destination IP, destination port, and the first that fails decides
      the alert. */
  function Validate(p: SearchParams): (r: Submission)
    ensures r.Search? <==>
      !Dangling(p.isNotSrcIp, p.srcIp) && !Dangling(p.isNotDstIp, p.dstIp) && !Dangling(p.isNotDstPort, p.dstPort)
    ensures r.Search? ==> r.params == p
    ensures r == Alert(SrcIpMissing) <==> Dangling(p.isNotSrcIp, p.srcIp)
    ensures r == Alert(DstIpMissing) <==> !Dangling(p.isNotSrcIp, p.srcIp) && Dangling(p.isNotDstIp, p.dstIp)
    ensures r == Alert(DstPortMissing) <==>
      !Dangling(p.isNotSrcIp, p.srcIp) && !Dangling(p.isNotDstIp, p.dstIp) && Dangling(p.isNotDstPort, p.dstPort)
  {
    if Dangling(p.isNotSrcIp, p.srcIp) then Alert(SrcIpMissing)
    else if Dangling(p.isNotDstIp, p.dstIp) then Alert(DstIpMissing)
    else if Dangling(p.isNotDstPort, p.dstPort) then Alert(DstPortMissing)
    else Search(p)
  }

  /** The form component and its `params` state. */
  class SearchForm {
    var params: SearchParams

    constructor()
      ensures params == DefaultParams
    {
      params := DefaultParams;
    }

    method HandleChange(name: InputField, value: string)
      modifies this
      ensures params == WithInput(old(params), name, value)
    {
      params := WithInput(params, name, value);
    }

    method HandleCheckboxChange(name: FlagField, checked: bool)
      modifies this
      ensures params == WithFlag(old(params), name, checked)
    {
      params := WithFlag(params, name, checked);
    }

    /** Restores the defaults; no search is started. */
    method HandleClear()
      modifies this
      ensures params == DefaultParams
    {
      params := DefaultParams;
    }

    method ValidateAndSearch() returns (r: Submission)
      ensures r == Validate(params)
    {
      if IsSet(params.isNotSrcIp) && Trim(params.srcIp) == "" {
        return Alert(SrcIpMissing);
      }
      if IsSet(params.isNotDstIp) && Trim(params.dstIp) == "" {
        return Alert(DstIpMissing);
      }
      if IsSet(params.isNotDstPort) && Trim(params.dstPort) == "" {
        return Alert(DstPortMissing);
      }
      return Search(params);
    }
  }

  lemma {:induction false} TrimOfEmpty()
    ensures Trim("") == ""
  {
  }

  /** A search that passes validation carries every ticked NOT box into
      the query as a `neq` clause on a non-empty value. */
  lemma {:induction false} AcceptedNegationIsQueried(p: SearchParams)
    requires Validate(p).Search?
    ensures IsSet(p.isNotSrcIp) ==>
      PanoramaQuery.On(PanoramaQuery.Clauses(p), "addr.src") == [PanoramaQuery.Clause("addr.src", "neq", p.srcIp, true)]
    ensures IsSet(p.isNotDstIp) ==>
      PanoramaQuery.On(PanoramaQuery.Clauses(p), "addr.dst") == [PanoramaQuery.Clause("addr.dst", "neq", p.dstIp, true)]
    ensures IsSet(p.isNotDstPort) ==>
      PanoramaQuery.On(PanoramaQuery.Clauses(p), "port.dst") == [PanoramaQuery.Clause("port.dst", "neq", p.dstPort, false)]
  {
    TrimOfEmpty();
    PanoramaQuery.AddressClauses(p);
    PanoramaQuery.PortClause(p);
  }

  /** The defaults pass validation and ask Panorama for 100 logs. */
  lemma {:induction false} DefaultsAccepted()
    ensures Validate(DefaultParams) == Search(DefaultParams)
    ensures PanoramaService.QueryLimit(DefaultParams.limit) == 100
  {
  }
}
