/** The records shared by the user interface and the query service. */
module Types {
  import opened JsString

  /** One traffic-log row. The source declares `type` as the literal
      'TRAFFIC' and `subtype` / `action` as small unions, but the parser
      fills them from the XML through an `any` cast, so here they are
      strings; `KnownSubtype` and `KnownAction` state the declared unions. */
  datatype TrafficLog = TrafficLog(
    id: string,
    receiveTime: string,
    serial: string,
    deviceName: string,
    logType: string,
    subtype: string,
    srcIp: string,
    dstIp: string,
    srcPort: int,
    dstPort: int,
    protocol: string,
    ipProtocol: string,
    app: string,
    action: string,
    rule: string,
    sessionId: string,
    sessionEndReason: string,
    bytes: int,
    packets: int,
    packetsSent: int,
    packetsReceived: int,
    srcZone: string,
    dstZone: string,
    ingressInterface: string,
    egressInterface: string,
    duration: int)

  const TrafficType: string := "TRAFFIC"

  predicate KnownSubtype(s: string) {
    s in {"start", "end", "drop", "deny"}
  }

  predicate KnownAction(s: string) {
    s in {"allow", "deny", "drop", "reset-server", "reset-client"}
  }

  /** `keyof TrafficLog`: the name of one field of a traffic log. */
  datatype LogField =
    | Id | ReceiveTime | Serial | DeviceName | LogType | Subtype
    | SrcIp | DstIp | SrcPort | DstPort | Protocol | IpProtocol | App
    | Action | Rule | SessionId | SessionEndReason | Bytes | Packets
    | PacketsSent | PacketsReceived | SrcZone | DstZone
    | IngressInterface | EgressInterface | Duration

  /** The value held by a field: the string fields and the number fields. */
  datatype FieldValue = Str(s: string) | Num(n: int)

  predicate IsNumeric(f: LogField) {
    f in {SrcPort, DstPort, Bytes, Packets, PacketsSent, PacketsReceived, Duration}
  }

  /** `log[f]`. */
  function Get(log: TrafficLog, f: LogField): (v: FieldValue)
    ensures v.Num? <==> IsNumeric(f)
  {
    match f
    case Id => Str(log.id)
    case ReceiveTime => Str(log.receiveTime)
    case Serial => Str(log.serial)
    case DeviceName => Str(log.deviceName)
    case LogType => Str(log.logType)
    case Subtype => Str(log.subtype)
    case SrcIp => Str(log.srcIp)
    case DstIp => Str(log.dstIp)
    case SrcPort => Num(log.srcPort)
    case DstPort => Num(log.dstPort)
    case Protocol => Str(log.protocol)
    case IpProtocol => Str(log.ipProtocol)
    case App => Str(log.app)
    case Action => Str(log.action)
    case Rule => Str(log.rule)
    case SessionId => Str(log.sessionId)
    case SessionEndReason => Str(log.sessionEndReason)
    case Bytes => Num(log.bytes)
    case Packets => Num(log.packets)
    case PacketsSent => Num(log.packetsSent)
    case PacketsReceived => Num(log.packetsReceived)
    case SrcZone => Str(log.srcZone)
    case DstZone => Str(log.dstZone)
    case IngressInterface => Str(log.ingressInterface)
    case EgressInterface => Str(log.egressInterface)
    case Duration => Num(log.duration)
  }

  /** The value of the `limit` search field, a number or a string. The
      number is an integer or NaN (what `parseInt` gives on text that has
      no digits). */
  datatype Limit = LimitNumber(n: int) | LimitNaN | LimitText(text: string)

  datatype SearchParams = SearchParams(
    srcIp: string,
    dstIp: string,
    srcZone: string,
    dstZone: string,
    dstPort: string,
    action: string,
    timeRange: string,
    startTime: string,
    endTime: string,
    limit: Limit,
    isNotSrcIp: Option<bool>,
    isNotDstIp: Option<bool>,
    isNotDstPort: Option<bool>)

  /** Truthiness of an optional boolean flag. */
  predicate IsSet(flag: Option<bool>) {
    flag == Some(true)
  }

  /** A table column; `labelText` is the source's `label`, a reserved word here. */
  datatype ColumnDef = ColumnDef(
    id: LogField,
    labelText: string,
    visible: bool,
    width: Option<int>,
    isMono: Option<bool>)

  datatype ActionCount = ActionCount(name: string, count: nat)

  datatype LogStats = LogStats(
    totalBytes: int,
    totalPackets: int,
    actionDistribution: seq<ActionCount>)
}
