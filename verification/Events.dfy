/** The event record, the rule record and the small option type shared by every component. */
module Events {

  datatype Option<+T> = None | Some(value: T)

  /** A missing tag map and an empty one are one value here: every reader treats them alike. */
  datatype Event = Event(
    id: string := "",
    timestamp: string := "",
    receivedAt: string := "",
    zone: string := "",
    sourceType: string := "",
    assetName: string := "",
    assetIp: string := "",
    severity: string := "",
    protocol: string := "",
    category: string := "",
    message: string := "",
    raw: string := "",
    tags: map<string, string> := map[])
  {
    /** Reading a missing tag gives the empty string. */
    function Tag(key: string): string {
      if key in tags then tags[key] else ""
    }
  }

  /** A row of the rule matrix; the defaults are the zero values a missing JSON field decodes to. */
  datatype RuleConfig = RuleConfig(
    id: string := "",
    enabled: bool := false,
    sourceType: string := "",
    asset: string := "",
    category: string := "",
    severity: string := "",
    operation: string := "",
    eventType: string := "",
    messageContains: string := "",
    tagKey: string := "",
    tagValue: string := "",
    action: string := "",
    sampleRate: real := 0.0,
    forwardToDmz: bool := false,
    storeLocally: bool := false,
    showInUi: Option<bool> := None,
    dedupWindowSeconds: int := 0,
    rateLimitPerSecond: int := 0,
    notes: string := "")
}
