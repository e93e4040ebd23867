/** Which events a rule matches, told column by column and character by character. */
module Matching {
  import opened Events
  import opened Text
  import opened TextMeaning
  import opened Filter

  /** A column that asks for nothing. */
  predicate Wild(column: string) {
    TrimSpace(column) == "" || TrimSpace(column) == "*"
  }

  predicate Warning(v: string) {
    SameName(TrimSpace(v), "warn") || SameName(TrimSpace(v), "warning")
  }

  /** Apart from white space around them the two are the same, in whatever case and with dashes for underscores, or both
      say that it is a warning. */
  predicate Agree(column: string, v: string) {
    SameName(TrimSpace(column), TrimSpace(v)) || (Warning(column) && Warning(v))
  }

  predicate Fits(column: string, v: string) {
    Wild(column) || Agree(column, v)
  }

  /** The text is sought in the message and the raw line, joined by a blank. */
  predicate MessageFits(column: string, evt: Event) {
    Wild(column) || Says(evt.message + " " + evt.raw, TrimSpace(column))
  }

  predicate TagFits(key: string, value: string, evt: Event) {
    Wild(key) || (TrimSpace(key) in evt.tags && Fits(value, evt.tags[TrimSpace(key)]))
  }

  /** The operation an event carries; an OPC UA operation goes before any other. */
  function OperationOf(evt: Event): string {
    if evt.Tag("opcua_operation") != "" then evt.Tag("opcua_operation") else evt.Tag("operation")
  }

  lemma StarIsItself(v: string)
    ensures SameName(v, "*") <==> v == "*"
  {
    if SameName(v, "*") {
      assert SameLetter(v[0], '*') by { assert '*' in {v[0], '*'}; }
      assert v == [v[0]];
    }
  }

  lemma LowerStays()
    ensures ToLower("warn") == "warn" && ToLower("warning") == "warning" && ToLower("*") == "*"
    ensures DashToUnderscore("warn") == "warn" && DashToUnderscore("warning") == "warning"
    ensures DashToUnderscore("*") == "*" && |"warn"| == 4 && |"warning"| == 7
  {
  }

  /** What a value is compared as. */
  lemma ComparedAs(v: string)
    ensures var w := DashToUnderscore(ToLower(TrimSpace(v)));
            && ComparableValue(v) == (if w == "warn" then "warning" else w)
            && (w == "warn" <==> SameName(TrimSpace(v), "warn"))
            && (w == "warning" <==> SameName(TrimSpace(v), "warning"))
            && (w == "*" <==> TrimSpace(v) == "*") && (w == "" <==> TrimSpace(v) == "")
  {
    TrimOfLower(v);
    LowerStays();
    SameNameIff(TrimSpace(v), "warn");
    SameNameIff(TrimSpace(v), "warning");
    SameNameIff(TrimSpace(v), "*");
    StarIsItself(TrimSpace(v));
  }

  /** A column and a value match exactly when the column asks for nothing or the two agree. */
  lemma MatchFieldIff(column: string, v: string)
    ensures MatchField(column, v) <==> Fits(column, v)
  {
    ComparedAs(column);
    ComparedAs(v);
    SameNameIff(TrimSpace(column), TrimSpace(v));
    LowerStays();
  }

  lemma LowerOfUpper(s: string)
    ensures ToLower(ToUpper(s)) == ToLower(s)
  {
  }

  lemma OperationIff(column: string, evt: Event)
    ensures MatchField(column, OperationFor(evt)) <==> Fits(column, OperationOf(evt))
  {
    LowerOfUpper(OperationOf(evt));
    assert ComparableValue(OperationFor(evt)) == ComparableValue(OperationOf(evt));
    MatchFieldIff(column, OperationOf(evt));
  }

  lemma JoinedByBlank(a: string, b: string)
    ensures Join([a, b], " ") == a + " " + b
  {
    JoinStep([a, b], " ");
  }

  lemma MessageIff(column: string, evt: Event)
    ensures column == "" || MessageContains(evt, column) <==> MessageFits(column, evt)
    ensures ' ' !in TrimSpace(column) ==>
              (MessageFits(column, evt) <==>
               Wild(column) || Says(evt.message, TrimSpace(column)) || Says(evt.raw, TrimSpace(column)))
  {
    var n := TrimSpace(column);
    JoinedByBlank(evt.message, evt.raw);
    ContainsIff(evt.message + " " + evt.raw, n);
    LowerStays();
    EqualFoldIff(n, "*");
    StarIsItself(n);
    assert ToLower(n) == "*" ==> SameText(n, "*") && SameName(n, "*");
    if ' ' !in n { SaysAcrossBlank(evt.message, evt.raw, n); }
    if column == "" { assert TrimSpace("") == ""; }
  }

  /** Exactly which events a rule matches. */
  lemma MatchesIff(r: RuleConfig, evt: Event)
    ensures Matches(r, evt) <==>
            && r.enabled
            && Fits(r.sourceType, evt.sourceType)
            && (Fits(r.asset, evt.assetName) || Fits(r.asset, evt.assetIp))
            && Fits(r.category, evt.category)
            && Fits(r.severity, evt.severity)
            && Fits(r.operation, OperationOf(evt))
            && Fits(r.eventType, evt.Tag("event_type"))
            && MessageFits(r.messageContains, evt)
            && TagFits(r.tagKey, r.tagValue, evt)
  {
    MatchFieldIff(r.sourceType, evt.sourceType);
    MatchFieldIff(r.asset, evt.assetName);
    MatchFieldIff(r.asset, evt.assetIp);
    MatchFieldIff(r.category, evt.category);
    MatchFieldIff(r.severity, evt.severity);
    OperationIff(r.operation, evt);
    MatchFieldIff(r.eventType, evt.Tag("event_type"));
    MessageIff(r.messageContains, evt);
    if TrimSpace(r.tagKey) in evt.tags { MatchFieldIff(r.tagValue, evt.tags[TrimSpace(r.tagKey)]); }
  }

  lemma StarIsWild()
    ensures Wild("*")
  {
    assert TrimRight("*") == "*";
  }

  /** Each column by itself, against the same rule with that column left open; and a disabled rule matches nothing. */
  lemma ColumnsMatch(r: RuleConfig, evt: Event)
    ensures !r.enabled ==> !Matches(r, evt)
    ensures Matches(r, evt) <==> Matches(r.(sourceType := "*"), evt) && Fits(r.sourceType, evt.sourceType)
    ensures Matches(r, evt) <==>
            Matches(r.(asset := "*"), evt) && (Fits(r.asset, evt.assetName) || Fits(r.asset, evt.assetIp))
    ensures Matches(r, evt) <==> Matches(r.(category := "*"), evt) && Fits(r.category, evt.category)
    ensures Matches(r, evt) <==> Matches(r.(severity := "*"), evt) && Fits(r.severity, evt.severity)
    ensures Matches(r, evt) <==> Matches(r.(operation := "*"), evt) && Fits(r.operation, OperationOf(evt))
    ensures Matches(r, evt) <==> Matches(r.(eventType := "*"), evt) && Fits(r.eventType, evt.Tag("event_type"))
    ensures Matches(r, evt) <==> Matches(r.(messageContains := "*"), evt) && MessageFits(r.messageContains, evt)
    ensures Matches(r, evt) <==> Matches(r.(tagKey := "*"), evt) && TagFits(r.tagKey, r.tagValue, evt)
  {
    StarIsWild();
    MatchesIff(r, evt);
    MatchesIff(r.(sourceType := "*"), evt);
    MatchesIff(r.(asset := "*"), evt);
    MatchesIff(r.(category := "*"), evt);
    MatchesIff(r.(severity := "*"), evt);
    MatchesIff(r.(operation := "*"), evt);
    MatchesIff(r.(eventType := "*"), evt);
    MatchesIff(r.(messageContains := "*"), evt);
    MatchesIff(r.(tagKey := "*"), evt);
  }
}
