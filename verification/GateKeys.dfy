/** What the keys of the gates tell apart, whatever the fields hold, and what plays no part in them. */
module GateKeys {
  import opened Events
  import opened Text
  import opened TextMeaning
  import opened Filter
  import opened Matching

  lemma SameAround(a: string, b: string, x: string, y: string)
    ensures a + x + b == a + y + b <==> x == y
  {
    if a + x + b == a + y + b {
      assert |x| == |y|;
      assert x == (a + x + b)[|a|..|a| + |x|] && y == (a + y + b)[|a|..|a| + |y|];
    }
  }

  /** Joined fields that differ in one place differ. */
  lemma {:induction false} OneFieldApart(xs: seq<string>, i: nat, a: string, b: string)
    requires i < |xs|
    ensures Join(xs[i := a], "|") == Join(xs[i := b], "|") <==> a == b
  {
    if |xs| > 1 {
      var us, vs := xs[i := a], xs[i := b];
      if i == 0 {
        assert us[1..] == xs[1..] == vs[1..];
        SameAround("", "|" + Join(xs[1..], "|"), a, b);
        assert "" + a + ("|" + Join(xs[1..], "|")) == Join(us, "|");
        assert "" + b + ("|" + Join(xs[1..], "|")) == Join(vs, "|");
      } else {
        assert us[1..] == xs[1..][i - 1 := a] && vs[1..] == xs[1..][i - 1 := b];
        OneFieldApart(xs[1..], i - 1, a, b);
        SameAround(xs[0] + "|", "", Join(us[1..], "|"), Join(vs[1..], "|"));
        assert xs[0] + "|" + Join(us[1..], "|") + "" == Join(us, "|");
        assert xs[0] + "|" + Join(vs[1..], "|") + "" == Join(vs, "|");
      }
    }
  }

  lemma FieldsApart(xs: seq<string>, ys: seq<string>, i: nat)
    requires |xs| == |ys| && i < |xs| && ys == xs[i := ys[i]]
    ensures Join(ys, "|") == Join(xs, "|") <==> ys[i] == xs[i]
  {
    OneFieldApart(xs, i, ys[i], xs[i]);
    assert xs[i := xs[i]] == xs;
  }

  lemma TagsApart()
    ensures |"opcua_operation"| == 15 && |"operation"| == 9 && |"event_type"| == 10
  {
  }

  lemma WindowKeyTellsAddress(r: RuleConfig, e: Event, x: string)
    ensures DedupKey(r.(id := x), e) == DedupKey(r, e) <==> x == r.id
    ensures DedupKey(r, e.(assetIp := x)) == DedupKey(r, e) <==> x == e.assetIp
  {
    FieldsApart(DedupFields(r, e), DedupFields(r.(id := x), e), 0);
    FieldsApart(DedupFields(r, e), DedupFields(r, e.(assetIp := x)), 1);
  }

  lemma WindowKeyTellsName(r: RuleConfig, e: Event, x: string)
    ensures DedupKey(r, e.(assetName := x)) == DedupKey(r, e) <==> x == e.assetName
    ensures DedupKey(r, e.(sourceType := x)) == DedupKey(r, e) <==> x == e.sourceType
  {
    FieldsApart(DedupFields(r, e), DedupFields(r, e.(assetName := x)), 2);
    FieldsApart(DedupFields(r, e), DedupFields(r, e.(sourceType := x)), 3);
  }

  lemma WindowKeyTellsContent(r: RuleConfig, e: Event, x: string)
    ensures DedupKey(r, e.(category := x)) == DedupKey(r, e) <==> x == e.category
    ensures DedupKey(r, e.(severity := x)) == DedupKey(r, e) <==> x == e.severity
    ensures DedupKey(r, e.(message := x)) == DedupKey(r, e) <==> x == e.message
  {
    var f := DedupFields(r, e);
    FieldsApart(f, DedupFields(r, e.(category := x)), 4);
    FieldsApart(f, DedupFields(r, e.(severity := x)), 5);
    FieldsApart(f, DedupFields(r, e.(message := x)), 8);
  }

  /** Two events under one rule that differ in one of these fields only, or two rules in their ids, have different keys
      at the duplicate window. */
  lemma WindowKeyTells(r: RuleConfig, e: Event, x: string)
    ensures DedupKey(r.(id := x), e) == DedupKey(r, e) <==> x == r.id
    ensures DedupKey(r, e.(assetIp := x)) == DedupKey(r, e) <==> x == e.assetIp
    ensures DedupKey(r, e.(assetName := x)) == DedupKey(r, e) <==> x == e.assetName
    ensures DedupKey(r, e.(sourceType := x)) == DedupKey(r, e) <==> x == e.sourceType
    ensures DedupKey(r, e.(category := x)) == DedupKey(r, e) <==> x == e.category
    ensures DedupKey(r, e.(severity := x)) == DedupKey(r, e) <==> x == e.severity
    ensures DedupKey(r, e.(message := x)) == DedupKey(r, e) <==> x == e.message
  {
    WindowKeyTellsAddress(r, e, x);
    WindowKeyTellsName(r, e, x);
    WindowKeyTellsContent(r, e, x);
  }

  /** So do two that differ in their operation, but for its case, or in their event type. */
  lemma WindowKeyTellsTags(r: RuleConfig, e: Event, x: string)
    ensures DedupKey(r, e.(tags := e.tags["event_type" := x])) == DedupKey(r, e) <==> x == e.Tag("event_type")
    ensures x != "" ==>
              (DedupKey(r, e.(tags := e.tags["opcua_operation" := x])) == DedupKey(r, e)
               <==> SameText(x, OperationOf(e)))
  {
    var f := DedupFields(r, e);
    var typed, worked := e.(tags := e.tags["event_type" := x]), e.(tags := e.tags["opcua_operation" := x]);
    TagsApart();
    FieldsApart(f, DedupFields(r, typed), 7);
    if x != "" {
      FieldsApart(f, DedupFields(r, worked), 6);
      SameUpperIff(x, OperationOf(e));
    }
  }

  /** The sample key tells apart by id, address, name, category and message. */
  lemma SampleKeyTells(r: RuleConfig, e: Event, x: string)
    ensures SampleKey(r.(id := x), e) == SampleKey(r, e) <==> x == r.id
    ensures SampleKey(r, e.(assetIp := x)) == SampleKey(r, e) <==> x == e.assetIp
    ensures SampleKey(r, e.(assetName := x)) == SampleKey(r, e) <==> x == e.assetName
    ensures SampleKey(r, e.(category := x)) == SampleKey(r, e) <==> x == e.category
    ensures SampleKey(r, e.(message := x)) == SampleKey(r, e) <==> x == e.message
  {
    var f := SampleFields(r, e);
    FieldsApart(f, SampleFields(r.(id := x), e), 0);
    FieldsApart(f, SampleFields(r, e.(assetIp := x)), 1);
    FieldsApart(f, SampleFields(r, e.(assetName := x)), 2);
    FieldsApart(f, SampleFields(r, e.(category := x)), 3);
    FieldsApart(f, SampleFields(r, e.(message := x)), 4);
  }

  /** The rate key tells apart by id and by address, else name, else source type. */
  lemma RateKeyTells(r: RuleConfig, e1: Event, e2: Event, x: string)
    ensures RateKey(r.(id := x), e1) == RateKey(r, e1) <==> x == r.id
    ensures RateKey(r, e1) == RateKey(r, e2) <==> SourceOf(e1) == SourceOf(e2)
    ensures SourceOf(e1) == if e1.assetIp != "" then e1.assetIp
                            else if e1.assetName != "" then e1.assetName else e1.sourceType
  {
    FieldsApart([r.id, SourceOf(e1)], [x, SourceOf(e1)], 0);
    FieldsApart([r.id, SourceOf(e1)], [r.id, SourceOf(e2)], 1);
  }

  /** Nothing else plays a part: the event's own id, its times, zone, protocol and raw line in no key; the source type,
      the severity and the tags in no sample key; and all that but the source in no rate key. */
  lemma KeysIgnore(r: RuleConfig, e: Event, other: Event)
    ensures var same := other.(assetIp := e.assetIp, assetName := e.assetName, sourceType := e.sourceType);
            RateKey(r, same) == RateKey(r, e)
    ensures var same := other.(assetIp := e.assetIp, assetName := e.assetName, category := e.category,
                               message := e.message);
            SampleKey(r, same) == SampleKey(r, e)
    ensures var same := other.(assetIp := e.assetIp, assetName := e.assetName, sourceType := e.sourceType,
                               category := e.category, severity := e.severity, message := e.message, tags := e.tags);
            DedupKey(r, same) == DedupKey(r, e)
  {
  }

  /** Readings count nanoseconds: the second of one is what is left when they are cut off, and a window of n seconds is
      as many thousand million. */
  lemma ClockUnits(v: Visit, st: GateState, key: string, last: int)
    requires v.rule.Some? && v.rule.value.dedupWindowSeconds > 0 && v.windowKey == key
    requires key in st.dedup && st.dedup[key] == last
    ensures v.now.Unix() * 1_000_000_000 <= v.now.nanos < (v.now.Unix() + 1) * 1_000_000_000
    ensures DedupGate(v, st).1 <==> v.now.nanos - last > v.rule.value.dedupWindowSeconds * 1_000_000_000
  {
  }
}
