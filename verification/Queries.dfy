/** Which events a query matches, told filter by filter and character by character, and what it then answers. */
module Queries {
  import opened Events
  import opened Sums
  import opened Text
  import opened TextMeaning
  import opened Jsonl
  import opened JsonlReads
  import opened SourceTypes

  /** The two are aliases of one source type. */
  predicate OneSource(a: string, b: string) {
    || SameName(a, b)
    || (Among(a, "opnsense", "firewall") && Among(b, "opnsense", "firewall"))
    || (Among(a, "fuxa", "scada") && Among(b, "fuxa", "scada"))
    || (Among(a, "openplc", "plc") && Among(b, "openplc", "plc"))
  }

  predicate Among(a: string, one: string, other: string) {
    SameName(a, one) || SameName(a, other)
  }

  /** Some field has the text in it, or some tag in its key or its value. */
  predicate SomewhereSays(e: Event, text: string) {
    || Says(e.message, text) || Says(e.raw, text) || Says(e.assetName, text) || Says(e.assetIp, text)
    || Says(e.sourceType, text) || Says(e.severity, text) || Says(e.category, text)
    || TagSays(e, text)
  }

  predicate TagSays(e: Event, text: string) {
    exists k | k in e.tags :: Says(k, text) || Says(e.tags[k], text)
  }

  /** The seven fields in a row, with blanks between them. */
  function FieldsInARow(e: Event): string {
    e.message + " " + (e.raw + " " + (e.assetName + " " + (e.assetIp + " " +
      (e.sourceType + " " + (e.severity + " " + e.category)))))
  }

  /** What each filter asks for; a blank one asks for nothing. */
  predicate Meets(e: Event, q: EventQuery) {
    && (q.sourceType == "" || OneSource(TrimSpace(e.sourceType), TrimSpace(q.sourceType)))
    && (q.severity == "" || SameText(e.severity, q.severity))
    && (q.category == "" || SameText(e.category, q.category))
    && (q.assetIp == "" || SameText(e.assetIp, q.assetIp))
    && (q.search == "" || Says(FieldsInARow(e), q.search) || TagSays(e, q.search))
  }

  lemma JoinRow(a: string, rest: seq<string>)
    requires rest != []
    ensures Join([a] + rest, " ") == a + " " + Join(rest, " ")
  {
    assert ([a] + rest)[1..] == rest;
  }

  lemma JoinedInARow(e: Event)
    ensures SearchBlob(e) == ToLower(FieldsInARow(e))
  {
    var g := [e.category];
    var f := [e.severity] + g;
    var d := [e.sourceType] + f;
    var c := [e.assetIp] + d;
    var b := [e.assetName] + c;
    var a := [e.raw] + b;
    JoinRow(e.severity, g);
    JoinRow(e.sourceType, f);
    JoinRow(e.assetIp, d);
    JoinRow(e.assetName, c);
    JoinRow(e.raw, b);
    JoinRow(e.message, a);
    assert [e.message, e.raw, e.assetName, e.assetIp, e.sourceType, e.severity, e.category] == [e.message] + a;
  }

  lemma TagsIff(e: Event, text: string)
    ensures TagSays(e, text) <==>
            exists k | k in e.tags ::
              Contains(ToLower(k), ToLower(text)) || Contains(ToLower(e.tags[k]), ToLower(text))
  {
    forall k | k in e.tags
      ensures Contains(ToLower(k), ToLower(text)) <==> Says(k, text)
      ensures Contains(ToLower(e.tags[k]), ToLower(text)) <==> Says(e.tags[k], text)
    {
      ContainsIff(k, text);
      ContainsIff(e.tags[k], text);
    }
  }

  /** The table of the store gives two types one name exactly when they are aliases. */
  lemma CanonicalIff(a: string, b: string)
    ensures CanonicalSourceType(a) == CanonicalSourceType(b) <==> OneSource(TrimSpace(a), TrimSpace(b))
  {
    SameNameIff(TrimSpace(a), TrimSpace(b));
    TableNames(a);
    TableNames(b);
  }

  lemma FirewallNames(a: string)
    ensures CanonicalSourceType(a) == "firewall" <==> Among(TrimSpace(a), "opnsense", "firewall")
  {
    FoldedIs(a, "opnsense");
    FoldedIs(a, "firewall");
    LengthsDiffer();
  }

  lemma ScadaNames(a: string)
    ensures CanonicalSourceType(a) == "scada" <==> Among(TrimSpace(a), "fuxa", "scada")
  {
    FoldedIs(a, "fuxa");
    FoldedIs(a, "scada");
    LengthsDiffer();
  }

  lemma PlcNames(a: string)
    ensures CanonicalSourceType(a) == "plc" <==> Among(TrimSpace(a), "openplc", "plc")
  {
    FoldedIs(a, "openplc");
    FoldedIs(a, "plc");
    LengthsDiffer();
  }

  lemma TableNames(a: string)
    ensures var x := TrimSpace(a);
            && (CanonicalSourceType(a) == "firewall" <==> Among(x, "opnsense", "firewall"))
            && (CanonicalSourceType(a) == "scada" <==> Among(x, "fuxa", "scada"))
            && (CanonicalSourceType(a) == "plc" <==> Among(x, "openplc", "plc"))
            && (CanonicalSourceType(a) !in {"firewall", "scada", "plc"} ==> CanonicalSourceType(a) == Folded(a))
  {
    FirewallNames(a);
    ScadaNames(a);
    PlcNames(a);
  }

  /** Exactly which events a query matches. */
  lemma MatchesQueryIff(e: Event, q: EventQuery)
    ensures MatchesQuery(e, q) <==> Meets(e, q)
  {
    CanonicalIff(e.sourceType, q.sourceType);
    EqualFoldIff(e.severity, q.severity);
    EqualFoldIff(e.category, q.category);
    EqualFoldIff(e.assetIp, q.assetIp);
    JoinedInARow(e);
    ContainsIff(FieldsInARow(e), q.search);
    TagsIff(e, q.search);
  }

  lemma InARow(e: Event, text: string)
    requires ' ' !in text
    ensures Says(FieldsInARow(e), text) || TagSays(e, text) <==> SomewhereSays(e, text)
  {
    var e6 := e.severity + " " + e.category;
    var e5 := e.sourceType + " " + e6;
    var e4 := e.assetIp + " " + e5;
    var e3 := e.assetName + " " + e4;
    var e2 := e.raw + " " + e3;
    SaysAcrossBlank(e.severity, e.category, text);
    SaysAcrossBlank(e.sourceType, e6, text);
    SaysAcrossBlank(e.assetIp, e5, text);
    SaysAcrossBlank(e.assetName, e4, text);
    SaysAcrossBlank(e.raw, e3, text);
    SaysAcrossBlank(e.message, e2, text);
  }

  /** Text without a blank is found exactly where some field or tag has it, in whatever case. */
  lemma SearchIff(e: Event, text: string)
    requires ' ' !in text
    ensures MatchesQuery(e, EventQuery(search := text)) <==> text == "" || SomewhereSays(e, text)
  {
    MatchesQueryIff(e, EventQuery(search := text));
    InARow(e, text);
  }

  /** Each filter by itself; a query matches what all of its filters match by themselves. */
  lemma FiltersMatch(e: Event, q: EventQuery)
    ensures MatchesQuery(e, EventQuery(severity := q.severity)) <==>
            q.severity == "" || SameText(e.severity, q.severity)
    ensures MatchesQuery(e, EventQuery(category := q.category)) <==>
            q.category == "" || SameText(e.category, q.category)
    ensures MatchesQuery(e, EventQuery(assetIp := q.assetIp)) <==>
            q.assetIp == "" || SameText(e.assetIp, q.assetIp)
    ensures MatchesQuery(e, EventQuery(sourceType := q.sourceType)) <==>
            q.sourceType == "" || OneSource(TrimSpace(e.sourceType), TrimSpace(q.sourceType))
    ensures MatchesQuery(e, q) <==>
            && MatchesQuery(e, EventQuery(severity := q.severity))
            && MatchesQuery(e, EventQuery(category := q.category))
            && MatchesQuery(e, EventQuery(assetIp := q.assetIp))
            && MatchesQuery(e, EventQuery(sourceType := q.sourceType))
            && MatchesQuery(e, EventQuery(search := q.search))
  {
    MatchesQueryIff(e, q);
    MatchesQueryIff(e, EventQuery(severity := q.severity));
    MatchesQueryIff(e, EventQuery(category := q.category));
    MatchesQueryIff(e, EventQuery(assetIp := q.assetIp));
    MatchesQueryIff(e, EventQuery(sourceType := q.sourceType));
    MatchesQueryIff(e, EventQuery(search := q.search));
  }

  function Meeting(q: EventQuery): Event -> bool {
    (e: Event) => Meets(e, q)
  }

  lemma {:induction false} FilteredAlike(es: seq<Event>, p: Event -> bool, r: Event -> bool)
    requires forall e :: p(e) <==> r(e)
    ensures Filtered(es, p) == Filtered(es, r)
  {
    if es != [] { FilteredAlike(es[..|es| - 1], p, r); }
  }

  lemma SameFound(es: seq<Event>, q: EventQuery)
    ensures Filtered(es, Keep(q)) == Filtered(es, Meeting(q))
  {
    forall e
      ensures Keep(q)(e) <==> Meeting(q)(e)
    {
      MatchesQueryIff(e, q);
    }
    FilteredAlike(es, Keep(q), Meeting(q));
  }

  /** The last n entries, or all when there are no more. */
  function Latest<T>(s: seq<T>, n: nat): seq<T> {
    s[if |s| > n then |s| - n else 0..]
  }

  lemma LastOfIsLatest(es: seq<Event>, q: EventQuery)
    ensures LastOf(es, Limit(q)) == Latest(es, if q.limit > 0 then q.limit else 100)
  {
  }

  /** Where no read fails, a query answers with the last events that meet all of its filters: as many as its limit, or
      a hundred when it has none. */
  lemma ReplyMeets(c: Codec, file: Bytes, q: EventQuery)
    ensures Reply(c, file, NoErrors, q) ==
            Some(Latest(Filtered(Decoded(c, file), Meeting(q)), if q.limit > 0 then q.limit else 100))
  {
    UndisturbedReply(c, file, q);
    SameFound(Decoded(c, file), q);
    LastOfIsLatest(Filtered(Decoded(c, file), Keep(q)), q);
  }
}
