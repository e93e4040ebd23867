/** Source types are canonicalised twice, on the way in and when the store is queried, by two different tables. */
module SourceTypes {
  import opened Events
  import opened Text
  import opened TextMeaning
  import opened Jsonl
  import opened Processing
  import opened IngestedEvents

  /** Trimmed, in lower case, without dashes. */
  function Folded(s: string): string {
    DashToUnderscore(ToLower(TrimSpace(s)))
  }

  predicate Plain(s: string) {
    && (forall i | 0 <= i < |s| :: LowerChar(s[i]) == s[i] && s[i] != '-')
    && (s != "" ==> !IsSpace(s[0]) && !IsSpace(s[|s| - 1]))
  }

  lemma {:induction false} TrimLeftTrims(s: string)
    ensures TrimLeft(s) != "" ==> !IsSpace(TrimLeft(s)[0])
  {
    if s != "" && IsSpace(s[0]) { TrimLeftTrims(s[1..]); }
  }

  lemma {:induction false} TrimRightTrims(s: string)
    ensures TrimRight(s) <= s
    ensures TrimRight(s) != "" ==> !IsSpace(TrimRight(s)[|TrimRight(s)| - 1])
  {
    if s != "" && IsSpace(s[|s| - 1]) { TrimRightTrims(s[..|s| - 1]); }
  }

  lemma FoldedIsPlain(s: string)
    ensures Plain(Folded(s))
  {
    TrimLeftTrims(s);
    TrimRightTrims(TrimLeft(s));
    var trimmed, folded := TrimSpace(s), Folded(s);
    forall i | 0 <= i < |folded|
      ensures LowerChar(folded[i]) == folded[i] && folded[i] != '-'
      ensures IsSpace(folded[i]) <==> IsSpace(trimmed[i])
    {
    }
  }

  lemma PlainIsFixed(s: string)
    requires Plain(s)
    ensures Folded(s) == s
  {
    assert TrimLeft(s) == s && TrimRight(s) == s;
    assert ToLower(s) == s && DashToUnderscore(s) == s;
  }

  /** Folding twice is folding once. */
  lemma FoldingTwice(s: string)
    ensures Folded(Folded(s)) == Folded(s)
  {
    FoldedIsPlain(s);
    PlainIsFixed(Folded(s));
  }

  lemma NamesArePlain()
    ensures Plain("firewall") && Plain("scada") && Plain("plc") && Plain("ids") && Plain("scada_gds_client")
  {
  }

  /** A name that folding leaves alone is what is left of a type exactly when the two are the same name. */
  lemma FoldedIs(s: string, name: string)
    requires Plain(name)
    ensures Folded(s) == name <==> SameName(TrimSpace(s), name)
  {
    PlainIsFixed(name);
    assert TrimSpace(name) == name;
    SameNameIff(TrimSpace(s), name);
  }

  /** The aliases only the way in knows. */
  predicate KnownOnlyOnTheWayIn(s: string) {
    Folded(s) in {"fuxa_gds_client", "scada_gds", "scada_gds_helper", "nozomi"}
  }

  lemma LengthsDiffer()
    ensures |"firewall"| == 8 == |"opnsense"| && "firewall"[0] == 'f' && "opnsense"[0] == 'o'
    ensures |"scada"| == 5 && |"plc"| == 3 == |"ids"| && |"scada_gds_client"| == 16 == |"scada_gds_helper"|
    ensures |"fuxa"| == 4 && |"fuxa_gds_client"| == 15 && |"scada_gds"| == 9 && |"openplc"| == 7 && |"nozomi"| == 6
    ensures "scada_gds_client"[10] == 'c' && "scada_gds_helper"[10] == 'h'
  {
  }

  /** The names both tables give are left alone by both. */
  lemma NamesAreFixed(name: string)
    requires name in {"firewall", "scada", "plc", "ids", "scada_gds_client"}
    ensures NormalizeSourceType(name) == name == CanonicalSourceType(name)
  {
    NamesArePlain();
    PlainIsFixed(name);
    LengthsDiffer();
  }

  /** The two tables, on a type already folded. */
  lemma TablesByCase(s: string)
    ensures var w, n := Folded(s), NormalizeSourceType(s);
            && (n == w || n in {"firewall", "scada", "plc", "ids", "scada_gds_client"})
            && (n == w ==> w !in {"opnsense", "fuxa", "openplc"} && !KnownOnlyOnTheWayIn(s))
            && (n != w && !KnownOnlyOnTheWayIn(s) ==> CanonicalSourceType(s) == n)
  {
    LengthsDiffer();
  }

  predicate IsAlias(s: string, name: string) {
    SameName(TrimSpace(s), name)
  }

  /** The aliases the way in knows and what it makes of them. */
  function Unaliased(s: string): Option<string> {
    if IsAlias(s, "opnsense") then Some("firewall")
    else if IsAlias(s, "fuxa") then Some("scada")
    else if IsAlias(s, "openplc") then Some("plc")
    else if IsAlias(s, "nozomi") then Some("ids")
    else if IsAlias(s, "fuxa_gds_client") || IsAlias(s, "scada_gds") || IsAlias(s, "scada_gds_helper")
    then Some("scada_gds_client")
    else None
  }

  lemma AliasesArePlain()
    ensures Plain("opnsense") && Plain("fuxa") && Plain("openplc") && Plain("nozomi")
    ensures Plain("fuxa_gds_client") && Plain("scada_gds") && Plain("scada_gds_helper")
  {
    LengthsDiffer();
  }

  /** The normal form of a source type: that of an alias, else the type itself, trimmed, in lower case and without
      dashes. */
  lemma NormalForm(s: string)
    ensures var n := NormalizeSourceType(s);
            && (Unaliased(s).Some? ==> n == Unaliased(s).value)
            && (Unaliased(s) == None ==> Plain(n) && SameName(TrimSpace(s), n))
  {
    AliasesArePlain();
    FoldedIs(s, "opnsense");
    FoldedIs(s, "fuxa");
    FoldedIs(s, "openplc");
    FoldedIs(s, "nozomi");
    FoldedIs(s, "fuxa_gds_client");
    FoldedIs(s, "scada_gds");
    FoldedIs(s, "scada_gds_helper");
    FoldedIsPlain(s);
    FoldedIs(s, Folded(s));
    LengthsDiffer();
  }

  /** What the way in makes of a type is a fixed point of it: a second ingestion changes nothing. */
  lemma NormalizingTwice(s: string)
    ensures NormalizeSourceType(NormalizeSourceType(s)) == NormalizeSourceType(s)
  {
    var n := NormalizeSourceType(s);
    TablesByCase(s);
    FoldingTwice(s);
    if n != Folded(s) { NamesAreFixed(n); }
  }

  lemma AliasIsLost(s: string)
    requires KnownOnlyOnTheWayIn(s)
    ensures NormalizeSourceType(s) in {"ids", "scada_gds_client"} && CanonicalSourceType(s) == Folded(s)
    ensures NormalizeSourceType(s) != Folded(s)
  {
    LengthsDiffer();
  }

  /** A stored event is found by a query for the source type it came with if and only if that type is not one of the
      aliases known only on the way in. */
  lemma FoundUnderOwnTypeIff(s: string)
    ensures CanonicalSourceType(NormalizeSourceType(s)) == CanonicalSourceType(s) <==> !KnownOnlyOnTheWayIn(s)
  {
    var n := NormalizeSourceType(s);
    TablesByCase(s);
    FoldingTwice(s);
    if KnownOnlyOnTheWayIn(s) {
      AliasIsLost(s);
      NamesAreFixed(n);
    } else if n != Folded(s) {
      NamesAreFixed(n);
    }
  }

  /** So, of an event ingested under source type s, the query for s: it matches the event as stored if and only if s
      is none of those aliases. A blank s asks for nothing and matches. */
  lemma QueryMatchesIff(e: Event, s: string)
    requires e.sourceType == NormalizeSourceType(s)
    ensures MatchesQuery(e, EventQuery(sourceType := s)) <==> !KnownOnlyOnTheWayIn(s)
  {
    FoundUnderOwnTypeIff(s);
    if s == "" { assert Folded("") == "" by { assert TrimLeft("") == "" && ToLower("") == ""; } }
  }

  /** And of what the store answers: appended to a file that ends in a newline, the event comes up at the end of the
      answer, or, under an alias, leaves the answer as it was. */
  lemma StoredIsAnsweredIff(c: Codec, file: Bytes, e: Event, s: string)
    requires c.Lawful() && Terminated(file) && c.Canonical(e).sourceType == NormalizeSourceType(s)
    ensures var q := EventQuery(sourceType := s);
            Answer(c, file + c.Record(e), q) ==
            if KnownOnlyOnTheWayIn(s) then Answer(c, file, q) else LastOf(Answer(c, file, q) + [c.Canonical(e)], 100)
  {
    QueryMatchesIff(c.Canonical(e), s);
    AppendPushesAnswer(c, file, e, EventQuery(sourceType := s));
  }

  /** So of an ingestion: an event that comes in under source type s and is appended, to a file that ends in a newline,
      comes up at the end of the answer to a query for s, unless s is one of those aliases, when the answer stays as it
      was. The source type is to survive the round trip through the codec. */
  lemma AppendedIsAnsweredIff(fx: Fixed, rules: seq<RuleConfig>, st: State, inp: Input)
    requires fx.codec.Lawful() && Terminated(Contents(st.file))
    requires var eff := EffectAt(fx, rules, st, inp);
             eff.appended && fx.codec.Canonical(eff.verdict.evt).sourceType == eff.verdict.evt.sourceType
    ensures var s, evt := inp.evt.sourceType, EffectAt(fx, rules, st, inp).verdict.evt;
            var q, before := EventQuery(sourceType := s), Contents(st.file);
            Answer(fx.codec, Contents(Ingested(fx, rules, st, inp).file), q) ==
            if KnownOnlyOnTheWayIn(s) then Answer(fx.codec, before, q)
            else LastOf(Answer(fx.codec, before, q) + [fx.codec.Canonical(evt)], 100)
  {
    IngestedEvent(fx, rules, st, inp);
    OneEventGoesOut(fx, rules, st, inp);
    StoredIsAnsweredIff(fx.codec, Contents(st.file), EffectAt(fx, rules, st, inp).verdict.evt, inp.evt.sourceType);
  }

  /** An event that came in as `nozomi` is stored as `ids` and is not found by asking for `nozomi`. */
  lemma NozomiIsNotFound(e: Event)
    requires e.sourceType == NormalizeSourceType("nozomi")
    ensures e.sourceType == "ids" && !MatchesQuery(e, EventQuery(sourceType := "nozomi"))
  {
    assert Plain("nozomi");
    PlainIsFixed("nozomi");
    LengthsDiffer();
    QueryMatchesIff(e, "nozomi");
  }
}
