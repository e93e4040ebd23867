/** Copying the scalar fields of a JSON payload into an event's tags, in whatever order the payload's map yields. */
module TagCopy {
  import opened Events
  import opened Text
  import opened TextMeaning

  type Tags = map<string, string>

  /** A decoded JSON value; a number comes with the text it is formatted to. */
  datatype Json = Str(s: string) | Bool(b: bool) | Number(text: string) | Null | Compound

  type Payload = map<string, Json>

  function ScalarToString(v: Json): Option<string> {
    match v
    case Str(s) => Some(s)
    case Bool(b) => Some(if b then "true" else "false")
    case Number(text) => Some(text)
    case Null => None
    case Compound => None
  }

  function Needles(): seq<string> {
    ["token", "secret", "password", "passwd", "private_key", "unseal_key", "client_secret", "secret_id",
     "refresh_token", "access_token", "authorization", "cookie", "api_key"]
  }

  predicate IsSensitiveKey(key: string) {
    exists i | 0 <= i < |Needles()| :: Contains(ToLower(key), Needles()[i])
  }

  function CoreFields(): set<string> {
    {"source_type", "zone", "severity", "event_category", "message", "timestamp"}
  }

  function Prefixed(key: string): string {
    "json_" + key
  }

  /** The value a field is copied with; None for one that is sensitive, not a scalar or empty. */
  function FieldValue(key: string, v: Json): Option<string> {
    if IsSensitiveKey(key) then None
    else if ScalarToString(v) == None || ScalarToString(v).value == "" then None
    else ScalarToString(v)
  }

  /** The fields of a payload that are copied at all. */
  function Fields(payload: Payload): Tags {
    map k | k in payload && FieldValue(k, payload[k]).Some? :: FieldValue(k, payload[k]).value
  }

  /** One turn of the loop, given the core names and the way a name is prefixed. */
  function Place(core: set<string>, p: string -> string, tags: Tags, key: string, value: string): Tags {
    var first := if key in core then p(key) else key;
    var target := if first in tags then p(key) else first;
    if target in tags then tags else tags[target := value]
  }

  function PlaceAll(core: set<string>, p: string -> string, tags: Tags, fields: Tags, order: seq<string>): Tags {
    if order == [] then tags
    else
      var before, key := PlaceAll(core, p, tags, fields, order[..|order| - 1]), order[|order| - 1];
      if key in fields then Place(core, p, before, key, fields[key]) else before
  }

  /** What the loop leaves when the payload's map yields its keys in this order. */
  function CopyInOrder(tags: Tags, payload: Payload, order: seq<string>): Tags {
    PlaceAll(CoreFields(), Prefixed, tags, Fields(payload), order)
  }

  ghost predicate IsOrder(keys: set<string>, order: seq<string>) {
    && (forall k :: k in order <==> k in keys)
    && forall i, j | 0 <= i < j < |order| :: order[i] != order[j]
  }

  method CopyField(tags: Tags, key: string, value: string) returns (out: Tags)
    ensures out == Place(CoreFields(), Prefixed, tags, key, value)
  {
    out := tags;
    var target := key;
    if key in CoreFields() {
      target := Prefixed(key);
    }
    if target in tags {
      target := Prefixed(key);
    }
    if target in tags {
      return;
    }
    out := tags[target := value];
  }

  /** The loop over the payload, taking its keys in an arbitrary order. */
  method CopySafeJsonFieldsToTags(tags: Tags, payload: Payload) returns (out: Tags, ghost order: seq<string>)
    ensures IsOrder(payload.Keys, order) && out == CopyInOrder(tags, payload, order)
    ensures Harmless(CoreFields(), Prefixed, tags, Fields(payload)) ==>
              Settled(CoreFields(), Prefixed, tags, Fields(payload), out)
  {
    out, order := tags, [];
    ghost var fields := Fields(payload);
    var left := payload.Keys;
    while left != {}
      invariant left <= payload.Keys
      invariant IsOrder(payload.Keys - left, order)
      invariant out == PlaceAll(CoreFields(), Prefixed, tags, fields, order)
      decreases left
    {
      var key :| key in left;
      left := left - {key};
      ghost var before := order;
      order := order + [key];
      assert order[..|order| - 1] == before;
      var value := FieldValue(key, payload[key]);
      if value == None {
        continue;
      }
      out := CopyField(out, key, value.value);
    }
    if Harmless(CoreFields(), Prefixed, tags, fields) { HarmlessOrdersSettle(tags, payload, order); }
  }

  // ----- safety in every order --------------------------------------------------

  /** Existing tags are never overwritten. */
  lemma {:induction false} TagsAreKept(core: set<string>, p: string -> string, tags: Tags, fields: Tags,
                                       order: seq<string>)
    ensures var out := PlaceAll(core, p, tags, fields, order);
            forall t | t in tags :: t in out && out[t] == tags[t]
  {
    if order != [] { TagsAreKept(core, p, tags, fields, order[..|order| - 1]); }
  }

  /** The words that give a secret away. */
  const SECRETS := {"token", "secret", "password", "passwd", "private_key", "unseal_key", "authorization", "cookie",
                    "api_key"}

  lemma SaysPart(text: string, word: string, a: string, part: string, b: string)
    requires word == a + part + b && Says(text, word)
    ensures Says(text, part)
  {
    var i: nat :| i <= |text| && SaysAt(text, word, i);
    forall k | 0 <= k < |part|
      ensures SameLetter(text[i + |a| + k], part[k])
    {
      assert word[|a| + k] == part[k];
      assert SameLetter(text[i + (|a| + k)], word[|a| + k]);
    }
    assert SaysAt(text, part, i + |a|);
  }

  /** Each needle has one of those words in it. */
  lemma NeedleHasSecret(i: nat) returns (a: string, word: string, b: string)
    requires i < |Needles()|
    ensures word in SECRETS && Needles()[i] == a + word + b
  {
    match i
    case 6 => a, word, b := "client_", "secret", "";
    case 7 => a, word, b := "", "secret", "_id";
    case 8 => a, word, b := "refresh_", "token", "";
    case 9 => a, word, b := "access_", "token", "";
    case _ => a, word, b := "", Needles()[i], "";
  }

  lemma NeedlesAreLower(i: nat)
    requires i < |Needles()|
    ensures ToLower(Needles()[i]) == Needles()[i]
  {
  }

  lemma SecretIsNeedle(word: string) returns (i: nat)
    requires word in SECRETS
    ensures i < |Needles()| && Needles()[i] == word
  {
    if word == "token" { i := 0; }
    else if word == "secret" { i := 1; }
    else if word == "password" { i := 2; }
    else if word == "passwd" { i := 3; }
    else if word == "private_key" { i := 4; }
    else if word == "unseal_key" { i := 5; }
    else if word == "authorization" { i := 10; }
    else if word == "cookie" { i := 11; }
    else { i := 12; }
  }

  /** A key is sensitive exactly when one of nine words stands in it, in whatever case. */
  lemma SensitiveIff(key: string)
    ensures IsSensitiveKey(key) <==> exists word | word in SECRETS :: Says(key, word)
  {
    if IsSensitiveKey(key) {
      var i: nat :| i < |Needles()| && Contains(ToLower(key), Needles()[i]);
      var a, word, b := NeedleHasSecret(i);
      NeedlesAreLower(i);
      ContainsIff(key, Needles()[i]);
      SaysPart(key, Needles()[i], a, word, b);
    }
    if word :| word in SECRETS && Says(key, word) {
      var i := SecretIsNeedle(word);
      NeedlesAreLower(i);
      ContainsIff(key, word);
      assert Contains(ToLower(key), Needles()[i]);
    }
  }

  lemma PrefixHidesNothing(needle: string, s: string)
    requires |needle| >= 2 && needle[0] !in "jon_" && (needle[0] == 's' ==> needle[1] != 'o')
    requires Contains("json_" + s, needle)
    ensures Contains(s, needle)
  {
    var h := "json_" + s;
    var i :| 0 <= i <= |h| && OccursAt(h, needle, i);
    var found := h[i..i + |needle|];
    assert found[0] == h[i] && found[1] == h[i + 1];
    assert i >= 5;
    assert s[i - 5..i - 5 + |needle|] == found;
    assert OccursAt(s, needle, i - 5);
  }

  lemma NeedleStarts(i: nat)
    requires i < |Needles()|
    ensures var n := Needles()[i]; |n| >= 2 && n[0] !in "jon_" && (n[0] == 's' ==> n[1] != 'o')
  {
  }

  /** Prefixing a key cannot make it sensitive. */
  lemma PrefixIsInnocent(key: string)
    ensures IsSensitiveKey(Prefixed(key)) ==> IsSensitiveKey(key)
  {
    if IsSensitiveKey(Prefixed(key)) {
      var i: nat :| i < |Needles()| && Contains(ToLower(Prefixed(key)), Needles()[i]);
      assert ToLower(Prefixed(key)) == "json_" + ToLower(key);
      NeedleStarts(i);
      PrefixHidesNothing(Needles()[i], ToLower(key));
    }
  }

  lemma {:induction false} AddedComeFromFields(core: set<string>, p: string -> string, tags: Tags, fields: Tags,
                                               order: seq<string>)
    ensures forall t | t in PlaceAll(core, p, tags, fields, order) && t !in tags ::
              exists k | k in fields :: t == k || t == p(k)
  {
    if order != [] { AddedComeFromFields(core, p, tags, fields, order[..|order| - 1]); }
  }

  /** In every order: existing tags keep their values, and no tag that gets added has one of the nine words in its
      key. */
  lemma CopyingIsSafe(tags: Tags, payload: Payload, order: seq<string>)
    ensures forall t | t in tags ::
              t in CopyInOrder(tags, payload, order) && CopyInOrder(tags, payload, order)[t] == tags[t]
    ensures forall t, word | t in CopyInOrder(tags, payload, order) && t !in tags && word in SECRETS :: !Says(t, word)
  {
    var fields, out := Fields(payload), CopyInOrder(tags, payload, order);
    TagsAreKept(CoreFields(), Prefixed, tags, fields, order);
    AddedComeFromFields(CoreFields(), Prefixed, tags, fields, order);
    forall t | t in out && t !in tags
      ensures forall word | word in SECRETS :: !Says(t, word)
    {
      var k :| k in fields && (t == k || t == Prefixed(k));
      PrefixIsInnocent(k);
      SensitiveIff(t);
    }
  }

  // ----- when the order matters ---------------------------------------------------

  /** The key cannot be used as it is: it names a core field or a tag that was there before. */
  predicate NeedsPrefix(core: set<string>, tags: Tags, key: string) {
    key in core || key in tags
  }

  /** The key wants the prefixed name, that name is free, and it is also a key being copied. */
  predicate Clash(core: set<string>, p: string -> string, tags: Tags, fields: Tags, key: string) {
    key in fields && NeedsPrefix(core, tags, key) && p(key) in fields && p(key) !in tags
  }

  /** From this name on, prefixing again and again, every name belongs to a field with this same value, until one
      is reached that was a tag before. */
  predicate Settles(p: string -> string, tags: Tags, fields: Tags, name: string, value: string)
    decreases |fields|
  {
    || name in tags
    || (name in fields && fields[name] == value && Settles(p, tags, fields - {name}, p(name), value))
  }

  /** No clash, or only such as pass the same value along. */
  predicate Harmless(core: set<string>, p: string -> string, tags: Tags, fields: Tags) {
    forall k | k in fields :: Clash(core, p, tags, fields, k) ==> Settles(p, tags, fields, p(k), fields[k])
  }

  /** What is asked of prefixing: it is injective, lengthens, and never yields a core name. */
  ghost predicate Prefixing(core: set<string>, p: string -> string) {
    && (forall a, b :: p(a) == p(b) ==> a == b)
    && forall a :: |p(a)| > |a| && p(a) !in core
  }

  lemma PrefixedPrefixes()
    ensures Prefixing(CoreFields(), Prefixed)
  {
    forall a, b | Prefixed(a) == Prefixed(b)
      ensures a == b
    {
      assert a == Prefixed(a)[5..] && b == Prefixed(b)[5..];
    }
    forall a
      ensures |Prefixed(a)| > |a| && Prefixed(a) !in CoreFields()
    {
      assert |Prefixed(a)| == |a| + 5 && Prefixed(a)[0] == 'j';
    }
  }

  function Target(core: set<string>, p: string -> string, tags: Tags, key: string): string {
    if NeedsPrefix(core, tags, key) then p(key) else key
  }

  /** The result told without an order: the old tags, and for each field its target, unless that was a tag before,
      with the value of a field that has this target. */
  ghost predicate Settled(core: set<string>, p: string -> string, tags: Tags, fields: Tags, out: Tags) {
    && Kept(tags, out)
    && (forall k | k in fields && Target(core, p, tags, k) !in tags :: Target(core, p, tags, k) in out)
    && AllTargeted(core, p, tags, fields, out)
  }

  ghost predicate Kept(tags: Tags, out: Tags) {
    forall t | t in tags :: t in out && out[t] == tags[t]
  }

  ghost predicate AllTargeted(core: set<string>, p: string -> string, tags: Tags, fields: Tags, out: Tags) {
    forall t | t in out && t !in tags :: exists k | k in fields :: Target(core, p, tags, k) == t && out[t] == fields[k]
  }

  /** The same half-way, with the keys in `done` seen: a name taken from a field not yet seen is on a chain that
      settles. */
  ghost predicate Placed(core: set<string>, p: string -> string, tags: Tags, fields: Tags, done: set<string>, out: Tags)
  {
    && Kept(tags, out)
    && (forall k | k in fields && k in done && Target(core, p, tags, k) !in tags :: Target(core, p, tags, k) in out)
    && AllTargeted(core, p, tags, fields, out)
    && (forall t | t in out && t !in tags && t !in done && t in fields :: Settles(p, tags, fields, t, out[t]))
  }

  lemma {:induction false} SettlesAmongMore(p: string -> string, tags: Tags, fields: Tags, more: Tags, name: string,
                                            value: string)
    requires Settles(p, tags, fields, name, value)
    requires forall t | t in fields :: t in more && more[t] == fields[t]
    ensures Settles(p, tags, more, name, value)
    decreases |fields|
  {
    if name !in tags {
      SettlesAmongMore(p, tags, fields - {name}, more - {name}, p(name), value);
    }
  }

  /** One more key lands under its target, or passes its value along a chain. */
  lemma PlaceOneMore(core: set<string>, p: string -> string, tags: Tags, fields: Tags, done: set<string>, out: Tags,
                     key: string)
    requires Prefixing(core, p) && Harmless(core, p, tags, fields)
    requires key in fields && key !in done && Placed(core, p, tags, fields, done, out)
    ensures Placed(core, p, tags, fields, done + {key}, Place(core, p, out, key, fields[key]))
  {
    var v, after := fields[key], Place(core, p, out, key, fields[key]);
    if NeedsPrefix(core, tags, key) {
      AddName(core, p, tags, fields, done, out, key, p(key), key);
    } else if key !in out {
      AddName(core, p, tags, fields, done, out, key, key, key);
    } else {
      assert Settles(p, tags, fields, key, out[key]);
      if p(key) !in out {
        SettlesAmongMore(p, tags, fields - {key}, fields, p(key), v);
        AddName(core, p, tags, fields, done, out, key, p(key), p(key));
      }
    }
  }

  lemma AddName(core: set<string>, p: string -> string, tags: Tags, fields: Tags, done: set<string>, out: Tags,
                key: string, name: string, owner: string)
    requires Placed(core, p, tags, fields, done, out) && key in fields && key !in done
    requires owner in fields && Target(core, p, tags, owner) == name && fields[owner] == fields[key]
    requires name !in out && name in fields && name != key ==> Settles(p, tags, fields, name, fields[key])
    requires Target(core, p, tags, key) == name || Target(core, p, tags, key) in out
    ensures Placed(core, p, tags, fields, done + {key}, if name in out then out else out[name := fields[key]])
  {
    var after := if name in out then out else out[name := fields[key]];
    forall t | t in after && t !in tags
      ensures exists k | k in fields :: Target(core, p, tags, k) == t && after[t] == fields[k]
    {
      if t == name && name !in out {
        assert Target(core, p, tags, owner) == t && after[t] == fields[owner];
      } else {
        var k :| k in fields && Target(core, p, tags, k) == t && out[t] == fields[k];
        assert after[t] == fields[k];
      }
    }
  }

  lemma {:induction false} PlaceAllPlaces(core: set<string>, p: string -> string, tags: Tags, fields: Tags,
                                          done: set<string>, order: seq<string>)
    requires Prefixing(core, p) && Harmless(core, p, tags, fields) && IsOrder(done, order)
    ensures Placed(core, p, tags, fields, done, PlaceAll(core, p, tags, fields, order))
  {
    if order != [] {
      var front, key := order[..|order| - 1], order[|order| - 1];
      FrontIsOrder(done, order);
      PlaceAllPlaces(core, p, tags, fields, done - {key}, front);
      assert done - {key} + {key} == done;
      if key in fields {
        PlaceOneMore(core, p, tags, fields, done - {key}, PlaceAll(core, p, tags, fields, front), key);
      }
    }
  }

  lemma FrontIsOrder(done: set<string>, order: seq<string>)
    requires order != [] && IsOrder(done, order)
    ensures IsOrder(done - {order[|order| - 1]}, order[..|order| - 1])
  {
    var front, key := order[..|order| - 1], order[|order| - 1];
    forall k
      ensures k in front <==> k in done - {key}
    {
      if k in done && k != key {
        var i :| 0 <= i < |order| && order[i] == k;
        assert front[i] == k;
      }
    }
  }

  /** Where every clash is harmless, every order leads to such a result. */
  lemma HarmlessOrdersSettle(tags: Tags, payload: Payload, order: seq<string>)
    requires IsOrder(payload.Keys, order) && Harmless(CoreFields(), Prefixed, tags, Fields(payload))
    ensures Settled(CoreFields(), Prefixed, tags, Fields(payload), CopyInOrder(tags, payload, order))
  {
    PrefixedPrefixes();
    PlaceAllPlaces(CoreFields(), Prefixed, tags, Fields(payload), payload.Keys, order);
  }

  lemma SettledAgree(core: set<string>, p: string -> string, tags: Tags, fields: Tags, a: Tags, b: Tags, t: string)
    requires Prefixing(core, p) && Harmless(core, p, tags, fields)
    requires Settled(core, p, tags, fields, a) && Settled(core, p, tags, fields, b) && t in a
    ensures t in b && b[t] == a[t]
  {
    if t !in tags {
      var j :| j in fields && Target(core, p, tags, j) == t && a[t] == fields[j];
      var k :| k in fields && Target(core, p, tags, k) == t && b[t] == fields[k];
      if NeedsPrefix(core, tags, j) {
        OneValuePerTarget(core, p, tags, fields, j, k);
      } else {
        OneValuePerTarget(core, p, tags, fields, k, j);
      }
    }
  }

  /** And there is only one. */
  lemma SettledIsUnique(core: set<string>, p: string -> string, tags: Tags, fields: Tags, a: Tags, b: Tags)
    requires Prefixing(core, p) && Harmless(core, p, tags, fields)
    requires Settled(core, p, tags, fields, a) && Settled(core, p, tags, fields, b)
    ensures a == b
  {
    forall t | t in a
      ensures t in b && b[t] == a[t]
    {
      SettledAgree(core, p, tags, fields, a, b, t);
    }
    forall t | t in b
      ensures t in a
    {
      SettledAgree(core, p, tags, fields, b, a, t);
    }
  }

  lemma OneValuePerTarget(core: set<string>, p: string -> string, tags: Tags, fields: Tags, j: string, k: string)
    requires Prefixing(core, p) && Harmless(core, p, tags, fields) && j in fields && k in fields
    requires Target(core, p, tags, j) == Target(core, p, tags, k) && Target(core, p, tags, k) !in tags
    requires NeedsPrefix(core, tags, j) || !NeedsPrefix(core, tags, k)
    ensures fields[j] == fields[k]
  {
    if j != k {
      assert Clash(core, p, tags, fields, j) && p(j) == k;
    }
  }

  // ----- and exactly when it does ---------------------------------------------------

  lemma {:induction false} OrderExists(keys: set<string>) returns (order: seq<string>)
    ensures IsOrder(keys, order)
    decreases keys
  {
    if keys == {} {
      order := [];
    } else {
      var k :| k in keys;
      var front := OrderExists(keys - {k});
      order := front + [k];
    }
  }

  /** Any distinct keys can be taken first. */
  lemma OrderStarting(keys: set<string>, first: seq<string>) returns (rest: seq<string>)
    requires forall k | k in first :: k in keys
    requires forall i, j | 0 <= i < j < |first| :: first[i] != first[j]
    ensures IsOrder(keys, first + rest)
    ensures forall k | k in rest :: k !in first
  {
    rest := OrderExists(keys - set k | k in first);
    var order := first + rest;
    forall i, j | 0 <= i < j < |order|
      ensures order[i] != order[j]
    {
      if i < |first| <= j { assert order[j] == rest[j - |first|] && order[j] in rest; }
    }
  }

  lemma {:induction false} PlaceAllInTwo(core: set<string>, p: string -> string, tags: Tags, fields: Tags,
                                         a: seq<string>, b: seq<string>)
    ensures PlaceAll(core, p, tags, fields, a + b) == PlaceAll(core, p, PlaceAll(core, p, tags, fields, a), fields, b)
  {
    if b == [] {
      assert a + b == a;
    } else {
      assert (a + b)[..|a + b| - 1] == a + b[..|b| - 1];
      PlaceAllInTwo(core, p, tags, fields, a, b[..|b| - 1]);
    }
  }

  /** A name once taken is kept, whatever comes later. */
  lemma TakenForGood(core: set<string>, p: string -> string, tags: Tags, fields: Tags, first: seq<string>,
                     rest: seq<string>, name: string)
    requires name in PlaceAll(core, p, tags, fields, first)
    ensures var out := PlaceAll(core, p, tags, fields, first + rest);
            name in out && out[name] == PlaceAll(core, p, tags, fields, first)[name]
  {
    PlaceAllInTwo(core, p, tags, fields, first, rest);
    TagsAreKept(core, p, PlaceAll(core, p, tags, fields, first), fields, rest);
  }

  lemma PlaceSnoc(core: set<string>, p: string -> string, tags: Tags, fields: Tags, order: seq<string>, key: string)
    requires key in fields
    ensures PlaceAll(core, p, tags, fields, order + [key]) ==
            Place(core, p, PlaceAll(core, p, tags, fields, order), key, fields[key])
  {
    assert (order + [key])[..|order + [key]| - 1] == order;
  }

  lemma PlaceFirst(core: set<string>, p: string -> string, tags: Tags, fields: Tags, key: string)
    requires key in fields
    ensures PlaceAll(core, p, tags, fields, [key]) == Place(core, p, tags, key, fields[key])
  {
    assert [] + [key] == [key] && PlaceAll(core, p, tags, fields, []) == tags;
    PlaceSnoc(core, p, tags, fields, [], key);
  }

  /** Only the keys seen, and their prefixed forms, become names. */
  lemma {:induction false} NamesComeFromOrder(core: set<string>, p: string -> string, tags: Tags, fields: Tags,
                                              order: seq<string>)
    ensures forall t | t in PlaceAll(core, p, tags, fields, order) && t !in tags ::
              exists k | k in order && k in fields :: t == k || t == p(k)
  {
    if order != [] {
      var front := order[..|order| - 1];
      NamesComeFromOrder(core, p, tags, fields, front);
      assert forall k | k in front :: k in order;
    }
  }

  /** Follows a chain that does not settle to where it breaks, and gives two orders that part there. `seen` has
      passed v along as far as `name`, which is the prefixed form of `prev`; `ahead` has the fields from here on. */
  lemma {:induction false} ChainParts(core: set<string>, p: string -> string, tags: Tags, fields: Tags,
                                      keys: set<string>, seen: seq<string>, ahead: Tags, prev: string, v: string)
    returns (a: seq<string>, b: seq<string>)
    requires Prefixing(core, p) && fields.Keys <= keys && prev in fields
    requires p(prev) in fields || !NeedsPrefix(core, tags, prev)
    requires (forall k | k in seen :: k in keys) && forall i, j | 0 <= i < j < |seen| :: seen[i] != seen[j]
    requires forall k | k in seen :: |k| < |p(prev)|
    requires var out := PlaceAll(core, p, tags, fields, seen); p(prev) in out && out[p(prev)] == v
    requires forall t | |t| >= |p(prev)| :: (t in ahead <==> t in fields) && (t in ahead ==> ahead[t] == fields[t])
    requires !Settles(p, tags, ahead, p(prev), v)
    ensures IsOrder(keys, a) && IsOrder(keys, b)
    ensures PlaceAll(core, p, tags, fields, a) != PlaceAll(core, p, tags, fields, b)
    decreases |ahead|
  {
    var name := p(prev);
    if name in fields && fields[name] == v {
      NamesComeFromOrder(core, p, tags, fields, seen);
      PlaceSnoc(core, p, tags, fields, seen, name);
      a, b := ChainParts(core, p, tags, fields, keys, seen + [name], ahead - {name}, name, v);
    } else {
      a, b := BreakParts(core, p, tags, fields, keys, seen, prev, v);
    }
  }

  /** Where the chain breaks, the name is left free, or goes to its own field, when that field comes first. */
  lemma BreakParts(core: set<string>, p: string -> string, tags: Tags, fields: Tags, keys: set<string>,
                   seen: seq<string>, prev: string, v: string) returns (a: seq<string>, b: seq<string>)
    requires Prefixing(core, p) && fields.Keys <= keys && prev in fields && p(prev) !in tags
    requires (forall k | k in seen :: k in keys) && forall i, j | 0 <= i < j < |seen| :: seen[i] != seen[j]
    requires var out := PlaceAll(core, p, tags, fields, seen); p(prev) in out && out[p(prev)] == v
    requires if p(prev) in fields then fields[p(prev)] != v else !NeedsPrefix(core, tags, prev)
    ensures IsOrder(keys, a) && IsOrder(keys, b)
    ensures PlaceAll(core, p, tags, fields, a) != PlaceAll(core, p, tags, fields, b)
  {
    var name := p(prev);
    var first := if name in fields then name else prev;
    var rest := OrderStarting(keys, seen);
    var others := OrderStarting(keys, [first]);
    a, b := seen + rest, [first] + others;
    TakenForGood(core, p, tags, fields, seen, rest, name);
    if first == name {
      PlaceFirst(core, p, tags, fields, name);
      TakenForGood(core, p, tags, fields, [name], others, name);
    } else {
      NameStaysFree(core, p, tags, fields, prev, others);
    }
  }

  /** The prefixed form of a key that is taken first, under its own name, is left to nobody. */
  lemma NameStaysFree(core: set<string>, p: string -> string, tags: Tags, fields: Tags, key: string, rest: seq<string>)
    requires Prefixing(core, p) && key in fields && key !in rest && !NeedsPrefix(core, tags, key)
    requires p(key) !in fields && p(key) !in tags
    ensures p(key) !in PlaceAll(core, p, tags, fields, [key] + rest)
  {
    var first := PlaceAll(core, p, tags, fields, [key]);
    PlaceFirst(core, p, tags, fields, key);
    assert first == tags[key := fields[key]] && |p(key)| > |key|;
    PlaceAllInTwo(core, p, tags, fields, [key], rest);
    NamesComeFromOrder(core, p, first, fields, rest);
  }

  /** For every event and payload: the order in which the payload's map is walked is of no account if and only if
      every clash is harmless. */
  lemma OrderIrrelevantIff(tags: Tags, payload: Payload)
    ensures (forall a, b | IsOrder(payload.Keys, a) && IsOrder(payload.Keys, b) ::
               CopyInOrder(tags, payload, a) == CopyInOrder(tags, payload, b))
            <==> Harmless(CoreFields(), Prefixed, tags, Fields(payload))
  {
    var core, fields := CoreFields(), Fields(payload);
    PrefixedPrefixes();
    if Harmless(core, Prefixed, tags, fields) {
      forall a, b | IsOrder(payload.Keys, a) && IsOrder(payload.Keys, b)
        ensures CopyInOrder(tags, payload, a) == CopyInOrder(tags, payload, b)
      {
        HarmlessOrdersSettle(tags, payload, a);
        HarmlessOrdersSettle(tags, payload, b);
        SettledIsUnique(core, Prefixed, tags, fields,
                        CopyInOrder(tags, payload, a), CopyInOrder(tags, payload, b));
      }
    } else {
      var k :| k in fields && Clash(core, Prefixed, tags, fields, k) &&
               !Settles(Prefixed, tags, fields, Prefixed(k), fields[k]);
      PlaceFirst(core, Prefixed, tags, fields, k);
      var a, b := ChainParts(core, Prefixed, tags, fields, payload.Keys, [k], fields, k, fields[k]);
      assert CopyInOrder(tags, payload, a) != CopyInOrder(tags, payload, b);
    }
  }

  /** A payload without keys that start with the prefix has no clash at all. */
  lemma PlainPayloadsAreHarmless(tags: Tags, payload: Payload)
    requires forall k | k in payload :: !("json_" <= k)
    ensures Harmless(CoreFields(), Prefixed, tags, Fields(payload))
  {
    forall k | k in Fields(payload)
      ensures !Clash(CoreFields(), Prefixed, tags, Fields(payload), k)
    {
      assert "json_" <= Prefixed(k);
    }
  }

  /** A scalar and the text it is copied as. */
  predicate ReadsAs(v: Json, text: string) {
    || v == Str(text) || v == Number(text)
    || (v == Bool(true) && text == "true") || (v == Bool(false) && text == "false")
  }

  predicate Harmful(key: string) {
    exists word | word in SECRETS :: Says(key, word)
  }

  /** The key itself, unless it is one of the event's own fields or a tag already. */
  function PlainTarget(tags: Tags, key: string): string {
    if key in {"source_type", "zone", "severity", "event_category", "message", "timestamp"} || key in tags
    then "json_" + key
    else key
  }

  lemma FieldIff(payload: Payload, key: string, text: string)
    ensures key in Fields(payload) && Fields(payload)[key] == text <==>
            key in payload && ReadsAs(payload[key], text) && text != "" && !Harmful(key)
  {
    SensitiveIff(key);
    assert "true" != "" && "false" != "";
  }

  /** Where no field has a prefixed key, each field's target gets that field's value. */
  lemma SettledGives(core: set<string>, p: string -> string, tags: Tags, fields: Tags, out: Tags, key: string)
    requires Prefixing(core, p) && Settled(core, p, tags, fields, out)
    requires key in fields && Target(core, p, tags, key) !in tags && forall a :: p(a) !in fields
    ensures var t := Target(core, p, tags, key); t in out && out[t] == fields[key]
  {
    var t := Target(core, p, tags, key);
    var k :| k in fields && Target(core, p, tags, k) == t && out[t] == fields[k];
    assert k == key;
  }

  lemma PlainSettles(tags: Tags, payload: Payload, order: seq<string>)
    requires IsOrder(payload.Keys, order) && forall k | k in payload :: !("json_" <= k)
    ensures Settled(CoreFields(), Prefixed, tags, Fields(payload), CopyInOrder(tags, payload, order))
    ensures forall a :: Prefixed(a) !in Fields(payload)
  {
    PlainPayloadsAreHarmless(tags, payload);
    HarmlessOrdersSettle(tags, payload, order);
    assert forall a :: "json_" <= Prefixed(a);
  }

  lemma TargetIsPlain(tags: Tags, key: string)
    ensures Target(CoreFields(), Prefixed, tags, key) == PlainTarget(tags, key)
  {
  }

  /** What copying a payload without keys that start with the prefix comes to, in every order: each scalar that is not
      blank, under a key that gives no secret away, is copied under its key or, where that is one of the event's own
      fields or taken, under the prefixed one, if that is free. */
  lemma PlainPayloadCopied(tags: Tags, payload: Payload, order: seq<string>, key: string, text: string)
    requires IsOrder(payload.Keys, order) && forall k | k in payload :: !("json_" <= k)
    requires key in payload && ReadsAs(payload[key], text) && text != "" && !Harmful(key)
    requires PlainTarget(tags, key) !in tags
    ensures var out := CopyInOrder(tags, payload, order);
            PlainTarget(tags, key) in out && out[PlainTarget(tags, key)] == text
  {
    FieldIff(payload, key, text);
    PlainSettles(tags, payload, order);
    TargetIsPlain(tags, key);
    PrefixedPrefixes();
    SettledGives(CoreFields(), Prefixed, tags, Fields(payload), CopyInOrder(tags, payload, order), key);
  }

  /** And nothing else is. */
  lemma PlainPayloadOnly(tags: Tags, payload: Payload, order: seq<string>, t: string)
    requires IsOrder(payload.Keys, order) && forall k | k in payload :: !("json_" <= k)
    requires t in CopyInOrder(tags, payload, order) && t !in tags
    ensures exists key | key in payload ::
              && PlainTarget(tags, key) == t && !Harmful(key)
              && ReadsAs(payload[key], CopyInOrder(tags, payload, order)[t])
              && CopyInOrder(tags, payload, order)[t] != ""
  {
    var fields, out := Fields(payload), CopyInOrder(tags, payload, order);
    PlainSettles(tags, payload, order);
    var key :| key in fields && Target(CoreFields(), Prefixed, tags, key) == t && out[t] == fields[key];
    FieldIff(payload, key, out[t]);
    TargetIsPlain(tags, key);
  }

  /** Letters of which every needle has at least one. */
  const TELLTALES := "kcpufa"

  lemma NeedlesTell(i: nat)
    requires i < |Needles()|
    ensures exists j :: 0 <= j < |Needles()[i]| && Needles()[i][j] in TELLTALES
  {
    var n := Needles()[i];
    var j := match i
      case 0 => 2 case 1 => 2 case 2 => 0 case 3 => 0 case 4 => 0 case 5 => 0 case 6 => 0
      case 7 => 2 case 8 => 2 case 9 => 0 case 10 => 0 case 11 => 0 case _ => 0;
    assert n[j] in TELLTALES;
  }

  lemma MissingLetter(h: string, n: string, p: int, j: nat)
    requires j < |n| && n[j] !in h
    ensures !OccursAt(h, n, p)
  {
    if 0 <= p <= |h| - |n| { assert h[p..p + |n|][j] == h[p + j] && h[p + j] in h; }
  }

  /** A key without those letters is not sensitive. */
  lemma PlainKeysAreNotSensitive(key: string)
    requires forall c | c in ToLower(key) :: c !in TELLTALES
    ensures !IsSensitiveKey(key)
  {
    var h := ToLower(key);
    forall i: nat, p | i < |Needles()| && 0 <= p <= |h|
      ensures !OccursAt(h, Needles()[i], p)
    {
      NeedlesTell(i);
      var n := Needles()[i];
      var j :| 0 <= j < |n| && n[j] in TELLTALES;
      MissingLetter(h, n, p, j);
    }
  }

  const SEVERITIES: Payload := map["severity" := Str("a"), "json_severity" := Str("b")]

  lemma SeveritiesAreCopied()
    ensures var fields := Fields(SEVERITIES);
            && "severity" in fields && fields["severity"] == "a"
            && "json_severity" in fields && fields["json_severity"] == "b"
    ensures "json_severity" == Prefixed("severity") && |"json_severity"| == 13 && |"severity"| == 8
  {
    assert ToLower("severity") == "severity" && ToLower("json_severity") == "json_severity";
    PlainKeysAreNotSensitive("severity");
    PlainKeysAreNotSensitive("json_severity");
  }

  /** Whichever of the two comes first gets the name. */
  lemma FirstSeverityWins()
    ensures var fields := Fields(SEVERITIES);
            var one := PlaceAll(CoreFields(), Prefixed, map[], fields, ["severity"]);
            var other := PlaceAll(CoreFields(), Prefixed, map[], fields, ["json_severity"]);
            && "json_severity" in one && one["json_severity"] == "a"
            && "json_severity" in other && other["json_severity"] == "b"
  {
    var fields := Fields(SEVERITIES);
    SeveritiesAreCopied();
    PlaceFirst(CoreFields(), Prefixed, map[], fields, "severity");
    PlaceFirst(CoreFields(), Prefixed, map[], fields, "json_severity");
    assert "json_severity" !in CoreFields() by { assert "json_severity"[0] == 'j'; }
  }

  /** The payload of a severity and of a key that spells out its prefixed form, to be copied to an event without tags:
      the order in which they come decides which of the two values the one name gets. */
  lemma SeverityClashes()
    ensures var one, other := ["severity", "json_severity"], ["json_severity", "severity"];
            && SEVERITIES == map["severity" := Str("a"), "json_severity" := Str("b")]
            && IsOrder(SEVERITIES.Keys, one) && IsOrder(SEVERITIES.Keys, other)
            && CopyInOrder(map[], SEVERITIES, one) != CopyInOrder(map[], SEVERITIES, other)
  {
    var fields := Fields(SEVERITIES);
    SeveritiesAreCopied();
    FirstSeverityWins();
    var one, other := ["severity", "json_severity"], ["json_severity", "severity"];
    assert one == ["severity"] + ["json_severity"] && other == ["json_severity"] + ["severity"];
    TakenForGood(CoreFields(), Prefixed, map[], fields, ["severity"], ["json_severity"], "json_severity");
    TakenForGood(CoreFields(), Prefixed, map[], fields, ["json_severity"], ["severity"], "json_severity");
  }
}
