/** What the string operations mean, character by character. */
module TextMeaning {
  import opened Text

  predicate White(c: char) {
    c == ' ' || c == '\t' || c == '\n' || c == '\r' || c as int == 11 || c as int == 12
  }

  predicate AllWhite(s: string) {
    forall i | 0 <= i < |s| :: White(s[i])
  }

  /** The same character, or the two cases of one letter. */
  predicate SameLetter(c: char, d: char) {
    || c == d
    || ('A' <= c <= 'Z' && d as int == c as int + 32)
    || ('A' <= d <= 'Z' && c as int == d as int + 32)
  }

  predicate SameText(a: string, b: string) {
    |a| == |b| && forall i | 0 <= i < |a| :: SameLetter(a[i], b[i])
  }

  /** The same up to case, with dashes for underscores or the other way round. */
  predicate SameName(a: string, b: string) {
    |a| == |b| && forall i | 0 <= i < |a| :: SameLetter(a[i], b[i]) || {a[i], b[i]} <= {'-', '_'}
  }

  predicate SaysAt(text: string, word: string, i: nat) {
    i + |word| <= |text| && forall k | 0 <= k < |word| :: SameLetter(text[i + k], word[k])
  }

  /** The word stands somewhere in the text, in whatever case. */
  predicate Says(text: string, word: string) {
    exists i: nat | i <= |text| :: SaysAt(text, word, i)
  }

  lemma SameLetterIff(c: char, d: char)
    ensures LowerChar(c) == LowerChar(d) <==> SameLetter(c, d)
  {
  }

  /** Folding case compares letter by letter. */
  lemma EqualFoldIff(a: string, b: string)
    ensures EqualFold(a, b) <==> SameText(a, b)
  {
    var x, y := ToLower(a), ToLower(b);
    if x == y {
      forall i | 0 <= i < |a|
        ensures SameLetter(a[i], b[i])
      {
        assert x[i] == y[i];
        SameLetterIff(a[i], b[i]);
      }
    }
    if SameText(a, b) {
      forall i | 0 <= i < |x|
        ensures x[i] == y[i]
      {
        SameLetterIff(a[i], b[i]);
      }
    }
  }

  lemma SameUpperIff(a: string, b: string)
    ensures ToUpper(a) == ToUpper(b) <==> SameText(a, b)
  {
    var x, y := ToUpper(a), ToUpper(b);
    forall i | 0 <= i < |a| && |a| == |b|
      ensures x[i] == y[i] <==> SameLetter(a[i], b[i])
    {
    }
  }

  /** So does folding with dashes turned into underscores. */
  lemma SameNameIff(a: string, b: string)
    ensures DashToUnderscore(ToLower(a)) == DashToUnderscore(ToLower(b)) <==> SameName(a, b)
  {
    var x, y := DashToUnderscore(ToLower(a)), DashToUnderscore(ToLower(b));
    forall i | 0 <= i < |a| && |a| == |b|
      ensures x[i] == y[i] <==> SameLetter(a[i], b[i]) || {a[i], b[i]} <= {'-', '_'}
    {
      SameLetterIff(a[i], b[i]);
      assert {a[i], b[i]} <= {'-', '_'} <==> a[i] in {'-', '_'} && b[i] in {'-', '_'};
    }
  }

  lemma SaysAtIff(text: string, word: string, i: nat)
    requires i <= |text|
    ensures OccursAt(ToLower(text), ToLower(word), i) <==> SaysAt(text, word, i)
  {
    var h, n := ToLower(text), ToLower(word);
    if i + |word| <= |text| {
      var part := h[i..i + |n|];
      forall k | 0 <= k < |word|
        ensures part[k] == n[k] <==> SameLetter(text[i + k], word[k])
      {
        SameLetterIff(text[i + k], word[k]);
      }
    }
  }

  lemma ContainsIff(text: string, word: string)
    ensures Contains(ToLower(text), ToLower(word)) <==> Says(text, word)
  {
    forall i: nat | i <= |text|
      ensures OccursAt(ToLower(text), ToLower(word), i) <==> SaysAt(text, word, i)
    {
      SaysAtIff(text, word, i);
    }
  }

  // ----- trimming -----------------------------------------------------------

  /** v is what is left of s, from i on, when the white space around it is taken away. */
  predicate CoreAt(s: string, v: string, i: nat) {
    && i + |v| <= |s| && s[i..i + |v|] == v
    && AllWhite(s[..i]) && AllWhite(s[i + |v|..])
    && (v != "" ==> !White(v[0]) && !White(v[|v| - 1]))
  }

  lemma {:induction false} TrimLeftSplits(s: string) returns (i: nat)
    ensures i <= |s| && TrimLeft(s) == s[i..] && AllWhite(s[..i])
    ensures i < |s| ==> !White(s[i])
  {
    i := 0;
    if s != "" && IsSpace(s[0]) {
      var rest := TrimLeftSplits(s[1..]);
      i := rest + 1;
      assert s[i..] == s[1..][rest..] && s[..i] == [s[0]] + s[1..][..rest];
    }
  }

  lemma {:induction false} TrimRightSplits(s: string) returns (n: nat)
    ensures n <= |s| && TrimRight(s) == s[..n] && AllWhite(s[n..])
    ensures n > 0 ==> !White(s[n - 1])
  {
    n := |s|;
    if s != "" && IsSpace(s[|s| - 1]) {
      var front := s[..|s| - 1];
      n := TrimRightSplits(front);
      assert s[..n] == front[..n] && s[n..] == front[n..] + [s[|s| - 1]];
    } else {
      assert s[..n] == s;
    }
  }

  lemma TrimLeavesCore(s: string) returns (i: nat)
    ensures CoreAt(s, TrimSpace(s), i)
  {
    i := TrimLeftSplits(s);
    var rest := s[i..];
    var n := TrimRightSplits(rest);
    assert s[i..i + n] == rest[..n] && s[i + n..] == rest[n..];
    if n > 0 { assert rest[0] == s[i]; }
  }

  lemma WhiteOutside(s: string, k: nat, i: nat, n: nat)
    requires k < |s| && i <= n <= |s|
    ensures AllWhite(s[..i]) && k < i ==> White(s[k])
    ensures AllWhite(s[n..]) && n <= k ==> White(s[k])
  {
    assert k < i ==> s[..i][k] == s[k];
    assert n <= k ==> s[n..][k - n] == s[k];
  }

  lemma CoreStartsFirst(s: string, v: string, i: nat, w: string, j: nat)
    requires CoreAt(s, v, i) && CoreAt(s, w, j) && v != ""
    ensures j <= i && i + |v| <= j + |w|
  {
    assert s[i] == v[0] && s[i + |v| - 1] == v[|v| - 1];
    WhiteOutside(s, i, j, j + |w|);
    WhiteOutside(s, i + |v| - 1, j, j + |w|);
  }

  /** Trimming takes away the white space around a text, all of it and nothing else. */
  lemma TrimIff(s: string, v: string)
    ensures TrimSpace(s) == v <==> exists i: nat :: CoreAt(s, v, i)
  {
    var w := TrimSpace(s);
    var j := TrimLeavesCore(s);
    if i: nat :| CoreAt(s, v, i) {
      if v != "" { CoreStartsFirst(s, v, i, w, j); }
      if w != "" { CoreStartsFirst(s, w, j, v, i); }
    }
  }

  lemma WhiteInAnyCase(s: string)
    ensures AllWhite(ToLower(s)) <==> AllWhite(s)
  {
    forall i | 0 <= i < |s|
      ensures White(ToLower(s)[i]) <==> White(s[i])
    {
    }
  }

  lemma TrimOfLower(s: string)
    ensures TrimSpace(ToLower(s)) == ToLower(TrimSpace(s))
  {
    var v := TrimSpace(s);
    var i := TrimLeavesCore(s);
    var low := ToLower(s);
    assert low[..i] == ToLower(s[..i]) && low[i + |v|..] == ToLower(s[i + |v|..]);
    assert low[i..i + |v|] == ToLower(v);
    WhiteInAnyCase(s[..i]);
    WhiteInAnyCase(s[i + |v|..]);
    assert CoreAt(low, ToLower(v), i);
    TrimIff(low, ToLower(v));
  }

  // ----- joining ------------------------------------------------------------

  /** A text stands in a joined one if it stands in a part. */
  lemma SaysInConcat(a: string, text: string, b: string, word: string)
    requires Says(text, word)
    ensures Says(a + text + b, word)
  {
    var i: nat :| i <= |text| && SaysAt(text, word, i);
    assert SaysAt(a + text + b, word, |a| + i);
  }

  lemma SaidThere(text: string, word: string, i: nat, p: nat)
    requires SaysAt(text, word, i)
    ensures i <= p < i + |word| ==> SameLetter(text[p], word[p - i]) && word[p - i] in word
  {
    assert i <= p < i + |word| ==> text[i + (p - i)] == text[p];
  }

  /** And only then, when it has no blank and the parts are joined by one. */
  lemma SaysAcrossBlank(a: string, b: string, word: string)
    requires ' ' !in word
    ensures Says(a + " " + b, word) <==> Says(a, word) || Says(b, word)
  {
    var text := a + " " + b;
    if Says(text, word) {
      var i: nat :| i <= |text| && SaysAt(text, word, i);
      SaidThere(text, word, i, |a|);
      if i + |word| <= |a| {
        assert SaysAt(a, word, i);
      } else {
        assert SaysAt(b, word, i - |a| - 1);
      }
    }
    if Says(a, word) { SaysInConcat("", a, " " + b, word); assert "" + a + (" " + b) == text; }
    if Says(b, word) { SaysInConcat(a + " ", b, "", word); assert a + " " + b + "" == text; }
  }
}
