/** What sanitised evidence says: harmless evidence comes through unchanged, and no text that
    reads as an instruction comes through at all. */
module EvidenceContents {
  import opened Base
  import opened Text
  import opened Sorting
  import opened Evidence

  // ---- what is secret ------------------------------------------------------------------------

  /** The word is somewhere in the text. */
  ghost predicate Within(word: string, text: string) { exists a, b :: text == a + word + b }

  lemma ContainsMeans(text: string, word: string)
    ensures Contains(text, word) <==> Within(word, text)
  {
    if Contains(text, word) {
      var i :| 0 <= i <= |text| && OccursAt(text, word, i);
      assert text == text[..i] + word + text[i + |word|..];
    }
    if Within(word, text) {
      var a, b :| text == a + word + b;
      assert text[|a|..|a| + |word|] == word;
      assert OccursAt(text, word, |a|);
    }
  }

  predicate SecretWord(w: string)
  {
    w in {"password", "passwd", "passphrase", "secret", "token", "apikey", "api_key", "api-key", "private",
          "credential", "cookie", "session", "authorization", "bearer", "license_key", "licence_key", "signature"}
  }

  /** A key is secret exactly when one of the words is in it, in whatever case. */
  lemma SecretExactly(key: string)
    ensures IsSecret(key) <==> exists w :: SecretWord(w) && Within(w, ToLower(key))
  {
    forall w ensures Contains(ToLower(key), w) <==> Within(w, ToLower(key)) {
      ContainsMeans(ToLower(key), w);
    }
    hide Contains, Within, SecretWord;
    forall w ensures SecretWord(w) <==> exists i :: 0 <= i < |SECRET_MARKERS| && SECRET_MARKERS[i] == w {
      MarkersAre(w);
    }
    if IsSecret(key) {
      var i :| 0 <= i < |SECRET_MARKERS| && Contains(ToLower(key), SECRET_MARKERS[i]);
      assert SecretWord(SECRET_MARKERS[i]);
    }
  }

  lemma MarkersAre(w: string)
    ensures SecretWord(w) <==> exists i :: 0 <= i < |SECRET_MARKERS| && SECRET_MARKERS[i] == w
  {
    assert SECRET_MARKERS[0] == "password" && SECRET_MARKERS[1] == "passwd" && SECRET_MARKERS[2] == "passphrase"
           && SECRET_MARKERS[3] == "secret" && SECRET_MARKERS[4] == "token" && SECRET_MARKERS[5] == "apikey";
    assert SECRET_MARKERS[6] == "api_key" && SECRET_MARKERS[7] == "api-key" && SECRET_MARKERS[8] == "private"
           && SECRET_MARKERS[9] == "credential" && SECRET_MARKERS[10] == "cookie" && SECRET_MARKERS[11] == "session";
    assert SECRET_MARKERS[12] == "authorization" && SECRET_MARKERS[13] == "bearer"
           && SECRET_MARKERS[14] == "license_key"
           && SECRET_MARKERS[15] == "licence_key" && SECRET_MARKERS[16] == "signature";
  }

  // ---- what comes through ----------------------------------------------------------------------

  /** Within every bound, without secrets, and with no text the filter matches. */
  ghost predicate Harmless(v: Value, f: Filter)
  {
    match v
    case Scalar(_) => true
    case Str(s) => |s| <= 400 && !f(s)
    case Obj(m) => |m| <= 24 && forall k :: k in m ==> !IsSecret(k) && Harmless(m[k], f)
    case Arr(items) => |items| <= 12 && forall i :: 0 <= i < |items| ==> Harmless(items[i], f)
    case StrList(_) => false
    case Other(_) => false
  }

  lemma AllKept(m: map<string, Value>)
    requires |m| <= 24 && forall k :: k in m ==> !IsSecret(k)
    ensures Members(KeptKeys(m)) == m.Keys
  {
    hide IsSecret;
    var keys := Sorted(OpenKeys(m));
    assert OpenKeys(m) == m.Keys;
    SortedListing(m.Keys);
    IncreasingCount(keys);
    assert |m| == |m.Keys|;
  }

  lemma {:induction false} ValueUnchanged(v: Value, depth: nat, f: Filter)
    requires 1 <= depth <= 3 && Harmless(v, f) && NoDeeperThan(v, 3 - depth)
    ensures SanitizeValue(v, depth, f) == v
    decreases v, 1
  {
    Allowed(v, depth, f);
    hide Harmless, NoDeeperThan, SanitizeMap, Tame;
    match v
    case Obj(m) => EntriesUnchanged(m, depth + 1, f);
    case Arr(items) => ItemsUnchanged(items, depth, f);
    case _ =>
  }

  lemma Allowed(v: Value, depth: nat, f: Filter)
    requires Harmless(v, f) && NoDeeperThan(v, 3 - depth)
    ensures v.Obj? || v.Arr? ==> depth < 3
    ensures v.Str? ==> Tame(v.s, f) == v.s
    ensures !v.StrList? && !v.Other?
  {
    hide IsSecret;
  }

  lemma {:induction false} EntriesUnchanged(m: map<string, Value>, depth: nat, f: Filter)
    requires 1 <= depth <= 3 && Harmless(Obj(m), f) && NoDeeperThan(Obj(m), 4 - depth)
    ensures SanitizeMap(m, depth, f) == m
    decreases Obj(m), 0
  {
    hide IsSecret;
    AllKept(m);
    forall k | k in m ensures SanitizeValue(m[k], depth, f) == m[k] {
      ValueUnchanged(m[k], depth, f);
    }
    hide KeptKeys, Members, Harmless, SanitizeValue, NoDeeperThan;
  }

  lemma {:induction false} ItemsUnchanged(items: seq<Value>, depth: nat, f: Filter)
    requires 1 <= depth < 3 && Harmless(Arr(items), f) && NoDeeperThan(Arr(items), 3 - depth)
    ensures SanitizeValue(Arr(items), depth, f) == Arr(items)
    decreases Arr(items), 0
  {
    forall i | 0 <= i < |items| ensures SanitizeValue(items[i], depth + 1, f) == items[i] {
      ValueUnchanged(items[i], depth + 1, f);
    }
    var out := SanitizeValue(Arr(items), depth, f);
    hide NoDeeperThan, IsSecret, Tame;
    assert out.items == items;
  }

  /** Evidence that is already harmless, three levels deep, is returned as it is. */
  lemma HarmlessUnchanged(m: map<string, Value>, f: Filter)
    requires Harmless(Obj(m), f) && NoDeeperThan(Obj(m), 3)
    ensures SanitizeEvidence(m, f) == m
  {
    EntriesUnchanged(m, 1, f);
  }

  /** No text of at most 400 characters reads as an instruction. */
  ghost predicate Silent(v: Value, f: Filter)
  {
    match v
    case Str(s) => |s| <= 400 ==> !f(s)
    case Obj(m) => forall k :: k in m ==> Silent(m[k], f)
    case Arr(items) => forall i :: 0 <= i < |items| ==> Silent(items[i], f)
    case StrList(strs) => forall i :: 0 <= i < |strs| ==> |strs[i]| <= 400 ==> !f(strs[i])
    case Scalar(_) => true
    case Other(_) => false
  }

  /** The markers themselves do not read as instructions. */
  predicate MarkersPass(f: Filter)
  {
    && !f("[omitted: nested too deep]") && !f("[omitted: not serialisable]") && !f("[omitted: instruction-like text]")
  }

  /** An instruction is replaced whole, other text is kept up to 400 characters. */
  lemma TextBecomes(s: string, f: Filter)
    ensures f(s) ==> Tame(s, f) == "[omitted: instruction-like text]"
    ensures !f(s) && |s| <= 400 ==> Tame(s, f) == s
    ensures !f(s) && |s| > 400 ==> Tame(s, f) == s[..400] + ['\U{2026}']
  {
  }

  lemma {:induction false} ValueSilent(v: Value, depth: nat, f: Filter)
    requires 1 <= depth <= 3 && MarkersPass(f)
    ensures Silent(SanitizeValue(v, depth, f), f)
    decreases 3 - depth, v
  {
    match v
    case Scalar(_) =>
    case Str(s) => TextBecomes(s, f);
    case Obj(m) =>
      if depth < 3 {
        MapSilent(m, depth, f);
      }
    case Arr(items) =>
      if depth < 3 {
        var out := SanitizeValue(v, depth, f).items;
        forall i | 0 <= i < |out| ensures Silent(out[i], f) {
          ValueSilent(items[i], depth + 1, f);
        }
      }
    case StrList(strs) =>
      var out := SanitizeValue(v, depth, f).items;
      forall i | 0 <= i < |out| ensures Silent(out[i], f) {
        TextBecomes(strs[i], f);
      }
    case Other(json) =>
      if json.Some? { ValueSilent(json.value, depth, f); }
  }

  lemma {:induction false} MapSilent(m: map<string, Value>, depth: nat, f: Filter)
    requires 1 <= depth < 3 && MarkersPass(f)
    ensures Silent(Obj(SanitizeMap(m, depth + 1, f)), f)
    decreases 3 - depth, Obj(m), 0
  {
    hide IsSecret, MarkersPass;
    KeptAreKeys(m);
    var out := SanitizeMap(m, depth + 1, f);
    forall k | k in out ensures Silent(out[k], f) {
      ValueSilent(m[k], depth + 1, f);
    }
  }

  /** Whatever goes in, what comes out holds no text that reads as an instruction, cut-off
      texts aside. */
  lemma NoInstructions(m: map<string, Value>, f: Filter)
    requires MarkersPass(f)
    ensures Silent(Obj(SanitizeEvidence(m, f)), f)
  {
    hide IsSecret, MarkersPass;
    KeptAreKeys(m);
    var out := SanitizeMap(m, 1, f);
    forall k | k in out ensures Silent(out[k], f) {
      ValueSilent(m[k], 1, f);
    }
  }

  /** Every kept entry and item is the sanitised form of the one in its own place. */
  lemma PlacesKept(m: map<string, Value>, items: seq<Value>, strs: seq<string>, text: string, depth: nat, f: Filter)
    requires 1 <= depth <= 3
    ensures forall k :: k in SanitizeMap(m, depth, f) ==>
              k in m && SanitizeMap(m, depth, f)[k] == SanitizeValue(m[k], depth, f)
    ensures SanitizeValue(Scalar(text), depth, f) == Scalar(text)
    ensures var out := SanitizeValue(StrList(strs), depth, f);
            && out.Arr? && |out.items| == Min(12, |strs|)
            && forall i :: 0 <= i < |out.items| ==> out.items[i] == Str(Tame(strs[i], f))
    ensures depth < 3 ==>
              var out := SanitizeValue(Arr(items), depth, f);
              && out.Arr? && |out.items| == Min(12, |items|)
              && forall i :: 0 <= i < |out.items| ==> out.items[i] == SanitizeValue(items[i], depth + 1, f)
    ensures depth == 3 ==> SanitizeValue(Arr(items), depth, f) == SanitizeValue(Obj(m), depth, f)
                           == Str("[omitted: nested too deep]")
  {
    hide IsSecret;
    KeptAreKeys(m);
    hide Tame;
  }
}
