/**
 From an OIDC subject to Kubernetes names: sanitizeUserID of pkg/gateway/auth.go
 against the user ID checks and the derived names of pkg/workspace/resources.go.
 */
module Identity {
  import Text

  predicate Letter(c: char) {
    'a' <= c <= 'z'
  }

  predicate LowerAlnum(c: char) {
    Letter(c) || '0' <= c <= '9'
  }

  // --------------------------------------------------------------- the sanitizer

  function LowerOne(c: char, fold: char -> string): string {
    if 'A' <= c <= 'Z' then [(c as int + 32) as char] else if c < '\U{80}' then [c] else fold(c)
  }

  /** strings.ToLower: ASCII is fixed, other characters map to whatever the
      Unicode tables `fold` say. */
  function ToLower(s: string, fold: char -> string): string {
    if s == [] then [] else LowerOne(s[0], fold) + ToLower(s[1..], fold)
  }

  /** nonAlphaNum.ReplaceAllString(s, "-"): every maximal run of other characters
      becomes one hyphen. `after` says that the previous character was in such a run. */
  function Collapse(s: string, after: bool): string {
    if s == [] then []
    else if LowerAlnum(s[0]) then [s[0]] + Collapse(s[1..], false)
    else if after then Collapse(s[1..], true)
    else ['-'] + Collapse(s[1..], true)
  }

  function TrimLeftHyphens(s: string): string {
    if s != [] && s[0] == '-' then TrimLeftHyphens(s[1..]) else s
  }

  function TrimRightHyphens(s: string): string {
    if s != [] && s[|s| - 1] == '-' then TrimRightHyphens(s[..|s| - 1]) else s
  }

  function Prefixed(s: string): string {
    if s != [] && '0' <= s[0] <= '9' then "u-" + s else s
  }

  function Truncated(s: string): string {
    if |s| > 49 then TrimRightHyphens(s[..49]) else s
  }

  /** sanitizeUserID after lowercasing. */
  function SanitizeLowered(s: string): string {
    Truncated(Prefixed(TrimRightHyphens(TrimLeftHyphens(Collapse(s, false)))))
  }

  function SanitizeUserID(sub: string, fold: char -> string): string {
    SanitizeLowered(ToLower(sub, fold))
  }

  // --------------------------------------------------------------- the validator

  /** dnsLabelRegex: ^[a-z]([a-z0-9\-]*[a-z0-9])?$ */
  predicate MatchesDnsLabel(s: string) {
    && s != [] && Letter(s[0]) && LowerAlnum(s[|s| - 1])
    && forall i :: 0 <= i < |s| ==> LowerAlnum(s[i]) || s[i] == '-'
  }

  /** The user ID checks of ValidateSpec. */
  predicate ValidUserID(s: string) {
    s != [] && |s| <= 49 && MatchesDnsLabel(s)
  }

  /** A DNS label (section 2.3.1 of RFC 1035). */
  predicate DnsLabel(s: string) {
    |s| <= 63 && MatchesDnsLabel(s)
  }

  function PVCName(id: string): string { id + "-workspace-pvc" }
  function PodName(id: string): string { id + "-workspace-pod" }
  function ServiceName(id: string): string { id + "-workspace-svc" }
  function ServiceAccountName(id: string): string { id + "-workspace" }

  predicate NoDoubleHyphen(s: string) {
    forall i :: 0 <= i < |s| - 1 ==> !(s[i] == '-' && s[i + 1] == '-')
  }

  predicate Clean(s: string) {
    NoDoubleHyphen(s) && forall i :: 0 <= i < |s| ==> LowerAlnum(s[i]) || s[i] == '-'
  }

  // ----------------------------------------------------------------- step by step

  lemma {:induction false} CollapseIsClean(s: string, after: bool)
    ensures Clean(Collapse(s, after))
    ensures after && Collapse(s, after) != [] ==> Collapse(s, after)[0] != '-'
  {
    if s != [] {
      CollapseIsClean(s[1..], true);
      CollapseIsClean(s[1..], false);
    }
  }

  lemma {:induction false} CollapseKeepsAlnum(s: string, after: bool)
    ensures (exists c :: c in Collapse(s, after) && LowerAlnum(c)) <==> (exists c :: c in s && LowerAlnum(c))
  {
    if s != [] {
      CollapseKeepsAlnum(s[1..], false);
      CollapseKeepsAlnum(s[1..], true);
      assert forall c :: c in s <==> c == s[0] || c in s[1..];
      if LowerAlnum(s[0]) {
        assert Collapse(s, after)[0] == s[0];
      } else {
        assert !LowerAlnum('-');
      }
    }
  }

  lemma {:induction false} TrimLeftMeaning(s: string)
    requires Clean(s)
    ensures var r := TrimLeftHyphens(s);
            && Clean(r) && (r != [] ==> r[0] != '-')
            && ((exists c :: c in r && LowerAlnum(c)) <==> (exists c :: c in s && LowerAlnum(c)))
            && |r| <= |s|
  {
    if s != [] && s[0] == '-' {
      assert Clean(s[1..]);
      TrimLeftMeaning(s[1..]);
      assert forall c :: c in s <==> c == s[0] || c in s[1..];
    }
  }

  lemma CleanInit(s: string)
    requires Clean(s) && s != []
    ensures Clean(s[..|s| - 1])
  {
  }

  lemma {:induction false} TrimRightIsPrefix(s: string)
    requires Clean(s)
    ensures var r := TrimRightHyphens(s);
            Clean(r) && (r != [] ==> r[|r| - 1] != '-') && |r| <= |s| && r == s[..|r|]
  {
    hide Clean;
    if s != [] && s[|s| - 1] == '-' {
      CleanInit(s);
      TrimRightIsPrefix(s[..|s| - 1]);
    }
  }

  /** Only hyphens are cut off. */
  lemma {:induction false} TrimRightKeeps(s: string, c: char)
    requires c != '-'
    ensures c in TrimRightHyphens(s) <==> c in s
  {
    if s != [] && s[|s| - 1] == '-' {
      var init := s[..|s| - 1];
      TrimRightKeeps(init, c);
      assert s == init + ['-'];
    }
  }

  lemma TrimRightMeaning(s: string)
    requires Clean(s)
    ensures var r := TrimRightHyphens(s);
            && Clean(r) && (r != [] ==> r[|r| - 1] != '-') && |r| <= |s| && r == s[..|r|]
            && ((exists c :: c in r && LowerAlnum(c)) <==> (exists c :: c in s && LowerAlnum(c)))
  {
    hide TrimRightHyphens, Clean;
    TrimRightIsPrefix(s);
    forall c | c != '-' ensures c in TrimRightHyphens(s) <==> c in s {
      TrimRightKeeps(s, c);
    }
  }

  /** Trimmed on both sides: empty, or alphanumeric at both ends. */
  lemma TrimmedBothSides(s: string)
    ensures var t := TrimRightHyphens(TrimLeftHyphens(Collapse(s, false)));
            && Clean(t)
            && (t == [] <==> forall c :: c in s ==> !LowerAlnum(c))
            && (t != [] ==> LowerAlnum(t[0]) && LowerAlnum(t[|t| - 1]))
  {
    hide Collapse, TrimLeftHyphens, TrimRightHyphens, NoDoubleHyphen;
    var a := Collapse(s, false);
    CollapseIsClean(s, false);
    CollapseKeepsAlnum(s, false);
    TrimLeftMeaning(a);
    var b := TrimLeftHyphens(a);
    TrimRightMeaning(b);
    var t := TrimRightHyphens(b);
    if t != [] {
      assert t[0] == b[0] && t[0] in t;
    }
  }

  lemma PrefixedMeaning(t: string)
    requires Clean(t) && (t != [] ==> LowerAlnum(t[0]) && LowerAlnum(t[|t| - 1]))
    ensures var p := Prefixed(t);
            Clean(p) && (p == [] <==> t == []) && (p != [] ==> Letter(p[0]) && LowerAlnum(p[|p| - 1]))
  {
    if t != [] && '0' <= t[0] <= '9' {
      var p := "u-" + t;
      forall i | 0 <= i < |p| - 1 ensures !(p[i] == '-' && p[i + 1] == '-') {
        if i >= 2 { assert p[i] == t[i - 2] && p[i + 1] == t[i - 1]; }
      }
      forall i | 0 <= i < |p| ensures LowerAlnum(p[i]) || p[i] == '-' {
        if i >= 2 { assert p[i] == t[i - 2]; }
      }
    }
  }

  lemma TruncatedMeaning(p: string)
    requires Clean(p) && (p != [] ==> Letter(p[0]) && LowerAlnum(p[|p| - 1]))
    ensures var r := Truncated(p);
            Clean(r) && |r| <= 49 && (r == [] <==> p == []) && (r != [] ==> Letter(r[0]) && LowerAlnum(r[|r| - 1]))
  {
    if |p| > 49 {
      var cut := p[..49];
      assert Clean(cut);
      TrimRightMeaning(cut);
      assert cut[0] in cut && LowerAlnum(cut[0]);
      assert exists c :: c in TrimRightHyphens(cut) && LowerAlnum(c);
    }
  }

  // ---------------------------------------------------------------- main theorems

  /** For every subject the ID is empty exactly when the lowercased subject has no
      letter or digit; otherwise it passes the validator, without double hyphens. */
  lemma SanitizedIsValid(sub: string, fold: char -> string)
    ensures var lowered, id := ToLower(sub, fold), SanitizeUserID(sub, fold);
            && (id == [] <==> forall c :: c in lowered ==> !LowerAlnum(c))
            && (id != [] ==> ValidUserID(id) && NoDoubleHyphen(id))
  {
    var s := ToLower(sub, fold);
    TrimmedBothSides(s);
    var t := TrimRightHyphens(TrimLeftHyphens(Collapse(s, false)));
    PrefixedMeaning(t);
    TruncatedMeaning(Prefixed(t));
  }

  lemma SuffixedLabel(id: string, suffix: string)
    requires ValidUserID(id) && suffix != [] && |suffix| <= 14 && LowerAlnum(suffix[|suffix| - 1])
    requires forall i :: 0 <= i < |suffix| ==> LowerAlnum(suffix[i]) || suffix[i] == '-'
    ensures DnsLabel(id + suffix)
  {
    var s := id + suffix;
    assert s[|s| - 1] == suffix[|suffix| - 1];
  }

  /** Names of different users differ, for each kind of object. */
  lemma NamesIdentifyUsers(a: string, b: string)
    requires PodName(a) == PodName(b) || PVCName(a) == PVCName(b) || ServiceName(a) == ServiceName(b)
             || ServiceAccountName(a) == ServiceAccountName(b)
    ensures a == b
  {
    assert PodName(a)[..|a|] == a && PodName(b)[..|b|] == b;
    assert PVCName(a)[..|a|] == a && PVCName(b)[..|b|] == b;
    assert ServiceName(a)[..|a|] == a && ServiceName(b)[..|b|] == b;
    assert ServiceAccountName(a)[..|a|] == a && ServiceAccountName(b)[..|b|] == b;
  }

  /** Names derived from a valid user ID are DNS labels of at most 63 characters. */
  lemma DerivedNamesAreLabels(id: string)
    requires ValidUserID(id)
    ensures DnsLabel(PodName(id)) && DnsLabel(PVCName(id)) && DnsLabel(ServiceName(id)) && DnsLabel(ServiceAccountName(id))
  {
    SuffixedLabel(id, "-workspace-pod");
    SuffixedLabel(id, "-workspace-pvc");
    SuffixedLabel(id, "-workspace-svc");
    SuffixedLabel(id, "-workspace");
  }

  lemma LowerFirst(s: string, rest: string, fold: char -> string)
    requires s != [] && s[1..] == rest
    ensures ToLower(s, fold) == LowerOne(s[0], fold) + ToLower(rest, fold)
  {
    hide LowerOne;
  }

  lemma Regroup(x: string, y: string, z: string)
    ensures x + (y + z) == (x + y) + z
  {
  }

  /** Lowercasing works character by character. */
  lemma {:induction false} LowerConcat(a: string, b: string, fold: char -> string)
    ensures ToLower(a + b, fold) == ToLower(a, fold) + ToLower(b, fold)
  {
    if a == [] {
      assert a + b == b;
    } else {
      hide ToLower, LowerOne;
      LowerConcat(a[1..], b, fold);
      assert (a + b)[1..] == a[1..] + b;
      LowerFirst(a + b, a[1..] + b, fold);
      LowerFirst(a, a[1..], fold);
      Regroup(LowerOne(a[0], fold), ToLower(a[1..], fold), ToLower(b, fold));
    }
  }

  /** An ASCII capital becomes the small letter in the same place of the alphabet, other
      ASCII characters stay, and the rest follow the Unicode tables. */
  lemma LowerCharacter(c: char, fold: char -> string)
    ensures 'A' <= c <= 'Z' ==>
      |ToLower([c], fold)| == 1 && 'a' <= ToLower([c], fold)[0] <= 'z'
      && ToLower([c], fold)[0] as int - 'a' as int == c as int - 'A' as int
    ensures !('A' <= c <= 'Z') && c < '\U{80}' ==> ToLower([c], fold) == [c]
    ensures c >= '\U{80}' ==> ToLower([c], fold) == fold(c)
  {
    assert [c][1..] == [] && ToLower([], fold) == [];
  }

  lemma {:induction false} LowerFixed(s: string, fold: char -> string)
    requires forall i :: 0 <= i < |s| ==> LowerAlnum(s[i]) || s[i] == '-'
    ensures ToLower(s, fold) == s
  {
    if s != [] {
      LowerFixed(s[1..], fold);
      assert s == [s[0]] + s[1..];
    }
  }

  lemma {:induction false} CollapseFixed(s: string, after: bool)
    requires Clean(s) && (after && s != [] ==> s[0] != '-')
    ensures Collapse(s, after) == s
  {
    if s != [] {
      assert Clean(s[1..]);
      CollapseFixed(s[1..], s[0] == '-');
      assert s == [s[0]] + s[1..];
    }
  }

  /** Every valid user ID without a double hyphen is its own sanitized form. */
  lemma ImageIsFixed(id: string, fold: char -> string)
    requires ValidUserID(id) && NoDoubleHyphen(id)
    ensures SanitizeUserID(id, fold) == id
  {
    LowerFixed(id, fold);
    CollapseFixed(id, false);
  }

  /** The image of the sanitizer is exactly the valid IDs without double hyphens,
      and the empty string; so sanitizing twice changes nothing. */
  lemma SanitizerImage(id: string, fold: char -> string)
    ensures (exists sub :: SanitizeUserID(sub, fold) == id) <==> id == [] || (ValidUserID(id) && NoDoubleHyphen(id))
  {
    if sub :| SanitizeUserID(sub, fold) == id {
      SanitizedIsValid(sub, fold);
    }
    if id == [] {
      SanitizedIsValid([], fold);
      assert SanitizeUserID([], fold) == id;
    } else if ValidUserID(id) && NoDoubleHyphen(id) {
      ImageIsFixed(id, fold);
    }
  }

  lemma SanitizeIdempotent(sub: string, fold: char -> string)
    ensures SanitizeUserID(SanitizeUserID(sub, fold), fold) == SanitizeUserID(sub, fold)
  {
    SanitizedIsValid(sub, fold);
    var id := SanitizeUserID(sub, fold);
    if id == [] {
      SanitizedIsValid([], fold);
    } else {
      ImageIsFixed(id, fold);
    }
  }

  // ------------------------------------------------- what the ID says about the subject

  /** Reference: the maximal runs of letters and digits, in order. */
  function Words(s: string): (ws: seq<string>)
    ensures s != [] && LowerAlnum(s[0]) ==> ws != []
  {
    if s == [] then []
    else if !LowerAlnum(s[0]) then Words(s[1..])
    else if |s| > 1 && LowerAlnum(s[1]) then
      var rest := Words(s[1..]);
      [[s[0]] + rest[0]] + rest[1..]
    else [[s[0]]] + Words(s[1..])
  }

  function Flat(ws: seq<string>): string {
    if ws == [] then [] else ws[0] + Flat(ws[1..])
  }

  function OnlyAlnum(s: string): string {
    if s == [] then [] else (if LowerAlnum(s[0]) then [s[0]] else []) + OnlyAlnum(s[1..])
  }

  /** A run ends wherever no letter or digit follows; this counts the runs. */
  function Runs(s: string): nat {
    if s == [] then 0
    else Runs(s[1..]) + if LowerAlnum(s[0]) && (|s| == 1 || !LowerAlnum(s[1])) then 1 else 0
  }

  /** The words hold all letters and digits of the subject, in order. */
  lemma {:induction false} WordsHoldAll(s: string)
    ensures Flat(Words(s)) == OnlyAlnum(s)
  {
    if s != [] {
      WordsHoldAll(s[1..]);
      var rest := Words(s[1..]);
      if !LowerAlnum(s[0]) {
      } else if |s| > 1 && LowerAlnum(s[1]) {
        LongerWord(s[0], rest);
      } else {
        assert ([[s[0]]] + rest)[1..] == rest;
      }
    }
  }

  lemma LongerWord(c: char, ws: seq<string>)
    requires ws != []
    ensures Flat([[c] + ws[0]] + ws[1..]) == [c] + Flat(ws)
  {
    assert ([[c] + ws[0]] + ws[1..])[1..] == ws[1..];
    assert ([c] + ws[0]) + Flat(ws[1..]) == [c] + (ws[0] + Flat(ws[1..]));
  }

  /** There are as many words as runs. */
  lemma {:induction false} WordsAreRuns(s: string)
    ensures |Words(s)| == Runs(s)
  {
    if s != [] { WordsAreRuns(s[1..]); }
  }

  function Spelled(s: string): string {
    Text.Join(Words(s), '-')
  }

  lemma {:induction false} WordsAreWords(s: string)
    ensures forall w :: w in Words(s) ==> w != [] && forall i :: 0 <= i < |w| ==> LowerAlnum(w[i])
    ensures Words(s) == [] <==> forall c :: c in s ==> !LowerAlnum(c)
  {
    if s != [] {
      WordsAreWords(s[1..]);
      assert forall c :: c in s <==> c == s[0] || c in s[1..];
      if LowerAlnum(s[0]) {
        assert s[0] in s;
      }
    }
  }

  lemma SpelledStarts(s: string)
    requires s != [] && LowerAlnum(s[0])
    ensures Spelled(s) ==
            [s[0]] + (if Words(s[1..]) != [] && !LowerAlnum(s[1]) then ['-'] else []) + Spelled(s[1..])
  {
    if |s| > 1 && LowerAlnum(s[1]) {
      var rest := Words(s[1..]);
      var ws := Words(s);
      assert ws[1..] == rest[1..] && ws[0] == [s[0]] + rest[0];
    } else {
      var ws := Words(s);
      assert ws[1..] == Words(s[1..]);
      if |s| == 1 { assert s[1..] == []; }
    }
  }

  lemma {:induction false} TrimRightCons(c: char, s: string)
    ensures TrimRightHyphens([c] + s) ==
            if TrimRightHyphens(s) == [] && c == '-' then [] else [c] + TrimRightHyphens(s)
  {
    if s == [] {
      assert [c] + s == [c] && [c][..0] == [];
    } else {
      assert ([c] + s)[|[c] + s| - 1] == s[|s| - 1];
      if s[|s| - 1] == '-' {
        assert ([c] + s)[..|[c] + s| - 1] == [c] + s[..|s| - 1];
        TrimRightCons(c, s[..|s| - 1]);
      }
    }
  }

  lemma {:induction false} CollapseSpells(s: string, after: bool)
    ensures TrimRightHyphens(Collapse(s, after)) ==
            (if Words(s) != [] && !LowerAlnum(s[0]) && !after then ['-'] else []) + Spelled(s)
  {
    hide Spelled;
    if s == [] {
      assert Spelled(s) == [] by { SpelledEmpty(s); }
    } else if LowerAlnum(s[0]) {
      CollapseSpells(s[1..], false);
      TrimRightCons(s[0], Collapse(s[1..], false));
      SpelledStarts(s);
    } else {
      CollapseSpells(s[1..], true);
      assert Spelled(s) == Spelled(s[1..]) by { SpelledSkips(s); }
      if !after {
        TrimRightCons('-', Collapse(s[1..], true));
        SpelledEmpty(s[1..]);
      }
    }
  }

  lemma SpelledSkips(s: string)
    requires s != [] && !LowerAlnum(s[0])
    ensures Spelled(s) == Spelled(s[1..])
  {
  }

  lemma SpelledEmpty(s: string)
    ensures Spelled(s) == [] <==> Words(s) == []
  {
    WordsAreWords(s);
    if Words(s) != [] { assert Words(s)[0] in Words(s); }
  }

  /** Collapsing and trimming amounts to joining the words. */
  lemma TrimSpells(s: string)
    ensures TrimRightHyphens(TrimLeftHyphens(Collapse(s, false))) == Spelled(s)
  {
    hide Spelled, TrimRightHyphens;
    var c := Collapse(s, false);
    if s != [] && !LowerAlnum(s[0]) {
      CollapseIsClean(s[1..], true);
      CollapseSpells(s[1..], true);
      SpelledSkips(s);
      assert c[1..] == Collapse(s[1..], true);
      assert TrimLeftHyphens(c) == TrimLeftHyphens(c[1..]) == c[1..];
    } else {
      CollapseSpells(s, false);
      assert TrimLeftHyphens(c) == c;
    }
  }

  /** The sanitized ID spells the subject's words in order, joined by single
      hyphens, with "u-" in front of a leading digit, cut to 49 characters. */
  lemma SanitizedSpellsSubject(sub: string, fold: char -> string)
    ensures var words := Spelled(ToLower(sub, fold));
            var full, id := (if words != [] && '0' <= words[0] <= '9' then "u-" else "") + words, SanitizeUserID(sub, fold);
            && (|full| <= 49 ==> id == full)
            && (|full| > 49 ==> id == if full[48] == '-' then full[..48] else full[..49])
  {
    hide Spelled, TrimRightHyphens, Collapse, ToLower;
    var s := ToLower(sub, fold);
    TrimSpells(s);
    TrimmedBothSides(s);
    var full := Prefixed(Spelled(s));
    PrefixedMeaning(Spelled(s));
    if |full| > 49 {
      CutOnce(full);
    }
  }

  lemma CutOnce(full: string)
    requires |full| > 49 && NoDoubleHyphen(full)
    ensures TrimRightHyphens(full[..49]) == if full[48] == '-' then full[..48] else full[..49]
  {
    if full[48] == '-' {
      assert full[..49][..48] == full[..48];
      assert full[..48][47] == full[47];
    }
  }
}
