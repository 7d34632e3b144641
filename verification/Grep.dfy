/** The matcher of grep.c, and the language that its patterns denote. */
module Grep {

  // ---- what the matcher computes, on the rest of the pattern and the rest of the text

  function MatchHere(re: string, text: string): bool
    decreases |re|, 0, |text|
  {
    if re == "" then true
    else if |re| > 1 && re[1] == '*' then MatchStar(re[0], re[2..], text)
    else if re == "$" then text == ""
    else text != "" && (re[0] == '.' || re[0] == text[0]) && MatchHere(re[1..], text[1..])
  }

  function MatchStar(c: char, re: string, text: string): bool
    decreases |re|, 1, |text|
  {
    MatchHere(re, text) || (text != "" && (text[0] == c || c == '.') && MatchStar(c, re, text[1..]))
  }

  function MatchFrom(re: string, text: string): bool {
    MatchHere(re, text) || (text != "" && MatchFrom(re, text[1..]))
  }

  function Match(re: string, text: string): bool {
    if re != "" && re[0] == '^' then MatchHere(re[1..], text) else MatchFrom(re, text)
  }

  // ---- the matcher; pointers into a string are positions, and the text ends at a NUL

  function CharAt(s: string, i: nat): char {
    if i < |s| then s[i] else '\0'
  }

  predicate IsCString(s: string) {
    forall i :: 0 <= i < |s| ==> s[i] != '\0'
  }

  function AsInt(b: bool): int {
    if b then 1 else 0
  }

  method MatchText(re: string, text: string) returns (r: int)
    requires IsCString(re) && IsCString(text)
    ensures r == AsInt(Match(re, text))
  {
    if CharAt(re, 0) == '^' {
      r := MatchHereAt(re, 1, text, 0);
      assert text[0..] == text;
      return;
    }
    var t := 0;
    assert text[0..] == text && re[0..] == re;
    while true
      invariant 0 <= t <= |text| && MatchFrom(re, text[t..]) == MatchFrom(re, text)
      decreases |text| - t
    {
      r := MatchHereAt(re, 0, text, t);
      if r == 1 {
        return 1;
      }
      if CharAt(text, t) == '\0' {
        break;
      }
      assert text[t..][1..] == text[t + 1..];
      t := t + 1;
    }
    return 0;
  }

  method MatchHereAt(re: string, i: nat, text: string, j: nat) returns (r: int)
    requires IsCString(re) && IsCString(text) && i <= |re| && j <= |text|
    ensures r == AsInt(MatchHere(re[i..], text[j..]))
    decreases |re| - i, 0
  {
    if CharAt(re, i) == '\0' {
      return 1;
    }
    if CharAt(re, i + 1) == '*' {
      r := MatchStarAt(re[i], re, i + 2, text, j);
      assert re[i..][2..] == re[i + 2..];
      return;
    }
    if re[i] == '$' && CharAt(re, i + 1) == '\0' {
      assert re[i..] == "$";
      return AsInt(CharAt(text, j) == '\0');
    }
    assert re[i..] != "$";
    if CharAt(text, j) != '\0' && (re[i] == '.' || re[i] == text[j]) {
      r := MatchHereAt(re, i + 1, text, j + 1);
      assert re[i..][1..] == re[i + 1..] && text[j..][1..] == text[j + 1..];
      return;
    }
    return 0;
  }

  method MatchStarAt(c: char, re: string, i: nat, text: string, j: nat) returns (r: int)
    requires IsCString(re) && IsCString(text) && i <= |re| && j <= |text|
    ensures r == AsInt(MatchStar(c, re[i..], text[j..]))
    decreases |re| - i, 1
  {
    var t := j;
    while true
      invariant j <= t <= |text| && MatchStar(c, re[i..], text[t..]) == MatchStar(c, re[i..], text[j..])
      decreases |text| - t
    {
      r := MatchHereAt(re, i, text, t);
      if r == 1 {
        return 1;
      }
      if CharAt(text, t) == '\0' {
        break;
      }
      var same := text[t] == c;
      assert text[t..][1..] == text[t + 1..];
      t := t + 1;
      if !(same || c == '.') {
        break;
      }
    }
    return 0;
  }

  // ---- what a pattern means

  /** One item of a pattern: a character, any character, or any number of either. */
  datatype Item = Lit(c: char) | Any | Star(c: char)

  /** The items of a pattern without its leading ^, and whether it ends in an anchoring $. A star makes a star
      of whatever precedes it, a $ too; a star with nothing before it is a character. */
  function Items(re: string): (seq<Item>, bool) {
    if re == "" then ([], false)
    else if |re| > 1 && re[1] == '*' then var r := Items(re[2..]); ([Star(re[0])] + r.0, r.1)
    else if re == "$" then ([], true)
    else var r := Items(re[1..]); ([if re[0] == '.' then Any else Lit(re[0])] + r.0, r.1)
  }

  predicate InItem(it: Item, w: string) {
    match it
    case Lit(c) => w == [c]
    case Any => |w| == 1
    case Star(c) => c == '.' || forall i :: 0 <= i < |w| ==> w[i] == c
  }

  function Concat(parts: seq<string>): string {
    if parts == [] then "" else parts[0] + Concat(parts[1..])
  }

  ghost predicate Fits(items: seq<Item>, parts: seq<string>) {
    |parts| == |items| && forall i :: 0 <= i < |items| ==> InItem(items[i], parts[i])
  }

  /** w is in the language of items: it splits into parts, one for each. */
  ghost predicate Denotes(items: seq<Item>, w: string) {
    exists parts :: Fits(items, parts) && Concat(parts) == w
  }

  /** The substring of text from i to k is in the language of the pattern, at its end if it is anchored there. */
  ghost predicate Hit(p: (seq<Item>, bool), text: string, i: nat, k: nat) {
    i <= k <= |text| && Denotes(p.0, text[i..k]) && (p.1 ==> k == |text|)
  }

  // ---- items one at a time

  lemma DenotesCons(it: Item, items: seq<Item>, v: string, w: string)
    requires InItem(it, v) && Denotes(items, w)
    ensures Denotes([it] + items, v + w)
  {
    var parts :| Fits(items, parts) && Concat(parts) == w;
    var all := [v] + parts;
    assert all[1..] == parts;
    assert Fits([it] + items, all) && Concat(all) == v + w;
  }

  lemma DenotesUncons(it: Item, items: seq<Item>, w: string) returns (m: nat)
    requires Denotes([it] + items, w)
    ensures m <= |w| && InItem(it, w[..m]) && Denotes(items, w[m..])
  {
    var parts :| Fits([it] + items, parts) && Concat(parts) == w;
    m := |parts[0]|;
    assert w == parts[0] + Concat(parts[1..]);
    assert Fits(items, parts[1..]) by {
      forall i | 0 <= i < |items| ensures InItem(items[i], parts[1..][i]) {
        assert InItem(([it] + items)[i + 1], parts[i + 1]);
      }
    }
  }

  lemma DenotesNothing(w: string)
    ensures Denotes([], w) <==> w == ""
  {
    assert Fits([], []) && Concat([]) == "";
  }

  /** The pattern hits a prefix of text. */
  ghost predicate HitsPrefix(p: (seq<Item>, bool), text: string) {
    exists k: nat :: Hit(p, text, 0, k)
  }

  lemma HitsCons(it: Item, p: (seq<Item>, bool), text: string, m: nat)
    requires m <= |text| && InItem(it, text[..m]) && HitsPrefix(p, text[m..])
    ensures HitsPrefix(([it] + p.0, p.1), text)
  {
    var k: nat :| Hit(p, text[m..], 0, k);
    var w := text[m..][0..k];
    DenotesCons(it, p.0, text[..m], w);
    assert text[..m] + w == text[0..m + k];
    assert Hit(([it] + p.0, p.1), text, 0, m + k);
  }

  lemma HitsUncons(it: Item, p: (seq<Item>, bool), text: string) returns (m: nat)
    requires HitsPrefix(([it] + p.0, p.1), text)
    ensures m <= |text| && InItem(it, text[..m]) && HitsPrefix(p, text[m..])
  {
    var k: nat :| Hit(([it] + p.0, p.1), text, 0, k);
    m := DenotesUncons(it, p.0, text[0..k]);
    assert text[0..k][..m] == text[..m] && text[0..k][m..] == text[m..][0..k - m];
    assert Hit(p, text[m..], 0, k - m);
  }

  // ---- the matcher finds exactly the hits

  lemma {:induction false} HereIsHit(re: string, text: string)
    ensures MatchHere(re, text) <==> HitsPrefix(Items(re), text)
    decreases |re|, 0, |text|
  {
    if re == "" {
      DenotesNothing(text[0..0]);
      assert Hit(Items(re), text, 0, 0);
    } else if |re| > 1 && re[1] == '*' {
      StarIsHit(re[0], re[2..], text);
    } else if re == "$" {
      EndIsHit(text);
    } else {
      OneIsHit(re, text);
    }
  }

  lemma EndIsHit(text: string)
    ensures text == "" <==> HitsPrefix(([], true), text)
  {
    DenotesNothing(text[0..|text|]);
    if text == "" {
      assert Hit(([], true), text, 0, 0);
    }
  }

  lemma {:induction false} OneIsHit(re: string, text: string)
    requires re != "" && re != "$" && (|re| > 1 ==> re[1] != '*')
    ensures MatchHere(re, text) <==> HitsPrefix(Items(re), text)
    decreases |re|, 0, |text|, 0
  {
    var it := if re[0] == '.' then Any else Lit(re[0]);
    var p := Items(re[1..]);
    if text != "" {
      HereIsHit(re[1..], text[1..]);
    }
    if MatchHere(re, text) {
      HitsCons(it, p, text, 1);
    }
    if HitsPrefix(Items(re), text) {
      var m := HitsUncons(it, p, text);
      assert m == 1 && text[..m][0] == text[0];
    }
  }

  lemma {:induction false} StarIsHit(c: char, re: string, text: string)
    ensures MatchStar(c, re, text) <==> HitsPrefix(([Star(c)] + Items(re).0, Items(re).1), text)
    decreases |re|, 1, |text|
  {
    var p := Items(re);
    HereIsHit(re, text);
    if text != "" {
      StarIsHit(c, re, text[1..]);
    }
    if MatchStar(c, re, text) {
      StarHits(c, re, text);
    }
    if HitsPrefix(([Star(c)] + p.0, p.1), text) {
      var m := HitsUncons(Star(c), p, text);
      if m == 0 {
        assert text[0..] == text;
      } else {
        assert text[..m][0] == text[0];
        assert text[1..][..m - 1] == text[..m][1..] && text[1..][m - 1..] == text[m..];
        HitsCons(Star(c), p, text[1..], m - 1);
      }
    }
  }

  lemma {:induction false} StarHits(c: char, re: string, text: string)
    requires MatchStar(c, re, text) && (MatchHere(re, text) <==> HitsPrefix(Items(re), text))
    requires text != "" ==> (MatchStar(c, re, text[1..]) <==> HitsPrefix(([Star(c)] + Items(re).0, Items(re).1), text[1..]))
    ensures HitsPrefix(([Star(c)] + Items(re).0, Items(re).1), text)
  {
    var p := Items(re);
    if MatchHere(re, text) {
      assert text[0..] == text;
      HitsCons(Star(c), p, text, 0);
    } else {
      var m := HitsUncons(Star(c), p, text[1..]);
      assert text[..m + 1] == [text[0]] + text[1..][..m] && text[m + 1..] == text[1..][m..];
      HitsCons(Star(c), p, text, m + 1);
    }
  }

  lemma {:induction false} FromIsHit(re: string, text: string)
    ensures MatchFrom(re, text) <==> exists i :: 0 <= i <= |text| && HitsPrefix(Items(re), text[i..])
    decreases |text|
  {
    HereIsHit(re, text);
    assert text[0..] == text;
    if text != "" {
      FromIsHit(re, text[1..]);
      if MatchFrom(re, text[1..]) {
        var i :| 0 <= i <= |text[1..]| && HitsPrefix(Items(re), text[1..][i..]);
        assert text[1..][i..] == text[i + 1..];
      }
      forall i | 0 < i <= |text| && HitsPrefix(Items(re), text[i..]) ensures MatchFrom(re, text[1..]) {
        assert text[1..][i - 1..] == text[i..];
      }
    }
  }

  lemma PrefixOfSuffix(p: (seq<Item>, bool), text: string, i: nat)
    requires i <= |text|
    ensures HitsPrefix(p, text[i..]) <==> exists k: nat :: Hit(p, text, i, k)
  {
    if HitsPrefix(p, text[i..]) {
      var k: nat :| Hit(p, text[i..], 0, k);
      assert text[i..][0..k] == text[i..i + k];
      assert Hit(p, text, i, i + k);
    }
    if exists k: nat :: Hit(p, text, i, k) {
      var k: nat :| Hit(p, text, i, k);
      assert text[i..][0..k - i] == text[i..k];
      assert Hit(p, text[i..], 0, k - i);
    }
  }

  /** The substring from i to k is what the pattern asks for: a leading ^ ties it to the start of the text. */
  ghost predicate Found(re: string, text: string, i: nat, k: nat) {
    if re != "" && re[0] == '^' then i == 0 && Hit(Items(re[1..]), text, 0, k) else Hit(Items(re), text, i, k)
  }

  /** match returns 1 exactly when some substring of the text, at its start if the pattern begins with ^ and at
      its end if the pattern ends with an anchoring $, is in the language of the pattern. */
  lemma MatchIsExact(re: string, text: string)
    ensures Match(re, text) <==> exists i: nat, k: nat :: Found(re, text, i, k)
  {
    if re != "" && re[0] == '^' {
      HereIsHit(re[1..], text);
      if Match(re, text) {
        var k: nat :| Hit(Items(re[1..]), text, 0, k);
        assert Found(re, text, 0, k);
      }
    } else {
      FromIsHit(re, text);
      if Match(re, text) {
        var i :| 0 <= i <= |text| && HitsPrefix(Items(re), text[i..]);
        PrefixOfSuffix(Items(re), text, i);
        var k: nat :| Hit(Items(re), text, i, k);
        assert Found(re, text, i, k);
      }
      if i: nat, k: nat :| Found(re, text, i, k) {
        PrefixOfSuffix(Items(re), text, i);
      }
    }
  }
}
