/**
 * The string operations the keyword checks use: `str.lower()`, the
 * substring test `kw in title`, and the filter
 * `[kw for kw in keywords if kw in title]`.
 */
module Text {

  /**
   * Lower-casing of one character as `str.lower()` does it for the
   * Latin and Cyrillic capital letters; every other character is kept.
   */
  function LowerChar(c: char): (l: char)
    ensures 'A' <= c <= 'Z' ==> l as int == c as int + 32
    ensures 'А' <= c <= 'Я' ==> l as int == c as int + 0x20
    ensures 'Ѐ' <= c <= 'Џ' ==> l as int == c as int + 0x50
    ensures !('A' <= c <= 'Z' || 'Ѐ' <= c <= 'Я') ==> l == c
  {
    if 'A' <= c <= 'Z' then (c as int + 32) as char
    else if 'А' <= c <= 'Я' then (c as int + 0x20) as char
    else if 'Ѐ' <= c <= 'Џ' then (c as int + 0x50) as char
    else c
  }

  /** `s.lower()`, character by character. */
  function Lower(s: string): (r: string)
    ensures |r| == |s|
    ensures forall i :: 0 <= i < |s| ==> r[i] == LowerChar(s[i])
  {
    if s == [] then [] else [LowerChar(s[0])] + Lower(s[1..])
  }

  /** Python's `sub in s` for strings. */
  predicate IsSubstring(sub: string, s: string) {
    (|sub| <= |s| && s[..|sub|] == sub) || (s != [] && IsSubstring(sub, s[1..]))
  }

  /** `a` is `b` with some elements dropped, order kept. */
  ghost predicate Subsequence<T>(a: seq<T>, b: seq<T>)
    decreases |b|
  {
    if a == [] then true
    else if b == [] then false
    else (a[0] == b[0] && Subsequence(a[1..], b[1..])) || Subsequence(a, b[1..])
  }

  /** `[kw for kw in keywords if kw in text]`. */
  function KeywordsIn(keywords: seq<string>, text: string): (found: seq<string>)
    ensures Subsequence(found, keywords)
    ensures forall kw :: kw in found ==> kw in keywords && IsSubstring(kw, text)
    ensures forall kw :: kw in keywords && IsSubstring(kw, text) ==> kw in found
  {
    if keywords == [] then []
    else if IsSubstring(keywords[0], text) then [keywords[0]] + KeywordsIn(keywords[1..], text)
    else KeywordsIn(keywords[1..], text)
  }

  /** Each keyword is found as many times as the list holds it when it occurs in the text, and never otherwise. */
  lemma {:induction false} KeywordsInCounts(keywords: seq<string>, text: string)
    ensures forall kw :: multiset(KeywordsIn(keywords, text))[kw] ==
                         if IsSubstring(kw, text) then multiset(keywords)[kw] else 0
  {
    if keywords != [] {
      assert keywords == [keywords[0]] + keywords[1..];
      KeywordsInCounts(keywords[1..], text);
    }
  }

  /** A keyword list that contains every keyword of another finds something whenever the other does. */
  lemma KeywordsInSubset(a: seq<string>, b: seq<string>, text: string)
    requires forall kw :: kw in a ==> kw in b
    requires KeywordsIn(a, text) != []
    ensures KeywordsIn(b, text) != []
  {
    var kw := KeywordsIn(a, text)[0];
    assert kw in KeywordsIn(a, text);
    assert kw in KeywordsIn(b, text);
  }
}
