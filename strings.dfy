/** String helpers the core relies on: `std::string::find`, Poco's
    `replaceInPlace` (replace every occurrence, scanning left to right) and the
    key order of a `std::map<std::string, std::string>` (StringMap). */
module Strings {

  import opened Wrappers

  /** `pat` occurs in `s` at index `i`. */
  predicate OccursAt(s: string, pat: string, i: nat) {
    i + |pat| <= |s| && s[i..i + |pat|] == pat
  }

  /** `pat` occurs somewhere in `s`. */
  predicate Occurs(s: string, pat: string) {
    exists i: nat | i <= |s| :: OccursAt(s, pat, i)
  }

  /** `s.find(pat, start)`: an index at or after `start` where `pat` occurs,
      or None for `npos`. FindFirst shows it is the first such index. */
  function Find(s: string, pat: string, start: nat): (r: Option<nat>)
    decreases |s| - start
    ensures r.Some? ==> start <= r.value && OccursAt(s, pat, r.value)
  {
    if |s| < start + |pat| then None
    else if OccursAt(s, pat, start) then Some(start)
    else Find(s, pat, start + 1)
  }

  /** `find` skips nothing: no occurrence lies between `start` and the index
      it returns, and `npos` means there is none from `start` on. */
  lemma {:induction false} FindFirst(s: string, pat: string, start: nat, i: nat)
    requires start <= i
    requires Find(s, pat, start).None? || i < Find(s, pat, start).value
    ensures !OccursAt(s, pat, i)
    decreases |s| - start
  {
    if |s| < start + |pat| {
    } else if !OccursAt(s, pat, start) && start < i {
      FindFirst(s, pat, start + 1, i);
    }
  }

  /** An occurrence with none before it is what `find` from the start returns. */
  lemma FindReturnsFirst(s: string, pat: string, p: nat)
    requires OccursAt(s, pat, p)
    requires forall i: nat :: i < p ==> !OccursAt(s, pat, i)
    ensures Find(s, pat, 0) == Some(p)
  {
    var r := Find(s, pat, 0);
    if r.None? || p < r.value {
      FindFirst(s, pat, 0, p);
    }
  }

  /** Poco's `replaceInPlace(s, from, to, start)`: the text before `start`
      is dropped here (the callers all start at 0); from `start`, `from` is
      searched with `find`; with no occurrence the rest is copied, otherwise
      the text up to the occurrence is copied, `to` is appended and the
      search resumes right after the occurrence. */
  function ReplaceFrom(s: string, from: string, to: string, start: nat): string
    requires from != [] && start <= |s|
    decreases |s| - start
  {
    match Find(s, from, start)
    case None => s[start..]
    case Some(p) => s[start..p] + to + ReplaceFrom(s, from, to, p + |from|)
  }

  /** `replaceInPlace(s, from, to)`: every occurrence of `from`, found left to
      right without overlap, is replaced by `to`. Poco asserts that `from` is
      not empty. */
  function ReplaceAll(s: string, from: string, to: string): string
    requires from != []
  {
    ReplaceFrom(s, from, to, 0)
  }

  lemma ReplaceFromFound(s: string, from: string, to: string, k: nat, p: nat)
    requires from != [] && k <= |s| && Find(s, from, k) == Some(p)
    ensures ReplaceFrom(s, from, to, k) == s[k..p] + to + ReplaceFrom(s, from, to, p + |from|)
  {
  }

  lemma ReplaceFromNone(s: string, from: string, to: string, k: nat)
    requires from != [] && k <= |s| && Find(s, from, k) == None
    ensures ReplaceFrom(s, from, to, k) == s[k..]
  {
  }

  /** A text without `from` comes back unchanged. */
  lemma ReplaceAllNoMatch(s: string, from: string, to: string)
    requires from != []
    requires !Occurs(s, from)
    ensures ReplaceAll(s, from, to) == s
  {
    ReplaceFromNone(s, from, to, 0);
    assert s[0..] == s;
  }

  /** The first occurrence, wherever it is, is the one replaced: the text
      before it is kept, it becomes `to`, and the search resumes after it. */
  lemma ReplaceAllAtFirst(s: string, from: string, to: string, p: nat)
    requires from != []
    requires OccursAt(s, from, p)
    requires forall i: nat :: i < p ==> !OccursAt(s, from, i)
    ensures ReplaceAll(s, from, to) == s[..p] + to + ReplaceFrom(s, from, to, p + |from|)
  {
    FindReturnsFirst(s, from, p);
    ReplaceFromFound(s, from, to, 0, p);
    assert s[0..p] == s[..p];
  }

  /** Replacing a pattern by itself changes nothing. */
  lemma ReplaceAllSameText(s: string, from: string)
    requires from != []
    ensures ReplaceAll(s, from, from) == s
  {
    ReplaceFromSameText(s, from, 0);
    assert s[0..] == s;
  }

  lemma {:induction false} ReplaceFromSameText(s: string, from: string, k: nat)
    requires from != [] && k <= |s|
    ensures ReplaceFrom(s, from, from, k) == s[k..]
    decreases |s| - k
  {
    var r := Find(s, from, k);
    if r.None? {
      ReplaceFromNone(s, from, from, k);
    } else {
      ReplaceFromSameText(s, from, r.value + |from|);
      SameTextStep(s, from, k, r.value);
    }
  }

  lemma SameTextStep(s: string, from: string, k: nat, p: nat)
    requires from != [] && k <= |s| && Find(s, from, k) == Some(p)
    requires ReplaceFrom(s, from, from, p + |from|) == s[p + |from|..]
    ensures ReplaceFrom(s, from, from, k) == s[k..]
  {
    var q := p + |from|;
    ReplaceFromFound(s, from, from, k, p);
    assert s[p..q] == from;
    SplitThree(s, k, p, q);
    Rejoin(ReplaceFrom(s, from, from, k), s[k..p], from, ReplaceFrom(s, from, from, q), s[q..], s[p..q], s[k..]);
  }

  /** SplitThree and Rejoin keep the sequence-equality step of SameTextStep
      small for the solver: they hold no idea of their own. */
  lemma SplitThree(s: string, i: nat, j: nat, k: nat)
    requires i <= j <= k <= |s|
    ensures s[i..] == s[i..j] + s[j..k] + s[k..]
  {
  }

  lemma Rejoin(r: string, a: string, m: string, rr: string, rest: string, mid: string, whole: string)
    requires r == a + m + rr && rr == rest && mid == m && whole == a + mid + rest
    ensures r == whole
  {
  }

  /** `std::string` ordering: lexicographic by character, a proper prefix first. */
  predicate LexLess(a: string, b: string) {
    if a == [] then b != []
    else if b == [] then false
    else if a[0] != b[0] then a[0] < b[0]
    else LexLess(a[1..], b[1..])
  }

  /** The iteration order of a `std::map`: keys strictly ascending, so also unique. */
  predicate KeysAscending(m: seq<(string, string)>) {
    forall i, j :: 0 <= i < j < |m| ==> LexLess(m[i].0, m[j].0)
  }

  /** A `StringMap` (std::map<std::string, std::string>) as its entries in iteration order. */
  type StringMap = m: seq<(string, string)> | KeysAscending(m)

  /** No key is the empty string (Poco's replaceInPlace refuses an empty pattern). */
  predicate NonEmptyKeys(m: seq<(string, string)>) {
    forall i :: 0 <= i < |m| ==> m[i].0 != []
  }

}
