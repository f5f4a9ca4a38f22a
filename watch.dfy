/**
  The watch-list check of the notify loop in src/simple_ads.py:
  `re.search(r'\b' + re.escape(term) + r'\b', brand, re.IGNORECASE)`, tried for
  each watch term in list order until the first one matches. Word characters are
  ASCII letters, digits and `_`, and case is folded on ASCII letters.
*/
module WatchMatch {

  import opened Wrappers

  predicate IsWordChar(c: char) {
    ('a' <= c <= 'z') || ('A' <= c <= 'Z') || ('0' <= c <= '9') || c == '_'
  }

  /** Position `q` holds a word character (positions outside `s` do not). */
  predicate WordAt(s: string, q: int) {
    0 <= q < |s| && IsWordChar(s[q])
  }

  /** `\b` at position `q`: a word character on exactly one side. */
  predicate Boundary(s: string, q: int) {
    WordAt(s, q - 1) != WordAt(s, q)
  }

  function Fold(c: char): char {
    if 'A' <= c <= 'Z' then (c as int + 32) as char else c
  }

  predicate SameIgnoringCase(a: string, b: string) {
    |a| == |b| && forall i | 0 <= i < |a| :: Fold(a[i]) == Fold(b[i])
  }

  /** The pattern matches `brand` at position `p`. */
  predicate MatchesAt(term: string, brand: string, p: nat) {
    p + |term| <= |brand|
    && Boundary(brand, p) && Boundary(brand, p + |term|)
    && SameIgnoringCase(brand[p..p + |term|], term)
  }

  /** The leftmost match at or after `from`. */
  function SearchWord(term: string, brand: string, from: nat): (r: Option<nat>)
    ensures r.Some? ==> from <= r.value && MatchesAt(term, brand, r.value)
    ensures r.Some? ==> forall q | from <= q < r.value :: !MatchesAt(term, brand, q)
    ensures r.None? ==> forall q: nat | from <= q :: !MatchesAt(term, brand, q)
    decreases |brand| - from
  {
    if from + |term| > |brand| then None
    else if MatchesAt(term, brand, from) then Some(from)
    else SearchWord(term, brand, from + 1)
  }

  /** The watch term occurs in the brand as a whole word, ignoring case. */
  function WholeWordMatch(term: string, brand: string): (r: bool)
    ensures r <==> exists p: nat :: MatchesAt(term, brand, p)
  {
    SearchWord(term, brand, 0).Some?
  }

  /** The index of the first watch term, from `i` on, that matches the brand. */
  function FirstMatchFrom(watch: seq<string>, brand: string, i: nat): (r: Option<nat>)
    requires i <= |watch|
    ensures r.Some? ==> i <= r.value < |watch| && WholeWordMatch(watch[r.value], brand)
    ensures r.Some? ==> forall j | i <= j < r.value :: !WholeWordMatch(watch[j], brand)
    ensures r.None? ==> forall j | i <= j < |watch| :: !WholeWordMatch(watch[j], brand)
    decreases |watch| - i
  {
    if i == |watch| then None
    else if WholeWordMatch(watch[i], brand) then Some(i)
    else FirstMatchFrom(watch, brand, i + 1)
  }

  function FirstMatch(watch: seq<string>, brand: string): Option<nat> {
    FirstMatchFrom(watch, brand, 0)
  }

  /**
    The inner loop of the notify pass: the terms are tried in order and the scan
    stops at the first match.
  */
  method ScanWatchList(watch: seq<string>, brand: string) returns (found: Option<nat>)
    ensures found.Some? ==> found.value < |watch| && WholeWordMatch(watch[found.value], brand)
    ensures found.Some? ==> forall j | 0 <= j < found.value :: !WholeWordMatch(watch[j], brand)
    ensures found.None? ==> forall j | 0 <= j < |watch| :: !WholeWordMatch(watch[j], brand)
    ensures found == FirstMatch(watch, brand)
  {
    found := None;
    for i := 0 to |watch|
      invariant forall j | 0 <= j < i :: !WholeWordMatch(watch[j], brand)
      invariant FirstMatch(watch, brand) == FirstMatchFrom(watch, brand, i)
    {
      if WholeWordMatch(watch[i], brand) {
        found := Some(i);
        return;
      }
    }
  }

  lemma ExampleMatch()
    ensures WholeWordMatch("LEGO", "LEGO Technic")
    ensures WholeWordMatch("lego", "LEGO Technic")
  {
    assert MatchesAt("LEGO", "LEGO Technic", 0);
    assert MatchesAt("lego", "LEGO Technic", 0);
  }

  lemma ExampleNoMatchInsideWord()
    ensures !WholeWordMatch("LEGO", "ALEGORIC")
  {
    var brand := "ALEGORIC";
    forall p: nat
      ensures !MatchesAt("LEGO", brand, p)
    {
      if p == 1 {
        assert WordAt(brand, 0) && WordAt(brand, 1);
      } else if p == 0 || p == 2 || p == 3 || p == 4 {
        assert brand[p..p + 4][0] == brand[p];
      }
    }
  }
}
