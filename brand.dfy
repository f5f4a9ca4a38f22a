/**
  Brand extraction from one classifier answer (src/simple_ads.py, the classify
  loop): `re.search(r"Merk: ([^,]+)", s)`, the group stripped of whitespace, and
  the sentinel "Onbekend" when there is no match or the group strips to empty.
*/
module BrandParse {

  import opened Wrappers

  /** The placeholder brand of an advertisement the classifier could not name. */
  const Sentinel: string := "Onbekend"

  const MerkPrefix: string := "Merk: "

  /** Python's `str.isspace()` for a single character. */
  predicate IsSpace(c: char) {
    c == ' ' || ('\t' <= c <= '\r') || ('\U{1c}' <= c <= '\U{1f}')
    || c == '\U{85}' || c == '\U{a0}' || c == '\U{1680}'
    || ('\U{2000}' <= c <= '\U{200a}') || c == '\U{2028}' || c == '\U{2029}'
    || c == '\U{202f}' || c == '\U{205f}' || c == '\U{3000}'
  }

  /** The pattern `Merk: ([^,]+)` matches at position `p`: the prefix, then at least one non-comma. */
  predicate MerkAt(s: string, p: nat) {
    p + |MerkPrefix| < |s| && s[p..p + |MerkPrefix|] == MerkPrefix && s[p + |MerkPrefix|] != ','
  }

  /** The end of the run of non-comma characters that starts at `i`. */
  function RunEnd(s: string, i: nat): (e: nat)
    requires i <= |s|
    ensures i <= e <= |s|
    ensures forall k | i <= k < e :: s[k] != ','
    ensures e == |s| || s[e] == ','
    decreases |s| - i
  {
    if i == |s| || s[i] == ',' then i else RunEnd(s, i + 1)
  }

  /** The group the greedy `[^,]+` captures for a match at `p`. */
  function GroupAt(s: string, p: nat): string
    requires MerkAt(s, p)
  {
    var start := p + |MerkPrefix|;
    s[start..RunEnd(s, start)]
  }

  /** The leftmost match position at or after `from`, as `re.search` finds it. */
  function MerkSearch(s: string, from: nat): (r: Option<nat>)
    ensures r.Some? ==> from <= r.value && MerkAt(s, r.value) && forall q | from <= q < r.value :: !MerkAt(s, q)
    ensures r.None? ==> forall q | from <= q :: !MerkAt(s, q)
    decreases |s| - from
  {
    if from >= |s| then None
    else if MerkAt(s, from) then Some(from)
    else MerkSearch(s, from + 1)
  }

  /** The bounds of `s.strip()`: the slice from the first to just past the last non-space character. */
  function StripBounds(s: string): (r: (nat, nat))
    ensures r.0 <= r.1 <= |s|
    ensures forall m | 0 <= m < r.0 :: IsSpace(s[m])
    ensures forall m | r.1 <= m < |s| :: IsSpace(s[m])
    ensures r.0 < r.1 ==> !IsSpace(s[r.0]) && !IsSpace(s[r.1 - 1])
  {
    var a := SkipSpaces(s, 0);
    var b := SkipSpacesBack(s, |s|);
    if a < b then (a, b) else (0, 0)
  }

  function SkipSpaces(s: string, i: nat): (k: nat)
    requires i <= |s|
    ensures i <= k <= |s|
    ensures forall m | i <= m < k :: IsSpace(s[m])
    ensures k < |s| ==> !IsSpace(s[k])
    decreases |s| - i
  {
    if i == |s| || !IsSpace(s[i]) then i else SkipSpaces(s, i + 1)
  }

  function SkipSpacesBack(s: string, j: nat): (k: nat)
    requires j <= |s|
    ensures k <= j
    ensures forall m | k <= m < j :: IsSpace(s[m])
    ensures k > 0 ==> !IsSpace(s[k - 1])
  {
    if j == 0 || !IsSpace(s[j - 1]) then j else SkipSpacesBack(s, j - 1)
  }

  /** `s` without its leading and trailing whitespace. */
  function Strip(s: string): string {
    var (a, b) := StripBounds(s);
    s[a..b]
  }

  /**
    The brand the classify loop stores for one classifier answer. It is never
    empty, holds no comma and has no surrounding whitespace.
  */
  function ClassifiedBrand(answer: string): (b: string)
    ensures b != ""
    ensures forall k | 0 <= k < |b| :: b[k] != ','
    ensures !IsSpace(b[0]) && !IsSpace(b[|b| - 1])
  {
    match MerkSearch(answer, 0)
    case None => Sentinel
    case Some(p) =>
      var g := GroupAt(answer, p);
      assert forall k | 0 <= k < |g| :: g[k] != ',';
      var (x, y) := StripBounds(g);
      if x < y then g[x..y] else Sentinel
  }

  /**
    The brand is the stripped group of the leftmost match of `Merk: ([^,]+)`,
    or the sentinel when there is no match or the group is only whitespace.
  */
  lemma ClassifiedBrandMeaning(s: string)
    ensures (forall p :: !MerkAt(s, p)) ==> ClassifiedBrand(s) == Sentinel
    ensures forall p: nat | MerkAt(s, p) && (forall q: nat | q < p :: !MerkAt(s, q)) ::
      ClassifiedBrand(s) == if Strip(GroupAt(s, p)) == "" then Sentinel else Strip(GroupAt(s, p))
  {
    var r := MerkSearch(s, 0);
    forall p: nat | MerkAt(s, p) && (forall q: nat | q < p :: !MerkAt(s, q))
      ensures ClassifiedBrand(s) == if Strip(GroupAt(s, p)) == "" then Sentinel else Strip(GroupAt(s, p))
    {
      assert r == Some(p);
    }
  }

  /**
    An answer that starts with `Merk: `, a brand without commas or surrounding
    whitespace, and then a comma, yields exactly that brand.
  */
  lemma BrandOfWellFormedAnswer(brand: string, rest: string)
    requires brand != ""
    requires forall k | 0 <= k < |brand| :: brand[k] != ','
    requires !IsSpace(brand[0]) && !IsSpace(brand[|brand| - 1])
    ensures ClassifiedBrand(MerkPrefix + brand + "," + rest) == brand
  {
    var s := MerkPrefix + brand + "," + rest;
    var n := |MerkPrefix|;
    assert s[..n] == MerkPrefix;
    assert s[n] == brand[0];
    assert MerkAt(s, 0);
    assert MerkSearch(s, 0) == Some(0);
    assert s[n + |brand|] == ',';
    assert forall k | n <= k < n + |brand| :: s[k] == brand[k - n];
    assert RunEnd(s, n) == n + |brand| by {
      RunEndStopsAtComma(s, n, n + |brand|);
    }
    assert GroupAt(s, 0) == brand;
  }

  lemma {:induction false} RunEndStopsAtComma(s: string, i: nat, e: nat)
    requires i <= e < |s| && s[e] == ','
    requires forall k | i <= k < e :: s[k] != ','
    ensures RunEnd(s, i) == e
    decreases e - i
  {
    if i < e {
      RunEndStopsAtComma(s, i + 1, e);
    }
  }

  /** An answer with no capital `M` has no `Merk: ` segment. */
  lemma NoMerkWithoutM(s: string)
    requires 'M' !in s
    ensures forall p: nat :: !MerkAt(s, p)
  {
    forall p: nat
      ensures !MerkAt(s, p)
    {
      if p + |MerkPrefix| < |s| {
        assert s[p..p + |MerkPrefix|][0] == s[p];
      }
    }
  }

  lemma ExampleWithBrand()
    ensures ClassifiedBrand(MerkPrefix + "LEGO" + "," + " Titel: Technic Bugatti Chiron") == "LEGO"
  {
    BrandOfWellFormedAnswer("LEGO", " Titel: Technic Bugatti Chiron");
  }

  lemma ExampleWithoutBrand()
    ensures ClassifiedBrand("Titel: Fietsje") == Sentinel
  {
    NoMerkWithoutM("Titel: Fietsje");
    ClassifiedBrandMeaning("Titel: Fietsje");
  }
}
