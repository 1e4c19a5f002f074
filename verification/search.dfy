/** The live product search behind the search overlay's text field. */
module Search {
  import opened Seqs
  import opened Text
  import opened Catalog

  /** The query as the handler reads it: `value.trim().toLowerCase()`. */
  function Query(input: string): (q: string)
    ensures |q| <= |input|
    ensures forall i :: 0 <= i < |q| ==> !IsUpper(q[i])
    ensures |q| > 0 ==> !IsJsSpace(q[0]) && !IsJsSpace(q[|q| - 1])
    ensures IsTrimOf(q, AsciiLower(input))
  {
    QueryFacts(input);
    AsciiLower(Trim(input))
  }

  lemma QueryFacts(input: string)
    ensures var q := AsciiLower(Trim(input));
            && |q| <= |input|
            && (forall i :: 0 <= i < |q| ==> !IsUpper(q[i]))
            && (|q| > 0 ==> !IsJsSpace(q[0]) && !IsJsSpace(q[|q| - 1]))
            && IsTrimOf(q, AsciiLower(input))
  {
    var lower := AsciiLower(input);
    TrimLowerCommute(input);
    TrimLength(lower);
    assert |Trim(lower)| <= |input|;
  }

  /** A product matches when its lower-cased name or tag contains the query. */
  function Matches(p: Product, q: string): (m: bool)
    ensures m <==> ((exists i :: 0 <= i <= |p.name| && q <= AsciiLower(p.name)[i..])
                    || (exists i :: 0 <= i <= |p.tag| && q <= AsciiLower(p.tag)[i..]))
  {
    Includes(AsciiLower(p.name), q) || Includes(AsciiLower(p.tag), q)
  }

  function MatchesQuery(q: string): Product -> bool {
    (p: Product) => Matches(p, q)
  }

  /** The products listed for the typed text: none for a query shorter than two
      characters, otherwise the matching catalog products in catalog order. */
  function LiveSearch(catalog: seq<Product>, input: string): (r: seq<Product>)
    ensures |Query(input)| < 2 ==> r == []
    ensures |Query(input)| >= 2 ==>
              && (forall p :: p in r <==> p in catalog && Matches(p, Query(input)))
              && IsSubseq(r, catalog)
  {
    var q := Query(input);
    if |q| < 2 then []
    else
      FilterIsSubseq(catalog, MatchesQuery(q));
      Filter(catalog, MatchesQuery(q))
  }

  /** Each matching catalog product is listed as often as the catalog holds it,
      so a catalog that repeats a product lists it repeatedly. */
  lemma LiveSearchCounts(catalog: seq<Product>, input: string)
    requires |Query(input)| >= 2
    ensures forall p :: multiset(LiveSearch(catalog, input))[p]
                        == if Matches(p, Query(input)) then multiset(catalog)[p] else 0
  {
    FilterCounts(catalog, MatchesQuery(Query(input)));
  }

  /** The search does not depend on the case of the typed letters. */
  lemma LiveSearchIgnoresCase(catalog: seq<Product>, input: string)
    ensures LiveSearch(catalog, AsciiLower(input)) == LiveSearch(catalog, input)
  {
    TrimLowerCommute(input);
    LowerIdempotent(Trim(input));
  }

  /** Surrounding white space does not change the search. */
  lemma LiveSearchIgnoresPadding(catalog: seq<Product>, input: string)
    ensures LiveSearch(catalog, Trim(input)) == LiveSearch(catalog, input)
  {
    TrimIdempotent(input);
  }

  /** Text made of white space alone lists nothing. */
  lemma LiveSearchBlank(catalog: seq<Product>, input: string)
    requires AllSpace(input)
    ensures LiveSearch(catalog, input) == []
  {
    TrimAllSpace(input);
  }

}
