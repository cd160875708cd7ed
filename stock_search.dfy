/** The search box of the stock view (`renderStock`): a record is shown when
    its lower-cased "set name, space, variant" contains the lower-cased query. */
module StockSearch {
  import opened JsBuiltins
  import opened Seqs

  /** A stock row as returned by the remote service. */
  datatype Mobile = Mobile(setName: string, variant: string, price: real, stock: int, rowIndex: int)

  /** `(m.setName + " " + m.variant).toLowerCase()` */
  function SearchTarget(m: Mobile): string
  {
    ToLowerCase(m.setName + " " + m.variant)
  }

  /** The test applied to each record for an already lower-cased query. */
  function MatchesLowered(loweredQuery: string): Mobile -> bool
  {
    m => IndexOf(SearchTarget(m), loweredQuery) != -1
  }

  /** The records the stock view shows for `query`, in list order. */
  function StockMatches(mobiles: seq<Mobile>, query: string): (shown: seq<Mobile>)
    ensures |shown| <= |mobiles|
    ensures forall m :: m in shown <==> m in mobiles && IndexOf(SearchTarget(m), ToLowerCase(query)) != -1
  {
    Filter(MatchesLowered(ToLowerCase(query)), mobiles)
  }

  /** The `forEach` loop of `renderStock`: the records appended to the container, in order. */
  method RenderStock(mobiles: seq<Mobile>, query: string) returns (shown: seq<Mobile>)
    ensures shown == StockMatches(mobiles, query)
  {
    var searchQuery := ToLowerCase(query);
    shown := [];
    for i := 0 to |mobiles|
      invariant shown == Filter(MatchesLowered(searchQuery), mobiles[..i])
    {
      var m := mobiles[i];
      var searchTarget := ToLowerCase(m.setName + " " + m.variant);
      ghost var keep := MatchesLowered(searchQuery);
      FilterAppend(keep, mobiles[..i], [m]);
      assert mobiles[..i + 1] == mobiles[..i] + [m];
      assert Filter(keep, [m]) == if keep(m) then [m] else [];
      if IndexOf(searchTarget, searchQuery) != -1 {
        shown := shown + [m];
      }
    }
    assert mobiles[..|mobiles|] == mobiles;
  }

  /** A record is shown exactly when it is in the list and its search target
      contains the lower-cased query; the shown records keep list order. */
  lemma StockMatchesSpec(mobiles: seq<Mobile>, query: string)
    ensures IsSubsequence(StockMatches(mobiles, query), mobiles)
    ensures forall m :: m in StockMatches(mobiles, query) <==>
      m in mobiles && Contains(SearchTarget(m), ToLowerCase(query))
  {
    FilterIsSubsequence(MatchesLowered(ToLowerCase(query)), mobiles);
  }

  /** An empty search box shows every record. */
  lemma EmptyQueryShowsAll(mobiles: seq<Mobile>)
    ensures StockMatches(mobiles, "") == mobiles
  {
    forall i | 0 <= i < |mobiles| ensures MatchesLowered([])(mobiles[i]) {
      assert OccursAt(SearchTarget(mobiles[i]), [], 0);
    }
    FilterKeepsAll(MatchesLowered([]), mobiles);
  }

  /** The search ignores the case of ASCII letters in the query. */
  lemma QueryCaseIgnored(mobiles: seq<Mobile>, query: string)
    ensures StockMatches(mobiles, ToLowerCase(query)) == StockMatches(mobiles, query)
  {
    ToLowerCaseIdempotent(query);
  }

  /** A record whose set name alone contains the query (ignoring case) is shown. */
  lemma SetNameHitIsShown(mobiles: seq<Mobile>, query: string, m: Mobile)
    requires m in mobiles
    requires Contains(ToLowerCase(m.setName), ToLowerCase(query))
    ensures m in StockMatches(mobiles, query)
  {
    ToLowerCaseAppend(m.setName, " " + m.variant);
    assert m.setName + " " + m.variant == m.setName + (" " + m.variant);
    ContainsInPrefix(ToLowerCase(m.setName), ToLowerCase(" " + m.variant), ToLowerCase(query));
    StockMatchesSpec(mobiles, query);
  }

  /** A record whose variant alone contains the query (ignoring case) is shown. */
  lemma VariantHitIsShown(mobiles: seq<Mobile>, query: string, m: Mobile)
    requires m in mobiles
    requires Contains(ToLowerCase(m.variant), ToLowerCase(query))
    ensures m in StockMatches(mobiles, query)
  {
    ToLowerCaseAppend(m.setName + " ", m.variant);
    ContainsInSuffix(ToLowerCase(m.setName + " "), ToLowerCase(m.variant), ToLowerCase(query));
    StockMatchesSpec(mobiles, query);
  }
}
