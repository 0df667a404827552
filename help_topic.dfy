/** A topic of the calculator's help: a title, a description, examples and keywords,
    found by a substring query. */
module Help {
  import opened JavaText

  datatype HelpTopic = HelpTopic(title: string, description: string,
                                 examples: seq<string>, keywords: seq<string>)
  {
    /** matchesQuery: the lower-cased title or description contains the query, or some
        keyword contains it as it stands; so a query longer than all three never matches. */
    predicate MatchesQuery(query: string): (b: bool)
      ensures b ==> |query| <= |title| || |query| <= |description|
                    || exists k :: 0 <= k < |keywords| && |query| <= |keywords[k]|
    {
      Contains(ToLowerAscii(title), query)
      || Contains(ToLowerAscii(description), query)
      || exists k :: 0 <= k < |keywords| && Contains(keywords[k], query)
    }

    /** toString */
    function ToString(): (s: string)
      ensures s == title
    {
      title
    }
  }

  /** The query matches exactly when it occurs in one of the three places. */
  lemma MatchesQueryOccurrence(t: HelpTopic, query: string)
    ensures t.MatchesQuery(query) <==>
      (exists i :: OccursAt(ToLowerAscii(t.title), query, i))
      || (exists i :: OccursAt(ToLowerAscii(t.description), query, i))
      || (exists k, i :: 0 <= k < |t.keywords| && OccursAt(t.keywords[k], query, i))
  {
    if exists k, i :: 0 <= k < |t.keywords| && OccursAt(t.keywords[k], query, i) {
      var k, i :| 0 <= k < |t.keywords| && OccursAt(t.keywords[k], query, i);
      assert Contains(t.keywords[k], query);
    }
  }

  /** The empty query matches every topic. */
  lemma EmptyQueryMatches(t: HelpTopic)
    ensures t.MatchesQuery("")
  {
    assert OccursAt(ToLowerAscii(t.title), "", 0);
  }

  /** Lower-cased text contains no ASCII capital, so it holds no query with one. */
  lemma LoweredHasNoCapital(s: string, query: string, c: int)
    requires 0 <= c < |query| && 'A' <= query[c] <= 'Z'
    ensures !Contains(ToLowerAscii(s), query)
  {
    var t := ToLowerAscii(s);
    forall i | 0 <= i && i + |query| <= |t| ensures !OccursAt(t, query, i) {
      assert t[i..i + |query|][c] == t[i + c] != query[c];
    }
  }

  /** Keywords are not lower-cased: a query with a capital matches only through one. */
  lemma CapitalQueryNeedsKeyword(t: HelpTopic, query: string, c: int)
    requires 0 <= c < |query| && 'A' <= query[c] <= 'Z'
    ensures t.MatchesQuery(query) <==> exists k :: 0 <= k < |t.keywords| && Contains(t.keywords[k], query)
  {
    LoweredHasNoCapital(t.title, query, c);
    LoweredHasNoCapital(t.description, query, c);
  }

  /** The title matches regardless of its case, but the same words in capitals do not. */
  lemma TitleMatchExample()
    ensures HelpTopic("Basic Operations", "", [], []).MatchesQuery("basic")
    ensures !HelpTopic("Basic Operations", "", [], []).MatchesQuery("Basic")
  {
    var t := HelpTopic("Basic Operations", "", [], []);
    assert ToLowerAscii(t.title)[..5] == "basic";
    assert OccursAt(ToLowerAscii(t.title), "basic", 0);
    CapitalQueryNeedsKeyword(t, "Basic", 0);
  }
}
