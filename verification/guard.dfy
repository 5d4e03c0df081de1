/**
 * The lexical safety check `run_sql_query` applies before touching the
 * database: the query text is upper-cased and refused when any of eight
 * mutating keywords occurs in it anywhere, as a plain substring.
 */
module QueryGuard {
  import opened Strings

  /** The keywords whose presence refuses a query, in the order the source lists them. */
  const MutatingKeywords: seq<string> :=
    ["INSERT", "UPDATE", "DELETE", "DROP", "ALTER", "TRUNCATE", "GRANT", "REVOKE"]

  /** The fixed reply to a refused query. */
  const SafetyRefusal: string := "Error: " + "Only SELECT queries are allowed for safety."

  /**
   * The guard: some keyword is a substring of the upper-cased query. Every
   * keyword has at least four letters (DROP is the shortest), so no shorter
   * text is ever refused.
   */
  predicate IsMutating(query: string): (refused: bool)
    ensures refused ==> 4 <= |query|
  {
    exists k :: 0 <= k < |MutatingKeywords| && IsInfix(MutatingKeywords[k], Upper(query))
  }

  /** `keyword` matches `query` at position `i` when letter case is ignored. */
  predicate CaselessMatchAt(keyword: string, query: string, i: nat) {
    i + |keyword| <= |query| &&
    forall j :: 0 <= j < |keyword| ==> UpperChar(query[i + j]) == keyword[j]
  }

  /**
   * An independent reading of the guard, without building the upper-cased
   * copy: a query is refused exactly when some keyword matches it somewhere,
   * character by character, ignoring case.
   */
  lemma MutatingIffCaselessMatch(query: string)
    ensures IsMutating(query) <==>
      exists k, i: nat :: 0 <= k < |MutatingKeywords| && CaselessMatchAt(MutatingKeywords[k], query, i)
  {
    var up := Upper(query);
    if IsMutating(query) {
      var k :| 0 <= k < |MutatingKeywords| && IsInfix(MutatingKeywords[k], up);
      var i: nat :| i <= |up| && MatchAt(MutatingKeywords[k], up, i);
      var kw := MutatingKeywords[k];
      forall j | 0 <= j < |kw| ensures UpperChar(query[i + j]) == kw[j] {
        assert up[i..i + |kw|][j] == up[i + j];
      }
      assert CaselessMatchAt(kw, query, i);
    }
    if exists k, i: nat :: 0 <= k < |MutatingKeywords| && CaselessMatchAt(MutatingKeywords[k], query, i) {
      var k, i: nat :| 0 <= k < |MutatingKeywords| && CaselessMatchAt(MutatingKeywords[k], query, i);
      var kw := MutatingKeywords[k];
      assert up[i..i + |kw|] == kw;
      assert MatchAt(kw, up, i);
    }
  }

  /** Re-casing any ASCII letters of a query never changes the decision. */
  lemma GuardIgnoresCase(a: string, b: string)
    requires SameUpToCase(a, b)
    ensures IsMutating(a) <==> IsMutating(b)
  {
    assert Upper(a) == Upper(b);
  }

  /**
   * The guard is a substring test, so refusal is monotone: text that contains
   * a refused query is itself refused.
   */
  lemma RefusalMonotone(inner: string, outer: string)
    requires IsInfix(inner, outer)
    requires IsMutating(inner)
    ensures IsMutating(outer)
  {
    var k :| 0 <= k < |MutatingKeywords| && IsInfix(MutatingKeywords[k], Upper(inner));
    InfixUpper(inner, outer);
    InfixTransitive(MutatingKeywords[k], Upper(inner), Upper(outer));
  }

  /** A keyword written in any letter case, anywhere in the text, refuses the query. */
  lemma KeywordAnywhereRefused(before: string, word: string, after: string)
    requires Upper(word) in MutatingKeywords
    ensures IsMutating(before + word + after)
  {
    var q := before + word + after;
    UpperConcat(before + word, after);
    UpperConcat(before, word);
    assert Upper(q)[|before|..|before| + |word|] == Upper(word);
    assert MatchAt(Upper(word), Upper(q), |before|);
    var k :| 0 <= k < |MutatingKeywords| && MutatingKeywords[k] == Upper(word);
    assert IsInfix(MutatingKeywords[k], Upper(q));
  }

  /** Whole words are not required: the column name `updated_at` contains UPDATE. */
  lemma UpdatedAtColumnRefused()
    ensures IsMutating("select updated_at from t")
  {
    assert Upper("update") == MutatingKeywords[1];
    KeywordAnywhereRefused("select ", "update", "d_at from t");
    assert "select " + "update" + "d_at from t" == "select updated_at from t";
  }

  /** A second statement carrying a keyword refuses the whole text. */
  lemma TrailingDropRefused()
    ensures IsMutating("SELECT * FROM players; DROP TABLE players;")
  {
    assert Upper("DROP") == MutatingKeywords[3];
    KeywordAnywhereRefused("SELECT * FROM players; ", "DROP", " TABLE players;");
    assert "SELECT * FROM players; " + "DROP" + " TABLE players;"
      == "SELECT * FROM players; DROP TABLE players;";
  }

  /** The guard does not refuse everything: a plain read passes. */
  lemma PlainSelectAccepted()
    ensures !IsMutating("select 1")
  {
    var up := Upper("select 1");
    assert up == "SELECT 1";
    forall k, i: nat | 0 <= k < |MutatingKeywords| && i <= |up|
      ensures !MatchAt(MutatingKeywords[k], up, i)
    {
      var kw := MutatingKeywords[k];
      if i + |kw| <= |up| {
        var w := up[i..i + |kw|];
        assert w[0] == up[i] && w[1] == up[i + 1];
      }
    }
  }
}
