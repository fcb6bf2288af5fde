/** Token symbols as the reconciler's store keys them (pkg/reconciler/store/pg.go). */
module Tokens {
  import opened Text

  const PROMPT := "PROMPT"
  const DEMO := "DEMO"
  const UNKNOWN := "UNKNOWN"

  /** normalizeTokenSymbol; an empty key is an error there. */
  function Key(symbol: string): (key: string) {
    Upper(TrimSpace(symbol))
  }

  /** The key of a symbol is the symbol in capitals, without the white space around it. */
  lemma KeyIs(symbol: string, t: string, u: string)
    requires (exists pre, suf :: Around(symbol, pre, t, suf)) && Bare(t) && IsCapitalised(t, u)
    ensures Key(symbol) == u
  {
    var pre, suf :| Around(symbol, pre, t, suf);
    TrimSpaceIs(pre, t, suf);
    UpperIs(t);
    CapitalisedOnce(t, u, Upper(t));
  }

  predicate Capitals(s: string) {
    |s| > 0 && forall i :: 0 <= i < |s| ==> 'A' <= s[i] <= 'Z'
  }

  lemma {:induction false} UpperOfCapitals(s: string)
    requires Capitals(s)
    ensures Upper(s) == s
  {
    if |s| == 1 {
      assert |s[1..]| == 0;
      assert [s[0]] == s;
    } else {
      UpperOfCapitals(s[1..]);
      assert [s[0]] + s[1..] == s;
    }
  }

  /** A symbol already in capitals is its own key. */
  lemma CapitalsKey(s: string)
    requires Capitals(s)
    ensures Key(s) == s
  {
    NothingToTrim(s);
    UpperOfCapitals(s);
  }

  lemma DemoKey()
    ensures Key(DEMO) == DEMO
  {
    CapitalsKey(DEMO);
  }

  lemma PromptKey()
    ensures Key(PROMPT) == PROMPT
  {
    CapitalsKey(PROMPT);
  }

  lemma UnknownKey()
    ensures Key(UNKNOWN) == UNKNOWN
  {
    CapitalsKey(UNKNOWN);
  }

  lemma LowerCaseDemo()
    ensures Key("demo") == DEMO && TrimSpace("p") == "p"
  {
    NothingToTrim("demo");
    NothingToTrim("p");
    assert "demo"[1..] == "emo" && "emo"[1..] == "mo" && "mo"[1..] == "o";
  }
}
