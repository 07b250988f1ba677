/**
  The instrument-id rewrite of `order.py`: the ccxt symbol
  `BTC/USDT:USDT` becomes OKX's `BTC-USDT-SWAP` by replacing
  `/USDT:USDT` with `-USDT-SWAP` and then every remaining `/` with `-`.
 */
module Instrument {

  /** Python's `str.replace(pat, rep)`: every non-overlapping occurrence, scanning left to right. */
  function Replace(s: string, pat: string, rep: string): (r: string)
    requires |pat| > 0
    ensures pat[0] !in s ==> r == s
    ensures |rep| == |pat| ==> |r| == |s|
    decreases |s|
  {
    if |s| < |pat| then s
    else if s[..|pat|] == pat then rep + Replace(s[|pat|..], pat, rep)
    else [s[0]] + Replace(s[1..], pat, rep)
  }

  /** Replacing a single character is a pointwise map. */
  lemma {:induction false} ReplaceChar(s: string, c: char, d: char)
    ensures |Replace(s, [c], [d])| == |s|
    ensures forall i :: 0 <= i < |s| ==> Replace(s, [c], [d])[i] == if s[i] == c then d else s[i]
  {
    if |s| > 0 {
      ReplaceChar(s[1..], c, d);
      assert s[..1] == [s[0]];
      assert forall i :: 1 <= i < |s| ==> s[i] == s[1..][i - 1];
    }
  }

  /** After replacing a character by one it does not appear in, the character is gone. */
  lemma {:induction false} ReplaceRemoves(s: string, c: char, rep: string)
    requires c !in rep
    ensures c !in Replace(s, [c], rep)
  {
    if |s| > 0 {
      ReplaceRemoves(s[1..], c, rep);
      assert s[..1] == [s[0]];
    }
  }

  predicate OccursAt(s: string, pat: string, i: nat) {
    i + |pat| <= |s| && s[i..i + |pat|] == pat
  }

  /** A string without the pattern comes back unchanged. */
  lemma {:induction false} ReplaceAbsent(s: string, pat: string, rep: string)
    requires |pat| > 0
    requires forall i: nat :: !OccursAt(s, pat, i)
    ensures Replace(s, pat, rep) == s
  {
    if |pat| <= |s| {
      assert !OccursAt(s, pat, 0);
      forall i: nat ensures !OccursAt(s[1..], pat, i) {
        if i + |pat| <= |s[1..]| {
          assert s[1..][i..i + |pat|] == s[i + 1..i + 1 + |pat|];
          assert !OccursAt(s, pat, i + 1);
        }
      }
      ReplaceAbsent(s[1..], pat, rep);
      assert [s[0]] + s[1..] == s;
    }
  }

  /** `symbol.replace('/USDT:USDT', '-USDT-SWAP').replace('/', '-')`. */
  function InstId(symbol: string): (id: string)
    ensures '/' !in id
  {
    ReplaceRemoves(Replace(symbol, "/USDT:USDT", "-USDT-SWAP"), '/', "-");
    Replace(Replace(symbol, "/USDT:USDT", "-USDT-SWAP"), "/", "-")
  }

  lemma ReplaceSkip(c: char, t: string, pat: string, rep: string)
    requires |pat| > 0 && c != pat[0]
    ensures Replace([c] + t, pat, rep) == [c] + Replace(t, pat, rep)
  {
    var s := [c] + t;
    assert s[1..] == t;
    if |pat| <= |s| {
      assert s[..|pat|][0] != pat[0];
    }
  }

  lemma ReplaceHit(t: string, pat: string, rep: string)
    requires |pat| > 0
    ensures Replace(pat + t, pat, rep) == rep + Replace(t, pat, rep)
  {
    var s := pat + t;
    assert s[..|pat|] == pat;
    assert s[|pat|..] == t;
  }

  /** Replacing a character that does not occur leaves the string as it is. */
  lemma {:induction false} ReplaceMissingChar(s: string, c: char, rep: string)
    requires c !in s
    ensures Replace(s, [c], rep) == s
  {
    if |s| > 0 {
      ReplaceMissingChar(s[1..], c, rep);
      ReplaceSkip(s[0], s[1..], [c], rep);
      assert [s[0]] + s[1..] == s;
    }
  }

  /** A prefix that cannot start the pattern passes through unchanged. */
  lemma {:induction false} ReplaceAfter(base: string, t: string, pat: string, rep: string)
    requires |pat| > 0 && pat[0] !in base
    ensures Replace(base + t, pat, rep) == base + Replace(t, pat, rep)
  {
    if |base| > 0 {
      ReplaceAfter(base[1..], t, pat, rep);
      Cons(base, t);
      ReplaceSkip(base[0], base[1..] + t, pat, rep);
      Cons(base, Replace(t, pat, rep));
    } else {
      assert base + t == t;
    }
  }

  /** Splitting off the first character of a non-empty prefix. */
  lemma Cons(base: string, x: string)
    requires |base| > 0
    ensures base + x == [base[0]] + (base[1..] + x)
  {
  }

  /** A slash-free base followed by the swap suffix: only the suffix is rewritten. */
  lemma SwapSuffix(base: string, p: string, r: string)
    requires |p| > 0 && p[0] !in base
    ensures Replace(base + p, p, r) == base + r
  {
    ReplaceAfter(base, p, p, r);
    ReplaceHit([], p, r);
    assert p + [] == p;
  }

  /** A perpetual swap `BASE/USDT:USDT` becomes `BASE-USDT-SWAP`. */
  lemma SwapId(base: string)
    requires '/' !in base
    ensures InstId(base + "/USDT:USDT") == base + "-USDT-SWAP"
  {
    SwapSuffix(base, "/USDT:USDT", "-USDT-SWAP");
    assert '/' !in "-USDT-SWAP";
    ReplaceMissingChar(base + "-USDT-SWAP", '/', "-");
  }

  /**
    A spot pair `BASE/QUOTE` (no colon in the quote, so the swap suffix
    cannot match) only has its slash replaced.
   */
  lemma SpotId(base: string, quote: string)
    requires '/' !in base && '/' !in quote && ':' !in quote
    ensures InstId(base + "/" + quote) == base + "-" + quote
  {
    var s := base + "/" + quote;
    var pat := "/USDT:USDT";
    forall i: nat ensures !OccursAt(s, pat, i) {
      if i + |pat| <= |s| {
        var w := s[i..i + |pat|];
        if i == |base| {
          // the slash lines up, but the colon would have to be inside the quote
          assert w[5] == s[i + 5] == quote[4] != pat[5];
        } else if i < |base| {
          assert w[0] == s[i] == base[i] != pat[0];
        } else {
          assert w[0] == s[i] == quote[i - |base| - 1] != pat[0];
        }
      }
    }
    ReplaceAbsent(s, pat, "-USDT-SWAP");
    assert s == base + ("/" + quote);
    ReplaceAfter(base, "/" + quote, "/", "-");
    ReplaceHit(quote, "/", "-");
    ReplaceMissingChar(quote, '/', "-");
  }

  /** `SwapId` for a symbol and an id spelled out in full. */
  lemma SwapIdOf(base: string, symbol: string, id: string)
    requires '/' !in base && symbol == base + "/USDT:USDT" && id == base + "-USDT-SWAP"
    ensures InstId(symbol) == id
  {
    SwapId(base);
  }

  /** The configured perpetual swap symbol maps to OKX's instrument id. */
  lemma ConfiguredSymbol()
    ensures InstId("BTC/USDT:USDT") == "BTC-USDT-SWAP"
  {
    SwapIdOf("BTC", "BTC/USDT:USDT", "BTC-USDT-SWAP");
  }

  /** A spot symbol such as `ETH/USDT` only has its slash replaced. */
  lemma SpotSymbol()
    ensures InstId("ETH/USDT") == "ETH-USDT"
  {
    SpotId("ETH", "USDT");
    assert "ETH" + "/" + "USDT" == "ETH/USDT";
    assert "ETH" + "-" + "USDT" == "ETH-USDT";
  }
}
