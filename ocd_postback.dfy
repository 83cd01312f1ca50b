/** The ASP.NET postback link of the OCD results pages: the Next anchor's
    href is `javascript:__doPostBack('<target>','')`, and the scraper posts
    the form back with `__EVENTTARGET` set to `<target>`.  This module models
    `re.search(r"__doPostBack\('([^']+)',''\)", href)` and its first group. */
module OcdPostBack {
  import opened Wrappers
  import opened Text

  const Opening := "__doPostBack('"
  const Closing := "','')"

  predicate QuoteFree(s: string) { forall k :: 0 <= k < |s| ==> s[k] != '\'' }

  /** The longest prefix of `s` without a quote: what the greedy `[^']+`
      consumes. */
  function UpToQuote(s: string): (t: string)
    ensures |t| <= |s| && t == s[..|t|] && QuoteFree(t)
    ensures |t| == |s| || s[|t|] == '\''
    decreases |s|
  {
    if s == [] || s[0] == '\'' then [] else [s[0]] + UpToQuote(s[1..])
  }

  /** The pattern matched at the start of `s`.  `[^']+` cannot extend past a
      quote and a shorter run is followed by a non-quote, so the only
      candidate for the group is the whole quote-free run. */
  function MatchHere(s: string): Option<string> {
    if !StartsWith(s, Opening) then None
    else
      var rest := s[|Opening|..];
      var t := UpToQuote(rest);
      if t != [] && StartsWith(rest[|t|..], Closing) then Some(t) else None
  }

  /** `re.search`: the leftmost position where the pattern matches. */
  function PostBackTarget(s: string): Option<string>
    decreases |s|
  {
    match MatchHere(s)
    case Some(t) => Some(t)
    case None => if s == [] then None else PostBackTarget(s[1..])
  }

  /** The call the pattern describes, with target `t`. */
  function PostBackCall(t: string): string {
    Opening + t + Closing
  }

  lemma {:induction false} UpToQuoteOfJoin(t: string, u: string)
    requires QuoteFree(t) && u != [] && u[0] == '\''
    ensures UpToQuote(t + u) == t
    decreases |t|
  {
    if t == [] {
      assert t + u == u;
    } else {
      assert (t + u)[0] == t[0];
      assert (t + u)[1..] == t[1..] + u;
      UpToQuoteOfJoin(t[1..], u);
    }
  }

  /** The call itself matches at its start, with its target as the group. */
  lemma MatchHereCall(t: string, post: string)
    requires t != [] && QuoteFree(t)
    ensures MatchHere(PostBackCall(t) + post) == Some(t)
  {
    var s := PostBackCall(t) + post;
    assert s == Opening + (t + (Closing + post));
    var rest := s[|Opening|..];
    assert rest == t + (Closing + post);
    UpToQuoteOfJoin(t, Closing + post);
    assert rest[|t|..] == Closing + post;
  }

  /** No match starts at a position whose 14th character is not a quote. */
  lemma NoMatchWithoutQuote(s: string)
    requires |s| > 13 ==> s[13] != '\''
    ensures MatchHere(s) == None
  {
  }

  /** Round trip: an href holding `__doPostBack('T','')`, with no quote before
      it and `T` a non-empty quote-free target, yields `T`. */
  lemma {:induction false} PostBackRoundTrip(pre: string, t: string, post: string)
    requires QuoteFree(pre) && t != [] && QuoteFree(t)
    ensures PostBackTarget(pre + PostBackCall(t) + post) == Some(t)
    decreases |pre|
  {
    var call := PostBackCall(t) + post;
    var s := pre + PostBackCall(t) + post;
    assert s == pre + call;
    if pre == [] {
      assert s == call;
      MatchHereCall(t, post);
    } else {
      assert |s| > 13 ==> s[13] != '\'' by {
        if |s| > 13 {
          if 13 < |pre| {
            assert s[13] == pre[13];
          } else {
            assert s[13] == Opening[13 - |pre|];
          }
        }
      }
      NoMatchWithoutQuote(s);
      assert s[1..] == pre[1..] + PostBackCall(t) + post;
      PostBackRoundTrip(pre[1..], t, post);
    }
  }

  /** Conversely, a target found is non-empty, quote-free, and the href
      contains the postback call built from it. */
  lemma {:induction false} PostBackSound(s: string)
    requires PostBackTarget(s).Some?
    ensures var t := PostBackTarget(s).value;
      t != [] && QuoteFree(t) && Contains(s, PostBackCall(t))
    decreases |s|
  {
    match MatchHere(s)
    case Some(t) =>
      var rest := s[|Opening|..];
      assert rest[..|t|] == t;
      assert rest[|t|..][..|Closing|] == Closing;
      assert s[..|PostBackCall(t)|] == PostBackCall(t) by {
        assert s[..|Opening|] == Opening;
        assert s[|Opening|..|Opening| + |t|] == t;
        assert s[|Opening| + |t|..|Opening| + |t| + |Closing|] == Closing;
      }
    case None =>
      PostBackSound(s[1..]);
  }
}
