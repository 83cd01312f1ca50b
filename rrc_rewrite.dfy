/** The two string rewritings of the RRC scraper: removing the session id
    from a detail link, and filling the search-arguments template. */
module RrcRewrite {
  import opened Wrappers
  import opened Text

  const SessionMark := ";jsessionid="

  /** What `[^?]*` consumes: `s` from its first `?` on (empty when there is none). */
  function SkipToQuery(s: string): (r: string)
    ensures |r| <= |s|
    ensures r == [] || r[0] == '?'
    decreases |s|
  {
    if s == [] || s[0] == '?' then s else SkipToQuery(s[1..])
  }

  /** The text skipped is the part of `s` before its first `?`. */
  lemma {:induction false} SkipToQuerySplit(s: string)
    ensures SkipToQuery(s) == s[|s| - |SkipToQuery(s)|..]
    ensures forall k :: 0 <= k < |s| - |SkipToQuery(s)| ==> s[k] != '?'
    decreases |s|
  {
    if s != [] && s[0] != '?' {
      SkipToQuerySplit(s[1..]);
      assert s[1..][|s| - 1 - |SkipToQuery(s)|..] == s[|s| - |SkipToQuery(s)|..];
    }
  }

  /** `re.sub(re.escape(m) + '[^?]*', '', s)`: scanning left to right, every
      occurrence of `m` is removed together with everything up to the next `?`
      (or the end). */
  function RemoveSegments(s: string, m: string): string
    requires m != []
    decreases |s|
  {
    if s == [] then []
    else if StartsWith(s, m) then RemoveSegments(SkipToQuery(s[|m|..]), m)
    else [s[0]] + RemoveSegments(s[1..], m)
  }

  /** The rewriting of a detail link: `re.sub(r';jsessionid=[^?]*', '', s)`. */
  function StripSession(s: string): string {
    RemoveSegments(s, SessionMark)
  }

  /** What the proofs need of the removed mark: it is not empty, holds no `?`,
      and its first character occurs nowhere else in it, so two occurrences
      cannot overlap. */
  predicate GoodMark(m: string) {
    && m != []
    && (forall k :: 0 <= k < |m| ==> m[k] != '?')
    && (forall k :: 0 < k < |m| ==> m[k] != m[0])
  }

  lemma SessionMarkGood()
    ensures GoodMark(SessionMark)
  {
    assert SessionMark == [';'] + "jsessionid=";
  }

  /** Right after a removed segment the output continues at a `?`. */
  lemma StripAfterMark(t: string, m: string)
    requires GoodMark(m) && StartsWith(t, m)
    ensures RemoveSegments(t, m) == [] || RemoveSegments(t, m)[0] == '?'
  {
    var r := SkipToQuery(t[|m|..]);
    if r != [] {
      assert !StartsWith(r, m) by { assert r[0] != m[0]; }
    }
  }

  /** Outside a removed segment the first character is kept. */
  lemma StripKeepsChar(t: string, m: string)
    requires m != [] && t != [] && !StartsWith(t, m)
    ensures RemoveSegments(t, m) == [t[0]] + RemoveSegments(t[1..], m)
  {
  }

  /** A prefix of the output with no `?` in it is a prefix of the input: the
      rewriting only removes text that is followed by `?` or the end. */
  lemma {:induction false} PrefixWithoutQuery(t: string, m: string, p: string)
    requires GoodMark(m)
    requires StartsWith(RemoveSegments(t, m), p)
    requires forall k :: 0 <= k < |p| ==> p[k] != '?'
    ensures StartsWith(t, p)
    decreases |t|
  {
    if p != [] && t != [] {
      if StartsWith(t, m) {
        StripAfterMark(t, m);
      } else {
        var rest := RemoveSegments(t[1..], m);
        StripKeepsChar(t, m);
        StartsWithCons(t[0], rest, p);
        assert t == [t[0]] + t[1..];
        StartsWithCons(t[0], t[1..], p);
        PrefixWithoutQuery(t[1..], m, p[1..]);
      }
    }
  }

  lemma StartsWithAt(s: string, p: string)
    ensures StartsWith(s, p) <==> |p| <= |s| && forall i :: 0 <= i < |p| ==> s[i] == p[i]
  {
    if |p| <= |s| && forall i :: 0 <= i < |p| ==> s[i] == p[i] {
      assert s[..|p|] == p;
    }
  }

  lemma StartsWithCons(c: char, rest: string, m: string)
    requires m != []
    ensures StartsWith([c] + rest, m) <==> c == m[0] && StartsWith(rest, m[1..])
  {
    var out := [c] + rest;
    StartsWithAt(out, m);
    StartsWithAt(rest, m[1..]);
    if c == m[0] && StartsWith(rest, m[1..]) {
      forall i | 0 <= i < |m| ensures out[i] == m[i] {
        if i > 0 {
          assert out[i] == rest[i - 1] && m[i] == m[1..][i - 1];
        }
      }
    }
    if StartsWith(out, m) {
      forall i | 0 <= i < |m| - 1 ensures rest[i] == m[1..][i] {
        assert rest[i] == out[i + 1];
      }
    }
  }

  /** The output never contains the mark. */
  lemma {:induction false} RemoveSegmentsRemovesAll(s: string, m: string)
    requires GoodMark(m)
    ensures !Contains(RemoveSegments(s, m), m)
    decreases |s|
  {
    if s != [] {
      if StartsWith(s, m) {
        RemoveSegmentsRemovesAll(SkipToQuery(s[|m|..]), m);
      } else {
        var out := [s[0]] + RemoveSegments(s[1..], m);
        RemoveSegmentsRemovesAll(s[1..], m);
        if StartsWith(out, m) {
          StartsWithCons(s[0], RemoveSegments(s[1..], m), m);
          assert s == [s[0]] + s[1..];
          StartsWithCons(s[0], s[1..], m);
          PrefixWithoutQuery(s[1..], m, m[1..]);
        }
        assert out[1..] == RemoveSegments(s[1..], m);
      }
    }
  }

  /** The rewritten link never contains `;jsessionid=`. */
  lemma StripSessionRemovesAll(s: string)
    ensures !Contains(StripSession(s), SessionMark)
  {
    SessionMarkGood();
    RemoveSegmentsRemovesAll(s, SessionMark);
  }

  /** Text without the mark passes through unchanged. */
  lemma {:induction false} RemoveSegmentsIdentity(s: string, m: string)
    requires m != [] && !Contains(s, m)
    ensures RemoveSegments(s, m) == s
    decreases |s|
  {
    if s != [] {
      RemoveSegmentsIdentity(s[1..], m);
    }
  }

  /** A link without `;jsessionid=` passes through unchanged. */
  lemma StripSessionIdentity(s: string)
    requires !Contains(s, SessionMark)
    ensures StripSession(s) == s
  {
    RemoveSegmentsIdentity(s, SessionMark);
  }

  /** Stripping twice is stripping once. */
  lemma StripSessionIdempotent(s: string)
    ensures StripSession(StripSession(s)) == StripSession(s)
  {
    StripSessionRemovesAll(s);
    StripSessionIdentity(StripSession(s));
  }

  lemma {:induction false} SkipToQueryOfJoin(sid: string, post: string)
    requires forall k :: 0 <= k < |sid| ==> sid[k] != '?'
    requires post == [] || post[0] == '?'
    ensures SkipToQuery(sid + post) == post
    decreases |sid|
  {
    if sid == [] {
      assert sid + post == post;
    } else {
      assert (sid + post)[0] == sid[0];
      assert (sid + post)[1..] == sid[1..] + post;
      SkipToQueryOfJoin(sid[1..], post);
    }
  }

  /** Text that does not contain the mark, followed by the mark: the mark
      does not start inside the text. */
  lemma NoMarkBefore(pre: string, m: string, rest: string)
    requires GoodMark(m) && pre != [] && !Contains(pre, m)
    ensures !StartsWith(pre + m + rest, m)
  {
    var s := pre + m + rest;
    StartsWithAt(s, m);
    if |pre| >= |m| {
      StartsWithAt(pre, m);
      var i :| 0 <= i < |m| && pre[i] != m[i];
      assert s[i] == pre[i];
    } else {
      assert s[|pre|] == m[0];
    }
  }

  /** A mark at the very start is removed with what follows it up to `?`. */
  lemma MarkFirst(m: string, sid: string, post: string)
    requires GoodMark(m)
    requires forall k :: 0 <= k < |sid| ==> sid[k] != '?'
    requires post == [] || post[0] == '?'
    ensures RemoveSegments(m + sid + post, m) == RemoveSegments(post, m)
  {
    var s := m + sid + post;
    assert s[..|m|] == m;
    assert s[|m|..] == sid + post;
    SkipToQueryOfJoin(sid, post);
  }

  /** One segment removed: text before the first occurrence of the mark is
      kept, everything after it up to the next `?` is dropped, and the rest
      is rewritten in turn. */
  lemma {:induction false} RemoveSegment(pre: string, m: string, sid: string, post: string)
    requires GoodMark(m)
    requires !Contains(pre, m)
    requires forall k :: 0 <= k < |sid| ==> sid[k] != '?'
    requires post == [] || post[0] == '?'
    ensures RemoveSegments(pre + m + sid + post, m) == pre + RemoveSegments(post, m)
    decreases |pre|
  {
    if pre == [] {
      assert pre + m + sid + post == m + sid + post;
      MarkFirst(m, sid, post);
    } else {
      var s := pre + m + sid + post;
      assert s == pre + m + (sid + post);
      NoMarkBefore(pre, m, sid + post);
      StripKeepsChar(s, m);
      assert s[0] == pre[0];
      assert s[1..] == pre[1..] + m + sid + post;
      assert !Contains(pre[1..], m);
      RemoveSegment(pre[1..], m, sid, post);
      assert pre == [pre[0]] + pre[1..];
    }
  }

  /** A detail link's session segment is dropped and the rest kept: the href
      `pre;jsessionid=<sid>post` becomes `pre` followed by `post` rewritten. */
  lemma StripSessionSegment(pre: string, sid: string, post: string)
    requires !Contains(pre, SessionMark)
    requires forall k :: 0 <= k < |sid| ==> sid[k] != '?'
    requires post == [] || post[0] == '?'
    ensures StripSession(pre + SessionMark + sid + post) == pre + StripSession(post)
  {
    SessionMarkGood();
    RemoveSegment(pre, SessionMark, sid, post);
  }

  /** Python's `str.format` on the templates it is given here: `{{` and `}}`
      stand for single braces and `{0}`, `{1}`, `{2}` for the arguments.  Any
      other brace is a ValueError in this model. */
  function Format(t: string, a0: string, a1: string, a2: string): Result<string>
    decreases |t|
  {
    if t == [] then Ok([])
    else if t[0] == '{' then
      if |t| > 1 && t[1] == '{' then Prepend("{", Format(t[2..], a0, a1, a2))
      else if |t| > 2 && '0' <= t[1] <= '2' && t[2] == '}' then
        Prepend(Arg(t[1], a0, a1, a2), Format(t[3..], a0, a1, a2))
      else Err(ValueError("unsupported replacement field"))
    else if t[0] == '}' then
      if |t| > 1 && t[1] == '}' then Prepend("}", Format(t[2..], a0, a1, a2))
      else Err(ValueError("single '}' encountered in format string"))
    else Prepend([t[0]], Format(t[1..], a0, a1, a2))
  }

  /** The positional argument a digit selects. */
  function Arg(c: char, a0: string, a1: string, a2: string): string {
    if c == '0' then a0 else if c == '1' then a1 else a2
  }

  function Prepend(s: string, r: Result<string>): Result<string> {
    match r
    case Ok(v) => Ok(s + v)
    case Err(e) => Err(e)
  }

  predicate BraceFree(s: string) { forall k :: 0 <= k < |s| ==> s[k] != '{' && s[k] != '}' }

  /** Text without braces is copied through by `format`. */
  lemma {:induction false} FormatLiteral(s: string, t: string, a0: string, a1: string, a2: string)
    requires BraceFree(s)
    ensures Format(s + t, a0, a1, a2) == Prepend(s, Format(t, a0, a1, a2))
    decreases |s|
  {
    if s != [] {
      var st := s + t;
      assert st[0] == s[0];
      assert st[1..] == s[1..] + t;
      FormatLiteral(s[1..], t, a0, a1, a2);
      match Format(t, a0, a1, a2) {
        case Ok(v) => assert [s[0]] + (s[1..] + v) == s + v;
        case Err(e) =>
      }
    } else {
      assert s + t == t;
      match Format(t, a0, a1, a2) {
        case Ok(v) => assert s + v == v;
        case Err(e) =>
      }
    }
  }

  /** A brace-free string is a fixed point of `format`. */
  lemma FormatBraceFree(s: string, a0: string, a1: string, a2: string)
    requires BraceFree(s)
    ensures Format(s, a0, a1, a2) == Ok(s)
  {
    FormatLiteral(s, [], a0, a1, a2);
    assert s + [] == s;
  }

  /** The initial `searchArgs.paramValue` of `self.search_params`. */
  const ParamTemplate := "|0={0}|1={1}|5={2}|17=N|18=N|19=N|21=N"

  /** The criteria string: from date, to date, filing operator, fixed flags. */
  function Criteria(fromDate: string, toDate: string, operator: string): string {
    "|0=" + fromDate + "|1=" + toDate + "|5=" + operator + FlagsTail
  }

  lemma FormatField(k: string, x: string, a0: string, a1: string, a2: string)
    requires |k| == 3 && k[0] == '{' && '0' <= k[1] <= '2' && k[2] == '}'
    ensures Format(k + x, a0, a1, a2) == Prepend(Arg(k[1], a0, a1, a2), Format(x, a0, a1, a2))
  {
    var t := k + x;
    assert t[0] == '{' && t[1] == k[1] && t[2] == '}';
    assert t[3..] == x;
  }

  lemma LiteralStep(lit: string, x: string, a0: string, a1: string, a2: string, v: string)
    requires BraceFree(lit) && Format(x, a0, a1, a2) == Ok(v)
    ensures Format(lit + x, a0, a1, a2) == Ok(lit + v)
  {
    FormatLiteral(lit, x, a0, a1, a2);
  }

  /** A template of three brace-free pieces, each followed by one field, then a
      brace-free tail. */
  lemma {:induction false} FormatThreeFields(p0: string, p1: string, p2: string, tail: string, a0: string, a1: string, a2: string)
    requires BraceFree(p0) && BraceFree(p1) && BraceFree(p2) && BraceFree(tail)
    ensures Format(p0 + ("{0}" + (p1 + ("{1}" + (p2 + ("{2}" + tail))))), a0, a1, a2)
         == Ok(p0 + (a0 + (p1 + (a1 + (p2 + (a2 + tail))))))
  {
    FormatBraceFree(tail, a0, a1, a2);
    FormatField("{2}", tail, a0, a1, a2);
    LiteralStep(p2, "{2}" + tail, a0, a1, a2, a2 + tail);
    FormatField("{1}", p2 + ("{2}" + tail), a0, a1, a2);
    LiteralStep(p1, "{1}" + (p2 + ("{2}" + tail)), a0, a1, a2, a1 + (p2 + (a2 + tail)));
    FormatField("{0}", p1 + ("{1}" + (p2 + ("{2}" + tail))), a0, a1, a2);
    LiteralStep(p0, "{0}" + (p1 + ("{1}" + (p2 + ("{2}" + tail)))), a0, a1, a2, a0 + (p1 + (a1 + (p2 + (a2 + tail)))));
  }

  const FlagsTail := "|17=N|18=N|19=N|21=N"

  lemma TemplatePieces()
    ensures ParamTemplate == "|0=" + ("{0}" + ("|1=" + ("{1}" + ("|5=" + ("{2}" + FlagsTail)))))
  {
  }

  lemma CriteriaPieces(fromDate: string, toDate: string, operator: string)
    ensures Criteria(fromDate, toDate, operator)
         == "|0=" + (fromDate + ("|1=" + (toDate + ("|5=" + (operator + FlagsTail)))))
  {
  }

  lemma PiecesBraceFree()
    ensures BraceFree("|0=") && BraceFree("|1=") && BraceFree("|5=") && BraceFree(FlagsTail)
  {
  }

  /** Filling the template gives the criteria string, whatever the arguments. */
  lemma FormatTemplate(fromDate: string, toDate: string, operator: string)
    ensures Format(ParamTemplate, fromDate, toDate, operator) == Ok(Criteria(fromDate, toDate, operator))
  {
    TemplatePieces();
    CriteriaPieces(fromDate, toDate, operator);
    PiecesBraceFree();
    FormatThreeFields("|0=", "|1=", "|5=", FlagsTail, fromDate, toDate, operator);
  }

  /** When the first criteria are free of braces, formatting the already
      filled string again changes nothing: a second search on the same
      scraper object sends the first search's criteria. */
  lemma FormatKeepsCriteria(f: string, t: string, o: string, f2: string, t2: string, o2: string)
    requires BraceFree(f) && BraceFree(t) && BraceFree(o)
    ensures Format(Criteria(f, t, o), f2, t2, o2) == Ok(Criteria(f, t, o))
  {
    FormatBraceFree(Criteria(f, t, o), f2, t2, o2);
  }
}
