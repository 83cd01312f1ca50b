/** The loop shape both scrapers use three times: walk a list of parsed
    elements, turn each into a dict and append it, and stop at the first
    element whose conversion raises.  What was appended before the error is
    kept (it is visible to the caller when the list is an object's field). */
module Collect {
  import opened Wrappers

  datatype Collected<B> = Collected(items: seq<B>, outcome: Outcome)

  /** Appending `f(x)` to `acc` for each `x` of `xs` in turn. */
  function CollectAll<A, B>(acc: seq<B>, xs: seq<A>, f: A -> Result<B>): Collected<B>
    decreases |xs|
  {
    if xs == [] then Collected(acc, Pass)
    else
      match f(xs[0])
      case Err(e) => Collected(acc, Fail(e))
      case Ok(b) => CollectAll(acc + [b], xs[1..], f)
  }

  /** The position of the first element whose conversion fails; `|xs|` when
      none does. */
  function FirstFailure<A, B>(xs: seq<A>, f: A -> Result<B>): (k: nat)
    ensures k <= |xs|
    ensures forall i :: 0 <= i < k ==> f(xs[i]).Ok?
    ensures k < |xs| ==> f(xs[k]).Err?
    decreases |xs|
  {
    if xs == [] || f(xs[0]).Err? then 0 else 1 + FirstFailure(xs[1..], f)
  }

  /** What the loop leaves: `acc` followed by one item per element before the
      first failure, in order; and that failure's error, or `Pass` when every
      element converted. */
  lemma {:induction false} CollectAllSpec<A, B>(acc: seq<B>, xs: seq<A>, f: A -> Result<B>)
    ensures var c := CollectAll(acc, xs, f); var k := FirstFailure(xs, f);
      && |c.items| == |acc| + k
      && c.items[..|acc|] == acc
      && (forall i :: 0 <= i < k ==> f(xs[i]) == Ok(c.items[|acc| + i]))
      && c.outcome == (if k == |xs| then Pass else Fail(f(xs[k]).error))
    decreases |xs|
  {
    if xs != [] && f(xs[0]).Ok? {
      var b := f(xs[0]).value;
      CollectAllSpec(acc + [b], xs[1..], f);
      var c := CollectAll(acc, xs, f);
      assert c == CollectAll(acc + [b], xs[1..], f);
      var k := FirstFailure(xs, f);
      assert c.items[..|acc| + 1] == acc + [b];
      assert c.items[..|acc|] == (acc + [b])[..|acc|];
      forall i | 0 <= i < k ensures f(xs[i]) == Ok(c.items[|acc| + i]) {
        if i > 0 {
          assert xs[1..][i - 1] == xs[i];
        }
      }
    }
  }

  /** The loop gets through the whole list exactly when no element fails, and
      then holds one item per element. */
  lemma CollectAllPasses<A, B>(acc: seq<B>, xs: seq<A>, f: A -> Result<B>)
    ensures CollectAll(acc, xs, f).outcome == Pass <==> forall i :: 0 <= i < |xs| ==> f(xs[i]).Ok?
    ensures CollectAll(acc, xs, f).outcome == Pass ==>
      |CollectAll(acc, xs, f).items| == |acc| + |xs|
  {
    CollectAllSpec(acc, xs, f);
  }

  /** What was collected before is carried along untouched: starting from
      `acc` is starting from nothing and putting `acc` in front. */
  lemma {:induction false} CollectAllAcc<A, B>(acc: seq<B>, xs: seq<A>, f: A -> Result<B>)
    ensures CollectAll(acc, xs, f).items == acc + CollectAll([], xs, f).items
    ensures CollectAll(acc, xs, f).outcome == CollectAll([], xs, f).outcome
    decreases |xs|
  {
    if xs != [] && f(xs[0]).Ok? {
      var b := f(xs[0]).value;
      CollectAllAcc(acc + [b], xs[1..], f);
      CollectAllAcc([b], xs[1..], f);
      assert [] + [b] == [b];
      assert acc + [b] + CollectAll([], xs[1..], f).items == acc + ([b] + CollectAll([], xs[1..], f).items);
    }
  }

  /** The elements of `xs` that satisfy `p`, in order: a CSS selector's
      attribute test. */
  function Filter<A>(xs: seq<A>, p: A -> bool): (r: seq<A>)
    ensures |r| <= |xs|
    ensures forall i :: 0 <= i < |r| ==> r[i] in xs && p(r[i])
    ensures forall i :: 0 <= i < |xs| && p(xs[i]) ==> xs[i] in r
    decreases |xs|
  {
    if xs == [] then []
    else if p(xs[0]) then [xs[0]] + Filter(xs[1..], p)
    else Filter(xs[1..], p)
  }

  /** Selection keeps document order: selecting from two parts in turn is
      selecting from the whole. */
  lemma {:induction false} FilterAppend<A>(xs: seq<A>, ys: seq<A>, p: A -> bool)
    ensures Filter(xs + ys, p) == Filter(xs, p) + Filter(ys, p)
    decreases |xs|
  {
    if xs == [] {
      assert xs + ys == ys;
    } else {
      assert (xs + ys)[0] == xs[0];
      assert (xs + ys)[1..] == xs[1..] + ys;
      FilterAppend(xs[1..], ys, p);
    }
  }

  /** One element is kept exactly when it satisfies the test. */
  lemma FilterOne<A>(x: A, p: A -> bool)
    ensures Filter([x], p) == if p(x) then [x] else []
  {
    assert [x][1..] == [];
  }
}
