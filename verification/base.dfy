/**
 * Generic building blocks shared by the whole model: the usual Option,
 * Result and Outcome wrappers, and the list operations that the Python code
 * writes as comprehensions (`[x for x in xs if p(x)]`) or as a `seen`-set
 * de-duplication loop.
 */
module Base {

  datatype Option<+T> = None | Some(value: T)

  datatype Result<+T, +E> = Ok(value: T) | Err(error: E)

  /** A check that either passes or fails with an error (a Python function that returns None or raises). */
  datatype Outcome<+E> = Pass | Fail(error: E)

  /** `[x for x in xs if p(x)]` */
  function Filter<T>(p: T -> bool, xs: seq<T>): (r: seq<T>)
    ensures |r| <= |xs|
    ensures forall x :: x in r ==> x in xs && p(x)
  {
    if xs == [] then []
    else (if p(xs[0]) then [xs[0]] else []) + Filter(p, xs[1..])
  }

  lemma {:induction false} FilterMembership<T>(p: T -> bool, xs: seq<T>, x: T)
    ensures x in Filter(p, xs) <==> x in xs && p(x)
  {
    if xs != [] {
      FilterMembership(p, xs[1..], x);
      assert xs == [xs[0]] + xs[1..];
    }
  }

  lemma {:induction false} FilterAll<T>(p: T -> bool, xs: seq<T>)
    requires forall x :: x in xs ==> p(x)
    ensures Filter(p, xs) == xs
  {
    if xs != [] {
      FilterAll(p, xs[1..]);
    }
  }

  lemma {:induction false} FilterAppend<T>(p: T -> bool, xs: seq<T>, ys: seq<T>)
    ensures Filter(p, xs + ys) == Filter(p, xs) + Filter(p, ys)
  {
    if xs == [] {
      assert xs + ys == ys;
    } else {
      assert (xs + ys)[1..] == xs[1..] + ys;
      FilterAppend(p, xs[1..], ys);
    }
  }

  /** `a` is obtained from `b` by deleting elements: order is preserved. */
  predicate IsSubsequence<T(==)>(a: seq<T>, b: seq<T>)
    decreases |b|
  {
    if a == [] then true
    else if b == [] then false
    else if a[0] == b[0] then IsSubsequence(a[1..], b[1..])
    else IsSubsequence(a, b[1..])
  }

  lemma {:induction false} FilterIsSubsequence<T>(p: T -> bool, xs: seq<T>)
    ensures IsSubsequence(Filter(p, xs), xs)
  {
    if xs != [] {
      var rest := Filter(p, xs[1..]);
      FilterIsSubsequence(p, xs[1..]);
      if p(xs[0]) {
        assert Filter(p, xs) == [xs[0]] + rest;
      } else {
        assert Filter(p, xs) == rest;
        if rest != [] {
          assert p(rest[0]);
        }
      }
    }
  }

  predicate NoDuplicates<T(==)>(xs: seq<T>)
  {
    forall i, j :: 0 <= i < j < |xs| ==> xs[i] != xs[j]
  }

  /** Position of the first occurrence of `x` in `xs`. */
  function FirstIndex<T(==)>(xs: seq<T>, x: T): (i: nat)
    requires x in xs
    ensures i < |xs| && xs[i] == x
    ensures forall j :: 0 <= j < i ==> xs[j] != x
  {
    if xs[0] == x then 0 else 1 + FirstIndex(xs[1..], x)
  }

  /**
   * Order-preserving de-duplication: the Python idiom
   *   out, seen = [], set()
   *   for a in xs: if a not in seen: seen.add(a); out.append(a)
   * stated as the value `out` has after the loop has consumed `xs`.
   */
  function Dedupe<T(==)>(xs: seq<T>): seq<T>
  {
    if xs == [] then []
    else
      var d := Dedupe(xs[..|xs| - 1]);
      if xs[|xs| - 1] in d then d else d + [xs[|xs| - 1]]
  }

  /** Membership, uniqueness and length of a de-duplicated list. */
  lemma {:induction false} DedupeFacts<T>(xs: seq<T>)
    ensures forall x :: x in Dedupe(xs) ==> x in xs
    ensures forall x :: x in xs ==> x in Dedupe(xs)
    ensures NoDuplicates(Dedupe(xs))
    ensures |Dedupe(xs)| <= |xs|
  {
    if xs != [] {
      var init := xs[..|xs| - 1];
      DedupeFacts(init);
      assert xs == init + [xs[|xs| - 1]];
    }
  }

  /** What has been de-duplicated so far is never reordered by later input. */
  lemma {:induction false} DedupePrefix<T>(xs: seq<T>, ys: seq<T>)
    ensures |Dedupe(xs)| <= |Dedupe(xs + ys)|
    ensures Dedupe(xs + ys)[..|Dedupe(xs)|] == Dedupe(xs)
    decreases |ys|
  {
    if ys == [] {
      assert xs + ys == xs;
    } else {
      var ys' := ys[..|ys| - 1];
      assert (xs + ys)[..|xs + ys| - 1] == xs + ys';
      DedupePrefix(xs, ys');
    }
  }

  /**
   * The de-duplicated list keeps first-occurrence order: an element that
   * appears earlier in the output first appeared earlier in the input.
   */
  lemma {:induction false} DedupeFirstOccurrenceOrder<T>(xs: seq<T>, i: nat, j: nat)
    requires i < j < |Dedupe(xs)|
    ensures Dedupe(xs)[i] in xs && Dedupe(xs)[j] in xs
    ensures FirstIndex(xs, Dedupe(xs)[i]) < FirstIndex(xs, Dedupe(xs)[j])
  {
    DedupeFacts(xs);
    var init := xs[..|xs| - 1];
    var last := xs[|xs| - 1];
    DedupeFacts(init);
    assert xs == init + [last];
    var d := Dedupe(init);
    assert Dedupe(xs) == if last in d then d else d + [last];
    assert i < |d| && Dedupe(xs)[i] == d[i] && d[i] in d;
    FirstIndexOfPrefix(init, last, d[i]);
    if j < |d| {
      DedupeFirstOccurrenceOrder(init, i, j);
      FirstIndexOfPrefix(init, last, d[j]);
    } else {
      // Dedupe(xs)[j] is `last`, which does not occur in init
      assert last !in d;
      assert last !in init;
      assert FirstIndex(xs, last) == |init| by {
        FirstIndexOfFresh(init, last);
      }
    }
  }

  lemma {:induction false} FirstIndexOfPrefix<T>(xs: seq<T>, y: T, x: T)
    requires x in xs
    ensures x in xs + [y] && FirstIndex(xs + [y], x) == FirstIndex(xs, x)
  {
    if xs[0] != x {
      assert (xs + [y])[1..] == xs[1..] + [y];
      FirstIndexOfPrefix(xs[1..], y, x);
    }
  }

  lemma {:induction false} FirstIndexOfFresh<T>(xs: seq<T>, y: T)
    requires y !in xs
    ensures FirstIndex(xs + [y], y) == |xs|
  {
    if xs != [] {
      assert (xs + [y])[1..] == xs[1..] + [y];
      FirstIndexOfFresh(xs[1..], y);
    }
  }

  /** De-duplicating a list that grows by one element. */
  lemma DedupeSnoc<T>(xs: seq<T>, x: T)
    ensures Dedupe(xs + [x]) == if x in Dedupe(xs) then Dedupe(xs) else Dedupe(xs) + [x]
  {
    assert (xs + [x])[..|xs|] == xs;
  }

  /**
   * The source's de-duplication loop (a `seen` set beside the output list),
   * proved to compute Dedupe.
   */
  method DedupeLoop<T(==)>(xs: seq<T>) returns (out: seq<T>)
    ensures out == Dedupe(xs)
  {
    out := [];
    var seen: set<T> := {};
    var i := 0;
    while i < |xs|
      invariant 0 <= i <= |xs|
      invariant out == Dedupe(xs[..i])
      invariant forall x :: x in seen <==> x in out
    {
      assert xs[..i + 1][..i] == xs[..i];
      if xs[i] !in seen {
        seen := seen + {xs[i]};
        out := out + [xs[i]];
      }
      i := i + 1;
    }
    assert xs[..i] == xs;
  }

  /** A loop over a list without repeats meets each element once: it is not in the prefix already seen. */
  lemma PrefixStep<T>(xs: seq<T>, i: nat)
    requires NoDuplicates(xs) && i < |xs|
    ensures xs[..i + 1] == xs[..i] + [xs[i]]
    ensures xs[i] !in xs[..i]
  {
    assert xs[..i + 1] == xs[..i] + [xs[i]];
  }

  /** `[f(n, x) for n, x in enumerate(xs, start=from)]` */
  function MapIndexed<T, U>(f: (nat, T) -> U, xs: seq<T>, from: nat): (r: seq<U>)
    ensures |r| == |xs|
    ensures forall k :: 0 <= k < |xs| ==> r[k] == f(from + k, xs[k])
  {
    seq(|xs|, k requires 0 <= k < |xs| => f(from + k, xs[k]))
  }

  /** `[x for g in gs for x in g]` */
  function Flatten<T>(gs: seq<seq<T>>): seq<T>
  {
    if gs == [] then [] else gs[0] + Flatten(gs[1..])
  }

  lemma {:induction false} FlattenAppend<T>(a: seq<seq<T>>, b: seq<seq<T>>)
    ensures Flatten(a + b) == Flatten(a) + Flatten(b)
  {
    if a == [] {
      assert a + b == b;
    } else {
      assert (a + b)[1..] == a[1..] + b;
      FlattenAppend(a[1..], b);
    }
  }

  /** Groups of at most `bound` elements flatten to at most `bound` elements per group. */
  lemma {:induction false} FlattenBound<T>(gs: seq<seq<T>>, bound: nat)
    requires forall k :: 0 <= k < |gs| ==> |gs[k]| <= bound
    ensures |Flatten(gs)| <= bound * |gs|
  {
    if gs != [] {
      FlattenBound(gs[1..], bound);
    }
  }

  /** An element of the flattened list comes from some group, and every group's elements are in it. */
  lemma FlattenMembership<T>(gs: seq<seq<T>>)
    ensures forall x :: x in Flatten(gs) ==> exists k :: 0 <= k < |gs| && x in gs[k]
    ensures forall k, x :: 0 <= k < |gs| && x in gs[k] ==> x in Flatten(gs)
  {
    forall x ensures x in Flatten(gs) <==> exists k :: 0 <= k < |gs| && x in gs[k] {
      FlattenContains(gs, x);
    }
  }

  lemma {:induction false} FlattenContains<T>(gs: seq<seq<T>>, x: T)
    ensures x in Flatten(gs) <==> exists k :: 0 <= k < |gs| && x in gs[k]
  {
    if gs != [] {
      var rest := gs[1..];
      FlattenContains(rest, x);
      assert Flatten(gs) == gs[0] + Flatten(rest);
      if x in Flatten(rest) {
        var k :| 0 <= k < |rest| && x in rest[k];
        assert x in gs[k + 1];
      }
      if exists k :: 0 <= k < |gs| && x in gs[k] {
        var k :| 0 <= k < |gs| && x in gs[k];
        if k > 0 {
          assert x in rest[k - 1];
        }
      }
    }
  }

  /**
   * Apply `f` to each element in order and stop at the first error: the value
   * that a loop which appends each result or raises has after the last element.
   */
  function TryMap<T, U, E>(f: T -> Result<U, E>, xs: seq<T>): Result<seq<U>, E>
  {
    if xs == [] then Ok([])
    else
      match TryMap(f, xs[..|xs| - 1])
      case Err(e) => Err(e)
      case Ok(ys) =>
        match f(xs[|xs| - 1])
        case Err(e) => Err(e)
        case Ok(y) => Ok(ys + [y])
  }

  /** Element `i` is the first one on which `f` fails. */
  predicate FirstErrorAt<T, U, E>(f: T -> Result<U, E>, xs: seq<T>, i: nat)
  {
    i < |xs| && f(xs[i]).Err? && forall j :: 0 <= j < i ==> f(xs[j]).Ok?
  }

  /**
   * TryMap succeeds exactly when `f` succeeds on every element, and then
   * gives one result per element in order; otherwise its error is the one of
   * the first element on which `f` fails.
   */
  lemma {:induction false} TryMapFacts<T, U, E>(f: T -> Result<U, E>, xs: seq<T>)
    ensures TryMap(f, xs).Ok? <==> forall i :: 0 <= i < |xs| ==> f(xs[i]).Ok?
    ensures TryMap(f, xs).Ok? ==>
      |TryMap(f, xs).value| == |xs| && forall i :: 0 <= i < |xs| ==> f(xs[i]) == Ok(TryMap(f, xs).value[i])
    ensures TryMap(f, xs).Err? ==>
      exists i :: 0 <= i < |xs| && FirstErrorAt(f, xs, i) && f(xs[i]) == Err(TryMap(f, xs).error)
  {
    if xs != [] {
      var init, last := xs[..|xs| - 1], xs[|xs| - 1];
      TryMapFacts(f, init);
      assert forall i :: 0 <= i < |init| ==> xs[i] == init[i];
      var r := TryMap(f, init);
      if r.Err? {
        var i :| 0 <= i < |init| && FirstErrorAt(f, init, i) && f(init[i]) == Err(r.error);
        assert FirstErrorAt(f, xs, i);
      } else if f(last).Err? {
        assert FirstErrorAt(f, xs, |init|);
      } else {
        var ys := r.value + [f(last).value];
        assert TryMap(f, xs) == Ok(ys);
        assert forall i :: 0 <= i < |init| ==> ys[i] == r.value[i];
      }
    }
  }

  /** Once a prefix fails, the whole fails with the same error. */
  lemma {:induction false} TryMapPrefixError<T, U, E>(f: T -> Result<U, E>, xs: seq<T>, n: nat)
    requires n <= |xs| && TryMap(f, xs[..n]).Err?
    ensures TryMap(f, xs) == TryMap(f, xs[..n])
    decreases |xs|
  {
    if n < |xs| {
      var init := xs[..|xs| - 1];
      assert init[..n] == xs[..n];
      TryMapPrefixError(f, init, n);
    } else {
      assert xs[..n] == xs;
    }
  }

  /** One more element: the step a loop takes from a prefix to the next one. */
  lemma TryMapExtend<T, U, E>(f: T -> Result<U, E>, xs: seq<T>, i: nat)
    requires i < |xs| && TryMap(f, xs[..i]).Ok?
    ensures f(xs[i]).Err? ==> TryMap(f, xs[..i + 1]) == Err(f(xs[i]).error)
    ensures f(xs[i]).Ok? ==> TryMap(f, xs[..i + 1]) == Ok(TryMap(f, xs[..i]).value + [f(xs[i]).value])
  {
    assert xs[..i + 1][..i] == xs[..i];
  }

  /** The loop that applies `f` to each element in turn, collecting results and stopping at the first error. */
  method TryMapLoop<T, U, E>(f: T -> Result<U, E>, xs: seq<T>) returns (r: Result<seq<U>, E>)
    ensures r == TryMap(f, xs)
  {
    var ys: seq<U> := [];
    var i := 0;
    while i < |xs|
      invariant 0 <= i <= |xs|
      invariant TryMap(f, xs[..i]) == Ok(ys)
    {
      var y := f(xs[i]);
      TryMapExtend(f, xs, i);
      if y.Err? {
        TryMapPrefixError(f, xs, i + 1);
        return Err(y.error);
      }
      ys := ys + [y.value];
      i := i + 1;
    }
    assert xs[..i] == xs;
    return Ok(ys);
  }
}
