/** Option and Result, the failure-compatible wrappers used throughout the model. */
module Wrappers {

  datatype Option<+T> = None | Some(value: T)

  /** `Ok` is a normal return; `Err` stands for a Python exception that propagates. */
  datatype Result<+T, +E> = Ok(value: T) | Err(error: E) {
    predicate IsFailure() { Err? }

    function PropagateFailure<U>(): Result<U, E>
      requires Err?
    {
      Err(error)
    }

    function Extract(): T
      requires Ok?
    {
      value
    }
  }

  /** A left-to-right loop over `xs` whose body may raise: the first failure ends it. */
  function FoldResult<S, X, E>(s: S, xs: seq<X>, step: (S, X) -> Result<S, E>): Result<S, E>
  {
    if xs == [] then Ok(s)
    else
      match FoldResult(s, xs[..|xs| - 1], step)
      case Err(e) => Err(e)
      case Ok(t) => step(t, xs[|xs| - 1])
  }

  /** One more iteration of the loop. */
  lemma FoldResultStep<S, X, E>(s: S, xs: seq<X>, i: nat, step: (S, X) -> Result<S, E>)
    requires i < |xs|
    ensures FoldResult(s, xs[..i + 1], step) ==
            match FoldResult(s, xs[..i], step)
            case Err(e) => Err(e)
            case Ok(t) => step(t, xs[i])
  {
    assert xs[..i + 1][..i] == xs[..i];
  }

  /** A successful loop succeeded on all but its last element, then on that one. */
  lemma FoldResultLast<S, X, E>(s: S, xs: seq<X>, step: (S, X) -> Result<S, E>)
    requires xs != [] && FoldResult(s, xs, step).Ok?
    ensures FoldResult(s, xs[..|xs| - 1], step).Ok?
    ensures FoldResult(s, xs, step) == step(FoldResult(s, xs[..|xs| - 1], step).value, xs[|xs| - 1])
  {
  }

  /** Once the loop has failed, the rest of the input is never looked at. */
  lemma {:induction false} FoldResultAbsorbs<S, X, E>(s: S, xs: seq<X>, i: nat, step: (S, X) -> Result<S, E>)
    requires i <= |xs| && FoldResult(s, xs[..i], step).Err?
    ensures FoldResult(s, xs, step) == FoldResult(s, xs[..i], step)
    decreases |xs| - i
  {
    if i < |xs| {
      FoldResultStep(s, xs, i, step);
      FoldResultAbsorbs(s, xs, i + 1, step);
    } else {
      assert xs[..i] == xs;
    }
  }

  /** A loop raises only what its body raises. */
  lemma {:induction false} FoldResultErrors<S, X, E>(s: S, xs: seq<X>, step: (S, X) -> Result<S, E>, allowed: E -> bool)
    requires forall t, x {:trigger step(t, x)} :: step(t, x).Err? ==> allowed(step(t, x).error)
    ensures FoldResult(s, xs, step).Err? ==> allowed(FoldResult(s, xs, step).error)
  {
    if xs != [] {
      FoldResultErrors(s, xs[..|xs| - 1], step, allowed);
      var prev := FoldResult(s, xs[..|xs| - 1], step);
      if prev.Ok? {
        StepErrors(prev.value, xs[|xs| - 1], step, allowed);
      }
    }
  }

  lemma StepErrors<S, X, E>(t: S, x: X, step: (S, X) -> Result<S, E>, allowed: E -> bool)
    requires forall t: S, x: X :: step(t, x).Err? ==> allowed(step(t, x).error)
    ensures step(t, x).Err? ==> allowed(step(t, x).error)
  {
  }

  /** The concatenation of `part(x)` over `xs`, in order. */
  function Flatten<X, D>(xs: seq<X>, part: X -> seq<D>): seq<D>
  {
    if xs == [] then [] else Flatten(xs[..|xs| - 1], part) + part(xs[|xs| - 1])
  }

  /** When every successful step appends `part(x)` to what `proj` observes, a
      successful loop appends the parts of all its elements, in order. */
  lemma {:induction false} FoldResultTrace<S, X, E, D>(s: S, xs: seq<X>, step: (S, X) -> Result<S, E>,
                                                       proj: S -> seq<D>, part: X -> seq<D>)
    requires forall t, x {:trigger step(t, x)} :: step(t, x).Ok? ==> proj(step(t, x).value) == proj(t) + part(x)
    requires FoldResult(s, xs, step).Ok?
    ensures proj(FoldResult(s, xs, step).value) == proj(s) + Flatten(xs, part)
  {
    if xs != [] {
      var init := xs[..|xs| - 1];
      FoldResultLast(s, xs, step);
      FoldResultTrace(s, init, step, proj, part);
      var prev := FoldResult(s, init, step);
      TraceStep(prev.value, xs[|xs| - 1], step, proj, part);
      assert proj(s) + Flatten(xs, part) == proj(s) + Flatten(init, part) + part(xs[|xs| - 1]);
    }
  }

  lemma TraceStep<S, X, E, D>(t: S, x: X, step: (S, X) -> Result<S, E>, proj: S -> seq<D>, part: X -> seq<D>)
    requires forall t: S, x: X :: step(t, x).Ok? ==> proj(step(t, x).value) == proj(t) + part(x)
    requires step(t, x).Ok?
    ensures proj(step(t, x).value) == proj(t) + part(x)
  {
  }
  /** `g` applied to `p` and each element of `ds` in turn. */
  function Apply<P, D>(p: P, ds: seq<D>, g: (P, D) -> P): P
  {
    if ds == [] then p else g(Apply(p, ds[..|ds| - 1], g), ds[|ds| - 1])
  }

  lemma {:induction false} ApplyAppend<P, D>(p: P, a: seq<D>, b: seq<D>, g: (P, D) -> P)
    ensures Apply(p, a + b, g) == Apply(Apply(p, a, g), b, g)
    decreases |b|
  {
    if b == [] {
      assert a + b == a;
    } else {
      assert (a + b)[..|a + b| - 1] == a + b[..|b| - 1];
      assert (a + b)[|a + b| - 1] == b[|b| - 1];
      ApplyAppend(p, a, b[..|b| - 1], g);
    }
  }

  /** When every successful step from a state satisfying `inv` keeps `inv` and changes what
      `proj` observes by applying `g` to the elements of `part(x)`, a successful loop keeps
      `inv` and applies `g` to the parts of all its elements, in order. */
  lemma {:induction false} FoldResultApply<S, X, E, P, D>(s: S, xs: seq<X>, step: (S, X) -> Result<S, E>,
                                                          inv: S -> bool, proj: S -> P, part: X -> seq<D>,
                                                          g: (P, D) -> P)
    requires forall t, x {:trigger step(t, x)} :: inv(t) && step(t, x).Ok? ==>
               inv(step(t, x).value) && proj(step(t, x).value) == Apply(proj(t), part(x), g)
    requires inv(s) && FoldResult(s, xs, step).Ok?
    ensures inv(FoldResult(s, xs, step).value)
    ensures proj(FoldResult(s, xs, step).value) == Apply(proj(s), Flatten(xs, part), g)
  {
    if xs != [] {
      var init := xs[..|xs| - 1];
      FoldResultLast(s, xs, step);
      FoldResultApply(s, init, step, inv, proj, part, g);
      var prev := FoldResult(s, init, step);
      ApplyStep(prev.value, xs[|xs| - 1], step, inv, proj, part, g);
      ApplyAppend(proj(s), Flatten(init, part), part(xs[|xs| - 1]), g);
    }
  }

  lemma ApplyStep<S, X, E, P, D>(t: S, x: X, step: (S, X) -> Result<S, E>, inv: S -> bool, proj: S -> P,
                                 part: X -> seq<D>, g: (P, D) -> P)
    requires forall t: S, x: X :: inv(t) && step(t, x).Ok? ==>
               inv(step(t, x).value) && proj(step(t, x).value) == Apply(proj(t), part(x), g)
    requires inv(t) && step(t, x).Ok?
    ensures inv(step(t, x).value) && proj(step(t, x).value) == Apply(proj(t), part(x), g)
  {
  }

  /** When every successful step from a state satisfying `inv` keeps `inv` and only
      contributes parts whose elements satisfy `good`, so does a successful loop. */
  lemma {:induction false} FoldResultAll<S, X, E, D>(s: S, xs: seq<X>, step: (S, X) -> Result<S, E>,
                                                     inv: S -> bool, part: X -> seq<D>, good: D -> bool)
    requires forall t, x {:trigger step(t, x)} :: inv(t) && step(t, x).Ok? ==>
               inv(step(t, x).value) && forall i :: 0 <= i < |part(x)| ==> good(part(x)[i])
    requires inv(s) && FoldResult(s, xs, step).Ok?
    ensures inv(FoldResult(s, xs, step).value)
    ensures forall i :: 0 <= i < |Flatten(xs, part)| ==> good(Flatten(xs, part)[i])
  {
    if xs != [] {
      var init := xs[..|xs| - 1];
      FoldResultLast(s, xs, step);
      FoldResultAll(s, init, step, inv, part, good);
      var prev := FoldResult(s, init, step);
      AllStep(prev.value, xs[|xs| - 1], step, inv, part, good);
      var a := Flatten(init, part);
      var b := part(xs[|xs| - 1]);
      assert Flatten(xs, part) == a + b;
      assert forall i :: |a| <= i < |a + b| ==> (a + b)[i] == b[i - |a|];
    }
  }

  lemma AllStep<S, X, E, D>(t: S, x: X, step: (S, X) -> Result<S, E>, inv: S -> bool, part: X -> seq<D>,
                            good: D -> bool)
    requires forall t: S, x: X :: inv(t) && step(t, x).Ok? ==>
               inv(step(t, x).value) && forall i :: 0 <= i < |part(x)| ==> good(part(x)[i])
    requires inv(t) && step(t, x).Ok?
    ensures inv(step(t, x).value) && forall i :: 0 <= i < |part(x)| ==> good(part(x)[i])
  {
  }

  /** `m` applied to every element. */
  function Map<D, F>(ds: seq<D>, m: D -> F): (r: seq<F>)
    ensures |r| == |ds| && forall i :: 0 <= i < |ds| ==> r[i] == m(ds[i])
  {
    seq(|ds|, i requires 0 <= i < |ds| => m(ds[i]))
  }

  /** Mapping the parts one by one maps their concatenation. */
  lemma {:induction false} FlattenMap<X, D, F>(xs: seq<X>, p: X -> seq<D>, q: X -> seq<F>, m: D -> F)
    requires forall x :: Map(p(x), m) == q(x)
    ensures Map(Flatten(xs, p), m) == Flatten(xs, q)
  {
    if xs != [] {
      var init := xs[..|xs| - 1];
      FlattenMap(init, p, q, m);
      assert Map(p(xs[|xs| - 1]), m) == q(xs[|xs| - 1]);
      assert Map(Flatten(xs, p), m) == Map(Flatten(init, p), m) + Map(p(xs[|xs| - 1]), m);
    }
  }
}
