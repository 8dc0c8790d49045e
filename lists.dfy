/** Array.prototype.filter over sequences, the remove-by-id filter the list handlers share, and
    appending what each element contributes in turn, with the facts the handlers rely on. */
module Lists {

  /** `s.filter(keep)` */
  function Filter<T>(keep: T -> bool, s: seq<T>): (r: seq<T>)
    ensures |r| <= |s|
    ensures forall i :: 0 <= i < |r| ==> r[i] in s && keep(r[i])
    ensures forall i :: 0 <= i < |s| && keep(s[i]) ==> s[i] in r
  {
    if s == [] then [] else (if keep(s[0]) then [s[0]] else []) + Filter(keep, s[1..])
  }

  /** Filtering works element by element, so it keeps the relative order of what it keeps. */
  lemma {:induction false} FilterAppend<T>(keep: T -> bool, a: seq<T>, b: seq<T>)
    ensures Filter(keep, a + b) == Filter(keep, a) + Filter(keep, b)
  {
    if a == [] {
      assert a + b == b;
    } else {
      assert (a + b)[0] == a[0] && (a + b)[1..] == a[1..] + b;
      FilterAppend(keep, a[1..], b);
    }
  }

  /** When every element is kept, the list comes back unchanged. */
  lemma {:induction false} FilterKeepsAll<T>(keep: T -> bool, s: seq<T>)
    requires forall i :: 0 <= i < |s| ==> keep(s[i])
    ensures Filter(keep, s) == s
  {
    if s != [] {
      FilterKeepsAll(keep, s[1..]);
    }
  }

  /** Nothing is kept exactly when no element satisfies the predicate. */
  lemma FilterEmptyIffNonePass<T>(keep: T -> bool, s: seq<T>)
    ensures Filter(keep, s) == [] <==> forall i :: 0 <= i < |s| ==> !keep(s[i])
  {
    var r := Filter(keep, s);
    if r != [] {
      assert r[0] in s && keep(r[0]);
    }
  }

  /** Filtering by a predicate after filtering by a weaker one is filtering by the first alone. */
  lemma {:induction false} FilterAfterWeaker<T>(keep: T -> bool, weaker: T -> bool, s: seq<T>)
    requires forall x :: keep(x) ==> weaker(x)
    ensures Filter(keep, Filter(weaker, s)) == Filter(keep, s)
  {
    if s != [] {
      var head := if weaker(s[0]) then [s[0]] else [];
      FilterAppend(keep, head, Filter(weaker, s[1..]));
      FilterAfterWeaker(keep, weaker, s[1..]);
      if weaker(s[0]) {
        assert Filter(keep, head) == if keep(s[0]) then [s[0]] else [];
      }
    }
  }

  /** The test `(x) => x.id !== id`, for records whose id `idOf` reads. */
  function OtherId<T>(idOf: T -> string, id: string): T -> bool {
    (x: T) => idOf(x) != id
  }

  /** `xs.filter((x) => x.id !== id)`: exactly the records with another id. */
  function RemoveById<T>(idOf: T -> string, xs: seq<T>, id: string): (r: seq<T>)
    ensures forall i :: 0 <= i < |r| ==> idOf(r[i]) != id && r[i] in xs
    ensures forall i :: 0 <= i < |xs| && idOf(xs[i]) != id ==> xs[i] in r
  {
    Filter(OtherId(idOf, id), xs)
  }

  /** Removal keeps the order of what remains: it commutes with concatenation, and it is the
      identity on a list without that id. */
  lemma RemoveByIdKeepsOrder<T>(idOf: T -> string, xs: seq<T>, ys: seq<T>, id: string)
    ensures RemoveById(idOf, xs + ys, id) == RemoveById(idOf, xs, id) + RemoveById(idOf, ys, id)
    ensures (forall i :: 0 <= i < |xs| ==> idOf(xs[i]) != id) ==> RemoveById(idOf, xs, id) == xs
  {
    FilterAppend(OtherId(idOf, id), xs, ys);
    if forall i :: 0 <= i < |xs| ==> idOf(xs[i]) != id {
      FilterKeepsAll(OtherId(idOf, id), xs);
    }
  }

  /** The concatenation of what `f` gives for each element, in order. */
  function FlatMap<T, U>(f: T -> seq<U>, s: seq<T>): seq<U> {
    if s == [] then [] else FlatMap(f, s[..|s| - 1]) + f(s[|s| - 1])
  }

  /** Mapping two runs of elements is concatenating what each run gives. */
  lemma {:induction false} FlatMapAppend<T, U>(f: T -> seq<U>, a: seq<T>, b: seq<T>)
    ensures FlatMap(f, a + b) == FlatMap(f, a) + FlatMap(f, b)
  {
    if b == [] {
      assert a + b == a;
    } else {
      assert (a + b)[..|a + b| - 1] == a + b[..|b| - 1];
      FlatMapAppend(f, a, b[..|b| - 1]);
    }
  }

  /** Every output element comes from some input element. */
  lemma {:induction false} FlatMapFrom<T, U>(f: T -> seq<U>, s: seq<T>, x: U)
    requires x in FlatMap(f, s)
    ensures exists j :: 0 <= j < |s| && x in f(s[j])
  {
    var n := |s| - 1;
    if x in FlatMap(f, s[..n]) {
      FlatMapFrom(f, s[..n], x);
      var j :| 0 <= j < n && x in f(s[..n][j]);
      assert s[..n][j] == s[j];
    } else {
      assert x in f(s[n]);
    }
  }

  /** Everything an input element gives is in the output. */
  lemma {:induction false} FlatMapTo<T, U>(f: T -> seq<U>, s: seq<T>, j: nat, x: U)
    requires j < |s| && x in f(s[j])
    ensures x in FlatMap(f, s)
  {
    var n := |s| - 1;
    assert FlatMap(f, s) == FlatMap(f, s[..n]) + f(s[n]);
    if j < n {
      assert s[..n][j] == s[j];
      FlatMapTo(f, s[..n], j, x);
    }
  }
}
