/** Small shared vocabulary: optional values and the identities used by every module. */
module Prelude {

  datatype Option<+T> = None | Some(value: T)

  /** Stable logical load identity, an arbitrary text. */
  type DeviceId = string

  /** A wall-clock or monotonic instant in seconds. */
  type Time = real

  /** No element occurs twice. */
  ghost predicate Distinct<T(!new)>(s: seq<T>) {
    forall i, j :: 0 <= i < j < |s| ==> s[i] != s[j]
  }

  /** Some elements of the second list, in its order. */
  ghost predicate Subsequence<T>(xs: seq<T>, ys: seq<T>) {
    xs == [] || (ys != [] && ((xs[0] == ys[0] && Subsequence(xs[1..], ys[1..])) || Subsequence(xs, ys[1..])))
  }

  lemma ShiftOne<T>(done: seq<T>, all: seq<T>, i: nat)
    requires i < |all|
    ensures done + all[i..] == done + [all[i]] + all[i + 1..]
  {
    assert all[i..] == [all[i]] + all[i + 1..];
  }

  lemma CutAfter<T>(done: seq<T>, all: seq<T>, i: nat)
    requires i < |all|
    ensures var s := done + all[i..];
            |done| < |s| && s[|done|] == all[i] && s[..|done|] + s[|done| + 1..] == done + all[i + 1..]
  {
    var s := done + all[i..];
    assert s[..|done|] == done && s[|done| + 1..] == all[i + 1..];
  }

  lemma TakeOneMore<T>(all: seq<T>, i: nat)
    requires i < |all|
    ensures all[..i + 1] == all[..i] + [all[i]]
  {}

  function Max(a: real, b: real): (m: real)
    ensures m >= a && m >= b && (m == a || m == b)
  {
    if a >= b then a else b
  }

  /** The least integer not below a real. */
  function Ceiling(x: real): (n: int)
    ensures n as real >= x && (n - 1) as real < x
  {
    -((-x).Floor)
  }

  // ---------- Lists that may fail part-way ----------

  function Consed<T>(x: T, rest: Option<seq<T>>): Option<seq<T>> {
    if rest.None? then None else Some([x] + rest.value)
  }

  function Joined<T>(done: seq<T>, rest: Option<seq<T>>): (r: Option<seq<T>>)
    ensures done == [] ==> r == rest
    ensures rest == Some([]) ==> r == Some(done)
  {
    assert rest.Some? ==> [] + rest.value == rest.value && done + [] == done;
    if rest.None? then None else Some(done + rest.value)
  }

  lemma JoinOneMore<T>(done: seq<T>, x: T, rest: Option<seq<T>>)
    ensures Joined(done, Consed(x, rest)) == Joined(done + [x], rest)
  {
    if rest.Some? { assert done + ([x] + rest.value) == done + [x] + rest.value; }
  }
}
