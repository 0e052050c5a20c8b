/** Vocabulary shared by the models: optional values, the "last n" window every
    bounded store keeps, counting, and the integer operations of the language
    the node is written in. */
module Common {

  datatype Option<+T> = None | Some(value: T)

  function Max(a: int, b: int): int {
    if a < b then b else a
  }

  function Min(a: int, b: int): int {
    if a < b then a else b
  }

  /** Integer division truncating toward zero. */
  function TruncDiv(a: int, b: int): int
    requires b > 0
  {
    if a >= 0 then a / b else -((-a) / b)
  }

  lemma Assoc<T>(a: seq<T>, b: seq<T>, c: seq<T>)
    ensures a + (b + c) == (a + b) + c
  {
  }

  /** The last `n` elements of `s`, all of `s` when it is shorter. */
  function Last<T>(s: seq<T>, n: nat): (r: seq<T>)
    ensures |r| == if |s| <= n then |s| else n
  {
    if |s| <= n then s else s[|s| - n..]
  }

  /** `part` is the end of `all`, of length `n` unless all of it is shorter. */
  ghost predicate IsLast<T(!new)>(part: seq<T>, all: seq<T>, n: nat) {
    |part| == Min(n, |all|) && forall i :: 0 <= i < |part| ==> part[i] == all[|all| - |part| + i]
  }

  lemma LastIs<T(!new)>(all: seq<T>, n: nat)
    ensures IsLast(Last(all, n), all, n)
  {
  }

  /** Appending to a window and trimming it is the window of the appended log. */
  lemma LastAppend<T>(s: seq<T>, n: nat, x: T)
    requires n > 0
    ensures Last(Last(s, n) + [x], n) == Last(s + [x], n)
  {
  }

  /** The number of elements of `s` that satisfy `p`. */
  function Count<T>(s: seq<T>, p: T -> bool): (r: nat)
    ensures r <= |s|
  {
    if s == [] then 0
    else Count(s[..|s| - 1], p) + (if p(s[|s| - 1]) then 1 else 0)
  }

  lemma CountAppend<T>(s: seq<T>, x: T, p: T -> bool)
    ensures Count(s + [x], p) == Count(s, p) + (if p(x) then 1 else 0)
  {
    assert (s + [x])[..|s|] == s;
  }

  /** Replacing one element moves a count by that element alone. */
  lemma {:induction false} CountUpdate<T>(s: seq<T>, p: T -> bool, i: nat, x: T)
    requires i < |s|
    ensures Count(s[i := x], p)
         == Count(s, p) - (if p(s[i]) then 1 else 0) + (if p(x) then 1 else 0)
  {
    var n := |s| - 1;
    if i == n {
      assert s[i := x][..n] == s[..n];
    } else {
      assert s[i := x][..n] == s[..n][i := x];
      CountUpdate(s[..n], p, i, x);
    }
  }

  /** Elements that satisfy one predicate are at most those of a weaker one. */
  lemma {:induction false} CountWeaken<T>(s: seq<T>, p: T -> bool, q: T -> bool)
    requires forall x :: x in s && p(x) ==> q(x)
    ensures Count(s, p) <= Count(s, q)
  {
    if s != [] {
      CountWeaken(s[..|s| - 1], p, q);
    }
  }

  /** The sequence without the element at `i`. */
  function Without<T>(s: seq<T>, i: nat): seq<T>
    requires i < |s|
  {
    s[..i] + s[i + 1..]
  }

  lemma {:induction false} CountWithout<T>(s: seq<T>, i: nat, p: T -> bool)
    requires i < |s|
    ensures Count(Without(s, i), p) == Count(s, p) - (if p(s[i]) then 1 else 0)
  {
    var n := |s| - 1;
    if i == n {
      assert Without(s, i) == s[..n];
    } else {
      assert Without(s, i) == Without(s[..n], i) + [s[n]];
      CountWithout(s[..n], i, p);
      CountAppend(Without(s[..n], i), s[n], p);
    }
  }

  /** The predicate "is this one". */
  function Is<T(==)>(x: T): T -> bool {
    y => y == x
  }

  // ---- Division ----

  lemma StepsApart(d: int, q: int, k: int)
    requires k > 0
    ensures d < q ==> (d + 1) * k <= q * k
  {
  }

  /** A quotient is known from the multiple below. */
  lemma DivUnique(a: int, q: int, k: int)
    requires k > 0 && q * k <= a < q * k + k
    ensures a / k == q && a % k == a - q * k
  {
    StepsApart(a / k, q, k);
    StepsApart(q, a / k, k);
  }
}
