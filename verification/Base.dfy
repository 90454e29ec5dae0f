/** Vocabulary shared by every component: bytes, failure-compatible outcomes and id pools. */
module Base {

  type byte = x: int | 0 <= x < 256
  type Bytes = seq<byte>

  datatype Option<+T> = None | Some(value: T)

  /** The result of running one callback of the program.  `Crash` stands for a failed `assert`,
      a dereferenced empty `optional`, or `front()` of an empty deque. */
  datatype Outcome<+T> = Ok(value: T) | Crash {
    predicate IsFailure() {
      Crash?
    }
    function PropagateFailure<U>(): Outcome<U>
      requires Crash?
    {
      Crash
    }
    function Extract(): T
      requires Ok?
    {
      value
    }
  }

  function Last<T>(s: seq<T>): T
    requires s != []
  {
    s[|s| - 1]
  }

  function ButLast<T>(s: seq<T>): seq<T>
    requires s != []
  {
    s[..|s| - 1]
  }

  /** lo, lo+1, .., hi-1 */
  function Range(lo: nat, hi: nat): seq<nat> {
    if lo < hi then seq(hi - lo, i requires 0 <= i => lo + i) else []
  }

  ghost predicate Below(ids: seq<nat>, n: nat) {
    forall i :: 0 <= i < |ids| ==> ids[i] < n
  }

  /** How often `x` occurs in `xs`. */
  function Count(xs: seq<nat>, x: nat): nat {
    multiset(xs)[x]
  }

  lemma CountCat(a: seq<nat>, b: seq<nat>, x: nat)
    ensures Count(a + b, x) == Count(a, x) + Count(b, x)
  {
  }

  lemma CountEmpty(x: nat)
    ensures Count([], x) == 0
  {
  }

  lemma CountOne(y: nat, x: nat)
    ensures Count([y], x) == if x == y then 1 else 0
  {
  }

  lemma CountIn(xs: seq<nat>, x: nat)
    ensures x in xs <==> Count(xs, x) >= 1
  {
  }

  lemma {:induction false} CountRange(n: nat, x: nat)
    ensures Count(Range(0, n), x) == if x < n then 1 else 0
  {
    if n > 0 {
      CountRange(n - 1, x);
      assert Range(0, n) == Range(0, n - 1) + [n - 1];
    }
  }

  // Rearrangements of concatenations, stated apart from the states they are used on.

  lemma Appended<T>(a: seq<T>, b: seq<T>, c: seq<T>)
    ensures (a + b) + c == a + (b + c)
  {
  }

  lemma MoveBack<T>(a: seq<T>, x: seq<T>, b: seq<T>, c: seq<T>)
    ensures a + ((x + b) + c) == (a + x) + (b + c)
  {
  }

  lemma MoveBackInside<T>(z: seq<T>, a: seq<T>, x: seq<T>, b: seq<T>, c: seq<T>)
    ensures z + (a + ((x + b) + c)) == z + ((a + x) + (b + c))
  {
    MoveBack(a, x, b, c);
  }

  lemma Regroup<T>(z: seq<T>, a: seq<T>, x: seq<T>, b: seq<T>)
    ensures z + (a + (x + b)) == z + ((a + x) + b)
  {
    assert a + (x + b) == (a + x) + b;
  }

  lemma RegroupEnd<T>(z: seq<T>, a: seq<T>, b: seq<T>, x: seq<T>)
    ensures z + (a + (b + x)) == (z + (a + b)) + x
  {
  }
}
