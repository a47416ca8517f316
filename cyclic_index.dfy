/** The index arithmetic behind the "Previous" and "Next" buttons of both galleries. */
module CyclicIndex {

  /** Kotlin's `%` on `Int` for a positive divisor: the remainder takes the sign of the dividend. */
  function Rem(a: int, b: int): (r: int)
    requires b > 0
    ensures a >= 0 ==> 0 <= r < b && r == a % b
    ensures a < 0 ==> -b < r <= 0 && r == (if a % b == 0 then 0 else a % b - b)
  {
    if a >= 0 then a % b
    else
      var q := (-a) / b;
      TruncatedDivision(a, b, q, (-a) % b);
      -((-a) % b)
  }

  /** A representation `a == q * b + r` with `0 <= r < b` determines Dafny's `a % b`. */
  lemma RemainderUnique(a: int, b: int, q: int, r: int)
    requires b > 0 && 0 <= r < b && a == q * b + r
    ensures a % b == r
  {
    var q' := a / b;
    var r' := a % b;
    assert a == q' * b + r';
    assert (q - q') * b == r' - r;
    if q > q' {
      ProductAtLeast(q - q', b);
    } else if q < q' {
      ProductAtLeast(q' - q, b);
    }
  }

  lemma {:induction false} ProductAtLeast(d: int, b: int)
    requires d >= 1 && b > 0
    ensures d * b >= b
    decreases d
  {
    if d > 1 {
      ProductAtLeast(d - 1, b);
      assert d * b == (d - 1) * b + b;
    }
  }

  /** For a negative dividend, Kotlin's remainder `-((-a) % b)` against Dafny's Euclidean `a % b`. */
  lemma TruncatedDivision(a: int, b: int, q: int, r: int)
    requires b > 0 && a < 0 && q == (-a) / b && r == (-a) % b
    ensures -r == (if a % b == 0 then 0 else a % b - b)
  {
    assert -a == q * b + r;
    if r == 0 {
      RemainderUnique(a, b, -q, 0);
    } else {
      RemainderUnique(a, b, -q - 1, b - r);
    }
  }

  /** "Next": `(i + 1) % size`. */
  function Next(i: int, size: int): int
    requires size > 0
  {
    Rem(i + 1, size)
  }

  /** "Previous": `if (i - 1 < 0) size - 1 else i - 1`. */
  function Previous(i: int, size: int): int
  {
    if i - 1 < 0 then size - 1 else i - 1
  }

  /** Next on the last index wraps to the first one, and otherwise moves one forward. */
  lemma NextWraps(i: int, size: int)
    requires 0 <= i < size
    ensures 0 <= Next(i, size) < size
    ensures Next(i, size) == if i == size - 1 then 0 else i + 1
  {
  }

  /** Previous on the first index wraps to the last one, and otherwise moves one back. */
  lemma PreviousWraps(i: int, size: int)
    requires 0 <= i < size
    ensures 0 <= Previous(i, size) < size
    ensures Previous(i, size) == if i == 0 then size - 1 else i - 1
  {
  }

  /** Previous undoes Next. */
  lemma PreviousUndoesNext(i: int, size: int)
    requires 0 <= i < size
    ensures Previous(Next(i, size), size) == i
  {
    NextWraps(i, size);
  }

  /** Next undoes Previous. */
  lemma NextUndoesPrevious(i: int, size: int)
    requires 0 <= i < size
    ensures Next(Previous(i, size), size) == i
  {
    PreviousWraps(i, size);
    NextWraps(Previous(i, size), size);
  }

  /** A press of one of the two buttons under a gallery. */
  datatype Click = PreviousClick | NextClick

  function Step(i: int, size: int, c: Click): int
    requires size > 0
  {
    match c
    case PreviousClick => Previous(i, size)
    case NextClick => Next(i, size)
  }

  /** The index reached from `i` after the clicks `cs`, oldest first. */
  function Clicks(i: int, size: int, cs: seq<Click>): int
    requires size > 0
    decreases |cs|
  {
    if cs == [] then i else Step(Clicks(i, size, cs[..|cs| - 1]), size, cs[|cs| - 1])
  }

  /** Any run of clicks from a valid index ends at a valid index, so `images[indice]` never fails. */
  lemma {:induction false} ClicksInRange(i: int, size: int, cs: seq<Click>)
    requires 0 <= i < size
    ensures 0 <= Clicks(i, size, cs) < size
    decreases |cs|
  {
    if cs != [] {
      var before := Clicks(i, size, cs[..|cs| - 1]);
      ClicksInRange(i, size, cs[..|cs| - 1]);
      NextWraps(before, size);
      PreviousWraps(before, size);
    }
  }

  /** The index reached from `i` after `k` presses of Next. */
  function NextTimes(i: int, size: int, k: nat): int
    requires size > 0
  {
    if k == 0 then i else Next(NextTimes(i, size, k - 1), size)
  }

  /** Up to `size` presses of Next move forward by `k`, wrapping once past the end. */
  lemma {:induction false} NextTimesValue(i: int, size: int, k: nat)
    requires 0 <= i < size && k <= size
    ensures NextTimes(i, size, k) == if i + k < size then i + k else i + k - size
  {
    if k > 0 {
      NextTimesValue(i, size, k - 1);
      NextWraps(NextTimes(i, size, k - 1), size);
    }
  }

  /** `size` presses of Next return to the starting index ... */
  lemma FullCycle(i: int, size: int)
    requires 0 <= i < size
    ensures NextTimes(i, size, size) == i
  {
    NextTimesValue(i, size, size);
  }

  /** ... and no smaller positive number of presses does. */
  lemma CycleIsMinimal(i: int, size: int, k: nat)
    requires 0 <= i < size && 0 < k < size
    ensures NextTimes(i, size, k) != i
  {
    NextTimesValue(i, size, k);
  }
}
