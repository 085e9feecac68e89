/** The testimonial carousel's `active` index: next and previous move it
    round the list with JavaScript's `%`, and exactly the card at `active`
    is shown as the current one. */
module TestimonialsCarousel {
  /** A JavaScript number as the index can hold it: an integer, or `NaN`
      once `% 0` has been taken on an empty list. */
  datatype Slot = Index(i: int) | NotANumber

  /** JavaScript's `a % n` on integers: `NaN` for `n == 0`, otherwise the
      remainder of truncating division, with the sign of `a`. */
  function JsRem(a: int, n: int): (r: Slot)
    ensures n == 0 <==> r.NotANumber?
    ensures n != 0 && a >= 0 ==> r == Index(a % if n > 0 then n else -n)
  {
    if n == 0 then NotANumber
    else
      var m := if n > 0 then n else -n;
      if a >= 0 then Index(a % m) else Index(-((-a) % m))
  }

  /** `handleNext`: `(prev + 1) % testimonials.length`. */
  function Next(s: Slot, n: nat): Slot {
    match s
    case NotANumber => NotANumber
    case Index(a) => JsRem(a + 1, n)
  }

  /** `handlePrev`: `(prev - 1 + testimonials.length) % testimonials.length`. */
  function Prev(s: Slot, n: nat): Slot {
    match s
    case NotANumber => NotANumber
    case Index(a) => JsRem(a - 1 + n, n)
  }

  predicate InRange(s: Slot, n: nat) {
    s.Index? && 0 <= s.i < n
  }

  /** Next stays in range: one step on, and from the last card back to the
      first. */
  lemma NextStep(a: int, n: nat)
    requires 0 <= a < n
    ensures Next(Index(a), n) == Index(if a == n - 1 then 0 else a + 1)
  {
  }

  /** Previous stays in range: one step back, and from the first card to the
      last. */
  lemma PrevStep(a: int, n: nat)
    requires 0 <= a < n
    ensures Prev(Index(a), n) == Index(if a == 0 then n - 1 else a - 1)
  {
  }

  /** Next and previous undo each other. */
  lemma NextPrevInverse(a: int, n: nat)
    requires 0 <= a < n
    ensures Prev(Next(Index(a), n), n) == Index(a)
    ensures Next(Prev(Index(a), n), n) == Index(a)
  {
    NextStep(a, n);
    PrevStep(a, n);
    var b := if a == n - 1 then 0 else a + 1;
    PrevStep(b, n);
    var c := if a == 0 then n - 1 else a - 1;
    NextStep(c, n);
  }

  /** `k` clicks on next. */
  function NextTimes(s: Slot, n: nat, k: nat): Slot
    decreases k
  {
    if k == 0 then s else Next(NextTimes(s, n, k - 1), n)
  }

  /** Up to a full round, `k` clicks on next move `k` cards on, wrapping past
      the last card once. */
  lemma {:induction false} NextTimesIndex(a: int, n: nat, k: nat)
    requires 0 <= a < n && k <= n
    ensures NextTimes(Index(a), n, k) == Index(if a + k < n then a + k else a + k - n)
    decreases k
  {
    if k > 0 {
      NextTimesIndex(a, n, k - 1);
      NextStep(if a + k - 1 < n then a + k - 1 else a + k - 1 - n, n);
    }
  }

  /** `n` clicks on next come back to the starting card. */
  lemma FullCycle(a: int, n: nat)
    requires 0 <= a < n
    ensures NextTimes(Index(a), n, n) == Index(a)
  {
    NextTimesIndex(a, n, n);
  }

  /** The arithmetic of `handleNext` and `handlePrev` at length 0: `% 0`
      gives `NaN`, which no card index equals, and it stays `NaN`. The
      component itself never reaches this state, because an empty list
      throws at its first render. */
  lemma EmptyListLosesIndex(a: int, k: nat)
    ensures Next(Index(a), 0) == NotANumber && Prev(Index(a), 0) == NotANumber
    ensures Next(NotANumber, k) == NotANumber && Prev(NotANumber, k) == NotANumber
  {
  }

  /** The carousel's state: the list length and the `active` index. */
  class Carousel {
    const count: nat
    var active: Slot

    /** With cards to show, the index always names one of them. */
    predicate Valid()
      reads this
    {
      count > 0 ==> InRange(active, count)
    }

    constructor(count: nat)
      ensures this.count == count && active == Index(0) && Valid()
    {
      this.count := count;
      active := Index(0);
    }

    method HandleNext()
      requires Valid()
      modifies this
      ensures active == Next(old(active), count) && Valid()
    {
      if count > 0 {
        NextStep(active.i, count);
      }
      active := Next(active, count);
    }

    method HandlePrev()
      requires Valid()
      modifies this
      ensures active == Prev(old(active), count) && Valid()
    {
      if count > 0 {
        PrevStep(active.i, count);
      }
      active := Prev(active, count);
    }

    /** `isActive`. */
    predicate IsActive(index: int)
      reads this
    {
      active == Index(index)
    }
  }

  /** In a valid state with cards, exactly one card index is active. */
  lemma ExactlyOneActive(c: Carousel)
    requires c.Valid() && c.count > 0
    ensures exists j :: 0 <= j < c.count && c.IsActive(j)
    ensures forall j, k :: 0 <= j < c.count && 0 <= k < c.count && c.IsActive(j) && c.IsActive(k) ==> j == k
  {
    assert c.IsActive(c.active.i);
  }
}
