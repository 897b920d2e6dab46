/**
 * The generic "fetch every page" loop of the client (`_get_all_values`).
 *
 * A page function is called with a page size `limit` and an `offset`; it answers
 * with the `total` number of items and the `items` of that page, or with nothing.
 * Call number `k` (from 0) is made at offset `k * limit`. The reported total is
 * read again from every response, so whether the loop ends depends on the
 * answers: `Terminates` says that some call would end it.
 */
module Paginator {
  import opened Wrappers

  /** The largest page size the service accepts (`MAX_QUERY_LIMIT`). */
  const MaxQueryLimit := 50

  /** One response: the reported total and the items of this page. */
  datatype Page<T> = Page(total: int, items: seq<T>)

  /** A page function, taking `(limit, offset)`; `None` is a null response. */
  type PageFn<T> = (int, int) -> Option<Page<T>>

  /** The loop's `total`: `float("inf")` before the first response, then a reported count. */
  datatype Total = Infinite | Finite(n: int)

  predicate Below(offset: int, total: Total) {
    match total
    case Infinite => true
    case Finite(n) => offset < n
  }

  /**
   * The loop does not go on after call number `k`: that call gets a null
   * response, or a total the next offset reaches.
   */
  predicate Stops<T>(fetch: PageFn<T>, limit: int, k: nat) {
    match fetch(limit, k * limit)
    case None => true
    case Some(page) => k * limit + limit >= page.total
  }

  /** Some call would end the loop, so the loop ends (at the first such call). */
  ghost predicate Terminates<T>(fetch: PageFn<T>, limit: int) {
    exists k: nat :: Stops(fetch, limit, k)
  }

  /** A call number at which the loop would stop; no call after it is ever made. */
  ghost function StopBound<T>(fetch: PageFn<T>, limit: int): (k: nat)
    requires Terminates(fetch, limit)
    ensures Stops(fetch, limit, k)
  {
    var k: nat :| Stops(fetch, limit, k); k
  }

  function Prepend<T>(xs: seq<T>, r: Result<seq<T>, Error>): Result<seq<T>, Error> {
    match r
    case Success(ys) => Success(xs + ys)
    case Failure(e) => Failure(e)
  }

  /** What the loop collects from call number `k` onwards. */
  ghost function ValuesFrom<T>(fetch: PageFn<T>, limit: int, k: nat): Result<seq<T>, Error>
    requires Terminates(fetch, limit) && k <= StopBound(fetch, limit)
    decreases StopBound(fetch, limit) - k
  {
    match fetch(limit, k * limit)
    case None => Failure(NullResponse)
    case Some(page) =>
      if k * limit + limit < page.total then Prepend(page.items, ValuesFrom(fetch, limit, k + 1))
      else Success(page.items)
  }

  /** The offsets of the calls the loop makes from call number `k` onwards. */
  ghost function OffsetsFrom<T>(fetch: PageFn<T>, limit: int, k: nat): seq<int>
    requires Terminates(fetch, limit) && k <= StopBound(fetch, limit)
    decreases StopBound(fetch, limit) - k
  {
    match fetch(limit, k * limit)
    case None => [k * limit]
    case Some(page) =>
      if k * limit + limit < page.total then [k * limit] + OffsetsFrom(fetch, limit, k + 1)
      else [k * limit]
  }

  /** The source demands nothing of the page function when it rejects the page size. */
  ghost predicate Admissible<T>(fetch: PageFn<T>, limit: int) {
    limit <= MaxQueryLimit ==> Terminates(fetch, limit)
  }

  /** The outcome of `_get_all_values(fetch, limit)`. */
  ghost function AllValues<T>(fetch: PageFn<T>, limit: int): Result<seq<T>, Error>
    requires Admissible(fetch, limit)
  {
    if limit > MaxQueryLimit then Failure(LimitTooLarge) else ValuesFrom(fetch, limit, 0)
  }

  /** The offsets passed to `fetch`, call by call, during `_get_all_values(fetch, limit)`. */
  ghost function Calls<T>(fetch: PageFn<T>, limit: int): seq<int>
    requires Admissible(fetch, limit)
  {
    if limit > MaxQueryLimit then [] else OffsetsFrom(fetch, limit, 0)
  }

  /** The items of the responses to the calls at `offsets`, in call order. */
  ghost function ItemsAt<T>(fetch: PageFn<T>, limit: int, offsets: seq<int>): seq<T> {
    if offsets == [] then []
    else
      (match fetch(limit, offsets[0]) case Some(page) => page.items case None => [])
      + ItemsAt(fetch, limit, offsets[1..])
  }

  /**
   * Calls `fetch` at offsets 0, limit, 2 limit, ... until the offset reaches the
   * total of the latest response, and concatenates the items; `calls` records
   * the offset of each call.
   */
  method GetAllValues<T>(fetch: PageFn<T>, limit: int)
    returns (r: Result<seq<T>, Error>, ghost calls: seq<int>)
    requires Admissible(fetch, limit)
    ensures r == AllValues(fetch, limit)
    ensures calls == Calls(fetch, limit)
  {
    calls := [];
    if limit > MaxQueryLimit {
      return Failure(LimitTooLarge), calls;
    }
    var values: seq<T> := [];
    var offset := 0;
    var total := Infinite;
    ghost var k: nat := 0;
    ghost var n := StopBound(fetch, limit);
    PrependNothing(ValuesFrom(fetch, limit, 0));
    while Below(offset, total)
      invariant offset == k * limit
      invariant total.Infinite? ==> k == 0 && values == [] && calls == []
      invariant Below(offset, total) ==> Pending(fetch, limit, k, values, calls)
      invariant !Below(offset, total) ==> Finished(fetch, limit, values, calls)
      decreases if total.Infinite? then 1 else 0, n - k
    {
      var response := fetch(limit, offset);
      if response.None? {
        FetchStepNone(fetch, limit, k, values, calls);
        return Failure(NullResponse), calls + [offset];
      }
      var page := response.value;
      FetchStepSome(fetch, limit, k, values, calls, page);
      calls := calls + [offset];
      total := Finite(page.total);
      offset := offset + limit;
      values := values + page.items;
      k := k + 1;
    }
    r := Success(values);
  }

  /** Loop state before call number `k`: what is left to collect comes from that call on. */
  ghost predicate Pending<T>(fetch: PageFn<T>, limit: int, k: nat, values: seq<T>, calls: seq<int>)
    requires Terminates(fetch, limit)
  {
    && k <= StopBound(fetch, limit)
    && ValuesFrom(fetch, limit, 0) == Prepend(values, ValuesFrom(fetch, limit, k))
    && OffsetsFrom(fetch, limit, 0) == calls + OffsetsFrom(fetch, limit, k)
  }

  /** Loop state after the last call: everything has been collected. */
  ghost predicate Finished<T>(fetch: PageFn<T>, limit: int, values: seq<T>, calls: seq<int>)
    requires Terminates(fetch, limit)
  {
    ValuesFrom(fetch, limit, 0) == Success(values) && OffsetsFrom(fetch, limit, 0) == calls
  }

  /** A null response to call number `k` makes the whole pass fail after that call. */
  lemma FetchStepNone<T>(fetch: PageFn<T>, limit: int, k: nat, values: seq<T>, calls: seq<int>)
    requires Terminates(fetch, limit)
    requires fetch(limit, k * limit).None?
    requires Pending(fetch, limit, k, values, calls)
    ensures ValuesFrom(fetch, limit, 0) == Failure(NullResponse)
    ensures OffsetsFrom(fetch, limit, 0) == calls + [k * limit]
  {
  }

  /** A page answering call number `k` is collected; the pass goes on exactly when `offset + limit < total`. */
  lemma FetchStepSome<T>(fetch: PageFn<T>, limit: int, k: nat, values: seq<T>, calls: seq<int>, page: Page<T>)
    requires Terminates(fetch, limit)
    requires fetch(limit, k * limit) == Some(page)
    requires Pending(fetch, limit, k, values, calls)
    ensures k * limit + limit == (k + 1) * limit
    ensures k * limit + limit < page.total ==> Pending(fetch, limit, k + 1, values + page.items, calls + [k * limit])
    ensures k * limit + limit >= page.total ==> Finished(fetch, limit, values + page.items, calls + [k * limit])
  {
    PrependTwice(values, page.items,
      if k * limit + limit < page.total then ValuesFrom(fetch, limit, k + 1) else Success([]));
  }

  lemma PrependTwice<T>(xs: seq<T>, ys: seq<T>, r: Result<seq<T>, Error>)
    ensures Prepend(xs, Prepend(ys, r)) == Prepend(xs + ys, r)
  {
    if r.Success? {
      assert xs + (ys + r.value) == (xs + ys) + r.value;
    }
  }

  lemma PrependNothing<T>(r: Result<seq<T>, Error>)
    ensures Prepend([], r) == r
  {
    if r.Success? {
      assert [] + r.value == r.value;
    }
  }

  lemma {:induction false} OffsetsStep<T>(fetch: PageFn<T>, limit: int, k: nat)
    requires Terminates(fetch, limit) && k <= StopBound(fetch, limit)
    ensures var offs := OffsetsFrom(fetch, limit, k);
      |offs| >= 1
      && (forall j :: 0 <= j < |offs| ==> offs[j] == (k + j) * limit)
      && (forall j :: 0 <= j < |offs| - 1 ==>
            fetch(limit, offs[j]).Some? && offs[j] + limit < fetch(limit, offs[j]).value.total)
      && (fetch(limit, offs[|offs| - 1]).Some? ==>
            offs[|offs| - 1] + limit >= fetch(limit, offs[|offs| - 1]).value.total)
    decreases StopBound(fetch, limit) - k
  {
    var offs := OffsetsFrom(fetch, limit, k);
    match fetch(limit, k * limit)
    case None =>
    case Some(page) =>
      if k * limit + limit < page.total {
        var rest := OffsetsFrom(fetch, limit, k + 1);
        OffsetsStep(fetch, limit, k + 1);
        assert offs == [k * limit] + rest;
        forall j | 1 <= j < |offs|
          ensures offs[j] == (k + j) * limit
        {
          assert offs[j] == rest[j - 1] == (k + 1 + (j - 1)) * limit;
        }
      }
  }

  lemma {:induction false} ValuesStep<T>(fetch: PageFn<T>, limit: int, k: nat)
    requires Terminates(fetch, limit) && k <= StopBound(fetch, limit)
    ensures var offs := OffsetsFrom(fetch, limit, k);
      var r := ValuesFrom(fetch, limit, k);
      |offs| >= 1
      && (r.Failure? <==> fetch(limit, offs[|offs| - 1]).None?)
      && (r.Failure? ==> r.error == NullResponse)
      && (r.Success? ==> r.value == ItemsAt(fetch, limit, offs))
    decreases StopBound(fetch, limit) - k
  {
    match fetch(limit, k * limit)
    case None =>
    case Some(page) =>
      var offs := OffsetsFrom(fetch, limit, k);
      if k * limit + limit < page.total {
        var rest := OffsetsFrom(fetch, limit, k + 1);
        ValuesStep(fetch, limit, k + 1);
        assert offs == [k * limit] + rest;
        assert offs[1..] == rest;
      } else {
        assert offs == [k * limit];
        assert ItemsAt(fetch, limit, offs) == page.items + ItemsAt(fetch, limit, []);
      }
  }

  /** A page size above the maximum fails before the page function is ever called. */
  lemma LimitAboveMaximumFails<T>(fetch: PageFn<T>, limit: int)
    requires limit > MaxQueryLimit
    ensures AllValues(fetch, limit) == Failure(LimitTooLarge)
    ensures Calls(fetch, limit) == []
  {
  }

  /**
   * With an admissible page size, `fetch` is called at least once, the k-th call
   * (from 0) gets offset k * limit, every call but the last was answered with a
   * total beyond the next offset, and the last was answered with nothing or with
   * a total the next offset reaches.
   */
  lemma PaginationOffsets<T>(fetch: PageFn<T>, limit: int)
    requires limit <= MaxQueryLimit && Terminates(fetch, limit)
    ensures var calls := Calls(fetch, limit);
      |calls| >= 1
      && (forall k :: 0 <= k < |calls| ==> calls[k] == k * limit)
      && (forall k :: 0 <= k < |calls| - 1 ==>
            fetch(limit, calls[k]).Some? && calls[k] + limit < fetch(limit, calls[k]).value.total)
      && (fetch(limit, calls[|calls| - 1]).Some? ==>
            calls[|calls| - 1] + limit >= fetch(limit, calls[|calls| - 1]).value.total)
  {
    OffsetsStep(fetch, limit, 0);
  }

  /**
   * With an admissible page size, the loop fails exactly when the last call got a
   * null response, and otherwise returns the items of all responses in call order.
   */
  lemma PaginationResult<T>(fetch: PageFn<T>, limit: int)
    requires limit <= MaxQueryLimit && Terminates(fetch, limit)
    ensures var calls := Calls(fetch, limit);
      var r := AllValues(fetch, limit);
      |calls| >= 1
      && (r.Failure? <==> fetch(limit, calls[|calls| - 1]).None?)
      && (r.Failure? ==> r.error == NullResponse)
      && (r.Success? ==> r.value == ItemsAt(fetch, limit, calls))
  {
    ValuesStep(fetch, limit, 0);
  }

  /**
   * A first page whose total the next offset already reaches is the only call:
   * the result is that page's items.
   */
  lemma SinglePage<T>(fetch: PageFn<T>, limit: int, page: Page<T>)
    requires limit <= MaxQueryLimit
    requires fetch(limit, 0) == Some(page) && limit >= page.total
    ensures Terminates(fetch, limit)
    ensures AllValues(fetch, limit) == Success(page.items)
    ensures Calls(fetch, limit) == [0]
  {
    assert Stops(fetch, limit, 0);
  }

  /** `ceil(x / d)` for a positive `d`, in Euclidean integer division. */
  function CeilDiv(x: int, d: int): int
    requires d > 0
  {
    (x + d - 1) / d
  }

  lemma DivShift(x: int, d: int)
    requires d > 0
    ensures (x + d) / d == x / d + 1
  {
    var q, m := x / d, x % d;
    var q', m' := (x + d) / d, (x + d) % d;
    assert d * (q' - q - 1) == m - m';
    MultipleInOpenInterval(d, q' - q - 1);
  }

  /** The only multiple of `d` strictly between `-d` and `d` is 0. */
  lemma MultipleInOpenInterval(d: int, k: int)
    requires d > 0 && -d < d * k < d
    ensures k == 0
  {
  }

  lemma DivAtMostOne(x: int, d: int)
    requires d > 0 && x < 2 * d
    ensures x / d <= 1
  {
  }

  lemma {:induction false} CallCountFrom<T>(fetch: PageFn<T>, limit: int, k: nat, t: int)
    requires 0 < limit && Terminates(fetch, limit) && k <= StopBound(fetch, limit)
    requires forall o :: fetch(limit, o).Some? && fetch(limit, o).value.total == t
    ensures |OffsetsFrom(fetch, limit, k)| == if CeilDiv(t - k * limit, limit) < 1 then 1 else CeilDiv(t - k * limit, limit)
    decreases StopBound(fetch, limit) - k
  {
    var o := k * limit;
    assert fetch(limit, o).value.total == t;
    if o + limit < t {
      CallCountFrom(fetch, limit, k + 1, t);
      assert (k + 1) * limit == o + limit;
      DivShift(t - o - 1, limit);
      DivShift(t - o - limit - 1, limit);
    } else {
      DivAtMostOne(t - o + limit - 1, limit);
    }
  }

  /** With a positive page size, a constant total `t` is reached by some call. */
  lemma StableTotalTerminates<T>(fetch: PageFn<T>, limit: int, t: int)
    requires 0 < limit
    requires forall o :: fetch(limit, o).Some? && fetch(limit, o).value.total == t
    ensures Terminates(fetch, limit)
  {
    var k: nat := if t < 0 then 0 else t;
    assert k * limit >= k by {
      MultiplyPositive(k, limit);
    }
    assert fetch(limit, k * limit).value.total == t;
    assert Stops(fetch, limit, k);
  }

  lemma MultiplyPositive(k: nat, limit: int)
    requires limit >= 1
    ensures k * limit >= k
  {
    assert k * limit == k + k * (limit - 1);
  }

  /**
   * When every response reports the same total `t`, a positive admissible page
   * size makes `max(1, ceil(t / limit))` calls.
   */
  lemma StableTotalCallCount<T>(fetch: PageFn<T>, limit: int, t: int)
    requires 0 < limit <= MaxQueryLimit
    requires forall o :: fetch(limit, o).Some? && fetch(limit, o).value.total == t
    ensures Terminates(fetch, limit)
    ensures |Calls(fetch, limit)| == if CeilDiv(t, limit) < 1 then 1 else CeilDiv(t, limit)
  {
    StableTotalTerminates(fetch, limit, t);
    CallCountFrom(fetch, limit, 0, t);
  }
}
