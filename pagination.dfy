/** Offset pagination shared by the list endpoints: `skip = (page - 1) * limit`
    and `totalPages = Math.ceil(total / limit)`. */
module Pagination {
  import opened Wrappers

  /** Rows skipped before page `page` (pages are numbered from 1). */
  function Skip(page: int, limit: int): (r: int) {
    (page - 1) * limit
  }

  /** `Math.ceil(total / limit)`. With limit 0 the division is not finite
      (Infinity or NaN), which is None here. */
  function TotalPages(total: nat, limit: int): (r: Option<int>)
    ensures r.None? <==> limit == 0
    ensures r.Some? ==> (r.value - 1) as real < total as real / limit as real <= r.value as real
  {
    if limit == 0 then None
    else if limit > 0 then
      var q := (total + limit - 1) / limit;
      CeilPositive(total, limit);
      Some(q)
    else
      var q := -(total / -limit);
      CeilNegative(total, limit);
      Some(q)
  }

  lemma CeilPositive(total: nat, limit: int)
    requires limit > 0
    ensures var q := (total + limit - 1) / limit;
      (q - 1) as real < total as real / limit as real <= q as real
  {
    var q := (total + limit - 1) / limit;
    var rem := (total + limit - 1) % limit;
    assert q * limit + rem == total + limit - 1;
    assert (q - 1) * limit < total <= q * limit;
    RealDivBounds(total, limit, q);
  }

  lemma RealDivBounds(total: nat, limit: int, q: int)
    requires limit > 0
    requires (q - 1) * limit < total <= q * limit
    ensures (q - 1) as real < total as real / limit as real <= q as real
  {
    var x := total as real / limit as real;
    assert x * limit as real == total as real;
    assert ((q - 1) * limit) as real == (q - 1) as real * limit as real;
    assert (q * limit) as real == q as real * limit as real;
  }

  lemma CeilNegative(total: nat, limit: int)
    requires limit < 0
    ensures var q := -(total / -limit);
      (q - 1) as real < total as real / limit as real <= q as real
  {
    var n := -limit;
    var f, r := total / n, total % n;
    assert total == f * n + r;
    var frac := FractionPart(f, r, n);
    NegateDivisor(total, limit);
  }

  /** (f * n + r) / n == f + r / n, with 0 <= r / n < 1. */
  lemma FractionPart(f: int, r: int, n: int) returns (frac: real)
    requires n > 0 && 0 <= r < n
    ensures frac == r as real / n as real && 0.0 <= frac < 1.0
    ensures (f * n + r) as real / n as real == f as real + frac
  {
    frac := r as real / n as real;
    assert frac * n as real == r as real;
    assert (f * n + r) as real == f as real * n as real + r as real;
  }

  lemma NegateDivisor(total: nat, limit: int)
    requires limit < 0
    ensures total as real / limit as real == -(total as real / (-limit) as real)
  {
  }

  /** With a positive limit, pages 1..totalPages cover rows 0..total-1
      exactly once each: row `k` is on page `k / limit + 1`, that page lies in
      range, and consecutive pages start `limit` rows apart. */
  lemma {:induction false} PagesCoverRows(total: nat, limit: int, k: nat)
    requires limit > 0 && k < total
    ensures var p := k / limit + 1;
      && 1 <= p <= TotalPages(total, limit).value
      && Skip(p, limit) <= k < Skip(p, limit) + limit
      && Skip(p + 1, limit) == Skip(p, limit) + limit
  {
    var p := k / limit + 1;
    var q := TotalPages(total, limit).value;
    assert (p - 1) * limit <= k < p * limit;
    assert q == (total + limit - 1) / limit;
    assert (q - 1) * limit < total <= q * limit by {
      var rem := (total + limit - 1) % limit;
      assert q * limit + rem == total + limit - 1;
    }
  }

  /** The `meta` object a list endpoint returns. */
  datatype Meta = Meta(page: int, limit: int, total: nat, totalPages: Option<int>)

  /** `{ page, limit, total, totalPages: Math.ceil(total / limit) }`: with a
      positive limit, totalPages is the least page count whose pages hold
      every row. */
  function PageMeta(page: int, limit: int, total: nat): (m: Meta)
    ensures m.page == page && m.limit == limit && m.total == total
    ensures m.totalPages.None? <==> limit == 0
    ensures limit > 0 ==> (m.totalPages.value - 1) * limit < total <= m.totalPages.value * limit
  {
    var tp := TotalPages(total, limit);
    if limit > 0 then
      CeilBounds(total, limit);
      Meta(page, limit, total, tp)
    else
      Meta(page, limit, total, tp)
  }

  lemma CeilBounds(total: nat, limit: int)
    requires limit > 0
    ensures var p := TotalPages(total, limit).value;
      (p - 1) * limit < total <= p * limit
  {
    var p := TotalPages(total, limit).value;
    var x := total as real / limit as real;
    assert (p - 1) as real < x <= p as real;
    assert x * limit as real == total as real;
    assert ((p - 1) * limit) as real == (p - 1) as real * limit as real;
    assert (p * limit) as real == p as real * limit as real;
  }
}
