/**
  The incremental reveal that both lists of `app/sjh/page.tsx` use: a list shows
  its first `visible` entries, and whenever the sentinel below them scrolls into
  view while entries are still hidden, `visible` grows by one page, capped at
  the list's length.
 */
module IncrementalReveal {

  /** `Math.min(visible + page, total)`, the setter's update. */
  function Grow(visible: nat, total: nat, page: nat): (r: nat)
    ensures r <= total && r <= visible + page
    ensures r == total || r == visible + page
  {
    if visible + page < total then visible + page else total
  }

  /** The observer callback: grow only while `visible < total`; otherwise nothing changes. */
  function OnSentinel(visible: nat, total: nat, page: nat): (r: nat)
    ensures visible < total ==> r <= total
    ensures visible < total && page > 0 ==> visible < r
    ensures visible >= total ==> r == visible
    ensures visible <= r
  {
    if visible < total then Grow(visible, total, page) else visible
  }

  /** `visible` after the sentinel has been seen `k` times with the list unchanged. */
  function AfterReveals(visible: nat, total: nat, page: nat, k: nat): nat
    decreases k
  {
    if k == 0 then visible else AfterReveals(OnSentinel(visible, total, page), total, page, k - 1)
  }

  /** Once the count has reached the list's length, further sentinel events change nothing. */
  lemma {:induction false} RevealsStayAtEnd(visible: nat, total: nat, page: nat, k: nat)
    requires visible >= total
    ensures AfterReveals(visible, total, page, k) == visible
    decreases k
  {
    if k > 0 {
      RevealsStayAtEnd(visible, total, page, k - 1);
    }
  }

  /**
    Enough sentinel events reveal the whole list and never more than it:
    after `k` events with `visible + k * page >= total` the count is exactly
    `max(visible, total)`.
   */
  lemma {:induction false} RevealsReachEnd(visible: nat, total: nat, page: nat, k: nat)
    requires page > 0 && visible + k * page >= total
    ensures AfterReveals(visible, total, page, k) == if visible < total then total else visible
    decreases k
  {
    if visible >= total {
      RevealsStayAtEnd(visible, total, page, k);
    } else {
      assert k > 0;
      var v := OnSentinel(visible, total, page);
      if v == total {
        RevealsStayAtEnd(v, total, page, k - 1);
      } else {
        assert v == visible + page;
        assert v + (k - 1) * page == visible + k * page;
        RevealsReachEnd(v, total, page, k - 1);
      }
    }
  }

  /** A count that starts within the list stays within it, however many events come. */
  lemma {:induction false} RevealsStayWithin(visible: nat, total: nat, page: nat, k: nat)
    requires visible <= total
    ensures visible <= AfterReveals(visible, total, page, k) <= total
    decreases k
  {
    if k > 0 {
      RevealsStayWithin(OnSentinel(visible, total, page), total, page, k - 1);
    }
  }
}
