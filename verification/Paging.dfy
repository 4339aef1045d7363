/**
Paged listings. The links of a page are offsets into the listing; a client that keeps following `next` must see
every item once. It does iff the listing is empty or the limit is neither zero, which is divided by, nor, in a build
that checks for overflow, so large that adding it to the last page's offset overflows the machine word. In a build that
does not check, the sum wraps around, and the client has everything by then.
 */
module Paging {
  import opened Prelude

  const DEFAULT_LIMIT: nat := 100
  const DEFAULT_OFFSET: nat := 0
  const WORD: nat := 0x1_0000_0000_0000_0000

  datatype Links = Links(offset: nat, limit: nat, total: nat, first: nat, prev: nat, next: nat, last: nat)

  /** The offset of the last page: the greatest multiple of the limit below the count. */
  function LastOffset(count: nat, limit: nat): (r: nat)
    requires 0 < count ==> 0 < limit
    ensures 0 < count ==> r < count <= r + limit
  {
    if count == 0 then 0
    else
      var q: nat := (count - 1) / limit;
      assert count - 1 == q * limit + (count - 1) % limit;
      q * limit
  }

  /**
  `None` is a panic: a zero limit over a non-empty listing, or a sum that overflows the machine word where that is
  `checked`; where it is not, the sum wraps around.
   */
  function PagingInfo(limit: Option<nat>, offset: Option<nat>, count: nat, checked: bool): Option<Links> {
    var l := if limit.Some? then limit.value else DEFAULT_LIMIT;
    var o := if offset.Some? then offset.value else DEFAULT_OFFSET;
    if (count > 0 && l == 0) || (checked && o + l >= WORD) then None
    else
      var prev := if o > l then o - l else 0;
      var last := LastOffset(count, l);
      var sum := if o + l < WORD then o + l else o + l - WORD;
      var next := if sum > last then last else sum;
      Some(Links(o, l, count, 0, prev, next, last))
  }

  /**
  The links of every request that is answered: its own offset and limit, or 0 and 100 where they are absent, the total,
  the first page, and the last one, which starts at a multiple of the limit and holds the last item.
   */
  lemma LinksSayWhatWasAsked(limit: Option<nat>, offset: Option<nat>, count: nat, checked: bool)
    requires PagingInfo(limit, offset, count, checked).Some?
    ensures
      var links := PagingInfo(limit, offset, count, checked).value;
      && links.limit == (match limit case Some(l) => l case None => 100)
      && links.offset == (match offset case Some(o) => o case None => 0)
      && links.total == count && links.first == 0
      && links.prev == (if links.offset > links.limit then links.offset - links.limit else 0)
      && (count == 0 ==> links.last == 0)
      && (count > 0 ==> links.last < count <= links.last + links.limit)
      && links.next <= links.last
  {
  }

  /** Without parameters a request is for the first hundred items. */
  lemma DefaultIsTheFirstHundred(count: nat, checked: bool)
    ensures
      var links := PagingInfo(None, None, count, checked);
      && links.Some?
      && links.value.prev == links.value.first == links.value.offset == 0
      && (count <= 100 ==> links.value.next == links.value.last == 0)
      && (count > 100 ==> links.value.next == 100 && links.value.last == (count - 1) / 100 * 100)
  {
  }

  /** Skip, then take. */
  function Page<T>(items: seq<T>, offset: nat, limit: nat): seq<T> {
    var rest := if offset <= |items| then items[offset..] else [];
    if limit <= |rest| then rest[..limit] else rest
  }

  /**
  What a client gathers that starts at `offset` and follows `next` until it no longer moves on; a request whose links
  panic is not answered.
   */
  function Follow<T>(items: seq<T>, offset: nat, limit: nat, checked: bool): seq<T>
    decreases |items| - offset
  {
    var page := Page(items, offset, limit);
    match PagingInfo(Some(limit), Some(offset), |items|, checked)
    case None => []
    case Some(links) => if links.next <= offset then page else page + Follow(items, links.next, limit, checked)
  }

  /** Every page of a listing of this size can be asked for. */
  predicate Servable(count: nat, limit: nat, checked: bool) {
    count == 0 || (0 < limit && (checked ==> LastOffset(count, limit) + limit < WORD))
  }

  /**
  A page is served iff its end does not overflow or that is not checked. Below the last page `next` advances by exactly
  one page and `prev` takes it back; on it, `next` stays, or wraps around to an earlier offset.
   */
  lemma NextAdvancesOnePage(count: nat, page: nat, limit: nat, checked: bool)
    requires 0 < limit < WORD && 0 < count < WORD && page * limit <= LastOffset(count, limit)
    ensures
      var offset, last := page * limit, LastOffset(count, limit);
      var links := PagingInfo(Some(limit), Some(offset), count, checked);
      var after := PagingInfo(Some(limit), Some(offset + limit), count, checked);
      && (links.Some? <==> !checked || offset + limit < WORD)
      && (links.Some? ==> links.value.last == last)
      && (links.Some? && offset < last ==> links.value.next == (page + 1) * limit == offset + limit <= last)
      && (links.Some? && offset == last && offset + limit < WORD ==> links.value.next == offset)
      && (links.Some? && offset == last && offset + limit >= WORD ==>
            links.value.next == offset + limit - WORD < offset)
      && (after.Some? ==> after.value.prev == offset)
  {
    if page * limit < LastOffset(count, limit) {
      PagesAreApart(page, (count - 1) / limit, limit);
    }
  }

  lemma {:induction false} MorePagesAreLonger(p: nat, q: nat, limit: nat)
    requires p <= q
    ensures p * limit <= q * limit
  {
    if p < q {
      MorePagesAreLonger(p, q - 1, limit);
      assert q * limit == (q - 1) * limit + limit;
    }
  }

  lemma PagesAreApart(p: nat, q: nat, limit: nat)
    requires p * limit < q * limit
    ensures (p + 1) * limit == p * limit + limit <= q * limit
  {
    if q <= p {
      MorePagesAreLonger(q, p, limit);
    } else {
      MorePagesAreLonger(p + 1, q, limit);
    }
  }

  lemma PageThenRest<T>(items: seq<T>, offset: nat, limit: nat, whole: seq<T>, more: seq<T>)
    requires offset + limit <= |items| && more == items[offset + limit..] && whole == Page(items, offset, limit) + more
    ensures whole == items[offset..]
  {
  }

  lemma LastPageIsRest<T>(items: seq<T>, offset: nat, limit: nat, whole: seq<T>)
    requires offset <= |items| <= offset + limit && whole == Page(items, offset, limit)
    ensures whole == items[offset..]
  {
  }

  /** Page starts, counted in limits. */
  ghost predicate PageStart(offset: nat, limit: nat)
    requires 0 < limit
  {
    offset == 0 || (offset >= limit && PageStart(offset - limit, limit))
  }

  lemma {:induction false} MultipleIsPageStart(page: nat, limit: nat)
    requires 0 < limit
    ensures PageStart(page * limit, limit)
  {
    if page > 0 {
      MultipleIsPageStart(page - 1, limit);
      assert page * limit == (page - 1) * limit + limit;
    }
  }

  lemma LastIsPageStart(count: nat, limit: nat)
    requires 0 < limit
    ensures PageStart(LastOffset(count, limit), limit)
  {
    if count > 0 {
      MultipleIsPageStart((count - 1) / limit, limit);
    }
  }

  lemma {:induction false} PageStartsAreApart(a: nat, b: nat, limit: nat)
    requires 0 < limit && PageStart(a, limit) && PageStart(b, limit) && a < b
    ensures a + limit <= b
  {
    if a >= limit {
      PageStartsAreApart(a - limit, b - limit, limit);
    }
  }

  /** The last page starts at the only page start that it can. */
  ghost predicate LastPage(last: nat, count: nat, limit: nat)
    requires 0 < limit
  {
    PageStart(last, limit) && last < count <= last + limit
  }

  lemma LastPageIsUnique(last: nat, count: nat, limit: nat)
    requires 0 < limit && LastPage(last, count, limit)
    ensures LastOffset(count, limit) == last
  {
    var other := LastOffset(count, limit);
    LastIsPageStart(count, limit);
    if other < last {
      PageStartsAreApart(other, last, limit);
    } else if last < other {
      PageStartsAreApart(last, other, limit);
    }
  }

  /** The links of a page that starts at `offset`. */
  lemma NextFrom(count: nat, offset: nat, limit: nat, last: nat, checked: bool)
    requires 0 < limit < WORD && PageStart(offset, limit) && LastPage(last, count, limit) && offset <= last
    requires checked || last < WORD
    ensures
      var links := PagingInfo(Some(limit), Some(offset), count, checked);
      && (links.Some? <==> !checked || offset + limit < WORD)
      && (links.Some? && offset < last ==> links.value.next == offset + limit)
      && (links.Some? && offset == last ==>
            links.value.next == if last + limit < WORD then last else last + limit - WORD)
    ensures offset < last ==> PageStart(offset + limit, limit) && offset + limit <= last
  {
    LastPageIsUnique(last, count, limit);
    if offset < last {
      PageStartsAreApart(offset, last, limit);
    }
  }

  /** One page further: the last page ends the listing, any other is followed by the next, if it is served at all. */
  lemma FollowFrom<T>(items: seq<T>, offset: nat, limit: nat, last: nat, checked: bool)
    requires 0 < limit < WORD && PageStart(offset, limit) && LastPage(last, |items|, limit) && offset <= last
    requires checked || last < WORD
    ensures checked && offset + limit >= WORD ==> Follow(items, offset, limit, checked) == []
    ensures !checked || offset + limit < WORD ==>
              Follow(items, offset, limit, checked)
              == if offset == last then Page(items, offset, limit)
                 else Page(items, offset, limit) + Follow(items, offset + limit, limit, checked)
    ensures offset < last ==> PageStart(offset + limit, limit) && offset + limit <= last
  {
    NextFrom(|items|, offset, limit, last, checked);
  }

  /** A client that starts at `offset` gathers everything from there on, in order and without overlap. */
  ghost predicate Gathers<T>(items: seq<T>, offset: nat, limit: nat, checked: bool) {
    offset <= |items| && Follow(items, offset, limit, checked) == items[offset..]
  }

  /** If the rest is gathered from the next page on, it is gathered from this one on. */
  lemma OnePageMore<T>(items: seq<T>, offset: nat, limit: nat, last: nat, checked: bool)
    requires 0 < limit < WORD && PageStart(offset, limit) && LastPage(last, |items|, limit)
    requires offset < last < WORD && offset + limit <= last
    requires Gathers(items, offset + limit, limit, checked)
    ensures Gathers(items, offset, limit, checked)
  {
    FollowFrom(items, offset, limit, last, checked);
    PageThenRest(items, offset, limit, Page(items, offset, limit) + items[offset + limit..], items[offset + limit..]);
  }

  lemma OnlyTheLastPage<T>(items: seq<T>, limit: nat, last: nat, checked: bool)
    requires 0 < limit < WORD && LastPage(last, |items|, limit)
    requires if checked then last + limit < WORD else last < WORD
    ensures Gathers(items, last, limit, checked)
  {
    FollowFrom(items, last, limit, last, checked);
    LastPageIsRest(items, last, limit, Page(items, last, limit));
  }

  lemma {:induction false} FollowGathersTheRest<T>(items: seq<T>, offset: nat, limit: nat, last: nat, checked: bool)
    requires 0 < limit < WORD && PageStart(offset, limit) && LastPage(last, |items|, limit) && offset <= last
    requires if checked then last + limit < WORD else last < WORD
    ensures Gathers(items, offset, limit, checked)
    decreases last - offset
  {
    if offset == last {
      OnlyTheLastPage(items, limit, last, checked);
    } else {
      PageStartsAreApart(offset, last, limit);
      FollowGathersTheRest(items, offset + limit, limit, last, checked);
      OnePageMore(items, offset, limit, last, checked);
    }
  }

  /** If the last page cannot be served, what comes before it is all a client can get. */
  lemma {:induction false} FollowFallsShort<T>(items: seq<T>, offset: nat, limit: nat, last: nat)
    requires 0 < limit < WORD && PageStart(offset, limit) && LastPage(last, |items|, limit) && offset <= last
    requires last + limit >= WORD
    ensures |Follow(items, offset, limit, true)| < |items| - offset
    decreases last - offset
  {
    FollowFrom(items, offset, limit, last, true);
    if offset + limit < WORD {
      FollowFallsShort(items, offset + limit, limit, last);
    }
  }

  /**
  Exactly when a client that starts at the beginning sees the whole listing; otherwise it sees less. The size of a
  listing is a machine word.
   */
  lemma FollowGathersAllIff<T>(items: seq<T>, limit: nat, checked: bool)
    requires limit < WORD && (checked || |items| < WORD)
    ensures Follow(items, 0, limit, checked) == items <==> Servable(|items|, limit, checked)
    ensures !Servable(|items|, limit, checked) ==> |Follow(items, 0, limit, checked)| < |items|
  {
    if items != [] && 0 < limit {
      var last := LastOffset(|items|, limit);
      LastIsPageStart(|items|, limit);
      if !checked || last + limit < WORD {
        FollowGathersTheRest(items, 0, limit, last, checked);
        assert items[0..] == items;
      } else {
        FollowFallsShort(items, 0, limit, last);
      }
    }
  }

  /** Only a limit of zero can be met in practice: the sum overflows for no listing of up to 2^63 items. */
  lemma OverflowNeedsAHugeListing(count: nat, limit: nat, checked: bool)
    requires limit < WORD && count <= WORD / 2
    ensures Servable(count, limit, checked) <==> count == 0 || 0 < limit
  {
    if 0 < count && 0 < limit {
      LastIsPageStart(count, limit);
    }
  }

  /** Where a client is after following `next` from the start `k` times. */
  function OffsetAfter(count: nat, limit: nat, k: nat, checked: bool): Option<nat> {
    if k == 0 then Some(0)
    else
      match OffsetAfter(count, limit, k - 1, checked)
      case None => None
      case Some(o) =>
        match PagingInfo(Some(limit), Some(o), count, checked)
        case None => None
        case Some(links) => Some(links.next)
  }

  /**
  It visits 0, L, 2L and so on up to the last page. It stays there if the sum does not overflow; if it does, the page
  is not served, or the walk wraps around once it is past it.
   */
  lemma {:induction false} WalkVisitsEveryPage(count: nat, limit: nat, k: nat, checked: bool)
    requires 0 < limit < WORD && 0 < count < WORD
    ensures
      var last, r := LastOffset(count, limit), OffsetAfter(count, limit, k, checked);
      && (k * limit <= last ==> r == Some(k * limit))
      && (k * limit > last && last + limit < WORD ==> r == Some(last))
      && (k * limit > last && last + limit >= WORD && checked ==> r == None)
      && (k * limit == last + limit >= WORD && !checked ==> r == Some(last + limit - WORD))
  {
    if k > 0 {
      var last := LastOffset(count, limit);
      WalkVisitsEveryPage(count, limit, k - 1, checked);
      LastIsPageStart(count, limit);
      MultipleIsPageStart(k - 1, limit);
      assert k * limit == (k - 1) * limit + limit;
      NextFrom(count, if (k - 1) * limit <= last then (k - 1) * limit else last, limit, last, checked);
    }
  }

  /** With nothing to list it stays at the start; with a limit of zero and something to list it never gets an answer. */
  lemma {:induction false} WalkWithoutPages(count: nat, limit: nat, k: nat, checked: bool)
    requires limit < WORD && (count == 0 || limit == 0)
    ensures OffsetAfter(count, limit, k, checked) == if k == 0 || count == 0 then Some(0) else None
  {
    if k > 0 {
      WalkWithoutPages(count, limit, k - 1, checked);
    }
  }
}
