/** The paged key listing of the registry. */
module KeyListings {
  import opened Prelude
  import opened Hex
  import opened KeyRegistries
  import opened Paging

  /** One request: a slice of the listing, and the links computed from the registry's count. */
  function ListKeys(t: Tree, offset: nat, limit: nat, checked: bool): (seq<KeyInfo>, Option<Links>) {
    (Page(Listing(t), offset, limit), PagingInfo(Some(limit), Some(offset), |t|, checked))
  }

  /** What a client gathers that keeps requesting the `next` page until it no longer moves on or is not answered. */
  function Browse(t: Tree, offset: nat, limit: nat, checked: bool): seq<KeyInfo>
    decreases |t| - offset
  {
    match ListKeys(t, offset, limit, checked)
    case (page, None) => []
    case (page, Some(links)) => if links.next <= offset then page else page + Browse(t, links.next, limit, checked)
  }

  lemma {:induction false} BrowseFollows(t: Tree, offset: nat, limit: nat, checked: bool)
    requires |Listing(t)| == |t|
    ensures Browse(t, offset, limit, checked) == Follow(Listing(t), offset, limit, checked)
    decreases |t| - offset
  {
    var links := PagingInfo(Some(limit), Some(offset), |t|, checked);
    if links.Some? && links.value.next > offset {
      BrowseFollows(t, links.value.next, limit, checked);
    }
  }

  /**
  After any saves, a client browsing with any page size that can be served sees every key once, as last saved, in
  byte order; with any other it misses some.
   */
  lemma BrowsingShowsEveryKeyOnceIff(infos: seq<KeyInfo>, limit: nat, checked: bool)
    requires limit < WORD && (checked || |AddAll([], infos)| < WORD)
    ensures
      var t := AddAll([], infos);
      var seen := Browse(t, 0, limit, checked);
      && (seen == Listing(t) <==> Servable(|t|, limit, checked))
      && (!Servable(|t|, limit, checked) ==> |seen| < |t|)
      && (Servable(|t|, limit, checked) ==>
            && (forall i, j | 0 <= i < j < |seen| :: BytesBefore(seen[i].publicKey, seen[j].publicKey))
            && (forall i | 0 <= i < |seen| :: LastSaved(infos, seen[i].publicKey) == Some(seen[i]))
            && (forall key: Bytes | LastSaved(infos, key).Some? :: LastSaved(infos, key).value in seen))
  {
    var t := AddAll([], infos);
    ListingIsOrdered(infos);
    BrowseFollows(t, 0, limit, checked);
    FollowGathersAllIff(Listing(t), limit, checked);
  }
}
