/** The demo home page: a list of items whose `currentBid` the page raises when an item reports
    a bid. */
module Home {

  datatype Item = Item(id: int, title: string, description: string, currentBid: int)

  function Max(a: int, b: int): int {
    if a >= b then a else b
  }

  /** `handleBid(id, amount)`: the functional update passed to `setItems`. Same length and order,
      only `currentBid` of the items with that id can change, and it becomes the larger of the old
      bid and the amount: it moves (to `amount`) exactly when the amount is higher. */
  function ApplyBid(items: seq<Item>, id: int, amount: int): (r: seq<Item>)
    ensures |r| == |items|
    ensures forall i :: 0 <= i < |items| ==>
      r[i].id == items[i].id && r[i].title == items[i].title && r[i].description == items[i].description
    ensures forall i :: 0 <= i < |items| && items[i].id != id ==> r[i] == items[i]
    ensures forall i :: 0 <= i < |items| && items[i].id == id ==>
      r[i].currentBid == Max(items[i].currentBid, amount)
    ensures forall i :: 0 <= i < |items| ==>
      (r[i] != items[i] <==> items[i].id == id && amount > items[i].currentBid)
  {
    seq(|items|, i requires 0 <= i < |items| =>
      if items[i].id == id && amount > items[i].currentBid then items[i].(currentBid := amount)
      else items[i])
  }

  /** Reporting the same bid twice is reporting it once. */
  lemma ApplyBidIdempotent(items: seq<Item>, id: int, amount: int)
    ensures ApplyBid(ApplyBid(items, id, amount), id, amount) == ApplyBid(items, id, amount)
  {
  }

  /** A run of reported bids `(id, amount)`, applied in arrival order. */
  function ApplyBids(items: seq<Item>, bids: seq<(int, int)>): seq<Item> {
    if bids == [] then items
    else
      var last := bids[|bids| - 1];
      ApplyBid(ApplyBids(items, bids[..|bids| - 1]), last.0, last.1)
  }

  /** The highest of `start` and the amounts reported for `id`: a reference definition of what an
      item should show after a run of bids. */
  function HighestFor(id: int, start: int, bids: seq<(int, int)>): (h: int)
    ensures h >= start
    ensures forall k :: 0 <= k < |bids| && bids[k].0 == id ==> bids[k].1 <= h
    ensures h == start || exists k :: 0 <= k < |bids| && bids[k].0 == id && bids[k].1 == h
  {
    if bids == [] then start
    else
      var init := bids[..|bids| - 1];
      var last := bids[|bids| - 1];
      var h := HighestFor(id, start, init);
      assert forall k :: 0 <= k < |init| ==> init[k] == bids[k];
      if last.0 == id then Max(h, last.1) else h
  }

  /** After any run of bids every item shows the highest of its starting bid and the amounts
      reported for it, whatever their arrival order; nothing else about the list changes. */
  lemma {:induction false} ApplyBidsShowsHighest(items: seq<Item>, bids: seq<(int, int)>, i: nat)
    requires i < |items|
    ensures |ApplyBids(items, bids)| == |items|
    ensures ApplyBids(items, bids)[i] ==
      items[i].(currentBid := HighestFor(items[i].id, items[i].currentBid, bids))
  {
    if bids != [] {
      ApplyBidsShowsHighest(items, bids[..|bids| - 1], i);
    }
  }
}
