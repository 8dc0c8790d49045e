/** One item of the demo home page: a bid field initialised above the current bid and a button
    that reports the bid to the page only when it beats the current bid. */
module AuctionItem {
  import opened Wrappers
  import Home

  /** `handleBid`: the call `onBid(id, bid)` the button makes, if any. */
  function OnBidCall(id: int, currentBid: int, bid: int): (call: Option<(int, int)>)
    ensures call.Some? <==> bid > currentBid
    ensures call.Some? ==> call.value == (id, bid)
  {
    if bid > currentBid then Some((id, bid)) else None
  }

  /** The component: the `id` and `currentBid` props and the `bid` state cell. */
  class AuctionItemView {
    const id: int
    var currentBid: int
    var bid: int

    /** First render: `useState(currentBid + 1)`. */
    constructor (item: Home.Item)
      ensures id == item.id && currentBid == item.currentBid && bid == item.currentBid + 1
    {
      id := item.id;
      currentBid := item.currentBid;
      bid := item.currentBid + 1;
    }

    /** The number field's `onChange`. */
    method Edit(value: int)
      modifies this`bid
      ensures bid == value
    {
      bid := value;
    }

    /** A re-render with new props: `useState` keeps its cell, so `bid` is not re-initialised. */
    method Rerender(item: Home.Item)
      requires item.id == id
      modifies this`currentBid
      ensures currentBid == item.currentBid
    {
      currentBid := item.currentBid;
    }

    /** The button: `onBid` is called with the item's own id and the `bid` value, and only with
        an amount above `currentBid`. */
    method HandleBid() returns (call: Option<(int, int)>)
      ensures call == OnBidCall(id, currentBid, bid)
      ensures call.Some? ==> call.value.0 == id && call.value.1 == bid > currentBid
    {
      call := None;
      if bid > currentBid {
        call := Some((id, bid));
      }
    }
  }

  /** An unedited click reports `currentBid + 1`. */
  lemma UneditedClickFires(id: int, currentBid: int)
    ensures OnBidCall(id, currentBid, currentBid + 1) == Some((id, currentBid + 1))
  {
  }

  /** Together with the page: a bid the button lets through raises that item to exactly the bid
      and lowers no price; the unedited field then equals the new price, so a second click is a
      no-op. */
  lemma GuardedBidRaisesPrice(items: seq<Home.Item>, k: nat, bid: int)
    requires k < |items|
    ensures var call := OnBidCall(items[k].id, items[k].currentBid, bid);
      call.Some? ==>
        var after := Home.ApplyBid(items, call.value.0, call.value.1);
        && after[k].currentBid == bid > items[k].currentBid
        && (forall j :: 0 <= j < |items| ==> after[j].currentBid >= items[j].currentBid)
        && OnBidCall(items[k].id, after[k].currentBid, bid) == None
  {
  }
}
