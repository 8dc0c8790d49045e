/** The auction record the listing, the form and the API helpers pass around. The declared
    interface lists id, title, description, startingPrice, categoryId, categoryName, startTime
    and endTime; the listing also reads `bids` and `images` off the server's records. */
module AuctionTypes {
  import opened Wrappers

  /** Times are epoch milliseconds (what `new Date(...).getTime()` yields); prices are numbers.
      `bids` holds the bid amounts; `imageUrls` the `url` of each image, "" where it is missing. */
  datatype Auction = Auction(
    id: string,
    title: string,
    description: string,
    startingPrice: real,
    categoryId: string,
    categoryName: Option<string>,
    startTime: int,
    endTime: int,
    bids: seq<real>,
    imageUrls: seq<string>)
}
