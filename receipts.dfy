/** The receipt record as the service receives and stores it: every field is text. */
module Receipts {

  /** One purchased line (`receipt_items`). */
  datatype Item = Item(shortDescription: string, price: string)

  /**
   * A receipt (`receipt`). `points` is the score the service renders as
   * decimal text when it stores an accepted receipt; it is not read from
   * the request, so a receipt arrives with it empty.
   */
  datatype Receipt = Receipt(
    retailer: string,
    purchaseDate: string,
    purchaseTime: string,
    items: seq<Item>,
    total: string,
    points: string)
}
