/** The records of the inventory: clients and the stock items they own. */
module Types {
  import opened Wrappers
  import Seqs

  /** The condition of a stock item: `'boa'` (good) or `'avariada'` (damaged). */
  datatype Quality = Good | Damaged

  /** A client. `totalSKUs` is a counter kept next to the stock items, meant
      to equal the number of items whose `clientId` is this client's `id`. */
  datatype Client = Client(
    id: int,
    name: string,
    email: Option<string>,
    phone: Option<string>,
    totalSKUs: int)

  /** A stock item. `clientName` is a copy of the owner's name taken when
      the item was created. */
  datatype StockItem = StockItem(
    id: int,
    clientId: int,
    clientName: string,
    sku: string,
    itemName: string,
    quantity: int,
    quality: Quality)

  /** The whole store: the client list and the stock-item list, both in
      insertion order. */
  datatype State = State(clients: seq<Client>, items: seq<StockItem>)

  /** The record keys, as functions to hand to generic sequence lemmas. */
  function ClientId(c: Client): int { c.id }

  function ItemId(item: StockItem): int { item.id }

  function Sku(item: StockItem): string { item.sku }

  /** `item => item.clientId === id`. */
  function OwnerIs(id: int): StockItem -> bool {
    (item: StockItem) => item.clientId == id
  }

  /** The stock items of the client with the given id, in list order. */
  function OwnedBy(items: seq<StockItem>, id: int): (r: seq<StockItem>)
    ensures forall k | 0 <= k < |r| :: r[k].clientId == id && r[k] in items
    ensures forall item | item in items && item.clientId == id :: item in r
  {
    Seqs.Filter(OwnerIs(id), items)
  }
}
