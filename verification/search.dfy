/**
  Free-text search over stock items and the client name/email filter.
*/
module Search {
  import opened Wrappers
  import opened Text
  import opened Types
  import Seqs

  /** `query.toLowerCase().trim()`. */
  function SearchTerm(query: string): string {
    Trim(ToLower(query))
  }

  /** The item's lower-cased SKU, item name or client name contains `term`. */
  predicate ItemMatches(item: StockItem, term: string) {
    || Contains(ToLower(item.sku), term)
    || Contains(ToLower(item.itemName), term)
    || Contains(ToLower(item.clientName), term)
  }

  function ItemHit(term: string): StockItem -> bool {
    (item: StockItem) => ItemMatches(item, term)
  }

  /** `searchStockItems`: nothing for a blank query, otherwise the matching
      items in list order. */
  function SearchStockItems(items: seq<StockItem>, query: string): (r: seq<StockItem>)
    ensures IsBlank(query) ==> r == []
    ensures !IsBlank(query) ==> Seqs.IsSelection(r, items, ItemHit(SearchTerm(query)))
  {
    TrimBlank(query);
    if Trim(query) == "" then []
    else
      Seqs.FilterIsSelection(ItemHit(SearchTerm(query)), items);
      Seqs.Filter(ItemHit(SearchTerm(query)), items)
  }

  /** `handleSearchChange`: the results shown for the text typed so far. Its
      own blank check repeats the one inside the search. */
  function HandleSearchChange(items: seq<StockItem>, value: string): (results: seq<StockItem>)
    ensures results == SearchStockItems(items, value)
  {
    if Trim(value) != "" then SearchStockItems(items, value) else []
  }

  /** Lower-casing keeps whitespace as whitespace and everything else as
      non-whitespace. */
  lemma BlankIffLowerBlank(s: string)
    ensures IsBlank(s) <==> IsBlank(ToLower(s))
  {
    if !IsBlank(s) {
      var k :| 0 <= k < |s| && !IsSpace(s[k]);
      assert !IsSpace(ToLower(s)[k]);
    }
  }

  /** The search ignores case: queries that lower-case alike find the same
      items. */
  lemma SearchCaseInsensitive(items: seq<StockItem>, q1: string, q2: string)
    requires ToLower(q1) == ToLower(q2)
    ensures SearchStockItems(items, q1) == SearchStockItems(items, q2)
  {
    BlankIffLowerBlank(q1);
    BlankIffLowerBlank(q2);
    TrimBlank(q1);
    TrimBlank(q2);
  }

  /** Searching a concatenation concatenates the results: the search never
      reorders. */
  lemma SearchConcat(a: seq<StockItem>, b: seq<StockItem>, query: string)
    ensures SearchStockItems(a + b, query) == SearchStockItems(a, query) + SearchStockItems(b, query)
  {
    TrimBlank(query);
    if Trim(query) != "" {
      Seqs.FilterConcat(ItemHit(SearchTerm(query)), a, b);
    }
  }

  /** Typing an item's SKU, in any case and with surrounding spaces, finds
      that item. */
  lemma SearchFindsSku(items: seq<StockItem>, item: StockItem, query: string)
    requires item in items
    requires !IsBlank(query) && ToLower(item.sku) == SearchTerm(query)
    ensures item in SearchStockItems(items, query)
  {
    TrimBlank(query);
    ContainsSelf(ToLower(item.sku));
  }

  /** What `filterClientsByName` reports instead of a list: it reads
      `client.email.toLowerCase()`, which throws a TypeError for a client
      whose name does not match and who has no email. */
  datatype FilterError = MissingEmail

  /** The client's lower-cased name contains `term`. */
  predicate NameMatches(client: Client, term: string) {
    Contains(ToLower(client.name), term)
  }

  /** The client's name or email matches; the email is read only when the
      name does not match. */
  predicate ClientMatches(client: Client, term: string) {
    NameMatches(client, term) || (client.email.Some? && Contains(ToLower(client.email.value), term))
  }

  function ClientHit(term: string): Client -> bool {
    (client: Client) => ClientMatches(client, term)
  }

  /** The client makes the filter callback throw. */
  predicate Throws(client: Client, term: string) {
    !NameMatches(client, term) && client.email.None?
  }

  /** The `filter` over the client list: the callback runs on each client
      in order, and the first throw aborts the whole filter. */
  function ScanClients(clients: seq<Client>, term: string): (r: Result<seq<Client>, FilterError>)
    ensures r.Failure? <==> exists k | 0 <= k < |clients| :: Throws(clients[k], term)
    ensures r.Success? ==> r.value == Seqs.Filter(ClientHit(term), clients)
  {
    if clients == [] then Success([])
    else if Throws(clients[0], term) then Failure(MissingEmail)
    else
      var rest := ScanClients(clients[1..], term);
      if rest.Failure? then
        assert Throws(clients[1..][0], term) || exists k | 1 <= k < |clients| :: Throws(clients[k], term);
        rest
      else if ClientMatches(clients[0], term) then Success([clients[0]] + rest.value)
      else Success(rest.value)
  }

  /** `filterClientsByName`: every client for a blank query; otherwise the
      clients whose name or email contains the term, in list order, unless a
      client whose name does not match has no email. */
  function FilterClientsByName(clients: seq<Client>, query: string): (r: Result<seq<Client>, FilterError>)
    ensures IsBlank(query) ==> r == Success(clients)
    ensures !IsBlank(query) ==>
      (r.Failure? <==> exists k | 0 <= k < |clients| :: Throws(clients[k], SearchTerm(query)))
    ensures !IsBlank(query) && r.Success? ==>
      Seqs.IsSelection(r.value, clients, ClientHit(SearchTerm(query)))
  {
    TrimBlank(query);
    if Trim(query) == "" then Success(clients)
    else
      Seqs.FilterIsSelection(ClientHit(SearchTerm(query)), clients);
      ScanClients(clients, SearchTerm(query))
  }

  /** When every client has an email the filter never throws. */
  lemma FilterWithEmailsSucceeds(clients: seq<Client>, query: string)
    requires forall k | 0 <= k < |clients| :: clients[k].email.Some?
    ensures FilterClientsByName(clients, query).Success?
  {
  }
}
