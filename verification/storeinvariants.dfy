/**
  The consistency of the store and what each handler does to it. The store
  is consistent when client ids and item ids are unique, every item's
  `clientId` names a client, and every client's `totalSKUs` counter equals
  the number of items it owns. Every handler keeps that consistency; the
  per-client SKU uniqueness is kept by creates but not by edits.
*/
module StoreInvariants {
  import opened Wrappers
  import opened Text
  import opened Types
  import opened Store
  import Seqs
  import Phone
  import Validation
  import Stats

  predicate UniqueClientIds(s: State) {
    Seqs.Injective(ClientId, s.clients)
  }

  predicate UniqueItemIds(s: State) {
    Seqs.Injective(ItemId, s.items)
  }

  /** Every item belongs to a listed client. */
  predicate NoDangling(s: State) {
    forall item | item in s.items :: exists c | c in s.clients :: c.id == item.clientId
  }

  /** Every client's counter equals the number of its items. */
  predicate CountersMatch(s: State) {
    forall c | c in s.clients :: c.totalSKUs == |OwnedBy(s.items, c.id)|
  }

  predicate Valid(s: State) {
    UniqueClientIds(s) && UniqueItemIds(s) && NoDangling(s) && CountersMatch(s)
  }

  /** The key the duplicate-SKU rule compares: owner and lower-cased SKU. */
  function SkuKey(item: StockItem): (int, string) {
    (item.clientId, ToLower(item.sku))
  }

  /** No client owns two items whose SKUs differ only in case. */
  predicate DistinctSkusPerClient(s: State) {
    Seqs.Injective(SkuKey, s.items)
  }

  // ---------------------------------------------------------------------
  // Deletes.

  lemma DeleteClientKeepsValid(s: State, id: int)
    requires Valid(s)
    ensures Valid(DeleteClient(s, id))
    ensures DistinctSkusPerClient(s) ==> DistinctSkusPerClient(DeleteClient(s, id))
  {
    var s' := DeleteClient(s, id);
    Seqs.FilterInjective(ClientIdIsNot(id), ClientId, s.clients);
    Seqs.FilterInjective(OwnerIsNot(id), ItemId, s.items);
    if DistinctSkusPerClient(s) {
      Seqs.FilterInjective(OwnerIsNot(id), SkuKey, s.items);
    }
    DeleteClientKeepsOwners(s, id);
    DeleteClientKeepsCounters(s, id);
  }

  lemma DeleteClientKeepsOwners(s: State, id: int)
    requires NoDangling(s)
    ensures NoDangling(DeleteClient(s, id))
  {
    var s' := DeleteClient(s, id);
    forall item | item in s'.items
      ensures exists c | c in s'.clients :: c.id == item.clientId
    {
      var c :| c in s.clients && c.id == item.clientId;
      assert c in s'.clients;
    }
  }

  lemma DeleteClientKeepsCounters(s: State, id: int)
    requires CountersMatch(s)
    ensures CountersMatch(DeleteClient(s, id))
  {
    var s' := DeleteClient(s, id);
    forall c | c in s'.clients
      ensures c.totalSKUs == |OwnedBy(s'.items, c.id)|
    {
      Seqs.FilterFilter(OwnerIsNot(id), OwnerIs(c.id), s.items);
    }
  }

  /** The cascade removes as many items as the deleted client's counter
      says it had. */
  lemma CascadeMatchesCounter(s: State, c: Client)
    requires CountersMatch(s) && c in s.clients
    ensures |s.items| - |DeleteClient(s, c.id).items| == c.totalSKUs
  {
  }

  /** The page lowers the owner's counter whatever the item list holds.
      Deleting an item that is not listed therefore keeps every item but
      still takes one off a positive counter, and a consistent store stops
      being consistent. */
  lemma UnlistedItemDeleteBreaksCounters(s: State, item: StockItem)
    requires CountersMatch(s)
    requires forall it | it in s.items :: it.id != item.id
    requires exists c | c in s.clients :: c.id == item.clientId && c.totalSKUs >= 1
    ensures DeleteStockItem(s, item).items == s.items
    ensures !CountersMatch(DeleteStockItem(s, item))
  {
    var s' := DeleteStockItem(s, item);
    UnlistedItemDeleteKeepsItems(s, item);
    var c :| c in s.clients && c.id == item.clientId && c.totalSKUs >= 1;
    var k :| 0 <= k < |s.clients| && s.clients[k] == c;
    CounterOffByOne(s', k, |OwnedBy(s.items, c.id)|);
  }

  /** Filtering out an id that no item carries keeps every item. */
  lemma UnlistedItemDeleteKeepsItems(s: State, item: StockItem)
    requires forall it | it in s.items :: it.id != item.id
    ensures DeleteStockItem(s, item).items == s.items
  {
    forall k | 0 <= k < |s.items| ensures ItemIdIsNot(item.id)(s.items[k]) {
      assert s.items[k] in s.items;
    }
    Seqs.FilterAll(ItemIdIsNot(item.id), s.items);
  }

  /** A client whose counter misses its item count breaks the counters. */
  lemma CounterOffByOne(s: State, k: int, owned: int)
    requires 0 <= k < |s.clients|
    requires owned == |OwnedBy(s.items, s.clients[k].id)|
    requires s.clients[k].totalSKUs == owned - 1
    ensures !CountersMatch(s)
  {
    assert s.clients[k] in s.clients;
  }

  lemma DeleteStockItemKeepsValid(s: State, item: StockItem)
    requires Valid(s) && item in s.items
    ensures Valid(DeleteStockItem(s, item))
    ensures DistinctSkusPerClient(s) ==> DistinctSkusPerClient(DeleteStockItem(s, item))
  {
    var s' := DeleteStockItem(s, item);
    var keep := ItemIdIsNot(item.id);
    Seqs.FilterInjective(keep, ItemId, s.items);
    if DistinctSkusPerClient(s) {
      Seqs.FilterInjective(keep, SkuKey, s.items);
    }
    DeleteStockItemKeepsClients(s, item);
    DeleteStockItemKeepsCounters(s, item);
  }

  lemma DeleteStockItemKeepsClients(s: State, item: StockItem)
    requires UniqueClientIds(s) && NoDangling(s)
    ensures UniqueClientIds(DeleteStockItem(s, item)) && NoDangling(DeleteStockItem(s, item))
  {
    var s' := DeleteStockItem(s, item);
    assert forall k | 0 <= k < |s.clients| :: ClientId(s'.clients[k]) == ClientId(s.clients[k]);
    forall it | it in s'.items
      ensures exists c | c in s'.clients :: c.id == it.clientId
    {
      var c :| c in s.clients && c.id == it.clientId;
      var k :| 0 <= k < |s.clients| && s.clients[k] == c;
      assert s'.clients[k] in s'.clients;
    }
  }

  lemma DeleteStockItemKeepsCounters(s: State, item: StockItem)
    requires UniqueItemIds(s) && CountersMatch(s) && item in s.items
    ensures CountersMatch(DeleteStockItem(s, item))
  {
    var s' := DeleteStockItem(s, item);
    forall c' | c' in s'.clients
      ensures c'.totalSKUs == |OwnedBy(s'.items, c'.id)|
    {
      var k :| 0 <= k < |s'.clients| && s'.clients[k] == c';
      var c := s.clients[k];
      assert c in s.clients;
      OwnedAfterItemDelete(s.items, item, c.id);
    }
  }

  /** Deleting an item (by id, from a list with unique ids) takes one item
      off its owner's list and none off anyone else's. */
  lemma OwnedAfterItemDelete(items: seq<StockItem>, item: StockItem, id: int)
    requires Seqs.Injective(ItemId, items) && item in items
    ensures var after := Seqs.Filter(ItemIdIsNot(item.id), items);
      |OwnedBy(after, id)| == |OwnedBy(items, id)| - (if id == item.clientId then 1 else 0)
  {
    Seqs.FilterCommute(OwnerIs(id), ItemIdIsNot(item.id), items);
    Seqs.FilterInjective(OwnerIs(id), ItemId, items);
    if id == item.clientId {
      OwnerLosesOne(items, item);
    } else {
      NoneWithId(items, item, OwnedBy(items, id));
      Seqs.FilterAll(ItemIdIsNot(item.id), OwnedBy(items, id));
    }
  }

  lemma OwnerLosesOne(items: seq<StockItem>, item: StockItem)
    requires item in items
    requires Seqs.Injective(ItemId, OwnedBy(items, item.clientId))
    ensures |Seqs.Filter(ItemIdIsNot(item.id), OwnedBy(items, item.clientId))|
         == |OwnedBy(items, item.clientId)| - 1
  {
    var mine := OwnedBy(items, item.clientId);
    var j :| 0 <= j < |mine| && mine[j] == item;
    OnlyOneWithId(mine, j);
    Seqs.FilterDropsOne(ItemIdIsNot(item.id), mine, j);
  }

  /** In a list with unique ids, only position `j` has the id of `s[j]`. */
  lemma OnlyOneWithId(s: seq<StockItem>, j: int)
    requires Seqs.Injective(ItemId, s) && 0 <= j < |s|
    ensures forall i | 0 <= i < |s| && i != j :: ItemIdIsNot(s[j].id)(s[i])
  {
    forall i | 0 <= i < |s| && i != j
      ensures s[i].id != s[j].id
    {
      if i < j {
        assert ItemId(s[i]) != ItemId(s[j]);
      } else {
        assert ItemId(s[j]) != ItemId(s[i]);
      }
    }
  }

  /** Items of another owner never share the id of `item`. */
  lemma NoneWithId(items: seq<StockItem>, item: StockItem, mine: seq<StockItem>)
    requires Seqs.Injective(ItemId, items) && item in items
    requires forall k | 0 <= k < |mine| :: mine[k] in items && mine[k].clientId != item.clientId
    ensures forall k | 0 <= k < |mine| :: ItemIdIsNot(item.id)(mine[k])
  {
    var b :| 0 <= b < |items| && items[b] == item;
    OnlyOneWithId(items, b);
  }

  // ---------------------------------------------------------------------
  // Client form.

  /** A stored email or phone is a valid one: the email as typed, the
      phone in its mask. */
  lemma StoredContactsValid(f: ClientForm)
    requires ClientFormErrors(f) == {}
    ensures StoredEmail(f.email).None? <==> IsBlank(f.email)
    ensures StoredEmail(f.email).Some? ==>
      StoredEmail(f.email).value == f.email && Validation.ValidateEmail(f.email)
    ensures StoredPhone(f.phone).None? <==> IsBlank(f.phone)
    ensures StoredPhone(f.phone).Some? ==> Phone.IsMaskedPhone(StoredPhone(f.phone).value)
  {
    StoredEmailValid(f.email);
    StoredPhoneValid(f.phone);
  }

  lemma StoredEmailValid(email: string)
    requires Trim(email) != "" ==> Validation.ValidateEmail(email)
    ensures StoredEmail(email).None? <==> IsBlank(email)
    ensures StoredEmail(email).Some? ==> StoredEmail(email).value == email && Validation.ValidateEmail(email)
  {
    TrimBlank(email);
    if Trim(email) != "" {
      Validation.AcceptedEmailNoSpace(email);
      TrimNoSpace(email);
    }
  }

  lemma StoredPhoneValid(phone: string)
    requires Trim(phone) != "" ==> Phone.ValidatePhone(phone)
    ensures StoredPhone(phone).None? <==> IsBlank(phone)
    ensures StoredPhone(phone).Some? ==> Phone.IsMaskedPhone(StoredPhone(phone).value)
  {
    TrimBlank(phone);
  }

  lemma SubmitClientFormKeepsValid(s: State, f: ClientForm, editing: Option<int>)
    requires Valid(s)
    requires editing.Some? || |s.clients| > 0 || ClientFormErrors(f) != {}
    ensures var r := SubmitClientForm(s, f, editing);
      r.Success? ==> Valid(r.value) && r.value.items == s.items
  {
    if editing.Some? {
      EditClientKeepsValid(s, editing.value, f);
    } else if ClientFormErrors(f) == {} {
      CreateClientKeepsIds(s, f);
      CreateClientKeepsCounters(s, f);
    }
  }

  lemma EditClientKeepsValid(s: State, id: int, f: ClientForm)
    requires Valid(s)
    ensures Valid(EditClient(s, id, f))
  {
    var s' := EditClient(s, id, f);
    assert forall k | 0 <= k < |s.clients| :: ClientId(s'.clients[k]) == ClientId(s.clients[k]);
    forall c' | c' in s'.clients
      ensures c'.totalSKUs == |OwnedBy(s'.items, c'.id)|
    {
      var k :| 0 <= k < |s'.clients| && s'.clients[k] == c';
      assert s.clients[k] in s.clients;
    }
    forall item | item in s'.items
      ensures exists c | c in s'.clients :: c.id == item.clientId
    {
      var c :| c in s.clients && c.id == item.clientId;
      var k :| 0 <= k < |s.clients| && s.clients[k] == c;
      assert s'.clients[k] in s'.clients;
    }
  }

  lemma CreateClientKeepsIds(s: State, f: ClientForm)
    requires UniqueClientIds(s) && NoDangling(s) && |s.clients| > 0
    ensures UniqueClientIds(CreateClient(s, f)) && NoDangling(CreateClient(s, f))
  {
    var s' := CreateClient(s, f);
    var n := s'.clients[|s.clients|];
    assert s'.clients == s.clients + [n] by {
      assert s'.clients[..|s.clients|] == s.clients;
    }
    AppendFreshKey(ClientId, s.clients, n);
  }

  /** Appending an element whose key exceeds every key keeps keys distinct. */
  lemma AppendFreshKey<T>(key: T -> int, s: seq<T>, n: T)
    requires Seqs.Injective(key, s)
    requires forall x | x in s :: key(x) < key(n)
    ensures Seqs.Injective(key, s + [n])
  {
    var s' := s + [n];
    forall i, j | 0 <= i < j < |s'|
      ensures key(s'[i]) != key(s'[j])
    {
      if j == |s| {
        assert s'[i] in s;
      } else {
        assert key(s[i]) != key(s[j]);
      }
    }
  }

  /** The new client starts at zero SKUs, and owns none: every item's owner
      is an older client, whose id is smaller. */
  lemma CreateClientKeepsCounters(s: State, f: ClientForm)
    requires NoDangling(s) && CountersMatch(s) && |s.clients| > 0
    ensures CountersMatch(CreateClient(s, f))
  {
    var s' := CreateClient(s, f);
    var n := s'.clients[|s.clients|];
    assert s'.clients == s.clients + [n] by {
      assert s'.clients[..|s.clients|] == s.clients;
    }
    NewOwnerOwnsNothing(s, n.id);
  }

  /** An id larger than every client's owns no item. */
  lemma NewOwnerOwnsNothing(s: State, id: int)
    requires NoDangling(s)
    requires forall c | c in s.clients :: c.id < id
    ensures OwnedBy(s.items, id) == []
  {
    forall k | 0 <= k < |s.items|
      ensures !OwnerIs(id)(s.items[k])
    {
      assert s.items[k] in s.items;
      var c :| c in s.clients && c.id == s.items[k].clientId;
    }
    Seqs.FilterNone(OwnerIs(id), s.items);
  }

  // ---------------------------------------------------------------------
  // Stock form.

  /** A valid SKU is stored upper-cased but compares equal ignoring case,
      and stays valid. */
  lemma StoredSkuSameIgnoringCase(sku: string)
    requires Validation.ValidateSKU(sku)
    ensures ToLower(StoredSku(sku)) == ToLower(sku)
    ensures Validation.ValidateSKU(StoredSku(sku))
  {
    assert NoSpace(ToUpper(sku));
    TrimNoSpace(ToUpper(sku));
    LowerOfUpper(sku);
  }

  lemma SubmitStockFormKeepsValid(s: State, selected: Option<Client>, f: StockForm, editing: Option<int>)
    requires Valid(s)
    requires selected.Some? ==> exists c | c in s.clients :: c.id == selected.value.id
    requires selected.None? || editing.Some? || |s.items| > 0
      || StockFormErrors(s.items, selected.value.id, f, editing.None?) != {}
    ensures var r := SubmitStockForm(s, selected, f, editing);
      r.Success? ==> Valid(r.value)
  {
    var r := SubmitStockForm(s, selected, f, editing);
    if r.Success? {
      if editing.Some? {
        EditStockItemKeepsValid(s, editing.value, f);
      } else {
        CreateStockItemKeepsValid(s, selected.value, f);
      }
    }
  }

  lemma EditStockItemKeepsValid(s: State, id: int, f: StockForm)
    requires Valid(s) && f.quantity.Some?
    ensures Valid(EditStockItem(s, id, f))
  {
    EditStockItemKeepsIds(s, id, f);
    EditStockItemKeepsCounters(s, id, f);
  }

  lemma EditStockItemKeepsIds(s: State, id: int, f: StockForm)
    requires UniqueItemIds(s) && NoDangling(s) && f.quantity.Some?
    ensures UniqueItemIds(EditStockItem(s, id, f)) && NoDangling(EditStockItem(s, id, f))
  {
    var s' := EditStockItem(s, id, f);
    assert forall k | 0 <= k < |s.items| :: ItemId(s'.items[k]) == ItemId(s.items[k]);
    forall item | item in s'.items
      ensures exists c | c in s'.clients :: c.id == item.clientId
    {
      var k :| 0 <= k < |s'.items| && s'.items[k] == item;
      assert s.items[k] in s.items;
    }
  }

  lemma EditStockItemKeepsCounters(s: State, id: int, f: StockForm)
    requires CountersMatch(s) && f.quantity.Some?
    ensures CountersMatch(EditStockItem(s, id, f))
  {
    var s' := EditStockItem(s, id, f);
    var e := EditedItem(id, f);
    assert s'.items == Seqs.Map(e, s.items);
    forall c | c in s'.clients
      ensures c.totalSKUs == |OwnedBy(s'.items, c.id)|
    {
      Seqs.FilterMapCount(OwnerIs(c.id), e, s.items);
    }
  }

  lemma CreateStockItemKeepsValid(s: State, owner: Client, f: StockForm)
    requires Valid(s) && exists c | c in s.clients :: c.id == owner.id
    requires |s.items| > 0 && f.quantity.Some?
    ensures Valid(CreateStockItem(s, owner, f))
  {
    CreateStockItemKeepsIds(s, owner, f);
    CreateStockItemKeepsOwners(s, owner, f);
    CreateStockItemKeepsCounters(s, owner, f);
  }

  /** The stock view keeps the client record it was opened with, while a
      create replaces that record in the list by one with a raised counter.
      The kept record is then stale, but its id is still listed, which is
      all the next create needs. */
  lemma CreateLeavesSelectionStale(s: State, owner: Client, f: StockForm)
    requires UniqueClientIds(s) && owner in s.clients
    requires |s.items| > 0 && f.quantity.Some?
    ensures var s' := CreateStockItem(s, owner, f);
      && owner !in s'.clients
      && exists c | c in s'.clients :: c.id == owner.id
  {
    var s' := CreateStockItem(s, owner, f);
    var k :| 0 <= k < |s.clients| && s.clients[k] == owner;
    assert s'.clients[k].id == owner.id;
    forall j | 0 <= j < |s'.clients| ensures s'.clients[j] != owner {
      if j != k {
        assert ClientId(s.clients[j]) != ClientId(s.clients[k]);
      }
    }
  }

  /** Two creates in a row from the same, by then stale, client record keep
      the store consistent. */
  lemma RepeatedCreatesKeepValid(s: State, owner: Client, f: StockForm, g: StockForm)
    requires Valid(s) && owner in s.clients
    requires |s.items| > 0 && f.quantity.Some? && g.quantity.Some?
    ensures Valid(CreateStockItem(CreateStockItem(s, owner, f), owner, g))
  {
    var s' := CreateStockItem(s, owner, f);
    CreateLeavesSelectionStale(s, owner, f);
    CreateStockItemKeepsValid(s, owner, f);
    CreateStockItemKeepsValid(s', owner, g);
  }

  lemma CreateStockItemKeepsIds(s: State, owner: Client, f: StockForm)
    requires UniqueClientIds(s) && UniqueItemIds(s)
    requires |s.items| > 0 && f.quantity.Some?
    ensures UniqueClientIds(CreateStockItem(s, owner, f)) && UniqueItemIds(CreateStockItem(s, owner, f))
  {
    var s' := CreateStockItem(s, owner, f);
    var n := s'.items[|s.items|];
    assert s'.items == s.items + [n] by {
      assert s'.items[..|s.items|] == s.items;
    }
    AppendFreshKey(ItemId, s.items, n);
    SameKeys(ClientId, s.clients, s'.clients);
  }

  /** Keys kept position by position stay distinct. */
  lemma SameKeys<T>(key: T -> int, s: seq<T>, s': seq<T>)
    requires Seqs.Injective(key, s)
    requires |s'| == |s| && forall k | 0 <= k < |s| :: key(s'[k]) == key(s[k])
    ensures Seqs.Injective(key, s')
  {
  }

  lemma CreateStockItemKeepsOwners(s: State, owner: Client, f: StockForm)
    requires NoDangling(s) && exists c | c in s.clients :: c.id == owner.id
    requires |s.items| > 0 && f.quantity.Some?
    ensures NoDangling(CreateStockItem(s, owner, f))
  {
    var s' := CreateStockItem(s, owner, f);
    var n := s'.items[|s.items|];
    assert s'.items == s.items + [n] by {
      assert s'.items[..|s.items|] == s.items;
    }
    AppendKeepsOwners(s, s', n);
  }

  /** Appending an item of a listed client, while keeping the client ids,
      leaves no item without its client. */
  lemma AppendKeepsOwners(s: State, s': State, n: StockItem)
    requires NoDangling(s)
    requires s'.items == s.items + [n]
    requires |s'.clients| == |s.clients|
    requires forall k | 0 <= k < |s.clients| :: s'.clients[k].id == s.clients[k].id
    requires exists c | c in s.clients :: c.id == n.clientId
    ensures NoDangling(s')
  {
    forall item | item in s'.items
      ensures exists c | c in s'.clients :: c.id == item.clientId
    {
      var c :| c in s.clients && c.id == item.clientId;
      var k :| 0 <= k < |s.clients| && s.clients[k] == c;
      assert s'.clients[k] in s'.clients;
    }
  }

  lemma CreateStockItemKeepsCounters(s: State, owner: Client, f: StockForm)
    requires CountersMatch(s)
    requires |s.items| > 0 && f.quantity.Some?
    ensures CountersMatch(CreateStockItem(s, owner, f))
  {
    var s' := CreateStockItem(s, owner, f);
    var n := s'.items[|s.items|];
    assert s'.items == s.items + [n] by {
      assert s'.items[..|s.items|] == s.items;
    }
    assert forall k | 0 <= k < |s.clients| ::
      s'.clients[k].totalSKUs == s.clients[k].totalSKUs + (if s.clients[k].id == n.clientId then 1 else 0);
    CountersAfterAppend(s, s', n);
  }

  /** Appending an item while raising exactly its owner's counters by one
      keeps every counter equal to its item count. */
  lemma CountersAfterAppend(s: State, s': State, n: StockItem)
    requires CountersMatch(s)
    requires s'.items == s.items + [n]
    requires |s'.clients| == |s.clients|
    requires forall k | 0 <= k < |s.clients| :: s'.clients[k].id == s.clients[k].id
    requires forall k | 0 <= k < |s.clients| ::
      s'.clients[k].totalSKUs == s.clients[k].totalSKUs + (if s.clients[k].id == n.clientId then 1 else 0)
    ensures CountersMatch(s')
  {
    forall c' | c' in s'.clients
      ensures c'.totalSKUs == |OwnedBy(s'.items, c'.id)|
    {
      var k :| 0 <= k < |s'.clients| && s'.clients[k] == c';
      assert s.clients[k] in s.clients;
      OwnedAfterAppend(s.items, n, c'.id);
    }
  }

  /** Appending an item adds one to its owner's list and nothing to any
      other client's. */
  lemma OwnedAfterAppend(items: seq<StockItem>, n: StockItem, id: int)
    ensures |OwnedBy(items + [n], id)| == |OwnedBy(items, id)| + (if n.clientId == id then 1 else 0)
  {
    Seqs.FilterConcat(OwnerIs(id), items, [n]);
    Seqs.FilterSingle(OwnerIs(id), n);
  }

  /** A create never gives a client two SKUs equal ignoring case. */
  lemma CreateKeepsSkusDistinct(s: State, owner: Client, f: StockForm)
    requires DistinctSkusPerClient(s)
    requires |s.items| > 0
    ensures var r := SubmitStockForm(s, Some(owner), f, None);
      r.Success? ==> DistinctSkusPerClient(r.value)
  {
    var r := SubmitStockForm(s, Some(owner), f, None);
    if r.Success? {
      var s' := r.value;
      var n := s'.items[|s.items|];
      assert s'.items == s.items + [n] by {
        assert s'.items[..|s.items|] == s.items;
      }
      StoredSkuSameIgnoringCase(f.sku);
      forall i, j | 0 <= i < j < |s'.items|
        ensures SkuKey(s'.items[i]) != SkuKey(s'.items[j])
      {
        if j == |s.items| {
          assert s'.items[i] in s.items;
        } else {
          assert SkuKey(s.items[i]) != SkuKey(s.items[j]);
        }
      }
    }
  }

  /** Resubmitting a created SKU for the same client, in any case, is
      refused as a duplicate. */
  lemma CreatedSkuBlocksDuplicate(s: State, owner: Client, f: StockForm, g: StockForm)
    requires |s.items| > 0
    requires ToLower(g.sku) == ToLower(f.sku)
    ensures var r := SubmitStockForm(s, Some(owner), f, None);
      r.Success? ==>
        var r2 := SubmitStockForm(r.value, Some(owner), g, None);
        r2.Failure? && r2.error.Invalid? && SkuDuplicate in r2.error.errors
  {
    var r := SubmitStockForm(s, Some(owner), f, None);
    if r.Success? {
      var n := r.value.items[|s.items|];
      StoredSkuSameIgnoringCase(f.sku);
      assert n in r.value.items;
      assert SkuTaken(r.value.items, owner.id, g.sku);
    }
  }

  /** An edit is not checked for duplicates: changing one item's SKU to
      another item's SKU of the same client is accepted, and the client
      then owns two items with that SKU. */
  lemma EditSkipsDuplicateCheck(s: State, owner: Client, f: StockForm, i: int, j: int)
    requires UniqueItemIds(s)
    requires 0 <= i < |s.items| && 0 <= j < |s.items| && i != j
    requires s.items[i].clientId == s.items[j].clientId
    requires Validation.ValidateSKU(f.sku) && ToLower(f.sku) == ToLower(s.items[i].sku)
    requires Trim(f.itemName) != "" && f.quantity.Some? && f.quantity.value >= 0
    ensures var r := SubmitStockForm(s, Some(owner), f, Some(s.items[j].id));
      r.Success? && !DistinctSkusPerClient(r.value)
  {
    var r := SubmitStockForm(s, Some(owner), f, Some(s.items[j].id));
    var s' := r.value;
    StoredSkuSameIgnoringCase(f.sku);
    assert s.items[i].id != s.items[j].id by {
      if i < j {
        assert ItemId(s.items[i]) != ItemId(s.items[j]);
      } else {
        assert ItemId(s.items[j]) != ItemId(s.items[i]);
      }
    }
    assert SkuKey(s'.items[i]) == SkuKey(s'.items[j]);
  }

  // ---------------------------------------------------------------------
  // Effect on the dashboard figures.

  /** A stock create adds its quantity to the total pieces and to its
      owner's pieces, and one SKU to the owner's counter. */
  lemma CreateAddsPieces(s: State, owner: Client, f: StockForm)
    requires |s.items| > 0 && f.quantity.Some?
    ensures var s' := CreateStockItem(s, owner, f);
      && Stats.TotalQuantity(s'.items) == Stats.TotalQuantity(s.items) + f.quantity.value
      && Stats.PiecesOf(s'.items, owner.id) == Stats.PiecesOf(s.items, owner.id) + f.quantity.value
      && |OwnedBy(s'.items, owner.id)| == |OwnedBy(s.items, owner.id)| + 1
  {
    var s' := CreateStockItem(s, owner, f);
    var n := s'.items[|s.items|];
    assert s'.items == s.items + [n] by {
      assert s'.items[..|s.items|] == s.items;
    }
    Stats.TotalQuantityConcat(s.items, [n]);
    Seqs.FilterConcat(OwnerIs(owner.id), s.items, [n]);
    assert [n][1..] == [];
    Stats.TotalQuantityConcat(OwnedBy(s.items, owner.id), [n]);
  }
}
