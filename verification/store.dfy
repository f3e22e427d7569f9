/**
  The record store behind the dashboard's event handlers: every handler's
  update of the client list and the stock-item list, as a function from the
  state before to the state after (or to the reason the form was refused,
  in which case the state is unchanged).
*/
module Store {
  import opened Wrappers
  import opened Text
  import opened Types
  import Seqs
  import Phone
  import Validation

  /** A form field reported as wrong by a submit handler. */
  datatype FieldError =
    | NameRequired
    | EmailInvalid
    | PhoneInvalid
    | SkuInvalid
    | SkuDuplicate
    | ItemNameRequired
    | QuantityInvalid

  /** Why a submit left the store as it was. */
  datatype Rejection = NoClientSelected | Invalid(errors: set<FieldError>)

  // ---------------------------------------------------------------------
  // Client delete: the client and, in cascade, every item it owns.

  function ClientIdIsNot(id: int): Client -> bool {
    (c: Client) => c.id != id
  }

  function OwnerIsNot(id: int): StockItem -> bool {
    (item: StockItem) => item.clientId != id
  }

  /** `handleDeleteClient` after the server has agreed. */
  function DeleteClient(s: State, id: int): (s': State)
    ensures forall c | c in s'.clients :: c.id != id
    ensures forall c | c in s.clients && c.id != id :: c in s'.clients
    ensures forall item | item in s'.items :: item.clientId != id
    ensures forall item | item in s.items && item.clientId != id :: item in s'.items
    ensures Seqs.IsSelection(s'.clients, s.clients, ClientIdIsNot(id))
    ensures Seqs.IsSelection(s'.items, s.items, OwnerIsNot(id))
    ensures |s.items| - |s'.items| == |OwnedBy(s.items, id)|
  {
    Seqs.FilterIsSelection(ClientIdIsNot(id), s.clients);
    Seqs.FilterIsSelection(OwnerIsNot(id), s.items);
    Seqs.FilterPartition(OwnerIs(id), OwnerIsNot(id), s.items);
    State(Seqs.Filter(ClientIdIsNot(id), s.clients), Seqs.Filter(OwnerIsNot(id), s.items))
  }

  // ---------------------------------------------------------------------
  // Stock-item delete: the item, and one off its owner's counter.

  function ItemIdIsNot(id: int): StockItem -> bool {
    (item: StockItem) => item.id != id
  }

  /** `Math.max(0, n - 1)`. */
  function FlooredDecrement(n: int): int {
    if n - 1 > 0 then n - 1 else 0
  }

  function DecrementOwner(ownerId: int): Client -> Client {
    (c: Client) => if c.id == ownerId then c.(totalSKUs := FlooredDecrement(c.totalSKUs)) else c
  }

  /** `handleDeleteSKU` after the server has agreed. */
  function DeleteStockItem(s: State, item: StockItem): (s': State)
    ensures forall it | it in s'.items :: it.id != item.id
    ensures forall it | it in s.items && it.id != item.id :: it in s'.items
    ensures Seqs.IsSelection(s'.items, s.items, ItemIdIsNot(item.id))
    ensures |s'.clients| == |s.clients|
    ensures forall k | 0 <= k < |s.clients| && s.clients[k].id != item.clientId ::
      s'.clients[k] == s.clients[k]
    ensures forall k | 0 <= k < |s.clients| && s.clients[k].id == item.clientId ::
      && s'.clients[k] == s.clients[k].(totalSKUs := s'.clients[k].totalSKUs)
      && s'.clients[k].totalSKUs >= 0
      && (s.clients[k].totalSKUs >= 1 ==> s'.clients[k].totalSKUs == s.clients[k].totalSKUs - 1)
      && (s.clients[k].totalSKUs < 1 ==> s'.clients[k].totalSKUs == 0)
  {
    Seqs.FilterIsSelection(ItemIdIsNot(item.id), s.items);
    State(Seqs.Map(DecrementOwner(item.clientId), s.clients), Seqs.Filter(ItemIdIsNot(item.id), s.items))
  }

  // ---------------------------------------------------------------------
  // Client create and edit (ClientForm.handleSubmit).

  /** The client form's three text fields, as typed. */
  datatype ClientForm = ClientForm(name: string, email: string, phone: string)

  /** The fields the client form reports: the name is required; email and
      phone are optional but must be valid when not blank. */
  function ClientFormErrors(f: ClientForm): set<FieldError> {
    (if Trim(f.name) == "" then {NameRequired} else {})
    + (if Trim(f.email) != "" && !Validation.ValidateEmail(f.email) then {EmailInvalid} else {})
    + (if Trim(f.phone) != "" && !Phone.ValidatePhone(f.phone) then {PhoneInvalid} else {})
  }

  /** `email.trim() || undefined`. */
  function StoredEmail(email: string): Option<string> {
    if Trim(email) == "" then None else Some(Trim(email))
  }

  /** `phone.trim() ? formatPhone(phone) : undefined`. */
  function StoredPhone(phone: string): Option<string> {
    if Trim(phone) == "" then None else Some(Phone.FormatPhone(phone))
  }

  /** `Math.max(...clients.map(c => c.id)) + 1`. */
  function NextClientId(clients: seq<Client>): (id: int)
    requires |clients| > 0
    ensures forall c | c in clients :: c.id < id
    ensures exists c | c in clients :: c.id == id - 1
  {
    var ids := Seqs.Map((c: Client) => c.id, clients);
    var m := Seqs.Max(ids);
    assert forall c | c in clients :: c.id in ids;
    var k :| 0 <= k < |ids| && ids[k] == m;
    assert clients[k].id == m;
    m + 1
  }

  /** Appends the new client built from a valid form. */
  function CreateClient(s: State, f: ClientForm): (s': State)
    requires |s.clients| > 0
    ensures s'.items == s.items
    ensures |s'.clients| == |s.clients| + 1 && s'.clients[..|s.clients|] == s.clients
    ensures var c := s'.clients[|s.clients|];
      && (forall o | o in s.clients :: o.id < c.id)
      && (exists o | o in s.clients :: o.id == c.id - 1)
      && c.totalSKUs == 0
      && c.name == Trim(f.name) && c.email == StoredEmail(f.email) && c.phone == StoredPhone(f.phone)
  {
    var c := Client(NextClientId(s.clients), Trim(f.name), StoredEmail(f.email), StoredPhone(f.phone), 0);
    State(s.clients + [c], s.items)
  }

  function EditedClient(id: int, f: ClientForm): Client -> Client {
    (c: Client) =>
      if c.id == id
      then c.(name := Trim(f.name), email := StoredEmail(f.email), phone := StoredPhone(f.phone))
      else c
  }

  /** Rewrites the contact fields of the client being edited. */
  function EditClient(s: State, id: int, f: ClientForm): (s': State)
    ensures s'.items == s.items
    ensures |s'.clients| == |s.clients|
    ensures forall k | 0 <= k < |s.clients| ::
      s'.clients[k].id == s.clients[k].id && s'.clients[k].totalSKUs == s.clients[k].totalSKUs
    ensures forall k | 0 <= k < |s.clients| && s.clients[k].id == id ::
      && s'.clients[k].name == Trim(f.name)
      && s'.clients[k].email == StoredEmail(f.email)
      && s'.clients[k].phone == StoredPhone(f.phone)
    ensures forall k | 0 <= k < |s.clients| && s.clients[k].id != id :: s'.clients[k] == s.clients[k]
  {
    State(Seqs.Map(EditedClient(id, f), s.clients), s.items)
  }

  /** `ClientForm.handleSubmit`: validate, then edit the client being edited
      (`editing`) or create a new one. */
  function SubmitClientForm(s: State, f: ClientForm, editing: Option<int>): (r: Result<State, Rejection>)
    requires editing.Some? || |s.clients| > 0 || ClientFormErrors(f) != {}
    ensures r.Failure? <==>
      || Trim(f.name) == ""
      || (Trim(f.email) != "" && !Validation.ValidateEmail(f.email))
      || (Trim(f.phone) != "" && !Phone.ValidatePhone(f.phone))
    ensures r.Failure? ==> r.error.Invalid? && r.error.errors != {}
    ensures r.Success? && editing.Some? ==> r.value == EditClient(s, editing.value, f)
    ensures r.Success? && editing.None? ==> r.value == CreateClient(s, f)
  {
    var errors := ClientFormErrors(f);
    if errors != {} then Failure(Invalid(errors))
    else if editing.Some? then Success(EditClient(s, editing.value, f))
    else Success(CreateClient(s, f))
  }

  // ---------------------------------------------------------------------
  // Stock-item create and edit (StockForm.handleSubmit).

  /** The stock form as typed; `quantity` is `None` when the field is empty. */
  datatype StockForm = StockForm(sku: string, itemName: string, quantity: Option<int>, quality: Quality)

  /** The client already owns an item whose SKU equals `sku` ignoring case. */
  predicate SkuTaken(items: seq<StockItem>, clientId: int, sku: string) {
    exists item | item in items :: item.clientId == clientId && ToLower(item.sku) == ToLower(sku)
  }

  /** The fields the stock form reports. The duplicate check runs only when
      creating, and its message replaces the SKU format message. */
  function StockFormErrors(items: seq<StockItem>, clientId: int, f: StockForm, creating: bool): set<FieldError> {
    (if creating && SkuTaken(items, clientId, f.sku) then {SkuDuplicate}
     else if !Validation.ValidateSKU(f.sku) then {SkuInvalid}
     else {})
    + (if Trim(f.itemName) == "" then {ItemNameRequired} else {})
    + (if f.quantity.None? || f.quantity.value < 0 then {QuantityInvalid} else {})
  }

  /** `sku.toUpperCase().trim()`. */
  function StoredSku(sku: string): string {
    Trim(ToUpper(sku))
  }

  /** `Math.max(...stockItems.map(item => item.id)) + 1`. */
  function NextItemId(items: seq<StockItem>): (id: int)
    requires |items| > 0
    ensures forall item | item in items :: item.id < id
    ensures exists item | item in items :: item.id == id - 1
  {
    var ids := Seqs.Map((item: StockItem) => item.id, items);
    var m := Seqs.Max(ids);
    assert forall item | item in items :: item.id in ids;
    var k :| 0 <= k < |ids| && ids[k] == m;
    assert items[k].id == m;
    m + 1
  }

  function IncrementOwner(ownerId: int): Client -> Client {
    (c: Client) => if c.id == ownerId then c.(totalSKUs := c.totalSKUs + 1) else c
  }

  /** Appends the new item for the selected client and raises that
      client's counter. */
  function CreateStockItem(s: State, owner: Client, f: StockForm): (s': State)
    requires |s.items| > 0 && f.quantity.Some?
    ensures |s'.items| == |s.items| + 1 && s'.items[..|s.items|] == s.items
    ensures var n := s'.items[|s.items|];
      && (forall o | o in s.items :: o.id < n.id)
      && (exists o | o in s.items :: o.id == n.id - 1)
      && n.clientId == owner.id && n.clientName == owner.name
      && n.sku == StoredSku(f.sku) && n.itemName == Trim(f.itemName)
      && n.quantity == f.quantity.value && n.quality == f.quality
    ensures |s'.clients| == |s.clients|
    ensures forall k | 0 <= k < |s.clients| :: s'.clients[k].id == s.clients[k].id
    ensures forall k | 0 <= k < |s.clients| && s.clients[k].id == owner.id ::
      s'.clients[k] == s.clients[k].(totalSKUs := s.clients[k].totalSKUs + 1)
    ensures forall k | 0 <= k < |s.clients| && s.clients[k].id != owner.id ::
      s'.clients[k] == s.clients[k]
  {
    var n := StockItem(NextItemId(s.items), owner.id, owner.name, StoredSku(f.sku),
                       Trim(f.itemName), f.quantity.value, f.quality);
    IncrementOwnerEffect(owner.id, s.clients);
    State(Seqs.Map(IncrementOwner(owner.id), s.clients), s.items + [n])
  }

  /** Raising one id's counter keeps every id and changes only the clients
      carrying that id, each by exactly one. */
  lemma IncrementOwnerEffect(id: int, clients: seq<Client>)
    ensures var cs := Seqs.Map(IncrementOwner(id), clients);
      && |cs| == |clients|
      && (forall k | 0 <= k < |clients| :: cs[k].id == clients[k].id)
      && (forall k | 0 <= k < |clients| && clients[k].id == id ::
            cs[k] == clients[k].(totalSKUs := clients[k].totalSKUs + 1))
      && (forall k | 0 <= k < |clients| && clients[k].id != id :: cs[k] == clients[k])
  {
  }

  function EditedItem(id: int, f: StockForm): StockItem -> StockItem
    requires f.quantity.Some?
  {
    (item: StockItem) =>
      if item.id == id
      then item.(sku := StoredSku(f.sku), itemName := Trim(f.itemName),
                 quantity := f.quantity.value, quality := f.quality)
      else item
  }

  /** Rewrites the item being edited; its id and owner stay. */
  function EditStockItem(s: State, id: int, f: StockForm): (s': State)
    requires f.quantity.Some?
    ensures s'.clients == s.clients
    ensures |s'.items| == |s.items|
    ensures forall k | 0 <= k < |s.items| ::
      && s'.items[k].id == s.items[k].id
      && s'.items[k].clientId == s.items[k].clientId
      && s'.items[k].clientName == s.items[k].clientName
    ensures forall k | 0 <= k < |s.items| && s.items[k].id == id ::
      && s'.items[k].sku == StoredSku(f.sku)
      && s'.items[k].itemName == Trim(f.itemName)
      && s'.items[k].quantity == f.quantity.value
      && s'.items[k].quality == f.quality
    ensures forall k | 0 <= k < |s.items| && s.items[k].id != id :: s'.items[k] == s.items[k]
  {
    State(s.clients, Seqs.Map(EditedItem(id, f), s.items))
  }

  /** `StockForm.handleSubmit`: needs a selected client, validates, then
      edits the item being edited (`editing`) or creates a new one. */
  function SubmitStockForm(s: State, selected: Option<Client>, f: StockForm, editing: Option<int>)
    : (r: Result<State, Rejection>)
    requires selected.None? || editing.Some? || |s.items| > 0
      || StockFormErrors(s.items, selected.value.id, f, editing.None?) != {}
    ensures selected.None? ==> r == Failure(NoClientSelected)
    ensures selected.Some? ==> (r.Failure? <==>
      || !Validation.ValidateSKU(f.sku)
      || Trim(f.itemName) == ""
      || f.quantity.None? || f.quantity.value < 0
      || (editing.None? && SkuTaken(s.items, selected.value.id, f.sku)))
    ensures selected.Some? && editing.None? && SkuTaken(s.items, selected.value.id, f.sku) ==>
      r.Failure? && r.error.Invalid? && SkuDuplicate in r.error.errors
    ensures r.Success? && editing.Some? ==> f.quantity.Some? && r.value == EditStockItem(s, editing.value, f)
    ensures r.Success? && editing.None? ==>
      selected.Some? && f.quantity.Some? && r.value == CreateStockItem(s, selected.value, f)
  {
    if selected.None? then Failure(NoClientSelected)
    else
      var errors := StockFormErrors(s.items, selected.value.id, f, editing.None?);
      if errors != {} then Failure(Invalid(errors))
      else if editing.Some? then Success(EditStockItem(s, editing.value, f))
      else Success(CreateStockItem(s, selected.value, f))
  }
}
