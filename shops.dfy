/** The Shops page: the status filter and search over the directory, and
    the add/edit dialog whose save writes to the store and then resets. */
module ShopsPage {
  import opened Wrappers
  import opened Types
  import opened Strings
  import opened Seqs
  import opened Billing
  import opened Store

  // ---------------------------------------------------------------------
  // Listing

  datatype StatusFilter = AllShops | OnlyStatus(status: ShopStatus)

  /** `filter === 'All' || shop.status === filter` and the search, lower
      cased on both sides, in the shop number or the owner's name. */
  predicate ShopShown(shop: Shop, filter: StatusFilter, search: string)
  {
    && (filter.AllShops? || shop.status == filter.status)
    && (Includes(Lower(shop.shopNumber), Lower(search)) || Includes(Lower(shop.ownerName), Lower(search)))
  }

  /** `filteredShops` */
  function FilteredShops(shops: seq<Shop>, filter: StatusFilter, search: string): (shown: seq<Shop>)
    ensures forall s :: s in shown <==> s in shops && ShopShown(s, filter, search)
    ensures |shown| <= |shops|
  {
    Filter(shops, (s: Shop) => ShopShown(s, filter, search))
  }

  /** With no search text and the "All" tab every shop is listed, in
      directory order. */
  lemma NoFilterShowsAll(shops: seq<Shop>)
    ensures FilteredShops(shops, AllShops, "") == shops
  {
    forall i | 0 <= i < |shops|
      ensures ShopShown(shops[i], AllShops, "")
    {
      IncludesEmpty(Lower(shops[i].shopNumber));
    }
    FilterKeepsAll(shops, (s: Shop) => ShopShown(s, AllShops, ""));
  }

  /** The Occupied and Vacant tabs split the listing of the "All" tab. */
  lemma StatusTabsPartition(shops: seq<Shop>, search: string, s: Shop)
    ensures s in FilteredShops(shops, AllShops, search)
            <==> s in FilteredShops(shops, OnlyStatus(Occupied), search)
                 || s in FilteredShops(shops, OnlyStatus(Vacant), search)
    ensures !(s in FilteredShops(shops, OnlyStatus(Occupied), search)
              && s in FilteredShops(shops, OnlyStatus(Vacant), search))
  {
  }

  // ---------------------------------------------------------------------
  // The add/edit dialog

  /** A numeric input: a number, or the empty text of a cleared field. */
  datatype NumberField = Number(n: int) | Cleared

  /** `Number(x) || 0` on a numeric input. */
  function NumberOr0(f: NumberField): (n: int)
    ensures f.Cleared? ==> n == 0
    ensures f.Number? ==> n == f.n
  {
    match f
    case Number(v) => v
    case Cleared => 0
  }

  datatype ShopForm = ShopForm(
    shopNumber: string,
    floor: NumberField,
    ownerName: string,
    phone: string,
    email: Option<string>,
    status: ShopStatus,
    monthlyRent: NumberField,
    monthlyMaintenance: NumberField)

  /** The form of a new shop: Occupied, first floor, nothing owed. */
  const EmptyForm: ShopForm :=
    ShopForm("", Number(1), "", "", Some(""), Occupied, Number(0), Number(0))

  /** `{ ...shop }` in the edit dialog. */
  function FormOf(shop: Shop): (form: ShopForm)
    ensures ShopOfForm(form, shop.id) == shop
  {
    ShopForm(shop.shopNumber, Number(shop.floor), shop.ownerName, shop.phone, shop.email,
             shop.status, Number(shop.monthlyRent), Number(shop.monthlyMaintenance))
  }

  /** `shopToSave` with the id it is written under. */
  function ShopOfForm(form: ShopForm, id: string): (shop: Shop)
    ensures shop.id == id && shop.shopNumber == form.shopNumber && shop.ownerName == form.ownerName
    ensures shop.floor == NumberOr0(form.floor)
    ensures shop.monthlyRent == NumberOr0(form.monthlyRent)
    ensures shop.monthlyMaintenance == NumberOr0(form.monthlyMaintenance)
  {
    Shop(id, form.shopNumber, NumberOr0(form.floor), form.ownerName, form.phone, form.email,
         NumberOr0(form.monthlyRent), NumberOr0(form.monthlyMaintenance), form.status)
  }

  /** The outcome of pressing save. */
  datatype SaveOutcome = MissingFields | Added | Updated | UpdateFailed

  /** The page's state: the listing controls and the dialog. */
  class ShopsScreen {
    var filter: StatusFilter
    var search: string
    var modalOpen: bool
    var editingId: Option<string>
    var form: ShopForm

    constructor ()
      ensures filter == AllShops && search == "" && !modalOpen && editingId.None? && form == EmptyForm
    {
      filter := AllShops;
      search := "";
      modalOpen := false;
      editingId := None;
      form := EmptyForm;
    }

    /** `if (editingId)`: an empty id counts as no id. */
    predicate Editing()
      reads this
    {
      editingId.Some? && editingId.value != ""
    }

    /** `handleOpenAddModal` */
    method OpenAdd()
      modifies this
      ensures editingId.None? && form == EmptyForm && modalOpen
      ensures filter == old(filter) && search == old(search)
    {
      editingId := None;
      form := EmptyForm;
      modalOpen := true;
    }

    /** `handleOpenEditModal(shop)` */
    method OpenEdit(shop: Shop)
      modifies this
      ensures editingId == Some(shop.id) && form == FormOf(shop) && modalOpen
      ensures filter == old(filter) && search == old(search)
    {
      editingId := Some(shop.id);
      form := FormOf(shop);
      modalOpen := true;
    }

    /** `handleSaveShop`: nothing happens while the shop number or the owner
        is empty. Otherwise the numeric fields are coerced and the shop is
        written: over the edited document in edit mode, else added under the
        new document id `docId` (billed for `currentMonth` under `rentId` and
        `maintenanceId` when Occupied). A save that went through closes the
        dialog and resets the form; a failed one leaves both as they were. */
    method Save(store: PlazaStore, docId: string, currentMonth: string, rentId: string, maintenanceId: string)
      returns (outcome: SaveOutcome)
      modifies this, store
      ensures filter == old(filter) && search == old(search)
      ensures old(form.shopNumber == "" || form.ownerName == "") <==> outcome == MissingFields
      ensures outcome == MissingFields ==>
                unchanged(store) && form == old(form) && editingId == old(editingId) && modalOpen == old(modalOpen)
      ensures outcome == Added ==>
                !old(Editing())
                && store.shops == old(store.shops) + [ShopOfForm(old(form), docId)]
      ensures outcome == Added && old(form).status == Occupied ==>
                store.rentRecords == old(store.rentRecords) + [NewBill(Rent, ShopOfForm(old(form), docId), currentMonth, rentId)]
                && store.maintenanceRecords == old(store.maintenanceRecords)
                   + [NewBill(Maintenance, ShopOfForm(old(form), docId), currentMonth, maintenanceId)]
      ensures outcome == Added && old(form).status == Vacant ==>
                store.rentRecords == old(store.rentRecords) && store.maintenanceRecords == old(store.maintenanceRecords)
      ensures outcome in {Updated, UpdateFailed} ==> old(Editing())
      ensures outcome == Updated ==>
                store.shops == ReplaceShop(old(store.shops), ShopOfForm(old(form), old(editingId.value)))
      ensures outcome == UpdateFailed ==>
                FindShop(old(store.shops), old(editingId.value)).None? && store.shops == old(store.shops)
      ensures outcome in {Updated, UpdateFailed} ==>
                store.rentRecords == old(store.rentRecords)
                && store.maintenanceRecords == old(store.maintenanceRecords)
      ensures outcome == UpdateFailed ==> form == old(form) && editingId == old(editingId) && modalOpen == old(modalOpen)
      ensures outcome in {Added, Updated} ==> !modalOpen && form == EmptyForm && editingId.None?
    {
      if form.shopNumber == "" || form.ownerName == "" {
        return MissingFields;
      }
      if Editing() {
        var ok := store.UpdateShop(ShopOfForm(form, editingId.value));
        if !ok {
          return UpdateFailed;
        }
        outcome := Updated;
      } else {
        store.AddShop(ShopOfForm(form, docId), docId, currentMonth, rentId, maintenanceId);
        outcome := Added;
      }
      modalOpen := false;
      form := EmptyForm;
      editingId := None;
    }
  }
}
