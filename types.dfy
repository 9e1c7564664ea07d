/** The plaza's records: shops, the per-month billing records of the rent and
    maintenance collections with their payment transactions, and staff users. */
module Types {
  import opened Wrappers

  datatype ShopStatus = Occupied | Vacant

  datatype Shop = Shop(
    id: string,
    shopNumber: string,
    floor: int,
    ownerName: string,
    phone: string,
    email: Option<string>,
    monthlyRent: int,
    monthlyMaintenance: int,
    status: ShopStatus)

  /** `Overdue` is a declared status that no operation ever assigns. */
  datatype BillStatus = Paid | Partial | Pending | Overdue

  /** A stored transaction amount: a number, or text for documents written
      with the amount as a string. */
  datatype TxAmount = Num(n: int) | Text(text: string)

  datatype Transaction = Transaction(
    id: string,
    date: string,
    amount: TxAmount,
    note: string,
    collectedBy: string)

  /** Which of the two parallel collections a billing record belongs to. */
  datatype Kind = Rent | Maintenance

  /** A rent record or a maintenance collection; both have this shape.
      `amount`, `collected` and `transactions` may be missing in a stored
      document; `month` is `YYYY-MM`, or empty. */
  datatype BillingRecord = BillingRecord(
    id: string,
    shopId: string,
    shopNumber: string,
    ownerName: string,
    phone: string,
    amount: Option<int>,
    collected: Option<int>,
    transactions: Option<seq<Transaction>>,
    dueDate: string,
    status: BillStatus,
    month: string)
  {
    /** `amount || 0` */
    function Due(): int { amount.GetOr(0) }

    /** `collected || 0` */
    function Collected(): int { collected.GetOr(0) }

    /** `transactions || []` */
    function Txs(): seq<Transaction> { transactions.GetOr([]) }

    /** `(amount || 0) - (collected || 0)`, negative after an overpayment. */
    function Balance(): int { Due() - Collected() }
  }

  datatype Role = Admin | Staff

  datatype Permission = DashboardArea | ShopsArea | RentArea | MaintenanceArea | SettingsArea

  datatype User = User(
    uid: string,
    email: string,
    displayName: string,
    role: Role,
    permissions: seq<Permission>)

  /** The five permissions in their fixed order. */
  const AllPermissions: seq<Permission> :=
    [DashboardArea, ShopsArea, RentArea, MaintenanceArea, SettingsArea]
}
