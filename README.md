# Plaza Manager — a verified model of its billing core

Plaza Manager is a small web application for running a shopping plaza. It
keeps the following:

- a directory of shops, each Occupied or Vacant;
- one rent record per shop and month;
- one maintenance collection per shop and month.

Staff record payments against those bills, generate the month's bills in
bulk, and export CSV reports. The Revenue page lists every payment. The
Dashboard sums up money and occupancy. Which pages a user may open depends
on the permissions in their profile.

This project models the application's shared state and the logic of its
pages in Dafny, and proves what that logic promises. It covers:

- the store: the shop directory and both billing collections as a class
  whose methods change them in place;
- the profile and staff-list listeners;
- the Rent, Maintenance, Revenue, Dashboard, Settings, Shops and Login
  pages;
- the navigation frame around them.

Modules, one per file:

| file | module | what it holds |
|---|---|---|
| wrappers.dfy | Wrappers | `Option`, `Result` |
| types.dfy | Types | shops, billing records, transactions, users, permissions |
| seqs.dfy | Seqs | filter, sum, remove-all, take, reverse, with their laws |
| strings.dfy | Strings | ASCII lower-casing, `includes`, trim, split/join, a quote-aware CSV field split, decimal text, string order |
| sorting.dfy | Sorting | the sort used by the listeners and pages (sorted, a permutation) |
| calendar.dfy | Calendar | the arithmetic of JavaScript's `Date` constructor |
| billing.dfy | Billing | status rule, payments, bill generation, shop lookup and replacement |
| store.dfy | Store | class `PlazaStore`: the shared state and its write operations |
| session.dfy | Session | the signed-in user and the staff list built from stored profiles |
| collection_page.dfy | CollectionPage | what the Rent and Maintenance pages share |
| maintenance_page.dfy | MaintenancePage | phone normalisation, arrears and total payable |
| dates.dfy | JsDates | date strings, date inputs and `parseDate` |
| revenue.dfy | Revenue | flattening, filtering, totalling and exporting transactions |
| dashboard.dfy | Dashboard | counts, occupancy percentage, revenue and pending dues |
| layout.dfy | Layout | navigation entries, active entry, header and brand texts |
| settings.dfy | SettingsPage | tabs, the new-staff form and its permission toggles |
| shops.dfy | ShopsPage | class `ShopsScreen`: listing filter and add/edit dialog |
| login.dfy | LoginPage | class `LoginScreen`: sign-in, hidden sign-up, password reset |

## Conventions

- Firestore document ids, the current month and today's date are passed in
  as parameters. They are not generated.
- An absent optional field is `None`. The `|| 0` and `|| []` defaults are
  member functions of the record (`Due`, `Collected`, `Txs`).
- A missing month and an empty month are both `""`: both are falsy in
  JavaScript.
- Integers are unbounded. Amounts are whole numbers of rupees.
- Local time is taken to be UTC.
- `localeCompare` and the default sort compare strings by code unit.
  Month strings are `YYYY-MM`, and on those the two orders agree.

## Model

| member | source | states |
|---|---|---|
| Billing.DeriveStatus | context/AppContext.tsx:448-451 | the status a payment writes: Paid iff collected reaches the amount, Partial iff strictly between 0 and the amount, Pending otherwise; never Overdue |
| Billing.CollectorName | context/AppContext.tsx:458 | the collector is the user's display name when one is set; "Unknown Staff" when it is missing or empty |
| Billing.Pay | context/AppContext.tsx:444-469 | a payment adds its amount to `collected`, puts its transaction first, sets the status from the new total and leaves every other field as it was |
| Billing.FindById | context/AppContext.tsx:445 | the index of the first record with the id; none iff no record has it |
| Billing.ApplyPayment | context/AppContext.tsx:444-469 | only the first record with the id changes, and it becomes `Pay` of itself; an unknown id changes nothing |
| Billing.TwoPayments | context/AppContext.tsx:444-469 | two payments add up, the later transaction comes first, and the status is the one for the summed total |
| Billing.NewBill | context/AppContext.tsx:479-490 | a new bill is for its shop and month, owes the shop's charge for its kind, has nothing collected and no transactions, is Pending and falls due on the kind's day of the month |
| Billing.MissingBills | context/AppContext.tsx:471-496 | at most one bill per listed shop, each for the month, Pending and with nothing collected |
| Billing.MissingBillsMembers | context/AppContext.tsx:471-505 | a generated bill is exactly a new bill for an Occupied shop that had none for the month |
| Billing.MissingBillsCover | context/AppContext.tsx:471-505 | after a generation every Occupied shop has a bill for the month |
| Billing.MissingBillsEmptyIff | context/AppContext.tsx:471-503 | a generation adds nothing iff every Occupied shop already has its bill, which is when "already exist" is reported |
| Billing.GenerateIdempotent | context/AppContext.tsx:471-505 | a second generation for the same month adds nothing |
| Billing.MissingBillsShops | context/AppContext.tsx:475-494 | each generated bill is for the month, for a listed shop that had no bill, and no two are for the same shop when shop ids are distinct |
| Billing.GeneratePreservesUnique | context/AppContext.tsx:471-505 | with distinct shop ids, generation keeps at most one bill per shop and month |
| Billing.ShopIndex | context/AppContext.tsx:508 | the lowest index of a shop with the id; none iff no shop has it |
| Billing.FindShop | context/AppContext.tsx:508 | `shops.find` by id: none iff no shop has it, otherwise the shop at `ShopIndex`, the first listed shop with that id |
| Billing.ReplaceShop | context/AppContext.tsx:363-374 | overwriting a shop document replaces every shop with that id and keeps the rest in place |
| Billing.ReplaceShopFinds | context/AppContext.tsx:363-374 | after an edit the edited shop is found under its id (when it existed) and every other id finds what it found before |
| Billing.BillCount | context/AppContext.tsx:507-525 | a collection holds no bill for a shop and month iff it has none |
| Billing.BillCountAppend | context/AppContext.tsx:507-525 | appending a bill raises the count for its own shop and month by one and no other |
| Billing.CreateBillAddsOne | context/AppContext.tsx:507-525 | a single-bill creation checks for no existing bill, so for a known shop it adds one more bill even when one exists |
| Store.NewerOrSameIsTotalPreorder | context/AppContext.tsx:189 | month-descending comparison (missing month as "") is a total preorder |
| Store.SnapshotOrder | context/AppContext.tsx:186-203 | each listener publishes a permutation of the documents sorted month-descending |
| Store.PlazaStore.constructor | context/AppContext.tsx:82-84 | the store holds the given directory and collections (empty on start-up, as the listeners then fill them) |
| Store.PlazaStore.SetRecords | context/AppContext.tsx:186-203 | a listener replaces one collection and leaves the other and the shops alone |
| Store.PlazaStore.AddPayment | context/AppContext.tsx:444-469 | the payment's collection becomes `ApplyPayment` of the old one with the payment transaction; nothing else changes |
| Store.PlazaStore.GenerateMonthly | context/AppContext.tsx:471-505 | the loop appends exactly the missing bills. The notice counts them for the month, or says for the month that they already exist, and only then. Every Occupied shop ends up billed, and uniqueness is kept |
| Store.PlazaStore.CreateBill | context/AppContext.tsx:507-525 | an unknown shop changes nothing; a known shop gets one new bill due on the 5th (rent) or 10th (maintenance) |
| Store.PlazaStore.AddShop | context/AppContext.tsx:321-361 | the shop is stored under its new id, and an Occupied shop is billed rent (due the 5th) and maintenance (due the 10th) for the current month, so a generation right after adds nothing for it |
| Store.PlazaStore.UpdateShop | context/AppContext.tsx:363-374 | the update succeeds iff the id is non-empty and a shop has it; on success the directory is `ReplaceShop` of the old one, else unchanged |
| Session.ProfilePermissions | context/AppContext.tsx:124-132 | an admin profile gets all five permissions; a staff profile its stored non-empty array, else dashboard only |
| Session.FallbackName | context/AppContext.tsx:144 | the account's display name if set; "User" when it is missing or empty |
| Session.SessionUser | context/AppContext.tsx:113-161 | a profile document gives its role, permissions, email and display name, and its stored uid overrides the account's uid; a missing profile or a listener error gives an admin with all permissions, the account's uid and email, and the account name or "User" |
| Session.SessionUserCanSeeDashboard | context/AppContext.tsx:113-161 | every signed-in user holds the dashboard permission, except a staff member whose stored permission list is non-empty and omits it; an admin holds all five |
| Session.StaffEntry | context/AppContext.tsx:217-226 | a staff-list entry takes its uid from a stored `uid` field, else from the document id; it keeps the stored role, email and display name, and its permissions are the stored array or empty |
| CollectionPage.FirstBill | pages/Rent.tsx:43 | the index of the first bill for the shop and month; none iff there is none |
| CollectionPage.FindBill | pages/Rent.tsx:43 | the first bill of the collection for the shop and month (`find`), when there is one |
| CollectionPage.MonthView | pages/Rent.tsx:40-49 | one entry per Occupied shop in directory order, carrying the first bill for the shop and month; "Not Generated" iff the shop has none, otherwise that bill's status |
| CollectionPage.MonthViewCoversOccupied | pages/Rent.tsx:40-49 | every Occupied shop appears in the month view |
| CollectionPage.SearchIgnoresCase | pages/Rent.tsx:51-57 | lower-casing the query does not change the search, and the empty query matches |
| CollectionPage.FilteredList | pages/Rent.tsx:51-62 | an entry is listed iff it matches the search and the status filter |
| Seqs.KeptPositions | pages/Rent.tsx:51-62 | `filter` keeps its input's order: the listed elements are the input's at strictly increasing positions |
| CollectionPage.FilteredListKeepsAll | pages/Rent.tsx:51-62 | no query and "All" list the whole month view |
| CollectionPage.ExportShops | pages/Rent.tsx:64-69 | the export picker lists exactly the shops matching its search |
| CollectionPage.Toggled | pages/Rent.tsx:105-116 | "all" toggles alone; a shop click drops "all", flips that shop and keeps the others, appending a new shop at the end |
| CollectionPage.ToggleShopSelection | pages/Rent.tsx:105-116 | the handler, run step by step as the page does, computes its specification `Toggled` |
| CollectionPage.ToggleTwice | pages/Rent.tsx:105-116 | clicking a shop twice restores the selection's members, and the very list when it did not hold the shop |
| CollectionPage.ExportRecords | pages/Rent.tsx:118-130 | exports exactly the dated records inside the month range and selection; the "no records" error iff there are none |
| CollectionPage.ExportEmptyRange | pages/Rent.tsx:118-130 | a range ending before it starts always gives the error |
| CollectionPage.TxDetails | pages/Rent.tsx:135 | one detail text per transaction, in order |
| CollectionPage.ExportRow | pages/Rent.tsx:132-139 | ten fields, one per header: month, shop, quoted owner, phone, the amount and collected as decimal text (empty when missing), the balance as decimal text, the status word, due date and the quoted "; "-joined transaction details |
| CollectionPage.ExportRowNumbers | pages/Rent.tsx:133-139 | the number columns read back as the amount and the collected sum, empty when missing, and as the balance, amount less collected |
| CollectionPage.ExportLines | pages/Rent.tsx:141 | the header line, then one line per exported record in order |
| CollectionPage.LineReadsBack | pages/Rent.tsx:133-141 | a record's line has no line break and, read by a quote-aware CSV split, gives back its row, when the plain fields hold no comma, quote or line break and the quoted ones no quote or line break |
| CollectionPage.HeaderReadsBack | pages/Rent.tsx:132 | the header line reads back as the ten headers |
| CollectionPage.ExportCsvReadsBack | pages/Rent.tsx:132-141 | the CSV splits into the header line plus one line per record, each reading back field by field as its row |
| CollectionPage.PaymentKeepsCsvSafe | pages/Rent.tsx:133-139 | recording a payment whose date, amount text and collector hold no quote or line break keeps a record exportable |
| CollectionPage.PayDefault | pages/Rent.tsx:157 | the amount offered is the balance, or 0 when nothing is owed |
| CollectionPage.PayDefaultSettles | pages/Rent.tsx:154-161 | paying the offered amount marks the bill Paid with collected at least the amount |
| CollectionPage.FormatFloor | pages/Rent.tsx:89-93 | Basement and Lower Ground read "Lower Ground", Ground reads "Ground Floor", any other name or a number n reads "Floor " followed by it |
| CollectionPage.YearOf | pages/Rent.tsx:193 | the year key is the month's text up to its first dash, or the whole text when it has none |
| CollectionPage.ShopRecords | pages/Rent.tsx:189 | exactly the records of the selected shop |
| CollectionPage.YearGroup | pages/Rent.tsx:190-196 | exactly the dated records whose year key is the given year |
| CollectionPage.NewerOrSameTotal | pages/Rent.tsx:198 | the in-group comparison is a total preorder |
| CollectionPage.LexLeqIsTotalPreorder | pages/Rent.tsx:197 | the default string sort's order is a total preorder |
| CollectionPage.HistoryGroupContents | pages/Rent.tsx:187-200 | a year group holds exactly the shop's records of that year, sorted newest first |
| CollectionPage.YearGroupPush | pages/Rent.tsx:192-196 | pushing one record extends a year's group by that record exactly when the record lies in that year, and leaves every other year's group as it was |
| CollectionPage.GroupedByYearPartitions | pages/Rent.tsx:190-196 | the dictionary's keys are the years seen, each once. Each group is that year's records and is non-empty, and an absent year has none |
| CollectionPage.GroupByYear | pages/Rent.tsx:192-196 | the `forEach` loop builds the keys and groups of `GroupedByYear` |
| CollectionPage.SortedKeys | pages/Rent.tsx:197 | sorting distinct keys keeps them and orders them strictly ascending |
| CollectionPage.YearsDescending | pages/Rent.tsx:197 | `sort().reverse()` lists each year once, strictly descending |
| CollectionPage.SortGroups | pages/Rent.tsx:198 | the loop sorts the listed years' groups newest first and leaves the rest |
| CollectionPage.ShopHistory | pages/Rent.tsx:187-200 | no selection gives nothing. Otherwise the years are strictly descending and are exactly those of the shop's dated records, each group holding that year's records sorted newest first |
| MaintenancePage.DigitsOnly | pages/Maintenance.tsx:164 | keeps exactly the digits of the phone, and an all-digit phone unchanged |
| MaintenancePage.DigitsOnlyAppend | pages/Maintenance.tsx:164 | stripping non-digits works piece by piece: the digits of a joined text are the digits of each part, in order |
| MaintenancePage.WhatsAppNumber | pages/Maintenance.tsx:158-167 | no number iff the phone is empty. Otherwise the digits, with a leading 0 replaced by 92 |
| MaintenancePage.WhatsAppNumberStable | pages/Maintenance.tsx:164-167 | normalising a produced number again leaves it unchanged |
| MaintenancePage.Arrears | pages/Maintenance.tsx:170-171 | previous dues are 0 when the shop has no earlier record |
| MaintenancePage.ArrearsNonNegative | pages/Maintenance.tsx:170-171 | previous dues are non-negative while no record is overpaid |
| MaintenancePage.ArrearsExcludeCurrent | pages/Maintenance.tsx:170 | the current record never counts towards its own arrears |
| MaintenancePage.TotalPayable | pages/Maintenance.tsx:170-179 | with no earlier record of the shop the total payable is the current balance |
| MaintenancePage.PaidInFullAfterPayment | pages/Maintenance.tsx:204 | after a payment the closing line says "PAID IN FULL" iff the collected total reaches the amount due |
| MaintenancePage.OnlyBillOfItsMonth | pages/Maintenance.tsx:170-179 | with one bill per shop and month, the current record is the only one of its shop and month |
| MaintenancePage.UpToSplits | pages/Maintenance.tsx:170-179 | the shop's records up to this month split into the earlier ones and this bill |
| MaintenancePage.TotalPayableUpToNow | pages/Maintenance.tsx:170-179 | with one bill per shop and month, previous dues plus the current balance is the balance of all the shop's records up to this month |
| MaintenancePage.SettledBillIsPaidInFull | pages/Maintenance.tsx:174-204 | a bill settled with its balance says "PAID IN FULL", its balance is 0, and the total payable it announces is the arrears alone |
| JsDates.NumberOf | pages/Revenue.tsx:149 | `Number` of blank text is 0 |
| JsDates.NumberOfDigits | pages/Revenue.tsx:149 | `Number` of a digit run is its value |
| JsDates.LocalDateString | pages/Revenue.tsx:19-24 | year, then two-digit month and day separated by dashes |
| JsDates.DateFieldsRoundTrip | pages/Revenue.tsx:19-24 | reading back a date string gives its year, 1-based month and day |
| JsDates.DayRangeCoversDay | pages/Revenue.tsx:148-157 | a day picked as both ends covers every time of that day |
| JsDates.LocalDayBounds | pages/Revenue.tsx:149-152 | the range ends are the day's first and last millisecond |
| JsDates.DayEndsOfFields | pages/Revenue.tsx:149-152 | the range ends follow from the fields read from the input |
| JsDates.Lead | pages/Revenue.tsx:30 | a one- or two-digit field followed by a separator |
| JsDates.HourLength | pages/Revenue.tsx:36 | a one- or two-digit hour followed by ':' |
| JsDates.FindTimeSkips | pages/Revenue.tsx:36 | the leftmost time match is not found in a prefix that cannot start one |
| JsDates.To24 | pages/Revenue.tsx:41-43 | PM before 12 adds 12, 12 AM is hour 0, otherwise the hour is kept |
| JsDates.TwelveHourClock | pages/Revenue.tsx:41-43 | a 12-hour reading maps into 0..23, before noon iff AM, same hour modulo 12 |
| JsDates.TwelveHourOnto | pages/Revenue.tsx:41-43 | every hour of the day is the correction of some 12-hour reading |
| JsDates.DateOf | pages/Revenue.tsx:26-49 | empty text gives 0; a native parse wins; otherwise text without a day-first date gives 0 |
| JsDates.ParseDate | pages/Revenue.tsx:26-49 | the step-by-step parse computes `DateOf` |
| JsDates.DayFirstRoundTrip | pages/Revenue.tsx:26-49 | a day-first date with a 12-hour time that the native parse rejects is read back as exactly that moment |
| JsDates.DayFirstTextMatches | pages/Revenue.tsx:30-36 | both patterns find the fields such a text was written from |
| JsDates.DateOfMatches | pages/Revenue.tsx:31-46 | once both patterns match, the date is built from their fields with the 12-hour correction |
| Revenue.AmountOf | pages/Revenue.tsx:75-78 | a numeric amount is kept; text that does not parse counts 0 |
| Revenue.AmountOfNumberText | pages/Revenue.tsx:75-78 | an amount stored as the text of a whole number counts as that number |
| Revenue.ParseFloatDigits | pages/Revenue.tsx:75 | `parseFloat` of a digit run is its value |
| Revenue.ParseFloatNegative | pages/Revenue.tsx:75 | `parseFloat` of a minus sign and a digit run is the negated value |
| Revenue.FlattenTxsEntries | pages/Revenue.tsx:74-85 | one entry per transaction, in order |
| Revenue.Flatten | pages/Revenue.tsx:72-87 | the flat list has one entry per transaction of every record |
| Revenue.FlattenMembers | pages/Revenue.tsx:72-87 | an entry is listed iff it is the entry of some transaction of some record |
| Revenue.NewestFirstIsTotalPreorder | pages/Revenue.tsx:106 | newest-first comparison is a total preorder |
| Revenue.AllTransactions | pages/Revenue.tsx:69-107 | the result is a permutation of the rent entries followed by the maintenance entries, sorted newest first |
| Revenue.PushTransactions | pages/Revenue.tsx:72-87 | the outer `forEach` appends a collection's entries |
| Revenue.PushRecord | pages/Revenue.tsx:73-86 | the inner `forEach` appends one record's entries |
| Revenue.FilteredTransactions | pages/Revenue.tsx:148-170 | an entry is shown iff its date is valid, lies in the range and matches the search and the type |
| Revenue.EmptySearchMatches | pages/Revenue.tsx:159-164 | the empty query matches every entry |
| Revenue.OneDayShown | pages/Revenue.tsx:148-170 | with one day as both ends, no search and all types, exactly the entries of that day are shown |
| Revenue.TransactionOfTheDayShown | pages/Revenue.tsx:148-170 | every transaction made on the picked day is shown, at any time of it |
| Revenue.TotalRevenue | pages/Revenue.tsx:172 | the total is non-negative when every shown amount is |
| Revenue.TotalSplitsByType | pages/Revenue.tsx:166-172 | the total over all types is the rent total plus the maintenance total |
| Revenue.ExportRow | pages/Revenue.tsx:181-189 | seven fields, one per header: the quoted date, type, shop, quoted owner, the amount reading back as a number, collector and the quoted note |
| Revenue.ExportLines | pages/Revenue.tsx:174-190 | refused iff nothing is shown; otherwise the header then one line per entry |
| Revenue.ExportLineReadsBack | pages/Revenue.tsx:181-190 | a safe entry's line has no line break and, read by the quote-aware CSV split, gives back its row |
| Revenue.ExportHeaderReadsBack | pages/Revenue.tsx:180-190 | the header line reads back as the seven headers |
| Revenue.ExportCsvReadsBack | pages/Revenue.tsx:174-190 | an export exists iff something is shown, and then reads back as the header plus one row per shown entry, field by field, when every entry is safe |
| Dashboard.OccupiedShops | pages/Dashboard.tsx:12 | the occupied count never exceeds the shop count |
| Dashboard.FullOccupancy | pages/Dashboard.tsx:12 | the occupied count equals the shop count iff every shop is occupied |
| Dashboard.NoOccupancy | pages/Dashboard.tsx:12 | the occupied count is 0 iff no shop is occupied |
| Dashboard.OccupancyPercent | pages/Dashboard.tsx:72 | 0 with no shops; otherwise the occupied share as the nearest whole percentage, halves up, at most 100 |
| Dashboard.TotalRevenue | pages/Dashboard.tsx:14-16 | the revenue is non-negative while no record's collected sum is negative |
| Dashboard.PendingDues | pages/Dashboard.tsx:14-20 | pending dues are what was billed less the revenue |
| Dashboard.PendingNonNegative | pages/Dashboard.tsx:18-20 | pending dues are non-negative while no record is overpaid |
| Dashboard.PendingNotClamped | pages/Dashboard.tsx:18-20 | one overpaid record makes pending dues negative |
| Dashboard.DisplayedRecords | pages/Dashboard.tsx:46 | the first five records (or all, when fewer) of the selected tab, in order |
| Layout.NavItems | components/Layout.tsx:21-31 | exactly the entries whose permission the user holds |
| Layout.NavItemsInOrder | components/Layout.tsx:21-31 | the entries keep the fixed order, each at most once |
| Layout.NoUserNoNav | components/Layout.tsx:21-31 | no user, no navigation |
| Layout.AllPermissionsSeeAll | components/Layout.tsx:21-31 | a user with all five permissions sees all five entries |
| Layout.MobileNav | components/Layout.tsx:171 | the bottom bar shows the first five entries |
| Layout.MobileNavShowsAll | components/Layout.tsx:171 | the five-entry cap never hides an entry |
| Layout.FindActive | components/Layout.tsx:19 | the first entry for the current path; none iff no entry has it |
| Layout.HeaderTitle | components/Layout.tsx:109 | the name of the first entry for the path ("Plaza Manager" when that name is empty), "Plaza Manager" when there is none |
| Layout.HeaderNamesPermittedPage | components/Layout.tsx:109 | on each page the user may open, the header shows that page's name |
| Layout.NavItemIdentified | components/Layout.tsx:21-31 | the entries have distinct paths and non-empty names |
| Layout.SidebarBrand | components/Layout.tsx:61 | the plaza name; "Plaza Manager" when it is empty |
| Layout.MobileBrand | components/Layout.tsx:103 | the plaza name; "Plaza" when it is empty |
| Layout.AvatarInitial | components/Layout.tsx:129 | one letter: the display name's first; "U" when there is no user or the name is empty |
| SettingsPage.TabButtons | pages/Settings.tsx:97 | the staff tab is offered iff the user is an admin |
| SettingsPage.StaffPanelGuards | pages/Settings.tsx:173-214 | only an admin sees the staff panel; everyone's card but their own offers revoking |
| SettingsPage.TogglePermission | pages/Settings.tsx:70-79 | flips membership of that permission only: removal drops every copy, addition appends at the end |
| SettingsPage.ToggleTwice | pages/Settings.tsx:70-79 | toggling twice restores membership, and the list itself when it lacked the permission |
| SettingsPage.FormDefaults | pages/Settings.tsx:34-40 | a new form grants dashboard, rent and maintenance; a reset one dashboard only |
| SettingsPage.FinishAddStaff | pages/Settings.tsx:56-68 | success closes the dialog and resets the form; failure keeps both and shows the error; loading is cleared |
| ShopsPage.FilteredShops | pages/Shops.tsx:40-45 | a shop is listed iff it matches the status tab and the search |
| ShopsPage.NoFilterShowsAll | pages/Shops.tsx:40-45 | no search and "All" list every shop in order |
| ShopsPage.StatusTabsPartition | pages/Shops.tsx:40-45 | the Occupied and Vacant tabs split the "All" listing |
| ShopsPage.NumberOr0 | pages/Shops.tsx:74-79 | a cleared numeric field counts as 0 |
| ShopsPage.FormOf | pages/Shops.tsx:62-67 | saving an unedited edit form gives back the shop |
| ShopsPage.ShopOfForm | pages/Shops.tsx:74-79 | the saved shop carries the form's texts and coerced numbers under the given id |
| ShopsPage.ShopsScreen.constructor | pages/Shops.tsx:8-27 | the page opens on "All" with no search, dialog closed, empty form |
| ShopsPage.ShopsScreen.OpenAdd | pages/Shops.tsx:47-60 | opens the dialog on the empty form in add mode |
| ShopsPage.ShopsScreen.OpenEdit | pages/Shops.tsx:62-67 | opens the dialog on the shop's form in edit mode |
| ShopsPage.ShopsScreen.Save | pages/Shops.tsx:69-104 | nothing happens iff a required field is empty. Otherwise the shop is added (an Occupied one billed for the current month in both collections, a Vacant one not billed) or updated, and the dialog resets only when the save went through |
| LoginPage.ErrorMessage | pages/Login.tsx:46-57 | one message per known error code, the error's own message otherwise, never empty |
| LoginPage.CredentialErrorsAlike | pages/Login.tsx:47-48 | the three credential errors read alike |
| LoginPage.NextClickCount | pages/Login.tsx:79-89 | the fifth click wraps the counter to 0 |
| LoginPage.CountAfterIsModulo | pages/Login.tsx:79-89 | clicks count modulo five, and every fifth click, and only it, enables set-up mode |
| LoginPage.LoginScreen.constructor | pages/Login.tsx:8-20 | the page opens with empty fields, count 0 and no dialog |
| LoginPage.LoginScreen.LogoClick | pages/Login.tsx:79-89 | the fifth click turns on sign-up mode with a notice and resets the count; the counter stays below five, and no other field changes |
| LoginPage.LoginScreen.BackToLogin | pages/Login.tsx:204 | leaves sign-up mode and clears the message; every other field stays |
| LoginPage.LoginScreen.Submit | pages/Login.tsx:34-45 | signs up in set-up mode, else signs in, with the email trimmed, while loading with no message; the form, the counter and the reset dialog stay |
| LoginPage.LoginScreen.SubmitSettled | pages/Login.tsx:45-59 | a failure shows its message and re-enables the button; a success changes nothing; every other field stays |
| LoginPage.LoginScreen.RequestReset | pages/Login.tsx:62-70 | an empty field sends nothing; otherwise the trimmed address is sent, the empty text for an address of white space alone; only the reset loading flag changes |
| LoginPage.LoginScreen.ResetSettled | pages/Login.tsx:69-76 | success closes the dialog and clears the field; loading drops either way; the sign-in form and the counter stay |
| LoginPage.BlankResetAddressSent | pages/Login.tsx:64-66 | any non-empty address of white space alone passes the guard and is sent trimmed to nothing |

## Left out

- Firebase reads and writes, listeners and their concurrency: the store's methods apply each write at once, and listeners are `SetRecords`.
- Document ids, the current month and the clock are parameters; the random shop id the Shops page makes is discarded by `addShop`, which uses the new document's id.
- The browser's own date parse (`new Date(str)`) is a parameter of `parseDate`; time zones are not modelled (local time is UTC).
- Floating point: amounts are whole numbers; `parseFloat` reads only the integer part, and `Math.round` is exact rounding of a rational.
- `Number` on date-input text: the exponent, hexadecimal and fractional forms are not modelled, and NaN is `None`.
- Unicode case folding: `toLowerCase` is ASCII only.
- `localeCompare` is code-unit order.
- Date formatting for display (`formatDate`, `toLocaleString`), status colours, icons and the rest of the markup.
- The WhatsApp message text and opening the link; only the number and the sums it shows are modelled.
- Creating the CSV file and its download; the CSV text is modelled.
- Revenue's quick date ranges (`applyFilter`): they only set the two date inputs.
- The general settings form (`updateSettings`) and the theme.
- `addStaff` and revoking access: they call the authentication service; only the Settings dialog's handling of the outcome is modelled.
- Toasts, except the one message of `FinishAddStaff`.
- Logout, the profile menu, the login redirect and the "View All" navigation.
- Repair records, which the core pages only store.
- Session.SessionUser: a profile's fields other than uid, email, display name, role and permissions are not modelled. A profile missing its email or display name field is not modelled either; the model takes both as stored text.
- Session.StaffEntry, Session.SessionUser: a stored `uid` field wins over the document id or the account's uid. The app's own writes (context/AppContext.tsx:268-269 and 386-391) always store the document id there, so on app-written profiles the two agree.
- ShopsPage.ShopsScreen.Save: the confirmation and failure toasts of `addShop` are not modelled.
- CollectionPage.LineReadsBack, CollectionPage.ExportCsvReadsBack: a record whose owner, transaction date, amount text or collector holds a `"` or a line break, or whose month, shop number, phone or due date holds a comma, `"` or line break, is not covered; the page writes these fields without escaping, so such a line does not read back as its row.
- MaintenancePage.Arrears: a record stored without a month is modelled with the empty month, which sorts below every month and so counts towards the arrears; in the page `undefined < month` is false and such a record is left out.
- Revenue.ExportLineReadsBack, Revenue.ExportCsvReadsBack: an entry whose date, owner or note holds a `"` or line break, or whose shop number or collector holds a comma, `"` or line break, is not covered; the page writes these fields without escaping, and the collector column is not quoted.
