/** The Settings page: which tabs a user sees, the new-staff form with its
    permission toggles and its reset after a successful add, and who is
    offered to revoke whose access. */
module SettingsPage {
  import opened Wrappers
  import opened Types
  import opened Seqs

  // ---------------------------------------------------------------------
  // Tabs

  datatype SettingsTab = GeneralTab | StaffTab | InfoTab

  predicate IsAdmin(user: Option<User>)
  {
    user.Some? && user.value.role == Admin
  }

  /** The tab buttons: the staff tab only for an admin. */
  function TabButtons(user: Option<User>): (tabs: seq<SettingsTab>)
    ensures StaffTab in tabs <==> IsAdmin(user)
    ensures GeneralTab in tabs && InfoTab in tabs
  {
    if IsAdmin(user) then [GeneralTab, StaffTab, InfoTab] else [GeneralTab, InfoTab]
  }

  /** `activeTab === 'staff' && user?.role === 'admin'`: the staff panel. */
  predicate StaffPanelShown(active: SettingsTab, user: Option<User>)
  {
    active == StaffTab && IsAdmin(user)
  }

  /** `staff.uid !== user?.uid`: the "Revoke Access" button on a staff card. */
  predicate RevokeOffered(staff: User, user: Option<User>)
  {
    user.None? || staff.uid != user.value.uid
  }

  /** Only an admin sees the staff panel, and there nobody is offered to
      revoke their own access, while every other account's card offers it. */
  lemma StaffPanelGuards(active: SettingsTab, user: Option<User>, staff: User)
    requires StaffPanelShown(active, user)
    ensures user.Some? && user.value.role == Admin && StaffTab in TabButtons(user)
    ensures RevokeOffered(staff, user) <==> staff.uid != user.value.uid
  {
  }

  // ---------------------------------------------------------------------
  // New-staff form

  /** The form's `Partial<User>`; a missing `permissions` is `None`. */
  datatype StaffForm = StaffForm(
    email: string,
    password: string,
    displayName: string,
    role: Role,
    permissions: Option<seq<Permission>>)
  {
    /** `prev.permissions || []` */
    function Perms(): seq<Permission> { permissions.GetOr([]) }
  }

  /** The form when the page opens. */
  const InitialStaffForm: StaffForm :=
    StaffForm("", "", "", Staff, Some([DashboardArea, RentArea, MaintenanceArea]))

  /** The form after a successful add. */
  const ResetStaffForm: StaffForm :=
    StaffForm("", "", "", Staff, Some([DashboardArea]))

  /** The permissions the form offers as checkboxes; dashboard is granted
      by default and has none. */
  const OfferedPermissions: seq<Permission> := [ShopsArea, RentArea, MaintenanceArea]

  /** `togglePermission(perm)`: a held permission is filtered out, every
      copy of it; any other is appended at the end. */
  function TogglePermission(form: StaffForm, perm: Permission): (next: StaffForm)
    ensures next.email == form.email && next.password == form.password
    ensures next.displayName == form.displayName && next.role == form.role
    ensures next.permissions.Some?
    ensures perm in next.Perms() <==> perm !in form.Perms()
    ensures forall q :: q != perm ==> (q in next.Perms() <==> q in form.Perms())
    ensures perm in form.Perms() ==> |next.Perms()| < |form.Perms()|
    ensures perm !in form.Perms() ==>
              |next.Perms()| == |form.Perms()| + 1 && next.Perms()[|form.Perms()|] == perm
              && next.Perms()[..|form.Perms()|] == form.Perms()
  {
    var perms := form.Perms();
    if perm in perms then
      RemoveAllShrinks(perms, perm);
      form.(permissions := Some(RemoveAll(perms, perm)))
    else
      form.(permissions := Some(perms + [perm]))
  }

  /** Dropping a present element shortens a sequence. */
  lemma {:induction false} RemoveAllShrinks<T(!new)>(s: seq<T>, x: T)
    requires x in s
    ensures |RemoveAll(s, x)| < |s|
  {
    if s[0] != x {
      assert x in s[1..];
      RemoveAllShrinks(s[1..], x);
    }
  }

  /** Toggling a permission twice restores whether every permission is
      held; starting from a list without it, the very list comes back. */
  lemma ToggleTwice(form: StaffForm, perm: Permission)
    ensures forall q :: q in TogglePermission(TogglePermission(form, perm), perm).Perms() <==> q in form.Perms()
    ensures perm !in form.Perms() ==>
              TogglePermission(TogglePermission(form, perm), perm).Perms() == form.Perms()
  {
    if perm !in form.Perms() {
      RemoveAllAppended(form.Perms(), perm);
    }
  }

  /** A new form grants dashboard, rent and maintenance; a reset one only
      dashboard, so the rent and maintenance boxes start unticked after the
      first add. */
  lemma FormDefaults()
    ensures InitialStaffForm.Perms() == [DashboardArea, RentArea, MaintenanceArea]
    ensures ResetStaffForm.Perms() == [DashboardArea]
    ensures forall p :: p in OfferedPermissions ==> p !in ResetStaffForm.Perms()
    ensures forall p :: p in OfferedPermissions ==> (p in InitialStaffForm.Perms() <==> p != ShopsArea)
  {
  }

  /** The staff dialog: whether it is open, the form and the loading flag. */
  datatype StaffDialog = StaffDialog(open: bool, form: StaffForm, loading: bool)

  /** `handleAddStaff` after `addStaff` settles (`succeeded`): on success the
      dialog closes and the form resets; on failure both stay and an error
      toast is shown. The loading flag is cleared either way. */
  function FinishAddStaff(d: StaffDialog, succeeded: bool): (r: (StaffDialog, Option<string>))
    ensures !r.0.loading
    ensures succeeded ==> !r.0.open && r.0.form == ResetStaffForm && r.1.None?
    ensures !succeeded ==> r.0.open == d.open && r.0.form == d.form
                           && r.1 == Some("Failed to add staff member.")
  {
    if succeeded then (StaffDialog(false, ResetStaffForm, false), None)
    else (d.(loading := false), Some("Failed to add staff member."))
  }
}
