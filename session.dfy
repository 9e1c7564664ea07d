/** How the signed-in user and the staff list are built from stored profile
    documents: the role decides the permissions, and a stored permission
    list that is not an array is replaced. */
module Session {
  import opened Wrappers
  import opened Types

  /** A stored `permissions` field: an array of permissions, or anything
      else (missing, null, a string, ...). */
  datatype StoredPermissions = NotAnArray | PermList(perms: seq<Permission>)

  /** What the profile listener receives for the signed-in account. A
      profile document may carry its own `uid` field; the app's own writes
      always store the document id there. */
  datatype ProfileSnapshot =
    | ProfileDoc(storedUid: Option<string>, role: Role, email: string, displayName: string,
                 permissions: StoredPermissions)
    | ProfileMissing
    | ProfileError

  /** The permissions a stored profile grants: all five for an admin; for
      staff, the stored list when it is a non-empty array, else dashboard
      only. */
  function ProfilePermissions(role: Role, stored: StoredPermissions): (ps: seq<Permission>)
    ensures role == Admin ==> ps == AllPermissions
    ensures role == Staff && stored.PermList? && stored.perms != [] ==> ps == stored.perms
    ensures role == Staff && (stored.NotAnArray? || stored.perms == []) ==> ps == [DashboardArea]
    ensures ps != []
  {
    match role
    case Admin => AllPermissions
    case Staff =>
      match stored
      case PermList(perms) => if perms != [] then perms else [DashboardArea]
      case NotAnArray => [DashboardArea]
  }

  /** `firebaseUser.displayName || 'User'` */
  function FallbackName(authName: Option<string>): (n: string)
    ensures n != ""
    ensures authName.Some? && authName.value != "" ==> n == authName.value
    ensures authName.None? || authName.value == "" ==> n == "User"
  {
    match authName
    case Some(a) => if a != "" then a else "User"
    case None => "User"
  }

  /** The session user set by the profile listener. The stored fields are
      spread after the account's uid, so a stored `uid` wins. A missing
      profile or a listener error never locks the account out: both yield an
      admin with every permission. */
  function SessionUser(uid: string, authEmail: Option<string>, authName: Option<string>,
                       snap: ProfileSnapshot): (u: User)
    ensures snap.ProfileDoc? ==> u.uid == snap.storedUid.GetOr(uid)
    ensures !snap.ProfileDoc? ==> u.uid == uid
    ensures snap.ProfileDoc? ==> u.email == snap.email && u.displayName == snap.displayName
    ensures !snap.ProfileDoc? ==> u.email == authEmail.GetOr("")
    ensures snap.ProfileDoc? ==> u.role == snap.role && u.permissions == ProfilePermissions(snap.role, snap.permissions)
    ensures !snap.ProfileDoc? ==> u.role == Admin && u.permissions == AllPermissions
    ensures snap.ProfileError? ==> u.displayName == "User"
    ensures snap.ProfileMissing? ==> u.displayName == FallbackName(authName)
  {
    match snap
    case ProfileDoc(storedUid, role, email, name, stored) =>
      User(storedUid.GetOr(uid), email, name, role, ProfilePermissions(role, stored))
    case ProfileMissing =>
      User(uid, authEmail.GetOr(""), FallbackName(authName), Admin, AllPermissions)
    case ProfileError =>
      User(uid, authEmail.GetOr(""), "User", Admin, AllPermissions)
  }

  /** A signed-in user holds the dashboard permission, except a staff member
      whose stored permission list is non-empty and omits it; an admin holds
      every permission. */
  lemma SessionUserCanSeeDashboard(uid: string, authEmail: Option<string>, authName: Option<string>,
                                   snap: ProfileSnapshot)
    ensures DashboardArea in SessionUser(uid, authEmail, authName, snap).permissions
              || (snap.ProfileDoc? && snap.role == Staff && snap.permissions.PermList?
                  && snap.permissions.perms != [] && DashboardArea !in snap.permissions.perms)
    ensures SessionUser(uid, authEmail, authName, snap).role == Admin ==>
              forall p :: p in SessionUser(uid, authEmail, authName, snap).permissions
  {
    var u := SessionUser(uid, authEmail, authName, snap);
    if u.role == Admin {
      forall p ensures p in u.permissions {
        assert p == AllPermissions[0] || p == AllPermissions[1] || p == AllPermissions[2]
            || p == AllPermissions[3] || p == AllPermissions[4];
      }
    }
  }

  /** One staff-list entry: the document id becomes the uid unless the
      document stores a `uid` of its own, which is spread after it, and a
      non-array permission field becomes the empty list. */
  function StaffEntry(docId: string, storedUid: Option<string>, role: Role, email: string,
                      displayName: string, stored: StoredPermissions): (u: User)
    ensures u.uid == storedUid.GetOr(docId)
    ensures u.role == role && u.email == email && u.displayName == displayName
    ensures stored.PermList? ==> u.permissions == stored.perms
    ensures stored.NotAnArray? ==> u.permissions == []
  {
    User(storedUid.GetOr(docId), email, displayName, role,
         match stored
         case PermList(perms) => perms
         case NotAnArray => [])
  }
}
