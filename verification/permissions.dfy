/**
 * Permissions: the user administration page. Users are added, edited and
 * deleted; a user's permissions are chosen by id from the permission catalog.
 */
module Permissions {

  import opened Wrappers
  import opened Types
  import Text
  import Lists

  /** The ten permissions the page offers, in display order. */
  const Catalog: seq<Permission> := [
    Permission("1", "View Assets", "View and browse media assets", Assets, Read),
    Permission("2", "Upload Assets", "Upload new media assets", Assets, Create),
    Permission("3", "Edit Assets", "Edit asset metadata and properties", Assets, Update),
    Permission("4", "Delete Assets", "Delete media assets", Assets, Delete),
    Permission("5", "View Users", "View user accounts and information", Users, Read),
    Permission("6", "Manage Users", "Create, edit, and delete user accounts", Users, Create),
    Permission("7", "Edit Users", "Edit user information and permissions", Users, Update),
    Permission("8", "Delete Users", "Delete user accounts", Users, Delete),
    Permission("9", "View Settings", "View system settings", Settings, Read),
    Permission("10", "Manage Settings", "Modify system settings", Settings, Update)
  ]

  /** No two permissions of a catalog share an id. */
  predicate DistinctIds(catalog: seq<Permission>) {
    forall i, j :: 0 <= i < j < |catalog| ==> catalog[i].id != catalog[j].id
  }

  lemma CatalogIdsDistinct()
    ensures DistinctIds(Catalog)
  {
  }

  /** The add/edit form: the chosen permissions are held as ids. */
  datatype UserForm = UserForm(name: string, email: string, role: Role, permissions: seq<string>)

  const EmptyForm := UserForm("", "", Viewer, [])

  datatype PermissionsState = PermissionsState(
    users: seq<User>,
    catalog: seq<Permission>,
    selected: Option<User>,
    form: UserForm,
    showAdd: bool,
    showEdit: bool)

  /** The form is rejected when the trimmed name or the trimmed email is empty. */
  predicate FormUsable(f: UserForm) {
    !Text.IsBlank(f.name) && !Text.IsBlank(f.email)
  }

  function ChosenBy(ids: seq<string>): Permission -> bool {
    (p: Permission) => p.id in ids
  }

  /** `permissions.filter(p => ids.includes(p.id))`: catalog order, unknown ids ignored, duplicates collapsed. */
  function Granted(catalog: seq<Permission>, ids: seq<string>): (r: seq<Permission>)
    ensures Lists.IsSubsequence(r, catalog)
    ensures forall p :: p in r <==> p in catalog && p.id in ids
  {
    Lists.FilterIsSubsequence(ChosenBy(ids), catalog);
    var r := Lists.Filter(ChosenBy(ids), catalog);
    assert forall p :: p in r ==> p in catalog && p.id in ids by {
      forall p | p in r ensures p in catalog && p.id in ids {
        var k :| 0 <= k < |r| && r[k] == p;
      }
    }
    assert forall p :: p in catalog && p.id in ids ==> p in r by {
      forall p | p in catalog && p.id in ids ensures p in r {
        Lists.FilterKeeps(ChosenBy(ids), catalog, p);
      }
    }
    r
  }

  /** Only which ids are chosen matters, not their order or repetition. */
  lemma {:induction false} GrantedBySetOfIds(catalog: seq<Permission>, ids: seq<string>, ids': seq<string>)
    requires forall x :: x in ids <==> x in ids'
    ensures Granted(catalog, ids) == Granted(catalog, ids')
  {
    if |catalog| > 0 {
      GrantedBySetOfIds(catalog[1..], ids, ids');
      assert Lists.Filter(ChosenBy(ids), catalog[1..]) == Lists.Filter(ChosenBy(ids'), catalog[1..]);
    }
  }

  /** `handlePermissionToggle`: removes a chosen id, appends an unchosen one. */
  function TogglePermission(f: UserForm, id: string): (r: UserForm)
    ensures id in r.permissions <==> id !in f.permissions
    ensures forall x :: x != id ==> (x in r.permissions <==> x in f.permissions)
    ensures id !in f.permissions ==> r.permissions == f.permissions + [id]
    ensures id in f.permissions ==> Lists.IsSubsequence(r.permissions, f.permissions)
    ensures id in f.permissions ==> multiset(r.permissions) == multiset(f.permissions)[id := 0]
    ensures r == f.(permissions := r.permissions)
  {
    Lists.ToggleFlipsMembership(f.permissions, id);
    f.(permissions := Lists.Toggle(f.permissions, id))
  }

  /** Toggling an unchosen permission twice leaves the form as it was. */
  lemma TogglePermissionTwice(f: UserForm, id: string)
    requires id !in f.permissions
    ensures TogglePermission(TogglePermission(f, id), id) == f
  {
    Lists.ToggleTwiceRestores(f.permissions, id);
  }

  /** `handleAddUser`: one user appended at the end, the form reset to a viewer with no permissions. */
  function AddUser(s: PermissionsState, freshId: string, now: int): (r: PermissionsState)
    ensures !FormUsable(s.form) ==> r == s
    ensures FormUsable(s.form) ==>
              && r.users == s.users + [User(freshId, s.form.email, s.form.name, s.form.role,
                                            Granted(s.catalog, s.form.permissions), now, now)]
              && r.form == EmptyForm && !r.showAdd
              && r.catalog == s.catalog && r.selected == s.selected
  {
    if !FormUsable(s.form) then s
    else
      var user := User(freshId, s.form.email, s.form.name, s.form.role, Granted(s.catalog, s.form.permissions), now, now);
      s.(users := s.users + [user], form := EmptyForm, showAdd := false)
  }

  function Ids(ps: seq<Permission>): (r: seq<string>)
    ensures |r| == |ps|
    ensures forall k :: 0 <= k < |ps| ==> r[k] == ps[k].id
  {
    seq(|ps|, k requires 0 <= k < |ps| => ps[k].id)
  }

  /** `handleEditUser`: the user is selected and the form filled from it, permissions as ids. */
  function EditUser(s: PermissionsState, u: User): (r: PermissionsState)
    ensures r.selected == Some(u) && r.showEdit
    ensures r.form == UserForm(u.name, u.email, u.role, Ids(u.permissions))
    ensures r.users == s.users && r.catalog == s.catalog
  {
    s.(selected := Some(u), form := UserForm(u.name, u.email, u.role, Ids(u.permissions)), showEdit := true)
  }

  /** The selected user as the form describes it. */
  function Updated(u: User, catalog: seq<Permission>, f: UserForm, now: int): (r: User)
    ensures r.id == u.id && r.createdAt == u.createdAt
    ensures r.name == f.name && r.email == f.email && r.role == f.role && r.updatedAt == now
    ensures r.permissions == Granted(catalog, f.permissions)
  {
    u.(name := f.name, email := f.email, role := f.role, permissions := Granted(catalog, f.permissions), updatedAt := now)
  }

  /** `handleUpdateUser`: every user with the selected id is replaced; the selection and the form are cleared. */
  function UpdateUser(s: PermissionsState, now: int): (r: PermissionsState)
    ensures s.selected.None? || !FormUsable(s.form) ==> r == s
    ensures s.selected.Some? && FormUsable(s.form) ==>
              && |r.users| == |s.users|
              && (forall k :: 0 <= k < |s.users| && s.users[k].id != s.selected.value.id ==> r.users[k] == s.users[k])
              && (forall k :: 0 <= k < |s.users| && s.users[k].id == s.selected.value.id ==>
                    r.users[k] == Updated(s.selected.value, s.catalog, s.form, now))
              && r.selected.None? && r.form == EmptyForm && !r.showEdit
  {
    if s.selected.None? || !FormUsable(s.form) then s
    else
      var updated := Updated(s.selected.value, s.catalog, s.form, now);
      var users := Lists.UpdateWhere(s.users, (u: User) => u.id == updated.id, _ => updated);
      s.(users := users, selected := None, form := EmptyForm, showEdit := false)
  }

  /**
   * Opening a user in the editor and saving without changes keeps the same set
   * of permissions, provided every one of them comes from a catalog with distinct ids.
   */
  lemma EditThenUpdateKeepsPermissions(s: PermissionsState, u: User, now: int)
    requires DistinctIds(s.catalog)
    requires forall p :: p in u.permissions ==> p in s.catalog
    requires FormUsable(UserForm(u.name, u.email, u.role, Ids(u.permissions)))
    ensures forall p :: p in Updated(u, s.catalog, EditUser(s, u).form, now).permissions <==> p in u.permissions
  {
    var ids := Ids(u.permissions);
    forall p | p in s.catalog && p.id in ids ensures p in u.permissions {
      var k :| 0 <= k < |ids| && ids[k] == p.id;
      var q := u.permissions[k];
      assert q in s.catalog;
      var i :| 0 <= i < |s.catalog| && s.catalog[i] == p;
      var j :| 0 <= j < |s.catalog| && s.catalog[j] == q;
      assert i == j;
    }
    forall p | p in u.permissions ensures p.id in ids {
      var k :| 0 <= k < |u.permissions| && u.permissions[k] == p;
    }
  }

  function OtherThan(userId: string): User -> bool {
    (u: User) => u.id != userId
  }

  /** `handleDeleteUser`: once confirmed, every user with the id is removed; the rest stay in order. */
  function DeleteUser(s: PermissionsState, userId: string, confirmed: bool): (r: PermissionsState)
    ensures !confirmed ==> r == s
    ensures confirmed ==>
              && Lists.IsSubsequence(r.users, s.users)
              && (forall k :: 0 <= k < |r.users| ==> r.users[k].id != userId)
              && (forall u :: u in s.users && u.id != userId ==> u in r.users)
              && (forall u :: multiset(r.users)[u] == if u.id != userId then multiset(s.users)[u] else 0)
              && r == s.(users := r.users)
  {
    if !confirmed then s
    else
      Lists.FilterIsSubsequence(OtherThan(userId), s.users);
      Lists.FilterCounts(OtherThan(userId), s.users);
      s.(users := Lists.Filter(OtherThan(userId), s.users))
  }

  /** Adding a user under a fresh id and then deleting that id gives back the original list. */
  lemma AddThenDeleteUser(s: PermissionsState, freshId: string, now: int)
    requires FormUsable(s.form)
    requires forall k :: 0 <= k < |s.users| ==> s.users[k].id != freshId
    ensures DeleteUser(AddUser(s, freshId, now), freshId, true).users == s.users
  {
    var user := User(freshId, s.form.email, s.form.name, s.form.role, Granted(s.catalog, s.form.permissions), now, now);
    Lists.FilterDropsAppended(OtherThan(freshId), s.users, user);
  }
}
