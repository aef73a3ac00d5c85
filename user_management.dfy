/** The user administration page (`UserManagement.tsx`): the user list, the filtered
    view recomputed whenever the list or a filter changes, and the role, status and
    delete actions. The initial list is passed in. */
module UserManagement {
  import opened Js
  import opened Seqs
  import opened Types
  import Store

  function UserId(u: User): string { u.id }

  /** The search term occurs in the lower-cased name or e-mail. */
  predicate MatchesTerm(u: User, term: string) {
    Includes(ToLower(u.name), ToLower(term)) || Includes(ToLower(u.email), ToLower(term))
  }

  /** Every active filter at once; an empty filter lets every user through. */
  predicate UserMatches(u: User, term: string, role: string, status: string) {
    (term == "" || MatchesTerm(u, term)) && (role == "" || u.role == role)
    && (status == "" || u.status == status)
  }

  /** The users the page lists. */
  function Visible(users: seq<User>, term: string, role: string, status: string): seq<User> {
    Filter(users, (u: User) => UserMatches(u, term, role, status))
  }

  /** The filter effect: narrow the list by each non-empty filter in turn. */
  method FilterUsers(users: seq<User>, term: string, role: string, status: string)
    returns (filtered: seq<User>)
    ensures filtered == Visible(users, term, role, status)
  {
    var pt := (u: User) => term == "" || MatchesTerm(u, term);
    var pr := (u: User) => role == "" || u.role == role;
    var ps := (u: User) => status == "" || u.status == status;
    filtered := users;
    if term != "" {
      filtered := Filter(filtered, (u: User) => MatchesTerm(u, term));
      FilterExt(users, (u: User) => MatchesTerm(u, term), pt);
    } else {
      FilterAll(users, pt);
    }
    assert filtered == Filter(users, pt);
    var f1 := filtered;
    if role != "" {
      filtered := Filter(filtered, (u: User) => u.role == role);
      FilterExt(f1, (u: User) => u.role == role, pr);
    } else {
      FilterAll(f1, pr);
    }
    var ptr := (u: User) => pt(u) && pr(u);
    FilterFilter(users, pt, pr, ptr);
    assert filtered == Filter(users, ptr);
    var f2 := filtered;
    if status != "" {
      filtered := Filter(filtered, (u: User) => u.status == status);
      FilterExt(f2, (u: User) => u.status == status, ps);
    } else {
      FilterAll(f2, ps);
    }
    FilterFilter(users, ptr, ps, (u: User) => UserMatches(u, term, role, status));
  }

  /** The list shows exactly the users meeting every active filter, in order. */
  lemma VisibleProps(users: seq<User>, term: string, role: string, status: string)
    ensures var r := Visible(users, term, role, status);
      IsSubsequence(r, users)
      && (forall u :: u in r ==> (term == "" || MatchesTerm(u, term))
                                 && (role == "" || u.role == role)
                                 && (status == "" || u.status == status))
      && (forall u :: u in users && UserMatches(u, term, role, status) ==> u in r)
  {
  }

  /** With every filter empty, every user is listed. */
  lemma VisibleNoFilters(users: seq<User>)
    ensures Visible(users, "", "", "") == users
  {
    FilterAll(users, (u: User) => UserMatches(u, "", "", ""));
  }

  /** `handleRoleChange`: only the role of the users with the id changes. */
  function WithRole(users: seq<User>, id: string, role: string): seq<User> {
    Store.UpdateById(users, UserId, id, (u: User) => u.(role := role))
  }

  /** `handleStatusChange`: only the status of the users with the id changes. */
  function WithStatus(users: seq<User>, id: string, status: string): seq<User> {
    Store.UpdateById(users, UserId, id, (u: User) => u.(status := status))
  }

  lemma WithRoleProps(users: seq<User>, id: string, role: string)
    ensures var r := WithRole(users, id, role);
      |r| == |users|
      && (forall i :: 0 <= i < |users| && users[i].id == id ==> r[i] == users[i].(role := role))
      && (forall i :: 0 <= i < |users| && users[i].id != id ==> r[i] == users[i])
  {
    Store.UpdateByIdProps(users, UserId, id, (u: User) => u.(role := role));
  }

  lemma WithStatusProps(users: seq<User>, id: string, status: string)
    ensures var r := WithStatus(users, id, status);
      |r| == |users|
      && (forall i :: 0 <= i < |users| && users[i].id == id ==> r[i] == users[i].(status := status))
      && (forall i :: 0 <= i < |users| && users[i].id != id ==> r[i] == users[i])
  {
    Store.UpdateByIdProps(users, UserId, id, (u: User) => u.(status := status));
  }

  /** A deleted user is gone from the list and from every filtered view of it, and everyone
      else stays. */
  lemma DeleteHides(users: seq<User>, id: string, term: string, role: string, status: string)
    ensures forall u :: u in Visible(Store.DeleteById(users, UserId, id), term, role, status) ==> u.id != id
    ensures forall u :: u in users && u.id != id ==> u in Store.DeleteById(users, UserId, id)
  {
    Store.DeleteByIdProps(users, UserId, id);
  }

  datatype AdminState = AdminState(users: seq<User>, filteredUsers: seq<User>, searchTerm: string,
                                   roleFilter: string, statusFilter: string)

  class UserAdmin {
    var users: seq<User>
    var filteredUsers: seq<User>
    var searchTerm: string
    var roleFilter: string
    var statusFilter: string

    function Snapshot(): AdminState
      reads this
    {
      AdminState(users, filteredUsers, searchTerm, roleFilter, statusFilter)
    }

    /** The filtered view is up to date. */
    predicate Synced()
      reads this
    {
      filteredUsers == Visible(users, searchTerm, roleFilter, statusFilter)
    }

    /** The page after loading its users, with no filter. */
    constructor(loaded: seq<User>)
      ensures Snapshot() == AdminState(loaded, loaded, "", "", "")
      ensures Synced()
    {
      users := loaded;
      filteredUsers := loaded;
      searchTerm := "";
      roleFilter := "";
      statusFilter := "";
      VisibleNoFilters(loaded);
    }

    /** The filter effect, run after every change of its inputs. */
    method Refilter()
      modifies this
      ensures Snapshot() == old(Snapshot()).(filteredUsers := Visible(users, searchTerm, roleFilter, statusFilter))
      ensures Synced()
    {
      filteredUsers := FilterUsers(users, searchTerm, roleFilter, statusFilter);
    }

    method SetSearchTerm(term: string)
      modifies this
      ensures Snapshot() == old(Snapshot()).(searchTerm := term, filteredUsers := Visible(users, term, roleFilter, statusFilter))
      ensures Synced()
    {
      searchTerm := term;
      Refilter();
    }

    method SetRoleFilter(role: string)
      modifies this
      ensures Snapshot() == old(Snapshot()).(roleFilter := role, filteredUsers := Visible(users, searchTerm, role, statusFilter))
      ensures Synced()
    {
      roleFilter := role;
      Refilter();
    }

    method SetStatusFilter(status: string)
      modifies this
      ensures Snapshot() == old(Snapshot()).(statusFilter := status, filteredUsers := Visible(users, searchTerm, roleFilter, status))
      ensures Synced()
    {
      statusFilter := status;
      Refilter();
    }

    method HandleRoleChange(id: string, role: string)
      modifies this
      ensures Snapshot() == old(Snapshot()).(users := WithRole(old(users), id, role),
                                             filteredUsers := Visible(WithRole(old(users), id, role), searchTerm, roleFilter, statusFilter))
      ensures Synced()
    {
      users := WithRole(users, id, role);
      Refilter();
    }

    method HandleStatusChange(id: string, status: string)
      modifies this
      ensures Snapshot() == old(Snapshot()).(users := WithStatus(old(users), id, status),
                                             filteredUsers := Visible(WithStatus(old(users), id, status), searchTerm, roleFilter, statusFilter))
      ensures Synced()
    {
      users := WithStatus(users, id, status);
      Refilter();
    }

    /** `handleDeleteUser`: an unconfirmed delete returns early and changes nothing. */
    method HandleDeleteUser(id: string, confirmed: bool)
      modifies this
      ensures confirmed ==> Snapshot() == old(Snapshot()).(users := Store.DeleteById(old(users), UserId, id),
                                             filteredUsers := Visible(Store.DeleteById(old(users), UserId, id), searchTerm, roleFilter, statusFilter))
      ensures !confirmed ==> Snapshot() == old(Snapshot())
      ensures confirmed ==> forall u :: u in filteredUsers ==> u.id != id
    {
      if !confirmed {
        return;
      }
      users := Store.DeleteById(users, UserId, id);
      Refilter();
      DeleteHides(old(users), id, searchTerm, roleFilter, statusFilter);
    }
  }
}
