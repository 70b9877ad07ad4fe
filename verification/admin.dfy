/** The admin panel: who may open it, the pending queue, the admin count and the actions offered per row. */
module Admin {
  import opened Wrappers
  import opened Seqs
  import opened Domain
  import opened AuthContext

  /** The mount effect: signed-out visitors go to sign in, non-admins to their dashboard, admins load the data. */
  function PageGuard(user: Option<User>): (r: Guard)
    ensures r == Redirect("/auth") <==> !IsAuthenticated(user)
    ensures r == Redirect("/dashboard") <==> IsAuthenticated(user) && !IsAdmin(user)
    ensures r == Proceed <==> IsAdmin(user)
  {
    if !IsAuthenticated(user) then Redirect("/auth")
    else if !IsAdmin(user) then Redirect("/dashboard")
    else Proceed
  }

  /** `items.filter(i => i.status === 'PENDING')`. */
  function PendingItems(items: seq<Item>): seq<Item> {
    Filter(IsPending, items)
  }

  /** The pending queue holds exactly the pending items, in the order the list gave them. */
  lemma PendingItemsExact(items: seq<Item>)
    ensures forall k :: 0 <= k < |PendingItems(items)| ==> IsPending(PendingItems(items)[k])
    ensures forall k :: 0 <= k < |items| && IsPending(items[k]) ==> items[k] in PendingItems(items)
    ensures IsSubsequence(PendingItems(items), items)
    ensures |PendingItems(items)| == Count(IsPending, items)
  {
    FilterIsSubsequence(IsPending, items);
    CountIsFilterLength(IsPending, items);
  }

  /** `u.roles?.includes('ADMIN')`: the test behind the admin count. */
  predicate ListedAsAdmin(u: Account) {
    HasRole(u.roles, ADMIN)
  }

  /** `users.filter(u => u.roles?.includes('ADMIN')).length`: the number of users listed with the ADMIN role. */
  function AdminCount(users: seq<Account>): (r: nat)
    ensures r == Count(ListedAsAdmin, users)
  {
    CountIsFilterLength(ListedAsAdmin, users);
    |Filter(ListedAsAdmin, users)|
  }

  /** Adding a user raises the admin count by one exactly when that user's roles hold ADMIN, whatever else they hold. */
  lemma AdminCountAppend(users: seq<Account>, u: Account)
    ensures AdminCount(users + [u]) == AdminCount(users) + (if HasRole(u.roles, ADMIN) then 1 else 0)
  {
    CountAppendOne(ListedAsAdmin, users, u);
  }

  /** Only the ADMIN role is counted: a user whose roles hold SUPER_ADMIN alone, or no roles at all, is not. */
  lemma AdminCountRoles(users: seq<Account>, id: string, email: Option<string>)
    ensures AdminCount(users + [Account(id, email, Some([SUPER_ADMIN]))]) == AdminCount(users)
    ensures AdminCount(users + [Account(id, email, None)]) == AdminCount(users)
    ensures AdminCount(users + [Account(id, email, Some([ADMIN]))]) == AdminCount(users) + 1
  {
    AdminCountAppend(users, Account(id, email, Some([SUPER_ADMIN])));
    AdminCountAppend(users, Account(id, email, None));
    AdminCountAppend(users, Account(id, email, Some([ADMIN])));
  }

  /**
   * The admin panel and the seller pages split the signed-in users between them: each user may
   * open exactly one of the two, and each page sends the others to the other one. Signed-out
   * visitors are sent to sign in by both.
   */
  lemma GuardsPartitionUsers(user: Option<User>)
    ensures !IsAuthenticated(user) ==> PageGuard(user) == Redirect("/auth") && SellerPageGuard(user) == Redirect("/auth")
    ensures IsAuthenticated(user) ==> (PageGuard(user) == Proceed <==> SellerPageGuard(user) != Proceed)
    ensures IsAuthenticated(user) && PageGuard(user) != Proceed ==> PageGuard(user) == Redirect("/dashboard")
    ensures IsAuthenticated(user) && SellerPageGuard(user) != Proceed ==> SellerPageGuard(user) == Redirect("/admin")
  {
  }

  /** The role button in a user's row. */
  datatype RoleAction = MakeAdmin | RemoveAdmin

  /**
   * Only a super-admin sees a role button, and never on a super-admin's row; it removes the admin
   * role from an admin and grants it to anyone else.
   */
  function RoleActionFor(viewer: Option<User>, target: Account): (r: Option<RoleAction>)
    ensures r.Some? <==> IsSuperAdmin(viewer) && !HasRole(target.roles, SUPER_ADMIN)
    ensures r == Some(RemoveAdmin) <==> r.Some? && HasRole(target.roles, ADMIN)
    ensures r == Some(MakeAdmin) <==> r.Some? && !HasRole(target.roles, ADMIN)
  {
    if IsSuperAdmin(viewer) && !HasRole(target.roles, SUPER_ADMIN) then
      (if HasRole(target.roles, ADMIN) then Some(RemoveAdmin) else Some(MakeAdmin))
    else None
  }

  /** `!user.roles?.includes('SUPER_ADMIN')`: the delete button, shown whoever is looking. */
  predicate CanDelete(target: Account) {
    !HasRole(target.roles, SUPER_ADMIN)
  }

  /**
   * A super-admin's row offers nothing; every other row offers delete even to a plain admin, who
   * gets no role button.
   */
  lemma RowActions(viewer: Option<User>, target: Account)
    ensures HasRole(target.roles, SUPER_ADMIN) ==> RoleActionFor(viewer, target).None? && !CanDelete(target)
    ensures !HasRole(target.roles, SUPER_ADMIN) ==> CanDelete(target)
    ensures IsAdmin(viewer) && !IsSuperAdmin(viewer) ==> RoleActionFor(viewer, target).None?
  {
  }

  /** `item.status === 'PENDING'`: approve and reject are offered in the all-items tab. */
  predicate ShowModeration(it: Item) {
    it.status == Some(PENDING)
  }

  /**
   * Moderation is offered only for pending items. An item with no status is shown as pending
   * but gets no buttons.
   */
  lemma ModerationMatchesBadge(it: Item)
    ensures ShowModeration(it) ==> DisplayStatus(it) == PENDING
    ensures it.status.None? ==> DisplayStatus(it) == PENDING && !ShowModeration(it)
    ensures ShowModeration(it) <==> it in PendingItems([it])
  {
  }
}
