/**
 * The access panel of a child: who can see the child's data and with which role, the
 * pending invites (shown to an owner only), how each person is named and when the
 * revoke button appears. The signed-in user and the two queries' replies are parameters.
 */
module ManageChildAccess {
  import opened Wrappers
  import opened Text
  import opened Remote

  /** A row of the `child_access_with_details` view; `role` is the column's text. */
  datatype Access = Access(
    id: string,
    userId: string,
    role: string,
    userEmail: Option<string>,
    userFullName: Option<string>,
    userDisplayName: Option<string>)

  /** A row of the `child_invites_with_details` view. */
  datatype Invite = Invite(id: string, inviteeEmail: string, role: string, inviteeDisplayName: Option<string>)

  /** `access.user_id === user?.id`: never true without a signed-in user. */
  predicate IsMe(a: Access, me: Option<string>) {
    me.Some? && a.userId == me.value
  }

  /** `s.slice(0, n)`. */
  function Prefix(s: string, n: nat): string {
    if |s| <= n then s else s[..n]
  }

  const You := "Você"
  const UserPrefix := "Usuário "

  /** `formatDisplayName`: the first rule that applies wins. */
  function DisplayName(a: Access, me: Option<string>): string {
    if IsMe(a, me) then You
    else if Truthy(a.userDisplayName) then a.userDisplayName.value
    else if Truthy(a.userFullName) then a.userFullName.value
    else if Truthy(a.userEmail) then a.userEmail.value
    else UserPrefix + Prefix(a.userId, 8) + "..."
  }

  /**
   * "Você" for yourself; otherwise the display name, else the full name, else the
   * e-mail address, the first of them that is non-empty; else "Usuário ", at most eight
   * characters of the user id and "...". The name shown is never empty.
   */
  lemma DisplayNameRule(a: Access, me: Option<string>)
    ensures DisplayName(a, me) != ""
    ensures IsMe(a, me) ==> DisplayName(a, me) == You
    ensures !IsMe(a, me) && Truthy(a.userDisplayName) ==> DisplayName(a, me) == a.userDisplayName.value
    ensures !IsMe(a, me) && !Truthy(a.userDisplayName) && Truthy(a.userFullName) ==>
      DisplayName(a, me) == a.userFullName.value
    ensures (!IsMe(a, me) && !Truthy(a.userDisplayName) && !Truthy(a.userFullName)
      && Truthy(a.userEmail)) ==> DisplayName(a, me) == a.userEmail.value
    ensures (!IsMe(a, me) && !Truthy(a.userDisplayName) && !Truthy(a.userFullName)
      && !Truthy(a.userEmail)) ==>
      (exists p :: DisplayName(a, me) == UserPrefix + p + "..." && |p| <= 8 && p == a.userId[..|p|])
  {
    if !IsMe(a, me) && !Truthy(a.userDisplayName) && !Truthy(a.userFullName) && !Truthy(a.userEmail) {
      var p := Prefix(a.userId, 8);
      assert p == a.userId[..|p|];
    }
  }

  const OwnerLabel := "Proprietário"

  /** `getRoleLabel`: the three known roles get their labels; any other text passes through. */
  function RoleLabel(role: string): string {
    if role == "owner" then OwnerLabel
    else if role == "editor" then "Editor"
    else if role == "viewer" then "Visualizador"
    else role
  }

  /** A role is shown as it is iff it is none of the three known roles. */
  lemma RoleLabelPassThrough(role: string)
    ensures RoleLabel(role) == role <==> role != "owner" && role != "editor" && role != "viewer"
    ensures role == "owner" ==> RoleLabel(role) == OwnerLabel
    ensures role == "editor" ==> RoleLabel(role) == "Editor"
    ensures role == "viewer" ==> RoleLabel(role) == "Visualizador"
  {
    if role == "owner" {
      assert |OwnerLabel| == 12;
    }
  }

  /** `accessData.find(a => a.user_id === user?.id)`. */
  function MyAccess(rows: seq<Access>, me: Option<string>): (r: Option<Access>)
    ensures r.Some? ==> r.value in rows && IsMe(r.value, me)
    ensures r.None? ==> forall a :: a in rows ==> !IsMe(a, me)
  {
    if rows == [] then None
    else if IsMe(rows[0], me) then Some(rows[0])
    else MyAccess(rows[1..], me)
  }

  /** `myAccess?.role === 'owner'`. */
  predicate OwnerOf(rows: seq<Access>, me: Option<string>) {
    MyAccess(rows, me).Some? && MyAccess(rows, me).value.role == "owner"
  }

  /** Only a signed-in user listed with some row can be owner, and a listed owner row of theirs that comes first makes them one. */
  lemma {:induction false} OwnerRule(rows: seq<Access>, me: Option<string>, k: nat)
    requires k < |rows| && IsMe(rows[k], me)
    requires forall j :: 0 <= j < k ==> !IsMe(rows[j], me)
    ensures OwnerOf(rows, me) <==> rows[k].role == "owner"
    decreases k
  {
    if k > 0 {
      OwnerRule(rows[1..], me, k - 1);
    }
  }

  /** Without a signed-in user nobody is owner. */
  lemma SignedOutIsNotOwner(rows: seq<Access>)
    ensures !OwnerOf(rows, None)
  {
  }

  /** The panel's state. */
  class Panel {
    var accesses: seq<Access>
    var invites: seq<Invite>
    var isOwner: bool
    var isLoading: bool

    constructor ()
      ensures accesses == [] && invites == [] && !isOwner && isLoading
    {
      accesses := [];
      invites := [];
      isOwner := false;
      isLoading := true;
    }

    /**
     * `fetchData`: a failed access query changes nothing but ends loading. Otherwise the
     * rows are listed, ownership is decided by the user's own row, and only an owner
     * queries the pending invites (`queried`); a failed invite query keeps the old list.
     */
    method FetchData(me: Option<string>, accessReply: Reply<seq<Access>>, inviteReply: Reply<seq<Invite>>)
      returns (queried: bool)
      modifies this
      ensures !isLoading
      ensures accessReply.Failed? ==>
        (!queried && accesses == old(accesses) && invites == old(invites) && isOwner == old(isOwner))
      ensures accessReply.Succeeded? ==> (accesses == accessReply.data.GetOr([])
        && isOwner == OwnerOf(accessReply.data.GetOr([]), me) && queried == isOwner)
      ensures accessReply.Succeeded? && !isOwner ==> invites == old(invites)
      ensures accessReply.Succeeded? && isOwner && inviteReply.Failed? ==> invites == old(invites)
      ensures accessReply.Succeeded? && isOwner && inviteReply.Succeeded? ==> invites == inviteReply.data.GetOr([])
      ensures accessReply.Succeeded? ==> (InviteOffered() <==> OwnerOf(accessReply.data.GetOr([]), me))
      ensures accessReply.Succeeded? && !OwnerOf(accessReply.data.GetOr([]), me) ==>
        !InvitesShown() && forall a :: !RevokeShown(a, me)
      ensures accessReply.Succeeded? && OwnerOf(accessReply.data.GetOr([]), me) && inviteReply.Succeeded? ==>
        (InvitesShown() <==> inviteReply.data.GetOr([]) != [])
    {
      isLoading := true;
      queried := false;
      if accessReply.Failed? {
        isLoading := false;
        return;
      }
      var data := accessReply.data.GetOr([]);
      var mine := MyAccess(data, me);
      isOwner := mine.Some? && mine.value.role == "owner";
      accesses := data;
      if mine.Some? && mine.value.role == "owner" {
        queried := true;
        if inviteReply.Succeeded? {
          invites := inviteReply.data.GetOr([]);
        }
      }
      isLoading := false;
    }

    /** The revoke button of a row: shown to an owner, on other users' rows. */
    predicate RevokeShown(a: Access, me: Option<string>)
      reads this
    {
      isOwner && !IsMe(a, me)
    }

    /** The pending-invites card: shown to an owner with at least one invite. */
    predicate InvitesShown()
      reads this
    {
      isOwner && |invites| > 0
    }

    /** The invite dialog: offered to an owner only. */
    predicate InviteOffered()
      reads this
    {
      isOwner
    }
  }

  /** After a fetch, a user who is not the owner sees no revoke button on any row, and the owner never sees one on their own row. */
  lemma RevokeRule(p: Panel, me: Option<string>)
    ensures forall a :: a in p.accesses && IsMe(a, me) ==> !p.RevokeShown(a, me)
    ensures !p.isOwner ==> forall a :: a in p.accesses ==> !p.RevokeShown(a, me)
  {
  }

  /** The name shown for a pending invite: the invitee's display name, else the invited address. */
  function InviteeName(i: Invite): (n: string)
    ensures Truthy(i.inviteeDisplayName) ==> n == i.inviteeDisplayName.value
    ensures !Truthy(i.inviteeDisplayName) ==> n == i.inviteeEmail
  {
    if Truthy(i.inviteeDisplayName) then i.inviteeDisplayName.value else i.inviteeEmail
  }

  /** An invite is named by the invitee's display name or the invited address, so it is never nameless while the address is not empty. */
  lemma InviteeNameShown(i: Invite)
    ensures InviteeName(i) == "" <==> !Truthy(i.inviteeDisplayName) && i.inviteeEmail == ""
    ensures InviteeName(i) == i.inviteeEmail || Some(InviteeName(i)) == i.inviteeDisplayName
  {
  }

  /** The invite controls are the owner's: a non-owner is offered no invite dialog, no pending-invites card and no revoke button. */
  lemma OwnerControls(p: Panel, me: Option<string>)
    ensures p.InvitesShown() ==> p.InviteOffered()
    ensures !p.isOwner ==> !p.InviteOffered() && !p.InvitesShown() && forall a :: !p.RevokeShown(a, me)
  {
  }
}
