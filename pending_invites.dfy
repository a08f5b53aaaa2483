/**
 * The pending-invites card of the invited user: the invites addressed to them, each
 * with the child's name, the role offered and the days left before it expires, and the
 * accept and reject actions. The signed-in user's address, the clock and the replies of
 * the query and of the two database functions are parameters.
 */
module PendingInvites {
  import opened Wrappers
  import opened Text
  import opened Time
  import opened Remote

  /** A row as the query returns it: `children?.name` is the joined child's name, if any. */
  datatype InviteRow = InviteRow(
    id: string,
    childId: string,
    role: string,
    message: Option<string>,
    createdAt: int,
    expiresAt: int,
    childName: Option<string>)

  /** A row as the card shows it. */
  datatype PendingInvite = PendingInvite(
    id: string,
    childId: string,
    childName: string,
    inviterEmail: string,
    role: string,
    message: Option<string>,
    createdAt: int,
    expiresAt: int)

  const ChildFallback := "Criança"

  /** The formatting step: the child's name, or "Criança" when it is missing or empty; no inviter address. */
  function Format(row: InviteRow): (p: PendingInvite)
    ensures p.id == row.id && p.childId == row.childId && p.role == row.role && p.message == row.message
    ensures p.createdAt == row.createdAt && p.expiresAt == row.expiresAt && p.inviterEmail == ""
    ensures Truthy(row.childName) ==> p.childName == row.childName.value
    ensures row.childName.None? || row.childName.value == "" ==> p.childName == ChildFallback
  {
    PendingInvite(row.id, row.childId,
      if Truthy(row.childName) then row.childName.value else ChildFallback,
      "", row.role, row.message, row.createdAt, row.expiresAt)
  }

  function FormatAll(rows: seq<InviteRow>): (r: seq<PendingInvite>)
    ensures |r| == |rows| && forall i :: 0 <= i < |rows| ==> r[i] == Format(rows[i])
  {
    if rows == [] then [] else [Format(rows[0])] + FormatAll(rows[1..])
  }

  /** Every formatted invite names a child: the name shown is never empty. */
  lemma FormattedNamesNonEmpty(rows: seq<InviteRow>)
    ensures forall p :: p in FormatAll(rows) ==> p.childName != "" && p.inviterEmail == ""
  {
    forall p | p in FormatAll(rows) ensures p.childName != "" && p.inviterEmail == "" {
      var i :| 0 <= i < |FormatAll(rows)| && FormatAll(rows)[i] == p;
      assert p == Format(rows[i]);
    }
  }

  /** `getRoleLabel`: editor and viewer get their labels; any other role passes through. */
  function RoleLabel(role: string): (l: string)
    ensures role == "editor" ==> l == "Editor"
    ensures role == "viewer" ==> l == "Visualizador"
    ensures role != "editor" && role != "viewer" ==> l == role
  {
    if role == "editor" then "Editor" else if role == "viewer" then "Visualizador" else role
  }

  /** A role is shown as it is exactly when it is neither editor nor viewer, and exactly the relabelled roles get a colour of their own. */
  lemma RoleLabelPassThrough(role: string)
    ensures RoleLabel(role) == role <==> role != "editor" && role != "viewer"
    ensures RoleLabel(role) != role <==> RoleColor(role) != FallbackColor
  {
  }

  const EditorColor := "bg-blue-100 text-blue-800 dark:bg-blue-900 dark:text-blue-200"
  const ViewerColor := "bg-gray-100 text-gray-800 dark:bg-gray-800 dark:text-gray-200"
  const FallbackColor := "bg-gray-100 text-gray-800"

  /** `getRoleColor`. */
  function RoleColor(role: string): (c: string)
    ensures c == EditorColor <==> role == "editor"
    ensures c == ViewerColor <==> role == "viewer"
    ensures c == FallbackColor <==> role != "editor" && role != "viewer"
  {
    if role == "editor" then EditorColor else if role == "viewer" then ViewerColor else FallbackColor
  }

  /** `getDaysRemaining`: `Math.ceil((expires - now) / one day)`. */
  function DaysRemaining(expiresAt: int, now: int): int {
    CeilDiv(expiresAt - now, DayMs)
  }

  /**
   * The days shown are the whole days needed to cover the time left: `d` days cover it
   * and `d - 1` do not. So an invite that has not expired shows at least one day, and an
   * expired one shows zero or less.
   */
  lemma DaysRemainingMeaning(expiresAt: int, now: int)
    ensures var d := DaysRemaining(expiresAt, now);
      && (d - 1) * DayMs < expiresAt - now <= d * DayMs
      && (expiresAt > now <==> d >= 1)
  {
    var d := DaysRemaining(expiresAt, now);
    assert (d - 1) * DayMs == d * DayMs - DayMs;
    if d >= 1 {
      assert (d - 1) * DayMs >= 0;
    } else {
      assert d * DayMs <= 0;
    }
  }

  /** An invite with between one millisecond and one day left shows one day. */
  lemma LastDayShowsOne(expiresAt: int, now: int)
    requires now < expiresAt <= now + DayMs
    ensures DaysRemaining(expiresAt, now) == 1
  {
    DaysRemainingMeaning(expiresAt, now);
  }

  /** The later an invite expires, the more days it shows. */
  lemma DaysRemainingMonotone(e1: int, e2: int, now: int)
    requires e1 <= e2
    ensures DaysRemaining(e1, now) <= DaysRemaining(e2, now)
  {
    DaysRemainingMeaning(e1, now);
    DaysRemainingMeaning(e2, now);
  }

  const AcceptedAlert := "✅ Convite aceito! Você agora tem acesso aos dados da criança."
  const NotAcceptedAlert := "❌ Não foi possível aceitar o convite. Ele pode ter expirado."
  const AcceptFailedAlert := "❌ Erro ao aceitar convite. Tente novamente."
  const RejectedAlert := "Convite recusado."
  const RejectFailedAlert := "❌ Erro ao recusar convite. Tente novamente."

  /** The card's state. */
  class Card {
    var invites: seq<PendingInvite>
    var isLoading: bool
    var processingId: Option<string>

    constructor ()
      ensures invites == [] && isLoading && processingId.None?
    {
      invites := [];
      isLoading := true;
      processingId := None;
    }

    /**
     * The effect on the signed-in user: without an address nothing is queried (`queried`
     * is false) and the card stays loading; a failed query keeps the list; otherwise the
     * returned rows are formatted. Loading ends whenever the query runs.
     */
    method FetchInvites(email: Option<string>, reply: Reply<seq<InviteRow>>) returns (queried: bool)
      modifies this
      ensures processingId == old(processingId)
      ensures queried <==> Truthy(email)
      ensures !queried ==> invites == old(invites) && isLoading == old(isLoading)
      ensures queried ==> !isLoading
      ensures queried && reply.Failed? ==> invites == old(invites)
      ensures queried && reply.Succeeded? ==> invites == FormatAll(reply.data.GetOr([]))
      ensures queried && reply.Succeeded? ==> (Renders() <==> reply.data.GetOr([]) != [])
      ensures queried && reply.Failed? ==> (Renders() <==> old(invites) != [])
    {
      queried := Truthy(email);
      if !queried {
        return;
      }
      isLoading := true;
      if reply.Succeeded? {
        invites := FormatAll(reply.data.GetOr([]));
      }
      isLoading := false;
    }

    /**
     * `handleAccept`: `accept_child_invite` either fails, or answers whether it accepted.
     * An accepted invite is followed by a refetch and a page reload (`refreshed`).
     */
    method HandleAccept(id: string, rpc: Reply<bool>) returns (alert: string, refreshed: bool)
      modifies this
      ensures processingId.None? && invites == old(invites) && isLoading == old(isLoading)
      ensures rpc.Failed? ==> alert == AcceptFailedAlert && !refreshed
      ensures rpc.Succeeded? && rpc.data == Some(true) ==> alert == AcceptedAlert && refreshed
      ensures rpc.Succeeded? && rpc.data != Some(true) ==> alert == NotAcceptedAlert && !refreshed
    {
      processingId := Some(id);
      if rpc.Failed? {
        alert, refreshed := AcceptFailedAlert, false;
      } else if rpc.data == Some(true) {
        alert, refreshed := AcceptedAlert, true;
      } else {
        alert, refreshed := NotAcceptedAlert, false;
      }
      processingId := None;
    }

    /**
     * `handleReject`: nothing happens unless the user confirms; a successful
     * `reject_child_invite` is followed by a refetch (`refreshed`).
     */
    method HandleReject(id: string, confirmed: bool, rpcFails: bool) returns (alert: Option<string>, refreshed: bool)
      modifies this
      ensures invites == old(invites) && isLoading == old(isLoading)
      ensures !confirmed ==> alert.None? && !refreshed && processingId == old(processingId)
      ensures confirmed ==> processingId.None?
      ensures confirmed && rpcFails ==> alert == Some(RejectFailedAlert) && !refreshed
      ensures confirmed && !rpcFails ==> alert == Some(RejectedAlert) && refreshed
    {
      if !confirmed {
        return None, false;
      }
      processingId := Some(id);
      if rpcFails {
        alert, refreshed := Some(RejectFailedAlert), false;
      } else {
        alert, refreshed := Some(RejectedAlert), true;
      }
      processingId := None;
    }

    /** The card renders nothing while loading or with no invite. */
    predicate Renders()
      reads this
    {
      !isLoading && |invites| > 0
    }

    /** Both buttons of an invite are disabled while that invite is being processed. */
    predicate ButtonsDisabled(i: PendingInvite)
      reads this
    {
      processingId == Some(i.id)
    }
  }

  /**
   * The card shows once loading has ended with some invite; the buttons of at most one
   * invite id are disabled at a time, and of none while nothing is being processed.
   */
  lemma CardRules(c: Card)
    ensures c.Renders() ==> !c.isLoading && |c.invites| > 0
    ensures forall i, j :: c.ButtonsDisabled(i) && c.ButtonsDisabled(j) ==> i.id == j.id
    ensures c.processingId.None? ==> forall i :: !c.ButtonsDisabled(i)
  {
  }
}
