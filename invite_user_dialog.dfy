/**
 * The dialog that invites another user to a child's data by e-mail: the local checks
 * on the address, the duplicate check against the child's pending invites, and the
 * invite row inserted. The signed-in user, the invites table and the insert's outcome
 * are parameters.
 */
module InviteUserDialog {
  import opened Wrappers
  import opened Text
  import opened Lists

  datatype Role = Viewer | Editor

  datatype InviteForm = InviteForm(email: string, role: Role, message: string)

  const EmptyInvite: InviteForm := InviteForm("", Viewer, "")

  /** A row of `child_invites`, as far as the duplicate query looks at it. */
  datatype InviteRow = InviteRow(childId: string, inviteeEmail: string, status: string)

  /** The inserted row; `inviterId` is `user?.id`, absent without a user. */
  datatype InvitePayload = InvitePayload(
    childId: string,
    inviterId: Option<string>,
    inviteeEmail: string,
    role: Role,
    message: Option<string>)

  const InvalidEmail := "Por favor, insira um email válido."
  const SelfInvite := "Você não pode convidar a si mesmo."
  const DuplicateInvite := "Já existe um convite pendente para este email."
  const SendFailed := "Erro ao enviar convite. Tente novamente."
  const SentPrefix := "✅ Convite enviado para "

  /** The alert after a successful insert names the address as typed. */
  function SentMessage(email: string): string {
    SentPrefix + email + "!"
  }

  /** The checks made before any request: an address with an '@', and not the user's own. */
  function LocalCheck(form: InviteForm, userEmail: Option<string>): Option<string> {
    if form.email == "" || '@' !in form.email then Some(InvalidEmail)
    else if userEmail.Some? && ToLower(form.email) == ToLower(userEmail.value) then Some(SelfInvite)
    else None
  }

  lemma LocalCheckMeaning(form: InviteForm, userEmail: Option<string>)
    ensures (form.email == "" || '@' !in form.email) ==> LocalCheck(form, userEmail) == Some(InvalidEmail)
    ensures LocalCheck(form, userEmail) == Some(SelfInvite) <==>
      form.email != "" && '@' in form.email && userEmail.Some? && ToLower(form.email) == ToLower(userEmail.value)
    ensures LocalCheck(form, userEmail).None? <==>
      '@' in form.email && !(userEmail.Some? && ToLower(form.email) == ToLower(userEmail.value))
  {
  }

  /** The self-invite check ignores the case of the user's address. */
  lemma SelfCheckIgnoresCase(form: InviteForm, userEmail: string)
    ensures LocalCheck(form, Some(ToLower(userEmail))) == LocalCheck(form, Some(userEmail))
  {
    ToLowerIdempotent(userEmail);
  }

  predicate Matches(r: InviteRow, childId: string, email: string) {
    r.childId == childId && r.inviteeEmail == ToLower(email) && r.status == "pending"
  }

  function PendingFor(invites: seq<InviteRow>, childId: string, email: string): (rs: seq<InviteRow>)
    ensures forall r :: r in rs <==> r in invites && Matches(r, childId, email)
  {
    Filter(invites, (r: InviteRow) => Matches(r, childId, email))
  }

  /**
   * The duplicate query ends in `.single()`, which yields a row only when exactly one row
   * matches: no match and several matches both leave `existingInvite` null.
   */
  predicate DuplicateFound(invites: seq<InviteRow>, childId: string, email: string) {
    |PendingFor(invites, childId, email)| == 1
  }

  /** A pending invite for the child and the lowercased address is found when it is the only one. */
  lemma SingleMatchBlocks(invites: seq<InviteRow>, childId: string, email: string, r: InviteRow)
    requires Matches(r, childId, email)
    requires forall q :: q in invites && Matches(q, childId, email) ==> q == r
    requires r in invites && multiset(invites)[r] == 1
    ensures DuplicateFound(invites, childId, email)
  {
    SingleMatchCount(invites, childId, email, r);
  }

  /** Two pending invites for the same address do not block a third: `.single()` finds none. */
  lemma TwoMatchesDoNotBlock(childId: string, email: string)
    ensures !DuplicateFound([InviteRow(childId, ToLower(email), "pending"), InviteRow(childId, ToLower(email), "pending")], childId, email)
  {
    var r := InviteRow(childId, ToLower(email), "pending");
    assert PendingFor([r, r], childId, email) == [r, r];
  }

  lemma {:induction false} SingleMatchCount(invites: seq<InviteRow>, childId: string, email: string, r: InviteRow)
    requires Matches(r, childId, email)
    requires forall q :: q in invites && Matches(q, childId, email) ==> q == r
    ensures |PendingFor(invites, childId, email)| == multiset(invites)[r]
  {
    if invites != [] {
      assert invites == [invites[0]] + invites[1..];
      assert multiset(invites) == multiset{invites[0]} + multiset(invites[1..]);
      assert forall q :: q in invites[1..] ==> q in invites;
      SingleMatchCount(invites[1..], childId, email, r);
    }
  }

  /** The row inserted: the lowercased address, the chosen role, and an empty message as `null`. */
  function MakePayload(childId: string, userId: Option<string>, form: InviteForm): (p: InvitePayload)
    ensures p.inviteeEmail == ToLower(form.email) && p.role == form.role && p.childId == childId
    ensures p.message.None? <==> form.message == ""
    ensures p.message.Some? ==> p.message.value == form.message
  {
    InvitePayload(childId, userId, ToLower(form.email), form.role, if form.message == "" then None else Some(form.message))
  }

  /** Lowercasing the address before saving makes the self-invite check see the same address. */
  lemma PayloadEmailIsLower(childId: string, userId: Option<string>, form: InviteForm)
    ensures ToLower(MakePayload(childId, userId, form).inviteeEmail) == MakePayload(childId, userId, form).inviteeEmail
  {
    ToLowerIdempotent(form.email);
  }

  /** The dialog's state. */
  class Dialog {
    var form: InviteForm
    var open: bool
    var isLoading: bool

    constructor ()
      ensures form == EmptyInvite && !open && !isLoading
    {
      form := EmptyInvite;
      open := false;
      isLoading := false;
    }

    /** The form as the user types it. */
    method SetForm(f: InviteForm)
      modifies this
      ensures form == f && open == old(open) && isLoading == old(isLoading)
    {
      form := f;
    }

    method SetOpen(o: bool)
      modifies this
      ensures open == o && form == old(form) && isLoading == old(isLoading)
    {
      open := o;
    }

    /**
     * `handleSubmit`. `queried` tells whether the duplicate query was made and `sent` the
     * insert that was attempted; `insertFails` is the insert's outcome and `hasCallback`
     * whether `onInviteSent` was given. Whatever the path, loading ends cleared.
     */
    method HandleSubmit(childId: string, userId: Option<string>, userEmail: Option<string>,
                        invites: seq<InviteRow>, insertFails: bool, hasCallback: bool)
      returns (alert: string, queried: bool, sent: Option<InvitePayload>, notified: bool)
      modifies this
      ensures !isLoading
      ensures queried <==> LocalCheck(old(form), userEmail).None?
      ensures !queried ==> alert == LocalCheck(old(form), userEmail).value
      ensures sent.Some? <==> queried && !DuplicateFound(invites, childId, old(form).email)
      ensures queried && DuplicateFound(invites, childId, old(form).email) ==> alert == DuplicateInvite
      ensures sent.Some? ==> sent.value == MakePayload(childId, userId, old(form))
      ensures sent.None? || insertFails ==> (form == old(form) && open == old(open) && !notified)
      ensures sent.Some? && insertFails ==> alert == SendFailed
      ensures sent.Some? && !insertFails ==> (alert == SentMessage(old(form).email)
        && form == EmptyInvite && !open && notified == hasCallback)
    {
      isLoading := true;
      queried, sent, notified := false, None, false;
      var check := LocalCheck(form, userEmail);
      if check.Some? {
        alert := check.value;
        isLoading := false;
        return;
      }
      queried := true;
      if |PendingFor(invites, childId, form.email)| == 1 {
        alert := DuplicateInvite;
        isLoading := false;
        return;
      }
      var payload := InvitePayload(childId, userId, ToLower(form.email), form.role,
        if form.message == "" then None else Some(form.message));
      sent := Some(payload);
      if insertFails {
        alert := SendFailed;
        isLoading := false;
        return;
      }
      alert := SentMessage(form.email);
      form := InviteForm("", Viewer, "");
      open := false;
      notified := hasCallback;
      isLoading := false;
    }
  }
}
