/** Change requests of users, and what their administrators make of them. */
module ChangeRequests {
  import opened Wrappers

  datatype Kind = FirstName | LastName | Email | Password | PasswordReset

  predicate IsPasswordKind(kind: Kind) {
    kind == Password || kind == PasswordReset
  }

  datatype Status = Pending | Approved | Rejected

  datatype User = User(firstName: string, lastName: string, email: string, password: string, createdBy: Option<nat>)

  datatype ChangeRequest = ChangeRequest(
    userId: nat, adminId: nat, kind: Kind, currentValue: Option<string>, requestedValue: Option<string>, status: Status)

  /** A column of one user's row set for a request; the column is named by a kind. */
  datatype Write = Write(request: nat, userId: nat, column: Kind, value: string)

  datatype Decision = Decision(request: nat, adminId: nat, status: Status)

  /** Users, requests and, as bookkeeping, the requests as they were made, the user writes made for requests, and who
      decided what. */
  datatype State = State(
    users: map<nat, User>, requests: map<nat, ChangeRequest>, next: nat,
    made: map<nat, ChangeRequest>, writes: seq<Write>, decisions: seq<Decision>)

  datatype Step =
    | Create(userId: nat, kind: Kind, requestedValue: Option<string>, currentPassword: Option<string>)
    | Approve(id: nat, adminId: nat)
    | Reject(id: nat, adminId: nat)
    | GeneratePassword(id: nat, adminId: nat, hashed: string)
    | EditAccounts(users: map<nat, User>, removedAdmins: set<nat>)    // accounts come, go and change by other means

  /** `bcrypt.compare`. */
  type Compare = (string, string) -> bool

  const INITIAL := State(map[], map[], 1, map[], [], [])

  // ── The operations ──────────────────────────────────────────────────────

  function ColumnOf(user: User, kind: Kind): string
    requires !IsPasswordKind(kind)
  {
    match kind
    case FirstName => user.firstName
    case LastName => user.lastName
    case Email => user.email
  }

  function WithColumn(user: User, column: Kind, value: string): User {
    match column
    case FirstName => user.(firstName := value)
    case LastName => user.(lastName := value)
    case Email => user.(email := value)
    case Password => user.(password := value)
    case PasswordReset => user.(password := value)
  }

  predicate EmailTaken(users: map<nat, User>, userId: nat, email: string) {
    exists u :: u in users && u != userId && users[u].email == email
  }

  /** `createRequest`. */
  function Created(compare: Compare, s: State, userId: nat, kind: Kind, requestedValue: Option<string>,
        currentPassword: Option<string>)
    : (State, Result<Unit>)
  {
    if userId !in s.users then (s, Err(NotFound))
    else if s.users[userId].createdBy.None? then (s, Err(BadRequest))
    else if kind == Password && (currentPassword.None? || currentPassword.value == "") then (s, Err(BadRequest))
    else if kind == Password && !compare(currentPassword.value, s.users[userId].password) then (s, Err(BadRequest))
    else
      var request := ChangeRequest(
        userId, s.users[userId].createdBy.value, kind,
        if IsPasswordKind(kind) then None else Some(ColumnOf(s.users[userId], kind)),
        if IsPasswordKind(kind) then Some("[HIDDEN]") else requestedValue,
        Pending);
      (s.(requests := s.requests[s.next := request], next := s.next + 1, made := s.made[s.next := request]), Ok(Done))
  }

  /** The checks every decision starts with. */
  function Checked(s: State, id: nat, adminId: nat): Result<Unit> {
    if id !in s.requests then Err(NotFound)
    else if s.requests[id].adminId != adminId then Err(Forbidden)
    else if s.requests[id].status != Pending then Err(BadRequest)
    else Ok(Done)
  }

  function Decided(s: State, id: nat, status: Status): State
    requires id in s.requests
  {
    s.(requests := s.requests[id := s.requests[id].(status := status)],
       decisions := s.decisions + [Decision(id, s.requests[id].adminId, status)])
  }

  function Wrote(s: State, id: nat, column: Kind, value: string): State
    requires id in s.requests && s.requests[id].userId in s.users
  {
    var u := s.requests[id].userId;
    s.(users := s.users[u := WithColumn(s.users[u], column, value)], writes := s.writes + [Write(id, u, column, value)])
  }

  /** `approveRequest`; the write fails for a missing value and for an email another user has. */
  function AfterApproval(s: State, id: nat, adminId: nat): (State, Result<Unit>) {
    if Checked(s, id, adminId).Err? then (s, Checked(s, id, adminId))
    else
      var request := s.requests[id];
      if IsPasswordKind(request.kind) then (s, Err(BadRequest))
      else if request.userId !in s.users then (s, Err(NotFound))
      else if request.requestedValue.None? then (s, Err(BadRequest))
      else if request.kind == Email && EmailTaken(s.users, request.userId, request.requestedValue.value)
          then (s, Err(Conflict))
      else (Decided(Wrote(s, id, request.kind, request.requestedValue.value), id, Approved), Ok(Done))
  }

  /** `rejectRequest`. */
  function AfterRejection(s: State, id: nat, adminId: nat): (State, Result<Unit>) {
    if Checked(s, id, adminId).Err? then (s, Checked(s, id, adminId)) else (Decided(s, id, Rejected), Ok(Done))
  }

  /** `generatePassword`, given the hash of the generated password. */
  function AfterGeneration(s: State, id: nat, adminId: nat, hashed: string): (State, Result<Unit>) {
    if Checked(s, id, adminId).Err? then (s, Checked(s, id, adminId))
    else if !IsPasswordKind(s.requests[id].kind) then (s, Err(BadRequest))
    else if s.requests[id].userId !in s.users then (s, Err(NotFound))
    else (Decided(Wrote(s, id, Password, hashed), id, Approved), Ok(Done))
  }

  /** Requests go with their user and with their administrator. */
  function AccountsEdited(s: State, users: map<nat, User>, removedAdmins: set<nat>): State {
    s.(users := map u | u in users ::
                  if users[u].createdBy.Some? && users[u].createdBy.value in removedAdmins
                      then users[u].(createdBy := None) else users[u],
       requests := map id | id in s.requests && s.requests[id].userId in users
           && s.requests[id].adminId !in removedAdmins :: s.requests[id])
  }

  function Next(compare: Compare, s: State, step: Step): State {
    match step
    case Create(userId, kind, requestedValue, currentPassword) => Created(compare, s, userId, kind, requestedValue,
        currentPassword).0
    case Approve(id, adminId) => AfterApproval(s, id, adminId).0
    case Reject(id, adminId) => AfterRejection(s, id, adminId).0
    case GeneratePassword(id, adminId, hashed) => AfterGeneration(s, id, adminId, hashed).0
    case EditAccounts(users, removedAdmins) => AccountsEdited(s, users, removedAdmins)
  }

  // ── What a call leaves ──────────────────────────────────────────────────

  /** User `u` has become `user`, and nobody else has changed. */
  ghost predicate OnlyBecomes(users: map<nat, User>, after: map<nat, User>, u: nat, user: User) {
    && (forall v :: v in after <==> v in users) && u in after && after[u] == user
    && (forall v | v in after && v != u :: after[v] == users[v])
  }

  /** Request `id` has the status, and nothing else about requests has changed. */
  ghost predicate OnlyDecided(requests: map<nat, ChangeRequest>, after: map<nat, ChangeRequest>, id: nat, status: Status) {
    && (forall other :: other in after <==> other in requests) && id in after
    && after[id] == ChangeRequest(requests[id].userId, requests[id].adminId, requests[id].kind, requests[id].currentValue,
                                  requests[id].requestedValue, status)
    && (forall other | other in after && other != id :: after[other] == requests[other])
  }

  /** Who may decide a request, and when: its own administrator, as long as it is pending. */
  predicate Decidable(s: State, id: nat, adminId: nat) {
    id in s.requests && s.requests[id].adminId == adminId && s.requests[id].status == Pending
  }

  /** An approval succeeds exactly for a decidable request about a name or an e-mail that has a value and, for an e-mail, one
      no other user has. It writes that value to the column the request is about, and to no other, and leaves the request
      approved. Otherwise nothing changes. */
  lemma ApprovalMeaning(compare: Compare, s: State, id: nat, adminId: nat)
    ensures var (s', r) := AfterApproval(s, id, adminId);
            && s' == Next(compare, s, Approve(id, adminId))
            && (r.Ok? <==>
                  && Decidable(s, id, adminId)
                  && s.requests[id].kind in {FirstName, LastName, Email}
                  && s.requests[id].userId in s.users && s.requests[id].requestedValue.Some?
                  && (s.requests[id].kind == Email ==>
                        forall u | u in s.users && u != s.requests[id].userId ::
                          s.users[u].email != s.requests[id].requestedValue.value))
            && (r.Err? ==> s' == s)
            && (id !in s.requests ==> r == Err(NotFound))
            && (id in s.requests && s.requests[id].adminId != adminId ==> r == Err(Forbidden))
            && (r.Ok? ==>
                  var u, value := s.requests[id].userId, s.requests[id].requestedValue.value;
                  var user := s.users[u];
                  && OnlyDecided(s.requests, s'.requests, id, Approved)
                  && (s.requests[id].kind == FirstName ==>
                        OnlyBecomes(s.users, s'.users, u,
                                    User(value, user.lastName, user.email, user.password, user.createdBy)))
                  && (s.requests[id].kind == LastName ==>
                        OnlyBecomes(s.users, s'.users, u,
                                    User(user.firstName, value, user.email, user.password, user.createdBy)))
                  && (s.requests[id].kind == Email ==>
                        OnlyBecomes(s.users, s'.users, u,
                                    User(user.firstName, user.lastName, value, user.password, user.createdBy))))
  {
  }

  /** A generated password is applied exactly for a decidable request about a password. It becomes the user's password, the
      user's other columns stay, and the request is approved. Otherwise nothing changes. */
  lemma GenerationMeaning(compare: Compare, s: State, id: nat, adminId: nat, hashed: string)
    ensures var (s', r) := AfterGeneration(s, id, adminId, hashed);
            && s' == Next(compare, s, GeneratePassword(id, adminId, hashed))
            && (r.Ok? <==>
                  && Decidable(s, id, adminId)
                  && s.requests[id].kind in {Password, PasswordReset} && s.requests[id].userId in s.users)
            && (r.Err? ==> s' == s)
            && (r.Ok? ==>
                  var u := s.requests[id].userId;
                  var user := s.users[u];
                  && OnlyDecided(s.requests, s'.requests, id, Approved)
                  && OnlyBecomes(s.users, s'.users, u,
                                 User(user.firstName, user.lastName, user.email, hashed, user.createdBy)))
  {
  }

  /** A rejection succeeds exactly for a decidable request, whose status is all it changes. */
  lemma RejectionMeaning(compare: Compare, s: State, id: nat, adminId: nat)
    ensures var (s', r) := AfterRejection(s, id, adminId);
            && s' == Next(compare, s, Reject(id, adminId))
            && (r.Ok? <==> Decidable(s, id, adminId))
            && (r.Err? ==> s' == s)
            && (r.Ok? ==> s'.users == s.users && OnlyDecided(s.requests, s'.requests, id, Rejected))
  {
  }

  /** A request is filed exactly for a user who has an administrator and, to change a password, knows the current one. It
      goes to that administrator, pending, with the current and the requested value of the column it is about; a request
      about a password holds neither. Nothing else changes. */
  lemma CreationMeaning(compare: Compare, s: State, userId: nat, kind: Kind, value: Option<string>,
        currentPassword: Option<string>)
    requires s.next !in s.requests
    ensures var (s', r) := Created(compare, s, userId, kind, value, currentPassword);
            && s' == Next(compare, s, Create(userId, kind, value, currentPassword))
            && (r.Ok? <==>
                  && userId in s.users && s.users[userId].createdBy.Some?
                  && (kind == Password ==>
                        && currentPassword.Some? && currentPassword.value != ""
                        && compare(currentPassword.value, s.users[userId].password)))
            && (r.Err? ==> s' == s && r == Err(if userId in s.users then BadRequest else NotFound))
            && (r.Ok? ==>
                  && s'.users == s.users && s'.next == s.next + 1
                  && s'.requests - {s.next} == s.requests && s.next in s'.requests
                  && var user, request := s.users[userId], s'.requests[s.next];
                     && request.userId == userId && Some(request.adminId) == user.createdBy
                     && request.kind == kind && request.status == Pending
                     && (kind == FirstName ==> request.currentValue == Some(user.firstName))
                     && (kind == LastName ==> request.currentValue == Some(user.lastName))
                     && (kind == Email ==> request.currentValue == Some(user.email))
                     && (kind in {FirstName, LastName, Email} ==> request.requestedValue == value)
                     && (kind in {Password, PasswordReset} ==>
                           request.currentValue == None && request.requestedValue == Some("[HIDDEN]")))
  {
  }

  /** When accounts are edited by other means, exactly the requests of users and administrators that stay are left, as they
      were, and a user whose administrator goes is left without one. */
  lemma AccountsMeaning(compare: Compare, s: State, users: map<nat, User>, removed: set<nat>, id: nat, u: nat)
    ensures var s' := Next(compare, s, EditAccounts(users, removed));
            && (id in s.requests ==>
                  (id !in s'.requests <==> s.requests[id].userId !in users || s.requests[id].adminId in removed))
            && (id in s'.requests ==> id in s.requests && s'.requests[id] == s.requests[id])
            && (u in s'.users <==> u in users)
            && (u in users ==>
                  && s'.users[u].(createdBy := None) == users[u].(createdBy := None)
                  && (s'.users[u].createdBy.Some? ==>
                        s'.users[u].createdBy == users[u].createdBy && s'.users[u].createdBy.value !in removed)
                  && (s'.users[u].createdBy.None? && users[u].createdBy.Some? ==> users[u].createdBy.value in removed))
  {
  }

  function Run(compare: Compare, s: State, steps: seq<Step>): State {
    if steps == [] then s else Next(compare, Run(compare, s, steps[..|steps| - 1]), steps[|steps| - 1])
  }

  // ── What every run keeps ────────────────────────────────────────────────

  /** A request as it was made, with what has been decided and written for it since. */
  ghost predicate Accounted(s: State, id: nat)
    requires id in s.requests
  {
    var request := s.requests[id];
    && id in s.made && request == s.made[id].(status := request.status)
    && request.userId in s.users
    && (request.status == Pending ==> forall i | 0 <= i < |s.decisions| :: s.decisions[i].request != id)
    && (request.status != Pending ==> DecidedAs(s, id, request.status))
  }

  ghost predicate DecidedAs(s: State, id: nat, status: Status) {
    exists i :: 0 <= i < |s.decisions| && s.decisions[i].request == id && s.decisions[i].status == status
  }

  /** What a write for an approved request must look like: the requested value in the named column, or some password. */
  ghost predicate RightWrite(request: ChangeRequest, w: Write) {
    && w.userId == request.userId
    && (if IsPasswordKind(request.kind) then w.column == Password
        else w.column == request.kind && request.requestedValue == Some(w.value))
  }

  /** The decisions, each by the administrator the request was addressed to, and the writes behind the approvals among
      them, in the same order. */
  ghost predicate Ledger(s: State) {
    && (forall id | id in s.made :: id < s.next)
    && (forall i | 0 <= i < |s.decisions| ::
          && s.decisions[i].request in s.made && s.decisions[i].status != Pending
          && s.made[s.decisions[i].request].adminId == s.decisions[i].adminId)
    && (forall i, j | 0 <= i < j < |s.decisions| :: s.decisions[i].request != s.decisions[j].request)
    && (forall i | 0 <= i < |s.writes| ::
        s.writes[i].request in s.made && RightWrite(s.made[s.writes[i].request], s.writes[i]))
    && Approvals(s.decisions) == WrittenFor(s.writes)
  }

  function Approvals(decisions: seq<Decision>): seq<nat> {
    if decisions == [] then []
    else
      Approvals(decisions[..|decisions| - 1]) +
      if decisions[|decisions| - 1].status == Approved then [decisions[|decisions| - 1].request] else []
  }

  function WrittenFor(writes: seq<Write>): seq<nat> {
    seq(|writes|, i requires 0 <= i < |writes| => writes[i].request)
  }

  ghost predicate Good(s: State) {
    Ledger(s) && forall id | id in s.requests :: Accounted(s, id)
  }

  lemma DecideKeepsLedger(s: State, id: nat, status: Status)
    requires Ledger(s) && id in s.requests && Accounted(s, id) && s.requests[id].status == Pending && status == Rejected
    ensures Ledger(Decided(s, id, status))
  {
    var s' := Decided(s, id, status);
    assert s'.decisions[..|s.decisions|] == s.decisions;
  }

  lemma ApproveKeepsLedger(s: State, id: nat, column: Kind, value: string)
    requires Ledger(s) && id in s.requests && Accounted(s, id) && s.requests[id].status == Pending
    requires RightWrite(s.requests[id], Write(id, s.requests[id].userId, column, value))
    ensures Ledger(Decided(Wrote(s, id, column, value), id, Approved))
  {
    var s' := Decided(Wrote(s, id, column, value), id, Approved);
    assert s'.decisions[..|s.decisions|] == s.decisions;
    assert WrittenFor(s'.writes) == WrittenFor(s.writes) + [id];
  }

  /** The requests stay accounted for when one of them is decided. */
  lemma DecideKeepsAccounts(s: State, id: nat, status: Status)
    requires id in s.requests && s.requests[id].status == Pending && status != Pending
    requires forall other | other in s.requests :: Accounted(s, other)
    ensures forall other | other in Decided(s, id, status).requests :: Accounted(Decided(s, id, status), other)
  {
    var s' := Decided(s, id, status);
    forall other | other in s'.requests ensures Accounted(s', other) {
      assert Accounted(s, other);
      if other == id {
        assert s'.decisions[|s.decisions|] == Decision(id, s.requests[id].adminId, status);
      } else if s.requests[other].status != Pending {
        var i :| 0 <= i < |s.decisions| && s.decisions[i].request == other
            && s.decisions[i].status == s.requests[other].status;
        assert s'.decisions[i] == s.decisions[i];
      }
    }
  }

  lemma WriteKeepsAccounts(s: State, id: nat, column: Kind, value: string)
    requires id in s.requests && s.requests[id].userId in s.users
    requires forall other | other in s.requests :: Accounted(s, other)
    ensures forall other | other in s.requests :: Accounted(Wrote(s, id, column, value), other)
  {
    forall other | other in s.requests ensures Accounted(Wrote(s, id, column, value), other) {
      assert Accounted(s, other);
    }
  }

  lemma ApprovalKeepsGood(s: State, id: nat, column: Kind, value: string)
    requires Good(s) && id in s.requests && s.requests[id].status == Pending && s.requests[id].userId in s.users
    requires RightWrite(s.requests[id], Write(id, s.requests[id].userId, column, value))
    ensures Good(Decided(Wrote(s, id, column, value), id, Approved))
  {
    assert Accounted(s, id);
    ApproveKeepsLedger(s, id, column, value);
    WriteKeepsAccounts(s, id, column, value);
    DecideKeepsAccounts(Wrote(s, id, column, value), id, Approved);
  }

  lemma CreateKeepsGood(compare: Compare, s: State, step: Step)
    requires Good(s) && step.Create?
    ensures Good(Next(compare, s, step))
  {
    var s' := Next(compare, s, step);
    if s' != s {
      assert s.next !in s.made;
      forall id | id in s'.requests ensures Accounted(s', id) {
        if id != s.next { assert Accounted(s, id); }
      }
    }
  }

  lemma EditKeepsGood(s: State, users: map<nat, User>, removedAdmins: set<nat>)
    requires Good(s)
    ensures Good(AccountsEdited(s, users, removedAdmins))
  {
    var s' := AccountsEdited(s, users, removedAdmins);
    forall id | id in s'.requests ensures Accounted(s', id) {
      assert Accounted(s, id);
    }
  }

  lemma NextKeepsGood(compare: Compare, s: State, step: Step)
    requires Good(s)
    ensures Good(Next(compare, s, step))
  {
    hide Good, Decided, Wrote, Created, AccountsEdited;
    match step
    case Create(_, _, _, _) => CreateKeepsGood(compare, s, step);
    case Approve(id, adminId) =>
      if AfterApproval(s, id, adminId).1.Ok? { ApprovalKeepsGood(s, id, s.requests[id].kind,
          s.requests[id].requestedValue.value); }
    case Reject(id, adminId) =>
      if Checked(s, id, adminId).Ok? { RejectionKeepsGood(s, id); }
    case GeneratePassword(id, adminId, hashed) =>
      if AfterGeneration(s, id, adminId, hashed).1.Ok? { ApprovalKeepsGood(s, id, Password, hashed); }
    case EditAccounts(users, removedAdmins) => EditKeepsGood(s, users, removedAdmins);
  }

  lemma RejectionKeepsGood(s: State, id: nat)
    requires Good(s) && id in s.requests && s.requests[id].status == Pending
    ensures Good(Decided(s, id, Rejected))
  {
    assert Accounted(s, id);
    DecideKeepsLedger(s, id, Rejected);
    DecideKeepsAccounts(s, id, Rejected);
  }

  lemma {:induction false} RunKeepsGood(compare: Compare, s: State, steps: seq<Step>)
    requires Good(s)
    ensures Good(Run(compare, s, steps))
  {
    if steps != [] {
      RunKeepsGood(compare, s, steps[..|steps| - 1]);
      NextKeepsGood(compare, Run(compare, s, steps[..|steps| - 1]), steps[|steps| - 1]);
    }
  }

  // ── What follows of every run ───────────────────────────────────────────

  lemma {:induction false} ApprovalsMeaning(decisions: seq<Decision>, id: nat)
    ensures id in Approvals(decisions) <==>
              exists i :: 0 <= i < |decisions| && decisions[i].request == id && decisions[i].status == Approved
  {
    if decisions != [] {
      var n := |decisions| - 1;
      ApprovalsMeaning(decisions[..n], id);
      assert forall i | 0 <= i < n :: decisions[..n][i] == decisions[i];
    }
  }

  lemma {:induction false} ApprovalsOnce(decisions: seq<Decision>)
    requires forall i, j | 0 <= i < j < |decisions| :: decisions[i].request != decisions[j].request
    ensures forall i, j | 0 <= i < j < |Approvals(decisions)| :: Approvals(decisions)[i] != Approvals(decisions)[j]
  {
    if decisions != [] {
      var n := |decisions| - 1;
      ApprovalsOnce(decisions[..n]);
      ApprovalsMeaning(decisions[..n], decisions[n].request);
      assert decisions[n].request !in Approvals(decisions[..n]);
    }
  }

  /** A user write was made for this request. */
  ghost predicate HasWrite(s: State, id: nat) {
    exists i :: 0 <= i < |s.writes| && s.writes[i].request == id
  }

  lemma HasWriteIsApproval(s: State, id: nat)
    requires Ledger(s)
    ensures HasWrite(s, id) <==> id in Approvals(s.decisions)
  {
    if HasWrite(s, id) {
      var i :| 0 <= i < |s.writes| && s.writes[i].request == id;
      assert WrittenFor(s.writes)[i] == id;
    }
    if id in WrittenFor(s.writes) {
      var i :| 0 <= i < |WrittenFor(s.writes)| && WrittenFor(s.writes)[i] == id;
      assert s.writes[i].request == id;
    }
  }

  lemma ApprovedIffWritten(s: State, id: nat)
    requires Good(s) && id in s.requests
    ensures s.requests[id].status == Approved <==> HasWrite(s, id)
  {
    HasWriteIsApproval(s, id);
    ApprovalsMeaning(s.decisions, id);
    assert Accounted(s, id);
    if s.requests[id].status == Rejected {
      var i :| 0 <= i < |s.decisions| && s.decisions[i].request == id && s.decisions[i].status == Rejected;
      assert forall j | 0 <= j < |s.decisions| && s.decisions[j].request == id :: j == i;
    }
  }

  lemma WritesOnce(s: State)
    requires Ledger(s)
    ensures forall i, j | 0 <= i < j < |s.writes| :: s.writes[i].request != s.writes[j].request
  {
    ApprovalsOnce(s.decisions);
    forall i, j | 0 <= i < j < |s.writes| ensures s.writes[i].request != s.writes[j].request {
      assert WrittenFor(s.writes)[i] == s.writes[i].request && WrittenFor(s.writes)[j] == s.writes[j].request;
    }
  }

  /** Over every sequential run: a request is decided at most once, and by the administrator it was addressed to; at most
      one user write is made for it, of the requested value on the named column or of a password, whichever its kind
      demands; and a stored request is approved exactly when that write was made. */
  lemma RequestsAreDecidedOnce(compare: Compare, steps: seq<Step>)
    ensures var s := Run(compare, INITIAL, steps);
            && (forall i, j | 0 <= i < j < |s.decisions| :: s.decisions[i].request != s.decisions[j].request)
            && (forall i | 0 <= i < |s.decisions| ::
                  s.decisions[i].request in s.made && s.made[s.decisions[i].request].adminId == s.decisions[i].adminId)
            && (forall i, j | 0 <= i < j < |s.writes| :: s.writes[i].request != s.writes[j].request)
            && (forall i | 0 <= i < |s.writes| ::
                s.writes[i].request in s.made && RightWrite(s.made[s.writes[i].request], s.writes[i]))
            && (forall id | id in s.requests :: s.requests[id].status == Approved <==> HasWrite(s, id))
  {
    var s := Run(compare, INITIAL, steps);
    RunKeepsGood(compare, INITIAL, steps);
    WritesOnce(s);
    forall id | id in s.requests ensures s.requests[id].status == Approved <==> HasWrite(s, id) {
      ApprovedIffWritten(s, id);
    }
  }

  lemma DecidedStays(compare: Compare, s: State, step: Step, id: nat)
    requires id < s.next && (id in s.requests ==> s.requests[id].status != Pending)
    ensures var s' := Next(compare, s, step);
            id < s'.next && (id in s'.requests ==> id in s.requests && s'.requests[id] == s.requests[id])
  {
    hide WithColumn, EmailTaken;
  }

  /** A decided request stays as it is until it is deleted. */
  lemma {:induction false} DecidedIsFinal(compare: Compare, s: State, steps: seq<Step>, id: nat)
    requires Good(s) && id in s.requests && s.requests[id].status != Pending
    ensures var s' := Run(compare, s, steps);
            id < s'.next && (id in s'.requests ==> s'.requests[id] == s.requests[id])
  {
    assert Accounted(s, id);
    if steps != [] {
      DecidedIsFinal(compare, s, steps[..|steps| - 1], id);
      hide Next, Good, Accounted;
      DecidedStays(compare, Run(compare, s, steps[..|steps| - 1]), steps[|steps| - 1], id);
    }
  }

  function Replayed(users: map<nat, User>, writes: seq<Write>): map<nat, User> {
    if writes == [] then users else Replay(Replayed(users, writes[..|writes| - 1]), writes[|writes| - 1])
  }

  function Replay(users: map<nat, User>, w: Write): map<nat, User> {
    if w.userId in users then users[w.userId := WithColumn(users[w.userId], w.column, w.value)] else users
  }

  lemma StepWritesAtMostOne(compare: Compare, s: State, step: Step)
    requires !step.EditAccounts?
    ensures var s' := Next(compare, s, step);
            || (s'.writes == s.writes && s'.users == s.users)
            || (|s'.writes| == |s.writes| + 1 && s'.writes == s.writes + [s'.writes[|s.writes|]]
                && s'.users == Replay(s.users, s'.writes[|s.writes|]))
  {
  }

  /** Requests touch users in no other way: while accounts are not edited by other means, the users table is the one at
      the start with the writes made for requests since, replayed. */
  lemma {:induction false} UsersAreReplayedWrites(compare: Compare, s: State, steps: seq<Step>)
    requires forall i | 0 <= i < |steps| :: !steps[i].EditAccounts?
    ensures var s' := Run(compare, s, steps);
            s.writes <= s'.writes && s'.users == Replayed(s.users, s'.writes[|s.writes|..])
  {
    if steps != [] {
      var before := Run(compare, s, steps[..|steps| - 1]);
      UsersAreReplayedWrites(compare, s, steps[..|steps| - 1]);
      StepWritesAtMostOne(compare, before, steps[|steps| - 1]);
      var s' := Run(compare, s, steps);
      hide Next, Replay;
      if |s'.writes| > |before.writes| {
        var more := s'.writes[|s.writes|..];
        assert more[..|more| - 1] == before.writes[|s.writes|..];
        assert more[|more| - 1] == s'.writes[|before.writes|];
      }
    }
  }

  // ── The service ─────────────────────────────────────────────────────────

  class RequestService {
    const compare: Compare
    var users: map<nat, User>
    var requests: map<nat, ChangeRequest>
    var next: nat
    ghost var made: map<nat, ChangeRequest>
    ghost var writes: seq<Write>
    ghost var decisions: seq<Decision>

    ghost function Snapshot(): State
      reads this
    {
      State(users, requests, next, made, writes, decisions)
    }

    ghost predicate Valid()
      reads this
    {
      Good(Snapshot())
    }

    constructor (compare: Compare)
      ensures Valid() && this.compare == compare && Snapshot() == INITIAL
    {
      this.compare := compare;
      users, requests, next := map[], map[], 1;
      made, writes, decisions := map[], [], [];
    }

    method CreateRequest(userId: nat, kind: Kind, requestedValue: Option<string>, currentPassword: Option<string>)
          returns (r: Result<Unit>)
      requires Valid()
      modifies this
      ensures Valid()
      ensures (Snapshot(), r) == Created(compare, old(Snapshot()), userId, kind, requestedValue, currentPassword)
    {
      NextKeepsGood(compare, Snapshot(), Create(userId, kind, requestedValue, currentPassword));
      hide Good;
      if userId !in users { return Err(NotFound); }
      var user := users[userId];
      if user.createdBy.None? { return Err(BadRequest); }
      if kind == Password {
        if currentPassword.None? || currentPassword.value == "" { return Err(BadRequest); }
        if !compare(currentPassword.value, user.password) { return Err(BadRequest); }
      }
      var currentValue: Option<string> := None;
      var stored := Some("[HIDDEN]");
      if !IsPasswordKind(kind) {
        currentValue := Some(ColumnOf(user, kind));
        stored := requestedValue;
      }
      var request := ChangeRequest(userId, user.createdBy.value, kind, currentValue, stored, Pending);
      requests := requests[next := request];
      made := made[next := request];
      next := next + 1;
      r := Ok(Done);
    }

    /** `user.update` of one column. */
    method WriteUser(id: nat, column: Kind, value: string)
      requires id in requests && requests[id].userId in users
      modifies this
      ensures Snapshot() == Wrote(old(Snapshot()), id, column, value)
    {
      var u := requests[id].userId;
      users := users[u := WithColumn(users[u], column, value)];
      writes := writes + [Write(id, u, column, value)];
    }

    /** `userRequest.update` of the status. */
    method SetStatus(id: nat, status: Status)
      requires id in requests
      modifies this
      ensures Snapshot() == Decided(old(Snapshot()), id, status)
    {
      requests := requests[id := requests[id].(status := status)];
      decisions := decisions + [Decision(id, requests[id].adminId, status)];
    }

    method ApproveRequest(id: nat, adminId: nat) returns (r: Result<Unit>)
      requires Valid()
      modifies this
      ensures Valid() && (Snapshot(), r) == AfterApproval(old(Snapshot()), id, adminId)
    {
      NextKeepsGood(compare, Snapshot(), Approve(id, adminId));
      hide Good, Decided, Wrote;
      if id !in requests { return Err(NotFound); }
      var request := requests[id];
      if request.adminId != adminId { return Err(Forbidden); }
      if request.status != Pending { return Err(BadRequest); }
      if IsPasswordKind(request.kind) { return Err(BadRequest); }
      if request.userId !in users { return Err(NotFound); }
      if request.requestedValue.None? { return Err(BadRequest); }
      if request.kind == Email && EmailTaken(users, request.userId, request.requestedValue.value) { return Err(Conflict); }
      WriteUser(id, request.kind, request.requestedValue.value);
      SetStatus(id, Approved);
      r := Ok(Done);
    }

    method RejectRequest(id: nat, adminId: nat) returns (r: Result<Unit>)
      requires Valid()
      modifies this
      ensures Valid() && (Snapshot(), r) == AfterRejection(old(Snapshot()), id, adminId)
    {
      NextKeepsGood(compare, Snapshot(), Reject(id, adminId));
      hide Good, Decided;
      if id !in requests { return Err(NotFound); }
      if requests[id].adminId != adminId { return Err(Forbidden); }
      if requests[id].status != Pending { return Err(BadRequest); }
      SetStatus(id, Rejected);
      r := Ok(Done);
    }

    /** `generatePassword`, with the generated password's hash. */
    method ApplyGeneratedPassword(id: nat, adminId: nat, hashed: string) returns (r: Result<Unit>)
      requires Valid()
      modifies this
      ensures Valid() && (Snapshot(), r) == AfterGeneration(old(Snapshot()), id, adminId, hashed)
    {
      NextKeepsGood(compare, Snapshot(), GeneratePassword(id, adminId, hashed));
      hide Good, Decided, Wrote;
      if id !in requests { return Err(NotFound); }
      if requests[id].adminId != adminId { return Err(Forbidden); }
      if requests[id].status != Pending { return Err(BadRequest); }
      if !IsPasswordKind(requests[id].kind) { return Err(BadRequest); }
      if requests[id].userId !in users { return Err(NotFound); }
      WriteUser(id, Password, hashed);
      SetStatus(id, Approved);
      r := Ok(Done);
    }
  }
}
