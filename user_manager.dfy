/**
 * The user account screen: a dialog that creates a learner or an admin
 * account once the form passes its length checks.
 */
module UserManagement {
  import opened Base
  import opened Text
  import opened Types
  import opened QueryKeys

  const InitialForm := CreateUserRequest("", "", "", Some(UserRole))

  /**
   * `canSubmit`: at least 3 characters of username and at least one of
   * e-mail once surrounding whitespace is trimmed, and a password of at
   * least 6 characters exactly as typed.
   */
  predicate CanSubmit(form: CreateUserRequest) {
    |Trim(form.username)| >= 3 && |Trim(form.email)| > 0 && |form.password| >= 6
  }

  /** The account sent: trimmed username and e-mail, the password untouched, the dialog's role. */
  function Payload(form: CreateUserRequest, role: Role): CreateUserRequest {
    CreateUserRequest(Trim(form.username), Trim(form.email), form.password, Some(role))
  }

  /**
   * What is sent already passes the checks and is its own trimmed form:
   * submitting it again would send it unchanged.
   */
  lemma PayloadIsClean(form: CreateUserRequest, role: Role)
    requires CanSubmit(form)
    ensures CanSubmit(Payload(form, role)) && Payload(Payload(form, role), role) == Payload(form, role)
  {
    var u := Trim(form.username);
    var e := Trim(form.email);
    TrimIdempotent(form.username);
    TrimIdempotent(form.email);
    assert Trim(u) == u && Trim(e) == e;
  }

  /** A username of three or more and an e-mail without surrounding whitespace, with a six-character password, are accepted. */
  lemma UnpaddedAccepted(form: CreateUserRequest)
    requires |form.username| >= 3 && !IsWhitespace(form.username[0]) && !IsWhitespace(form.username[|form.username| - 1])
    requires |form.email| > 0 && !IsWhitespace(form.email[0]) && !IsWhitespace(form.email[|form.email| - 1])
    requires |form.password| >= 6
    ensures CanSubmit(form)
  {
    TrimOfUnpadded(form.username);
    TrimOfUnpadded(form.email);
  }

  /** A two-character username, or a five-character password, is refused. */
  lemma TooShortRefused(email: string)
    ensures !CanSubmit(CreateUserRequest("ab", email, "123456", Some(UserRole)))
    ensures !CanSubmit(CreateUserRequest("abc", email, "12345", Some(UserRole)))
  {
    TrimNoLonger("ab");
  }

  /** Trimming never lengthens a string. */
  lemma TrimNoLonger(s: string)
    ensures |Trim(s)| <= |s|
  {
    TrimShape(s);
    var k :| PaddedInfixAt(s, Trim(s), k);
  }

  /** A string whose ends are not whitespace is its own trimmed form. */
  lemma TrimOfUnpadded(s: string)
    requires |s| > 0 && !IsWhitespace(s[0]) && !IsWhitespace(s[|s| - 1])
    ensures Trim(s) == s
  {
    var r := Trim(s);
    TrimShape(s);
    var k :| PaddedInfixAt(s, r, k);
    assert k == 0;
    assert k + |r| == |s|;
  }

  class UserManager {
    var dialogOpen: bool
    /** The role the dialog was opened for. */
    var targetRole: Role
    var form: CreateUserRequest

    constructor()
      ensures !dialogOpen && targetRole == UserRole && form == InitialForm
    {
      dialogOpen, targetRole, form := false, UserRole, InitialForm;
    }

    /** `openDialog(role)`: the typed fields are kept, the role is set. */
    method OpenDialog(role: Role)
      modifies this`targetRole, this`form, this`dialogOpen
      ensures targetRole == role && form == old(form).(role := Some(role)) && dialogOpen
    {
      targetRole := role;
      form := form.(role := Some(role));
      dialogOpen := true;
    }

    /** `closeDialog`: ignored while a create request is in flight; otherwise closes and clears the form. */
    method CloseDialog(createPending: bool)
      modifies this`dialogOpen, this`form
      ensures createPending ==> dialogOpen == old(dialogOpen) && form == old(form)
      ensures !createPending ==> !dialogOpen && form == InitialForm
    {
      if !createPending {
        dialogOpen := false;
        form := InitialForm;
      }
    }

    /** The username, e-mail and password fields. */
    method EditForm(username: string, email: string, password: string)
      modifies this`form
      ensures form == old(form).(username := username, email := email, password := password)
    {
      form := form.(username := username, email := email, password := password);
    }

    /** `handleSubmit`: the account to create, or nothing when the form fails the checks. */
    function HandleSubmit(): (payload: Option<CreateUserRequest>)
      reads this
      ensures payload.Some? <==> CanSubmit(form)
      ensures payload.Some? ==> payload.value.password == form.password && payload.value.role == Some(targetRole)
      ensures payload.Some? ==> CanSubmit(payload.value) && |payload.value.username| >= 3 && |payload.value.email| > 0
      ensures payload.Some? ==> payload.value.username == Trim(form.username) && payload.value.email == Trim(form.email)
    {
      if CanSubmit(form) then
        PayloadIsClean(form, targetRole);
        Some(Payload(form, targetRole))
      else None
    }

    method OnCreated() returns (invalidated: set<QueryKey>)
      modifies this`dialogOpen, this`form
      ensures !dialogOpen && form == InitialForm && invalidated == {Users}
    {
      dialogOpen := false;
      form := InitialForm;
      invalidated := {Users};
    }
  }

  /** An account created from the dialog opened for `role` has that role, whatever the form held before. */
  method CreateFlow(role: Role, username: string, email: string, password: string) returns (payload: Option<CreateUserRequest>)
    requires CanSubmit(CreateUserRequest(username, email, password, None))
    ensures payload == Some(CreateUserRequest(Trim(username), Trim(email), password, Some(role)))
  {
    var m := new UserManager();
    m.OpenDialog(role);
    m.EditForm(username, email, password);
    assert m.form == CreateUserRequest(username, email, password, Some(role)) && m.targetRole == role;
    payload := m.HandleSubmit();
  }

  /** Closing the dialog while the request is in flight keeps what was typed. */
  method CloseWhilePendingFlow(username: string, email: string, password: string) returns (payload: Option<CreateUserRequest>)
    requires CanSubmit(CreateUserRequest(username, email, password, None))
    ensures payload == Some(CreateUserRequest(Trim(username), Trim(email), password, Some(AdminRole)))
  {
    var m := new UserManager();
    m.OpenDialog(AdminRole);
    assert m.targetRole == AdminRole;
    m.EditForm(username, email, password);
    assert m.targetRole == AdminRole;
    assert m.form == CreateUserRequest(username, email, password, Some(AdminRole));
    m.CloseDialog(true);
    assert m.targetRole == AdminRole;
    assert m.form == CreateUserRequest(username, email, password, Some(AdminRole));
    payload := m.HandleSubmit();
  }
}
