/** The account page: the administrator e-mail check, and the login-type
    chooser with its admin-code gate. The chooser starts with no type
    selected; "user" and "admin" are picked from there, the admin screen asks
    for a code and moves on to the admin login only when the code matches,
    and every "back" returns to the chooser. The sign-in service itself is
    not modelled: whether the user is loaded and their e-mail are inputs. */
module AccountPage {
  import opened JsBuiltins

  const AdminEmails: seq<string> := ["admin@example.com", "owner@yourstore.com"]

  /** `isUserAdmin(email)`; `None` is `undefined`. The check is exactly "the
      lower-cased address is listed": `undefined` and `""` are rejected. */
  function IsUserAdmin(email: Option<string>): (admin: bool)
    ensures admin <==> email.Some? && Lower(email.value) in AdminEmails
    ensures email == None || email == Some("") ==> !admin
  {
    match email
    case None => false
    case Some(e) => if e == "" then false else Lower(e) in AdminEmails
  }

  /** Two addresses that differ only in letter case get the same answer, so
      every case variant of a listed address is accepted. */
  lemma AdminIgnoresCase(e1: string, e2: string)
    requires Lower(e1) == Lower(e2)
    ensures IsUserAdmin(Some(e1)) == IsUserAdmin(Some(e2))
  {
  }

  // ---------------------------------------------------------------------------
  // Login-type selection

  const AdminCode: string := "ADMIN2024"
  const InvalidCodeMessage: string := "Invalid admin code. Please try again."

  /** `selectedType`: `null`, `"user"`, `"admin"`, `"admin-verified"`. */
  datatype LoginType = Unselected | UserLogin | AdminLogin | AdminVerified

  /** What the visitor does on the current screen. */
  datatype Event =
    | ChooseUser              // the "user" card on the chooser
    | ChooseAdmin             // the "admin" card on the chooser
    | Back                    // any "back" button
    | TypeCode(code: string)  // the code field's onChange
    | KeyPress(key: string)   // a key pressed in the code field
    | VerifyClick             // "Verify Admin Access"

  /** The chooser's `selectedType`, with the code field's text and the error
      line of the admin verification screen. That screen is mounted only
      while the type is "admin", so both are empty on every other screen. */
  datatype LoginState = LoginState(selected: LoginType, adminCode: string, error: string)

  function Initial(): LoginState {
    LoginState(Unselected, "", "")
  }

  /** The admin screen's own state is reset whenever it is not shown. */
  predicate Valid(s: LoginState) {
    s.selected != AdminLogin ==> s.adminCode == "" && s.error == ""
  }

  /** `handleVerification()` on the admin screen. */
  function HandleVerification(s: LoginState): (r: LoginState)
    requires s.selected == AdminLogin
    ensures s.adminCode == AdminCode ==> r == LoginState(AdminVerified, "", "")
    ensures s.adminCode != AdminCode ==> r == LoginState(AdminLogin, "", InvalidCodeMessage)
  {
    if s.adminCode == AdminCode then
      LoginState(AdminVerified, "", "")
    else
      s.(error := InvalidCodeMessage, adminCode := "")
  }

  /** The events that call `handleVerification`: the button, and the Enter
      key in the code field. */
  predicate Verifies(e: Event) {
    e == VerifyClick || e == KeyPress("Enter")
  }

  /** One event. An event that the current screen does not offer changes
      nothing. */
  function Step(s: LoginState, e: Event): (r: LoginState)
    ensures s.selected == Unselected ==> r.selected in {Unselected, UserLogin, AdminLogin}
    ensures r.selected == AdminVerified && s.selected != AdminVerified ==>
      s.selected == AdminLogin && s.adminCode == AdminCode && Verifies(e)
    ensures e == Back ==> r.selected == Unselected
    ensures s.selected == AdminVerified && e != Back ==> r == s
    ensures r.selected == AdminLogin && s.selected != AdminLogin ==> r.adminCode == "" && r.error == ""
    ensures Valid(s) ==> Valid(r)
  {
    match s.selected
    case Unselected =>
      (match e
       case ChooseUser => LoginState(UserLogin, "", "")
       case ChooseAdmin => LoginState(AdminLogin, "", "")
       case _ => s)
    case AdminLogin =>
      (match e
       case TypeCode(code) => s.(adminCode := code)
       case KeyPress(key) => if key == "Enter" then HandleVerification(s) else s
       case VerifyClick => HandleVerification(s)
       case Back => Initial()
       case _ => s)
    case UserLogin =>
      if e == Back then Initial() else s
    case AdminVerified =>
      if e == Back then Initial() else s
  }

  /** The state after a sequence of events, the last one applied last. */
  function Run(s: LoginState, events: seq<Event>): LoginState
    decreases |events|
  {
    if events == [] then s else Step(Run(s, events[..|events| - 1]), events[|events| - 1])
  }

  /** Event `k` of `events` was a successful verification. */
  predicate VerifiedAt(s: LoginState, events: seq<Event>, k: int) {
    0 <= k < |events| &&
    var before := Run(s, events[..k]);
    before.selected == AdminLogin && before.adminCode == AdminCode && Verifies(events[k])
  }

  /** The admin login is only ever reached by verifying the exact code on
      the admin screen. */
  lemma {:induction false} VerifiedOnlyThroughCode(s: LoginState, events: seq<Event>)
    requires s.selected != AdminVerified
    requires Run(s, events).selected == AdminVerified
    ensures exists k :: VerifiedAt(s, events, k)
    decreases |events|
  {
    var n := |events| - 1;
    var prefix := events[..n];
    var before := Run(s, prefix);
    if before.selected == AdminVerified {
      VerifiedOnlyThroughCode(s, prefix);
      var k :| VerifiedAt(s, prefix, k);
      assert events[..k] == prefix[..k];
      assert VerifiedAt(s, events, k);
    } else {
      assert VerifiedAt(s, events, n);
    }
  }

  /** The invariant holds along every run from the first render. */
  lemma {:induction false} RunKeepsValid(events: seq<Event>)
    ensures Valid(Run(Initial(), events))
    decreases |events|
  {
    if events != [] {
      RunKeepsValid(events[..|events| - 1]);
    }
  }

  /** The comparison with the code is exact: the lower-case spelling fails,
      shows the error and empties the field. */
  lemma CodeIsCaseSensitive()
    ensures Run(Initial(), [ChooseAdmin, TypeCode("admin2024"), VerifyClick])
      == LoginState(AdminLogin, "", InvalidCodeMessage)
    ensures Run(Initial(), [ChooseAdmin, TypeCode("ADMIN2024"), KeyPress("Enter")])
      == LoginState(AdminVerified, "", "")
  {
    var bad := [ChooseAdmin, TypeCode("admin2024"), VerifyClick];
    assert bad[..2][..1] == [ChooseAdmin] && bad[..2] == [ChooseAdmin, TypeCode("admin2024")];
    assert [ChooseAdmin][..0] == [];
    var good := [ChooseAdmin, TypeCode("ADMIN2024"), KeyPress("Enter")];
    assert good[..2][..1] == [ChooseAdmin] && good[..2] == [ChooseAdmin, TypeCode("ADMIN2024")];
  }

  /** `LoginTypeSelection` with its `AdminVerification` child. */
  class LoginTypeSelection {
    var selected: LoginType
    var adminCode: string
    var error: string

    function State(): LoginState
      reads this
    {
      LoginState(selected, adminCode, error)
    }

    constructor ()
      ensures State() == Initial()
    {
      selected := Unselected;
      adminCode := "";
      error := "";
    }

    /** A click on the "user" card. */
    method SelectUser()
      modifies this
      ensures State() == Step(old(State()), ChooseUser)
    {
      if selected == Unselected {
        selected := UserLogin;
        adminCode, error := "", "";
      }
    }

    /** A click on the "admin" card; the verification screen mounts with an
        empty field and no error. */
    method SelectAdmin()
      modifies this
      ensures State() == Step(old(State()), ChooseAdmin)
    {
      if selected == Unselected {
        selected := AdminLogin;
        adminCode, error := "", "";
      }
    }

    /** `onBack` of the admin screen and the "back" buttons of both login
        forms: `setSelectedType(null)`. */
    method GoBack()
      modifies this
      ensures State() == Step(old(State()), Back)
    {
      if selected != Unselected {
        selected := Unselected;
        adminCode, error := "", "";
      }
    }

    /** The code field's `onChange`. */
    method ChangeCode(value: string)
      modifies this
      ensures State() == Step(old(State()), TypeCode(value))
    {
      if selected == AdminLogin {
        adminCode := value;
      }
    }

    /** `handleVerification`; on success the parent's `onVerified` moves on
        to the admin login and the verification screen unmounts. */
    method Verify()
      modifies this
      ensures State() == Step(old(State()), VerifyClick)
    {
      if selected == AdminLogin {
        if adminCode == AdminCode {
          error := "";
          selected := AdminVerified;
          adminCode := "";
        } else {
          error := InvalidCodeMessage;
          adminCode := "";
        }
      }
    }

    /** `onKeyPress` of the code field: only Enter verifies. */
    method PressKey(key: string)
      modifies this
      ensures State() == Step(old(State()), KeyPress(key))
    {
      if key == "Enter" {
        Verify();
      }
    }
  }

  /** `AccountPage`'s `userIsAdmin` flag. */
  class AdminFlag {
    var userIsAdmin: bool

    constructor ()
      ensures !userIsAdmin
    {
      userIsAdmin := false;
    }

    /** The effect on `[user, isLoaded]`: the flag is recomputed only when the
        user is loaded and has a non-empty primary e-mail; otherwise it keeps
        its previous value. */
    method UserEffect(isLoaded: bool, email: Option<string>)
      modifies this
      ensures isLoaded && email.Some? && email.value != "" ==> userIsAdmin == IsUserAdmin(email)
      ensures !(isLoaded && email.Some? && email.value != "") ==> userIsAdmin == old(userIsAdmin)
    {
      if isLoaded && email.Some? && email.value != "" {
        userIsAdmin := IsUserAdmin(email);
      }
    }
  }
}
