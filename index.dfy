/**
 * The page that switches between the login form, the registration form and
 * the dashboard, and holds the signed-in user.
 */
module Index {
  import opened Optional
  import opened JsString

  datatype AuthMode = Login | Register | Dashboard

  datatype User = User(username: string)

  class AuthSession {
    var authMode: AuthMode
    var user: Option<User>

    /** The dashboard is only ever shown with a user. */
    ghost predicate Valid()
      reads this
    {
      authMode == Dashboard ==> user.Some?
    }

    constructor ()
      ensures Valid()
      ensures authMode == Login && user == None
    {
      authMode := Login;
      user := None;
    }

    /** The render condition `authMode === 'dashboard' && user`: under the invariant, the mode alone decides. */
    predicate ShowsDashboard()
      reads this
      requires Valid()
      ensures ShowsDashboard() <==> authMode == Dashboard
    {
      authMode == Dashboard && user.Some?
    }

    /**
     * `handleLogin`: with a non-empty username and password, signs the user
     * in and shows the dashboard; otherwise (the alert) nothing changes.
     */
    method HandleLogin(username: string, password: string) returns (accepted: bool)
      requires Valid()
      modifies this
      ensures Valid()
      ensures accepted <==> username != "" && password != ""
      ensures accepted ==> authMode == Dashboard && user == Some(User(username))
      ensures !accepted ==> authMode == old(authMode) && user == old(user)
    {
      if Truthy(username) && Truthy(password) {
        user := Some(User(username));
        authMode := Dashboard;
        accepted := true;
      } else {
        accepted := false;
      }
    }

    /**
     * `handleRegister`: the same as a successful login when username,
     * password and email are all non-empty; otherwise nothing changes.
     */
    method HandleRegister(username: string, password: string, email: string) returns (accepted: bool)
      requires Valid()
      modifies this
      ensures Valid()
      ensures accepted <==> username != "" && password != "" && email != ""
      ensures accepted ==> authMode == Dashboard && user == Some(User(username))
      ensures !accepted ==> authMode == old(authMode) && user == old(user)
    {
      if Truthy(username) && Truthy(password) && Truthy(email) {
        user := Some(User(username));
        authMode := Dashboard;
        accepted := true;
      } else {
        accepted := false;
      }
    }

    /** `handleLogout`: forgets the user and returns to the login form. */
    method HandleLogout()
      modifies this
      ensures Valid()
      ensures authMode == Login && user == None
    {
      user := None;
      authMode := Login;
    }

    /** The login form's "register" link: only the mode changes. */
    method SwitchToRegister()
      requires Valid()
      modifies this`authMode
      ensures Valid()
      ensures authMode == Register && user == old(user)
    {
      authMode := Register;
    }

    /** The registration form's "login" link: only the mode changes. */
    method SwitchToLogin()
      requires Valid()
      modifies this`authMode
      ensures Valid()
      ensures authMode == Login && user == old(user)
    {
      authMode := Login;
    }
  }
}
