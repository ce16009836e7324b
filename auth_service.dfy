/** AuthService: the login session, a single current user shared by the whole
    application (a static class there; one instance of this class stands for it). */
module Auth {
  import opened Models

  class AuthService {
    var currentUser: Option<User>

    /** No one is logged in when the application starts. */
    constructor ()
      ensures currentUser.None? && !IsLoggedIn()
    {
      currentUser := None;
    }

    /** IsLoggedIn: someone is logged in exactly when there is a current user. */
    predicate IsLoggedIn()
      reads this
    {
      currentUser.Some?
    }

    /** Login: the user becomes the current user, replacing any other. */
    method Login(user: User)
      modifies this
      ensures currentUser == Some(user) && IsLoggedIn()
    {
      currentUser := Some(user);
    }

    /** Logout: the session ends, whether or not one was open. It is idempotent:
        with nobody logged in, it changes nothing. */
    method Logout()
      modifies this
      ensures currentUser.None? && !IsLoggedIn()
      ensures old(currentUser).None? ==> unchanged(this)
    {
      currentUser := None;
    }
  }
}
