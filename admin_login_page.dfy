/**
 * The full-page admin login form: a password field and an error flag. A
 * correct password stores the admin flag in the browser and goes to the
 * admin route; a wrong one shows the error and clears the field.
 */
module AdminLoginPage {
  import opened Wrappers

  const AdminPassword := "admin2024"
  const AdminRoute := "/admin"

  class LoginPage {
    var password: string
    var error: bool
    /** The browser's `adminAuth` slot. */
    var adminAuth: Option<string>
    /** The route the router shows. */
    var location: string

    constructor (storedAuth: Option<string>, at: string)
      ensures password == "" && !error && adminAuth == storedAuth && location == at
    {
      password := "";
      error := false;
      adminAuth := storedAuth;
      location := at;
    }

    /** The field's `onChange`: takes the typed text and hides the error. */
    method Edit(value: string)
      modifies this`password, this`error
      ensures password == value && !error
    {
      password := value;
      error := false;
    }

    /**
     * `handleSubmit`: only the exact password is accepted. Acceptance writes
     * `adminAuth = 'true'` and navigates to the admin route; rejection sets
     * the error, clears the field and leaves the stored flag and the route alone.
     */
    method Submit() returns (accepted: bool)
      modifies this`password, this`error, this`adminAuth, this`location
      ensures accepted <==> old(password) == AdminPassword
      ensures accepted ==>
        adminAuth == Some("true") && location == AdminRoute
        && password == old(password) && error == old(error)
      ensures !accepted ==>
        error && password == "" && adminAuth == old(adminAuth) && location == old(location)
    {
      if password == AdminPassword {
        adminAuth := Some("true");
        location := AdminRoute;
        return true;
      }
      error := true;
      password := "";
      return false;
    }
  }

  /** A wrong attempt shows the error; typing again hides it; the right password gets in. */
  method ScenarioRetry()
  {
    var page := new LoginPage(None, "/admin-login");
    page.Edit("admin2025");
    var ok := page.Submit();
    assert !ok && page.error && page.password == "" && page.adminAuth == None;
    page.Edit("admin2024");
    assert !page.error;
    ok := page.Submit();
    assert ok && page.adminAuth == Some("true") && page.location == AdminRoute;
  }
}
