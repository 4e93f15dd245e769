/**
 * The admin login dialog: a password field and an error flag inside a dialog
 * whose open state belongs to the parent. It checks its own constant, which
 * differs from the login page's.
 */
module AdminLoginDialog {

  const AdminPassword := "admin2025"

  class LoginDialog {
    /** The parent's `open` prop, changed through `onOpenChange`. */
    var open: bool
    var password: string
    var error: bool
    /** How many times the dialog has called the parent's `onSuccess`. */
    var successCalls: nat

    constructor (isOpen: bool)
      ensures open == isOpen && password == "" && !error && successCalls == 0
    {
      open := isOpen;
      password := "";
      error := false;
      successCalls := 0;
    }

    /** The field's `onChange`: takes the typed text and leaves the error as it is. */
    method Edit(value: string)
      modifies this`password
      ensures password == value
    {
      password := value;
    }

    /**
     * `handleSubmit`: only the exact password is accepted. Either way the
     * field ends empty; acceptance calls `onSuccess` once and clears the
     * error, rejection sets the error and calls nothing.
     */
    method Submit() returns (accepted: bool)
      modifies this`password, this`error, this`successCalls
      ensures accepted <==> old(password) == AdminPassword
      ensures password == ""
      ensures accepted ==> !error && successCalls == old(successCalls) + 1
      ensures !accepted ==> error && successCalls == old(successCalls)
    {
      if password == AdminPassword {
        successCalls := successCalls + 1;
        password := "";
        error := false;
        return true;
      }
      error := true;
      password := "";
      return false;
    }

    /** "Cancelar": closes the dialog and clears the field and the error. */
    method Cancel()
      modifies this`open, this`password, this`error
      ensures !open && password == "" && !error
    {
      open := false;
      password := "";
      error := false;
    }
  }

  /** The login page's password is refused here, and the error survives further typing. */
  method ScenarioWrongConstant()
  {
    var dialog := new LoginDialog(true);
    dialog.Edit("admin2024");
    var ok := dialog.Submit();
    assert !ok && dialog.error && dialog.successCalls == 0;
    dialog.Edit("a");
    assert dialog.error;
    dialog.Cancel();
    assert !dialog.open && !dialog.error && dialog.password == "";
  }
}
