/** The change-password page: three password inputs, a show/hide flag for
    each, and a save handler that checks the inputs before calling the
    mutation, then on success drops the session token and sends the operator
    back to the login page. */
module ChangePasswordPage {
  import opened Remote

  datatype PasswordDraft = PasswordDraft(currentPassword: string, newPassword: string, confirmPassword: string)

  const EmptyPasswords := PasswordDraft("", "", "")

  datatype PasswordField = Current | New | Confirm

  datatype ShowFlags = ShowFlags(showCurrent: bool, showNew: bool, showConfirm: bool)

  const AllHidden := ShowFlags(false, false, false)

  function Shown(s: ShowFlags, f: PasswordField): bool {
    match f
    case Current => s.showCurrent
    case New => s.showNew
    case Confirm => s.showConfirm
  }

  /** `toggleShow(f)`: flag `f` flipped, the two others kept. */
  function Toggled(s: ShowFlags, f: PasswordField): (r: ShowFlags)
    ensures Shown(r, f) == !Shown(s, f)
    ensures forall g :: g != f ==> Shown(r, g) == Shown(s, g)
  {
    match f
    case Current => s.(showCurrent := !s.showCurrent)
    case New => s.(showNew := !s.showNew)
    case Confirm => s.(showConfirm := !s.showConfirm)
  }

  /** Flags agreeing on every field are the same flags. */
  lemma FlagsExtensional(s: ShowFlags, t: ShowFlags)
    requires forall f :: Shown(s, f) == Shown(t, f)
    ensures s == t
  {
    assert Shown(s, Current) == Shown(t, Current);
    assert Shown(s, New) == Shown(t, New);
    assert Shown(s, Confirm) == Shown(t, Confirm);
  }

  /** Toggling a flag twice restores it, and toggles of two flags commute. */
  lemma ToggleLaws(s: ShowFlags, f: PasswordField, g: PasswordField)
    ensures Toggled(Toggled(s, f), f) == s
    ensures Toggled(Toggled(s, f), g) == Toggled(Toggled(s, g), f)
  {
    FlagsExtensional(Toggled(Toggled(s, f), f), s);
    FlagsExtensional(Toggled(Toggled(s, f), g), Toggled(Toggled(s, g), f));
  }

  function Password(d: PasswordDraft, f: PasswordField): string {
    match f
    case Current => d.currentPassword
    case New => d.newPassword
    case Confirm => d.confirmPassword
  }

  /** One password input set to `v`, the two others kept. */
  function WithPassword(d: PasswordDraft, f: PasswordField, v: string): (r: PasswordDraft)
    ensures Password(r, f) == v
    ensures forall g :: g != f ==> Password(r, g) == Password(d, g)
  {
    match f
    case Current => d.(currentPassword := v)
    case New => d.(newPassword := v)
    case Confirm => d.(confirmPassword := v)
  }

  /** The one mutation of the page: the confirmation is never part of it. */
  datatype PasswordCall = ChangePassword(currentPassword: string, newPassword: string)

  /** What one press of Save does. */
  datatype SaveEffect = SaveEffect(
    call: Option<PasswordCall>, alert: string, removeToken: bool, navigateTo: Option<string>)

  const RequiredAlert := "All fields are required."
  const MismatchAlert := "New Password and Confirm Password do not match."
  const ChangedAlert := "Password changed successfully. Please login again."
  const ChangeFallback := "Error changing password."
  const LoginPath := "/login"

  /** `!currentPassword || !newPassword || !confirmPassword`. */
  predicate AnyEmpty(d: PasswordDraft)
    ensures AnyEmpty(d) <==> "" in [d.currentPassword, d.newPassword, d.confirmPassword]
  {
    d.currentPassword == "" || d.newPassword == "" || d.confirmPassword == ""
  }

  /** Save. An empty field is reported first, then a mismatch between the new
      password and its confirmation; only a draft passing both reaches the
      mutation, which carries the current and the new password. Success drops
      the token and leads to the login page; failure keeps the token, stays,
      and reports the first server message, else the fallback. */
  function HandleSave(d: PasswordDraft, outcome: Response<()>): (eff: SaveEffect)
    ensures eff.call.Some? <==> !AnyEmpty(d) && d.newPassword == d.confirmPassword
    ensures AnyEmpty(d) ==> eff.alert == RequiredAlert
    ensures !AnyEmpty(d) && d.newPassword != d.confirmPassword ==> eff.alert == MismatchAlert
    ensures eff.call.Some? ==>
      eff.call.value == ChangePassword(d.currentPassword, d.newPassword) &&
      eff.call.value.newPassword != ""
    ensures eff.removeToken <==> eff.call.Some? && outcome.Ok?
    ensures eff.navigateTo.Some? <==> eff.removeToken
    ensures eff.navigateTo.Some? ==> eff.navigateTo.value == LoginPath
    ensures eff.call.Some? && outcome.Ok? ==> eff.alert == ChangedAlert
    ensures eff.call.Some? && outcome.Err? ==> eff.alert == ErrorAlert(outcome.messages, ChangeFallback)
  {
    if AnyEmpty(d) then SaveEffect(None, RequiredAlert, false, None)
    else if d.newPassword != d.confirmPassword then SaveEffect(None, MismatchAlert, false, None)
    else
      var call := Some(ChangePassword(d.currentPassword, d.newPassword));
      match outcome
      case Ok(_) => SaveEffect(call, ChangedAlert, true, Some(LoginPath))
      case Err(messages) => SaveEffect(call, ErrorAlert(messages, ChangeFallback), false, None)
  }

  /** The page's state: the three inputs and the three visibility flags. */
  class PasswordForm {
    var formData: PasswordDraft
    var show: ShowFlags

    constructor ()
      ensures formData == EmptyPasswords && show == AllHidden
    {
      formData := EmptyPasswords;
      show := AllHidden;
    }

    /** Typing into one of the three inputs. */
    method Edit(f: PasswordField, v: string)
      modifies this
      ensures formData == WithPassword(old(formData), f, v) && show == old(show)
    {
      formData := WithPassword(formData, f, v);
    }

    /** Cancel: all three inputs emptied, the flags kept. */
    method Cancel()
      modifies this
      ensures formData == EmptyPasswords && show == old(show)
    {
      formData := EmptyPasswords;
    }

    /** Show/Hide beside input `f`: only that flag flips; the inputs are kept. */
    method ToggleShow(f: PasswordField)
      modifies this
      ensures Shown(show, f) == !Shown(old(show), f)
      ensures forall g :: g != f ==> Shown(show, g) == Shown(old(show), g)
      ensures formData == old(formData)
    {
      show := Toggled(show, f);
    }
  }

  /** Whatever was typed, after Cancel, Save reports the empty fields and calls nothing. */
  method CancelThenSave(current: string, typedNew: string, confirm: string, outcome: Response<()>)
    returns (eff: SaveEffect)
    ensures eff == SaveEffect(None, RequiredAlert, false, None)
  {
    var page := new PasswordForm();
    page.Edit(Current, current);
    page.Edit(New, typedNew);
    page.Edit(Confirm, confirm);
    page.Cancel();
    eff := HandleSave(page.formData, outcome);
  }
}
