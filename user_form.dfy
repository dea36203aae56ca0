/** The user form page, for creating a user or editing one loaded by id. The
    draft holds a name, a role and a password; the password input exists only
    when creating, and editing never sends a password. */
module UserFormPage {
  import opened Remote

  datatype UserDraft = UserDraft(name: string, role: string, password: string)

  /** A fresh form: no name, the "staff" role, no password. */
  const InitialDraft := UserDraft("", "staff", "")

  /** A user as the edit page loads it. */
  datatype LoadedUser = LoadedUser(name: string, role: string)

  datatype UserField = Name | Role | Password

  function FieldValue(d: UserDraft, f: UserField): string {
    match f
    case Name => d.name
    case Role => d.role
    case Password => d.password
  }

  /** One input of the draft set to `v`, the two others kept. */
  function WithUserField(d: UserDraft, f: UserField, v: string): (r: UserDraft)
    ensures FieldValue(r, f) == v
    ensures forall g :: g != f ==> FieldValue(r, g) == FieldValue(d, g)
  {
    match f
    case Name => d.(name := v)
    case Role => d.(role := v)
    case Password => d.(password := v)
  }

  /** The mutation a submission issues: an update carries no password. */
  datatype UserCall =
    | UpdateUser(id: int, name: string, role: string)
    | CreateUser(input: UserDraft)

  /** What the create mutation answers: possibly nothing, possibly a user
      without a usable id. */
  datatype CreatedUser = CreatedUser(id: Option<int>, name: string)

  /** What one submission does: one mutation, one alert, and a move to the
      users list on success. */
  datatype UserSubmitEffect = UserSubmitEffect(call: UserCall, alert: string, navigateTo: Option<string>)

  const UpdatedAlert := "User updated successfully"
  const CreatedAlert := "User created successfully"
  const UserFallback := "Error saving user"
  const UsersPath := "/users"
  const NamedPrefix := "User '"
  const NamedSuffix := "' created successfully"

  /** The alert after a successful create. It names the user, in a form the
      name can be read back from, exactly when the answer holds a user with a
      truthy id; otherwise it is the plain message. */
  function CreateAlert(created: Option<CreatedUser>): (alert: string)
    ensures alert != CreatedAlert <==> created.Some? && IdTruthy(created.value.id)
    ensures alert != CreatedAlert ==>
      |alert| == |NamedPrefix| + |created.value.name| + |NamedSuffix| &&
      alert[..|NamedPrefix|] == NamedPrefix &&
      alert[|NamedPrefix|..|alert| - |NamedSuffix|] == created.value.name &&
      alert[|alert| - |NamedSuffix|..] == NamedSuffix
  {
    if created.Some? && IdTruthy(created.value.id) then
      var alert := NamedPrefix + created.value.name + NamedSuffix;
      assert |alert| != |CreatedAlert|;
      alert
    else
      CreatedAlert
  }

  class UserForm {
    /** Whether the route carried an id. */
    const isEdit: bool
    /** The route id as a number; meaningful in edit mode only. */
    const id: int
    /** The loaded user, once the query of the edit page has answered. */
    var loaded: Option<LoadedUser>
    var formData: UserDraft

    /** Only the edit page loads a user. */
    predicate Valid()
      reads this
    {
      !isEdit ==> loaded.None?
    }

    constructor (isEdit: bool, id: int)
      ensures this.isEdit == isEdit && this.id == id
      ensures loaded == None && formData == InitialDraft && Valid()
    {
      this.isEdit := isEdit;
      this.id := id;
      loaded := None;
      formData := InitialDraft;
    }

    /** The prefill effect: a found user overwrites the name and the role and
        keeps whatever password the draft holds. */
    method ReceiveUser(found: Option<LoadedUser>)
      requires Valid() && isEdit
      modifies this
      ensures Valid() && loaded == found
      ensures found.Some? ==>
        formData.name == found.value.name && formData.role == found.value.role
      ensures formData.password == old(formData).password
      ensures found.None? ==> formData == old(formData)
    {
      loaded := found;
      if found.Some? {
        formData := formData.(name := found.value.name, role := found.value.role);
      }
    }

    /** Typing into an input; there is no password input in edit mode. */
    method Edit(f: UserField, v: string)
      requires Valid() && !(isEdit && f == Password)
      modifies this
      ensures Valid() && loaded == old(loaded)
      ensures formData == WithUserField(old(formData), f, v)
    {
      formData := WithUserField(formData, f, v);
    }

    /** Submitting. Edit mode sends the name and the role only; create mode
        sends the whole draft. Success alerts per branch and leads to the
        users list; failure reports the first server message, else the
        fallback, and stays. The page state is not changed. */
    method Submit(outcome: Response<Option<CreatedUser>>) returns (eff: UserSubmitEffect)
      ensures isEdit ==> eff.call == UpdateUser(id, formData.name, formData.role)
      ensures !isEdit ==> eff.call == CreateUser(formData)
      ensures outcome.Ok? ==> eff.navigateTo == Some(UsersPath)
      ensures outcome.Ok? && isEdit ==> eff.alert == UpdatedAlert
      ensures outcome.Ok? && !isEdit ==> eff.alert == CreateAlert(outcome.payload)
      ensures outcome.Err? ==> eff.alert == ErrorAlert(outcome.messages, UserFallback) && eff.navigateTo == None
    {
      var call: UserCall;
      if isEdit {
        call := UpdateUser(id, formData.name, formData.role);
      } else {
        call := CreateUser(formData);
      }
      match outcome
      case Ok(created) =>
        var alert := if isEdit then UpdatedAlert else CreateAlert(created);
        eff := UserSubmitEffect(call, alert, Some(UsersPath));
      case Err(messages) =>
        eff := UserSubmitEffect(call, ErrorAlert(messages, UserFallback), None);
    }

    /** Cancel: in edit mode with a loaded user, back to its name and role;
        otherwise back to the initial draft. The password is emptied either way. */
    method Cancel()
      requires Valid()
      modifies this
      ensures Valid() && loaded == old(loaded)
      ensures isEdit && loaded.Some? ==> formData == UserDraft(loaded.value.name, loaded.value.role, "")
      ensures !(isEdit && loaded.Some?) ==> formData == InitialDraft
      ensures formData.password == ""
    {
      if isEdit && loaded.Some? {
        formData := UserDraft(loaded.value.name, loaded.value.role, "");
      } else {
        formData := InitialDraft;
      }
    }
  }

  /** Editing a loaded user: whatever was typed, the update carries the loaded
      role and the typed name, and no password reaches the server. */
  method EditLoadedUser(id: int, u: LoadedUser, typedName: string, outcome: Response<Option<CreatedUser>>)
    returns (eff: UserSubmitEffect)
    ensures eff.call == UpdateUser(id, typedName, u.role)
    ensures outcome.Ok? ==> eff.alert == UpdatedAlert
  {
    var form := new UserForm(true, id);
    form.ReceiveUser(Some(u));
    form.Edit(Name, typedName);
    eff := form.Submit(outcome);
  }
}
