/** The delete confirmation of the two list pages: a row's delete button
    remembers the row id and opens a dialog, and the dialog's buttons either
    issue the delete mutation or close the dialog. The two pages differ on a
    failed deletion: the events page leaves the dialog open, the users page
    closes it. Alerts, the mutation and the list refetch are outputs. */
module DeleteConfirmation {
  import opened Remote

  /** What one press of the confirm button does. */
  datatype DeleteEffect = DeleteEffect(call: Option<int>, alert: Option<string>, refetch: bool)

  const NoEffect := DeleteEffect(None, None, false)

  class DeleteGate {
    /** Whether a failed deletion closes the dialog. */
    const closeOnFailure: bool
    /** The alert of a failure that carries no server message. */
    const fallback: string
    var dialogOpen: bool
    var selectedId: Option<int>

    /** The dialog only ever opens from a row, so an open dialog has an id. */
    predicate Valid()
      reads this
    {
      dialogOpen ==> selectedId.Some?
    }

    /** The events page's dialog. */
    constructor ForEvents()
      ensures !closeOnFailure && fallback == "Error deleting event"
      ensures !dialogOpen && selectedId == None && Valid()
    {
      closeOnFailure := false;
      fallback := "Error deleting event";
      dialogOpen := false;
      selectedId := None;
    }

    /** The users page's dialog. */
    constructor ForUsers()
      ensures closeOnFailure && fallback == "Error deleting user"
      ensures !dialogOpen && selectedId == None && Valid()
    {
      closeOnFailure := true;
      fallback := "Error deleting user";
      dialogOpen := false;
      selectedId := None;
    }

    /** A row's delete button: remember its id and open the dialog. */
    method RequestDelete(id: int)
      requires Valid()
      modifies this
      ensures Valid()
      ensures dialogOpen && selectedId == Some(id)
    {
      selectedId := Some(id);
      dialogOpen := true;
    }

    /** The confirm button of the open dialog. A falsy id (none, or 0) does
        nothing at all. Otherwise the delete mutation is issued for the id; on
        success the dialog closes and the list is refetched; on failure the
        first server message, else the page's fallback, is alerted, nothing is
        refetched, and the dialog closes only on the users page. The remembered
        id is never cleared. */
    method Confirm(outcome: Response<()>) returns (eff: DeleteEffect)
      requires Valid() && dialogOpen
      modifies this
      ensures Valid()
      ensures selectedId == old(selectedId)
      ensures !IdTruthy(selectedId) ==> eff == NoEffect && dialogOpen
      ensures IdTruthy(selectedId) ==> eff.call == Some(selectedId.value)
      ensures IdTruthy(selectedId) && outcome.Ok? ==> eff.alert == None && eff.refetch && !dialogOpen
      ensures IdTruthy(selectedId) && outcome.Err? ==>
        eff.alert == Some(ErrorAlert(outcome.messages, fallback)) && !eff.refetch &&
        dialogOpen == !closeOnFailure
    {
      if !IdTruthy(selectedId) {
        return NoEffect;
      }
      var id := selectedId.value;
      match outcome
      case Ok(_) =>
        dialogOpen := false;
        eff := DeleteEffect(Some(id), None, true);
      case Err(messages) =>
        if closeOnFailure {
          dialogOpen := false;
        }
        eff := DeleteEffect(Some(id), Some(ErrorAlert(messages, fallback)), false);
    }

    /** The cancel button: close the dialog, issue nothing, keep the id. */
    method Cancel()
      requires Valid() && dialogOpen
      modifies this
      ensures Valid()
      ensures !dialogOpen && selectedId == old(selectedId)
    {
      dialogOpen := false;
    }
  }

  /** The same failed deletion of the same row leaves the events dialog open
      and closes the users dialog; both alert the server's first message. */
  method FailedDeleteOnBothPages(id: int, messages: seq<string>)
    returns (eventsOpen: bool, usersOpen: bool, eventsAlert: Option<string>, usersAlert: Option<string>)
    requires id != 0
    ensures eventsOpen && !usersOpen
    ensures messages != [] ==> eventsAlert == usersAlert == Some(messages[0])
    ensures messages == [] ==>
      eventsAlert == Some("Error deleting event") && usersAlert == Some("Error deleting user")
  {
    var events := new DeleteGate.ForEvents();
    events.RequestDelete(id);
    var e := events.Confirm(Err(messages));
    var users := new DeleteGate.ForUsers();
    users.RequestDelete(id);
    var u := users.Confirm(Err(messages));
    eventsOpen, usersOpen := events.dialogOpen, users.dialogOpen;
    eventsAlert, usersAlert := e.alert, u.alert;
  }

  /** A row whose id is 0 can never be deleted: confirming does nothing. */
  method ZeroIdIsNoSelection(usersPage: bool, outcome: Response<()>) returns (eff: DeleteEffect, stillOpen: bool)
    ensures eff == NoEffect && stillOpen
  {
    var gate: DeleteGate;
    if usersPage {
      gate := new DeleteGate.ForUsers();
    } else {
      gate := new DeleteGate.ForEvents();
    }
    gate.RequestDelete(0);
    eff := gate.Confirm(outcome);
    stillOpen := gate.dialogOpen;
  }
}
