/**
 * Sessions that drive several handlers in a row, as a user of the dashboard
 * would, and what they observe. Log ids and timestamps are arbitrary
 * caller-supplied clock readings.
 */
module Scenarios {
  import opened Optional
  import opened AccessLog
  import opened Compartments
  import opened Dashboard
  import opened ChangePinDialog
  import opened Index

  /**
   * A fresh dashboard: "private" asks for its PIN; a wrong PIN leaves it
   * locked and the log empty; the default PIN unlocks it and logs one
   * "unlocked" entry for it by the signed-in user.
   */
  method UnlockPrivate(username: string) returns (
    waitingAfterRequest: bool, acceptedWrong: bool, statusAfterWrong: Status, logAfterWrong: seq<AccessLogEntry>,
    acceptedRight: bool, statusAfterRight: Status, logAfterRight: seq<AccessLogEntry>)
    ensures waitingAfterRequest
    ensures !acceptedWrong && statusAfterWrong == Locked && logAfterWrong == []
    ensures acceptedRight && statusAfterRight == Unlocked
    ensures |logAfterRight| == 1 && logAfterRight[0].compartmentId == "private" &&
      logAfterRight[0].action == Unlocked && logAfterRight[0].username == username
  {
    var dashboard := new AccessController(username);
    dashboard.VerifyAndToggleLock(dashboard.compartments[1], "1", 1);
    waitingAfterRequest := dashboard.pinDialogOpen && dashboard.currentCompartment == Some("private");
    dashboard.SetPin("0000");
    acceptedWrong := dashboard.HandlePinSubmit("2", 2);
    statusAfterWrong, logAfterWrong := dashboard.compartments[1].status, dashboard.accessLogs;
    dashboard.SetPin("1234");
    ToggleKnown(dashboard.compartments, 1, "3", 3, username);
    acceptedRight := dashboard.HandlePinSubmit("3", 3);
    statusAfterRight, logAfterRight := dashboard.compartments[1].status, dashboard.accessLogs;
  }

  /**
   * Walking the wizard through its four steps with a matching confirmation
   * hands the dashboard exactly the compartment and the PINs entered.
   */
  method RunWizard(id: string, currentPin: string, newPin: string) returns (request: Option<PinChangeRequest>)
    requires id == "common" || id == "private"
    requires |currentPin| == PinLength && |newPin| == PinLength
    ensures request == Some(PinChangeRequest(id, currentPin, newPin))
  {
    var wizard := new ChangePinWizard();
    wizard.SelectCompartment(id);
    wizard.HandleNext();
    wizard.SetCurrentPin(currentPin);
    wizard.HandleNext();
    wizard.SetNewPin(newPin);
    wizard.HandleNext();
    wizard.SetConfirmPin(newPin);
    request := wizard.HandleSubmit();
  }

  /**
   * The change-PIN wizard changes the private compartment's PIN from
   * "1234" to "5678"; afterwards the old PIN is refused at the PIN dialog
   * and the new one unlocks the compartment.
   */
  method ChangePinThenUnlock(username: string) returns (changed: bool, oldAccepted: bool, newAccepted: bool, status: Status)
    ensures changed && !oldAccepted && newAccepted && status == Unlocked
  {
    var dashboard := new AccessController(username);
    var request := RunWizard("private", "1234", "5678");
    changed := dashboard.HandlePinChange(request.value.compartmentId, request.value.currentPin, request.value.newPin);
    assert dashboard.compartmentPins == map["common" := "1234", "private" := "5678"];

    dashboard.VerifyAndToggleLock(dashboard.compartments[1], "1", 1);
    dashboard.SetPin("1234");
    oldAccepted := dashboard.HandlePinSubmit("2", 2);
    dashboard.SetPin("5678");
    newAccepted := dashboard.HandlePinSubmit("3", 3);
    status := dashboard.compartments[1].status;
  }

  /**
   * A mistyped confirmation sends nothing on; the wizard waits at "new"
   * with the error shown, still holding the compartment and current PIN.
   */
  method MismatchedConfirmation() returns (sent: bool, step: Step, compartment: string, currentPin: string, error: Option<string>)
    ensures !sent && step == New && compartment == "common" && currentPin == "1234" && error == Some(MismatchError)
  {
    var wizard := new ChangePinWizard();
    wizard.SelectCompartment("common");
    wizard.HandleNext();
    wizard.SetCurrentPin("1234");
    wizard.HandleNext();
    wizard.SetNewPin("5678");
    wizard.HandleNext();
    wizard.SetConfirmPin("5679");
    var request := wizard.HandleSubmit();
    sent := request.Some?;
    step, compartment, currentPin, error := wizard.step, wizard.selectedCompartment, wizard.currentPin, wizard.error;
  }

  /** Sign in, then out: the session is back at the login form with no user. */
  method LoginLogout(username: string, password: string) returns (shownAfterLogin: bool, modeAfterLogout: AuthMode, userAfterLogout: Option<User>)
    requires username != "" && password != ""
    ensures shownAfterLogin && modeAfterLogout == Login && userAfterLogout == None
  {
    var session := new AuthSession();
    var _ := session.HandleLogin(username, password);
    shownAfterLogin := session.ShowsDashboard();
    session.HandleLogout();
    modeAfterLogout, userAfterLogout := session.authMode, session.user;
  }
}
