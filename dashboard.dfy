/**
 * The dashboard's access controller: the compartment list, the PIN registry,
 * the PIN dialog (pending compartment, PIN buffer, open flag) and the
 * newest-first access log of one signed-in user, with the handlers that
 * change them.
 */
module Dashboard {
  import opened Optional
  import opened JsString
  import opened AccessLog
  import opened Compartments

  /** The PIN every compartment starts with. */
  const DefaultPin: string := "1234"

  class AccessController {
    /** The signed-in user, recorded in every log entry. */
    const username: string
    var compartments: seq<Compartment>
    var compartmentPins: map<string, string>
    var pinDialogOpen: bool
    var changePinDialogOpen: bool
    /** The compartment waiting for its PIN. */
    var currentCompartment: Option<string>
    /** The PIN dialog's input buffer. */
    var pin: string
    /** Newest first. */
    var accessLogs: seq<AccessLogEntry>

    /** See `Consistent`. */
    ghost predicate Valid()
      reads this
    {
      Consistent(compartments, compartmentPins, pin, accessLogs)
    }

    /** There is a pending compartment, in the sense of JavaScript truthiness. */
    predicate HasPending()
      reads this
    {
      currentCompartment.Some? && Truthy(currentCompartment.value)
    }

    /** The state the dashboard mounts with. */
    constructor (username: string)
      ensures Valid()
      ensures this.username == username
      ensures compartments == [
        Compartment("common", "Common Compartment", Locked, false),
        Compartment("private", "Private Compartment (A)", Locked, true)]
      ensures compartmentPins == map["common" := DefaultPin, "private" := DefaultPin]
      ensures !pinDialogOpen && !changePinDialogOpen
      ensures currentCompartment == None && pin == ""
      ensures accessLogs == []
    {
      this.username := username;
      compartments := [
        Compartment("common", "Common Compartment", Locked, false),
        Compartment("private", "Private Compartment (A)", Locked, true)];
      compartmentPins := map["common" := DefaultPin, "private" := DefaultPin];
      pinDialogOpen, changePinDialogOpen := false, false;
      currentCompartment, pin := None, "";
      accessLogs := [];
    }

    /** `addAccessLog`: prepends one entry for `c` toggled to `action`. */
    method AddAccessLog(c: Compartment, action: Status, logId: string, at: int)
      modifies this`accessLogs
      ensures accessLogs == [Entry(c, action, logId, at, username)] + old(accessLogs)
    {
      var newLog := AccessLogEntry(logId, c.id, c.name, action, at, username);
      accessLogs := [newLog] + accessLogs;
    }

    /**
     * `compartments.map(...)` inside `toggleLock`: builds the new list,
     * flipping every compartment whose id is `id` and logging each flip as
     * it goes. Only the log changes here.
     */
    method MapToggle(cs: seq<Compartment>, id: string, logId: string, at: int) returns (next: seq<Compartment>)
      modifies this`accessLogs
      ensures next == Toggled(cs, id)
      ensures accessLogs == NewEntries(cs, id, logId, at, username) + old(accessLogs)
    {
      next := [];
      var i := 0;
      while i < |cs|
        invariant 0 <= i <= |cs|
        invariant next == Toggled(cs[..i], id)
        invariant accessLogs == NewEntries(cs[..i], id, logId, at, username) + old(accessLogs)
      {
        var compartment := cs[i];
        ToggleStep(cs, i, id, logId, at, username);
        if compartment.id == id {
          var newStatus := Flip(compartment.status);
          AddAccessLog(compartment, newStatus, logId, at);
          next := next + [compartment.(status := newStatus)];
        } else {
          next := next + [compartment];
        }
        i := i + 1;
      }
      assert cs[..i] == cs;
    }

    /**
     * `toggleLock`: flips the compartment with id `id` and logs it; nothing
     * but the list and the log changes.
     */
    method ToggleLock(id: string, logId: string, at: int)
      requires Valid()
      modifies this
      ensures Valid()
      ensures compartments == Toggled(old(compartments), id)
      ensures accessLogs == NewEntries(old(compartments), id, logId, at, username) + old(accessLogs)
      ensures forall k :: 0 <= k < |compartments| && old(compartments)[k].id == id ==>
        compartments == old(compartments)[k := old(compartments)[k].(status := Flip(old(compartments)[k].status))] &&
        accessLogs == [Entry(old(compartments)[k], compartments[k].status, logId, at, username)] + old(accessLogs)
      ensures !HasId(old(compartments), id) ==> compartments == old(compartments) && accessLogs == old(accessLogs)
      ensures compartmentPins == old(compartmentPins) && pin == old(pin) && currentCompartment == old(currentCompartment)
      ensures pinDialogOpen == old(pinDialogOpen) && changePinDialogOpen == old(changePinDialogOpen)
    {
      forall k | 0 <= k < |compartments| && compartments[k].id == id
        ensures Toggled(compartments, id) == compartments[k := compartments[k].(status := Flip(compartments[k].status))]
        ensures NewEntries(compartments, id, logId, at, username) == [Entry(compartments[k], Flip(compartments[k].status), logId, at, username)]
      {
        ToggleKnown(compartments, k, logId, at, username);
      }
      if !HasId(compartments, id) {
        ToggleUnknown(compartments, id, logId, at, username);
      }
      ToggleKeepsConsistent(compartments, compartmentPins, pin, accessLogs, id, logId, at, username);
      var next := MapToggle(compartments, id, logId, at);
      compartments := next;
    }

    /**
     * `verifyAndToggleLock`: a locked PIN-protected compartment only becomes
     * the pending one and opens the PIN dialog; any other compartment is
     * toggled at once, so locking never asks for a PIN.
     */
    method VerifyAndToggleLock(compartment: Compartment, logId: string, at: int)
      requires Valid()
      modifies this
      ensures Valid()
      ensures compartmentPins == old(compartmentPins) && pin == old(pin) && changePinDialogOpen == old(changePinDialogOpen)
      ensures compartment.requiresPin && compartment.status == Locked ==>
        currentCompartment == Some(compartment.id) && pinDialogOpen &&
        compartments == old(compartments) && accessLogs == old(accessLogs)
      ensures !(compartment.requiresPin && compartment.status == Locked) ==>
        currentCompartment == old(currentCompartment) && pinDialogOpen == old(pinDialogOpen) &&
        compartments == Toggled(old(compartments), compartment.id) &&
        accessLogs == NewEntries(old(compartments), compartment.id, logId, at, username) + old(accessLogs)
    {
      if compartment.requiresPin && compartment.status == Locked {
        currentCompartment := Some(compartment.id);
        pinDialogOpen := true;
      } else {
        ToggleLock(compartment.id, logId, at);
      }
    }

    /**
     * `handlePinSubmit`: when the buffer is the pending compartment's
     * registered PIN, closes the dialog, clears the buffer, toggles that
     * compartment and clears the pending one. Otherwise only the buffer is
     * cleared (and the "Invalid PIN" notice is shown: `accepted` is false).
     */
    method HandlePinSubmit(logId: string, at: int) returns (accepted: bool)
      requires Valid()
      requires |pin| == PinLength
      modifies this
      ensures Valid()
      ensures accepted <==> old(HasPending()) && PinAccepted(old(compartmentPins), old(currentCompartment).value, old(pin))
      ensures pin == ""
      ensures compartmentPins == old(compartmentPins) && changePinDialogOpen == old(changePinDialogOpen)
      ensures accepted ==>
        !pinDialogOpen && currentCompartment == None &&
        compartments == Toggled(old(compartments), old(currentCompartment).value) &&
        accessLogs == NewEntries(old(compartments), old(currentCompartment).value, logId, at, username) + old(accessLogs)
      ensures !accepted ==>
        pinDialogOpen == old(pinDialogOpen) && currentCompartment == old(currentCompartment) &&
        compartments == old(compartments) && accessLogs == old(accessLogs)
    {
      if HasPending() && PinAccepted(compartmentPins, currentCompartment.value, pin) {
        var id := currentCompartment.value;
        pinDialogOpen := false;
        pin := "";
        ToggleLock(id, logId, at);
        currentCompartment := None;
        accepted := true;
      } else {
        pin := "";
        accepted := false;
      }
    }

    /**
     * `handlePinChange`: with the right current PIN, overwrites that
     * compartment's registry entry with `newPin` (not checked) and closes the
     * change-PIN dialog; otherwise (an unknown id included) changes nothing.
     */
    method HandlePinChange(compartmentId: string, currentPin: string, newPin: string) returns (changed: bool)
      requires Valid()
      modifies this
      ensures Valid()
      ensures changed <==> PinAccepted(old(compartmentPins), compartmentId, currentPin)
      ensures compartmentPins == ChangedPins(old(compartmentPins), compartmentId, currentPin, newPin)
      ensures changePinDialogOpen == (if changed then false else old(changePinDialogOpen))
      ensures compartments == old(compartments) && accessLogs == old(accessLogs)
      ensures pin == old(pin) && currentCompartment == old(currentCompartment) && pinDialogOpen == old(pinDialogOpen)
    {
      if PinAccepted(compartmentPins, compartmentId, currentPin) {
        compartmentPins := compartmentPins[compartmentId := newPin];
        changePinDialogOpen := false;
        changed := true;
      } else {
        changed := false;
      }
    }

    /** The PIN input's `onChange`: at most four characters. */
    method SetPin(p: string)
      requires Valid()
      requires |p| <= PinLength
      modifies this`pin
      ensures Valid()
      ensures pin == p
    {
      pin := p;
    }

    /** The PIN dialog's `onOpenChange`: only the flag changes; the pending compartment and buffer stay. */
    method SetPinDialogOpen(open: bool)
      requires Valid()
      modifies this`pinDialogOpen
      ensures Valid()
      ensures pinDialogOpen == open
    {
      pinDialogOpen := open;
    }

    /** `handleChangePin` opens the change-PIN dialog; its `onOpenChange` sets the flag either way. */
    method SetChangePinDialogOpen(open: bool)
      requires Valid()
      modifies this`changePinDialogOpen
      ensures Valid()
      ensures changePinDialogOpen == open
    {
      changePinDialogOpen := open;
    }
  }
}
