/**
 * The change-PIN wizard: select a compartment, enter the current PIN, enter
 * a new PIN, confirm it. On a confirmed PIN it hands
 * (compartment, current PIN, new PIN) to the dashboard's `handlePinChange`.
 */
module ChangePinDialog {
  import opened Optional
  import Compartments

  datatype Step = Select | Current | New | Confirm

  /** The step `handleNext` moves to; the last step has no successor. */
  function NextStep(s: Step): Step {
    match s
    case Select => Current
    case Current => New
    case New => Confirm
    case Confirm => Confirm
  }

  /** The arguments of one `onPinChange` call. */
  datatype PinChangeRequest = PinChangeRequest(compartmentId: string, currentPin: string, newPin: string)

  const MismatchError: string := "PINs don't match. Please try again."

  class ChangePinWizard {
    var step: Step
    var selectedCompartment: string
    var currentPin: string
    var newPin: string
    var confirmPin: string
    var error: Option<string>

    /**
     * What the wizard's buttons guarantee of the later steps: past "select" a
     * compartment is chosen, past "current" the current PIN has four
     * characters, at "confirm" so has the new PIN. The PIN inputs hold at
     * most four characters.
     */
    ghost predicate Valid()
      reads this
    {
      |currentPin| <= Compartments.PinLength && |newPin| <= Compartments.PinLength && |confirmPin| <= Compartments.PinLength &&
      (step != Select ==> selectedCompartment != "") &&
      (step == New || step == Confirm ==> |currentPin| == Compartments.PinLength) &&
      (step == Confirm ==> |newPin| == Compartments.PinLength)
    }

    /** Every field at its initial value. */
    ghost predicate IsReset()
      reads this
    {
      step == Select && selectedCompartment == "" && currentPin == "" &&
      newPin == "" && confirmPin == "" && error == None
    }

    constructor ()
      ensures Valid() && IsReset()
    {
      step := Select;
      selectedCompartment, currentPin, newPin, confirmPin := "", "", "", "";
      error := None;
    }

    /** Whether the step's "Next" button is enabled; the last step shows "Change PIN" instead. */
    predicate NextEnabled()
      reads this
      ensures Valid() && NextEnabled() ==>
        step != Confirm &&
        (NextStep(step) != Select ==> selectedCompartment != "") &&
        (NextStep(step) == New || NextStep(step) == Confirm ==> |currentPin| == Compartments.PinLength) &&
        (NextStep(step) == Confirm ==> |newPin| == Compartments.PinLength)
    {
      match step
      case Select => selectedCompartment != ""
      case Current => |currentPin| == Compartments.PinLength
      case New => |newPin| == Compartments.PinLength
      case Confirm => false
    }

    /** Whether the "Change PIN" button (shown only at "confirm") is enabled. */
    predicate SubmitEnabled()
      reads this
      ensures Valid() && SubmitEnabled() ==>
        selectedCompartment != "" && |currentPin| == Compartments.PinLength &&
        |newPin| == Compartments.PinLength && |confirmPin| == Compartments.PinLength
    {
      step == Confirm && |confirmPin| == Compartments.PinLength
    }

    /** The compartment select's `onValueChange`; it offers "common" and "private". */
    method SelectCompartment(id: string)
      requires Valid() && step == Select
      requires id == "common" || id == "private"
      modifies this`selectedCompartment
      ensures Valid() && selectedCompartment == id
    {
      selectedCompartment := id;
    }

    /** The current-PIN input, shown only at "current". */
    method SetCurrentPin(p: string)
      requires Valid() && step == Current && |p| <= Compartments.PinLength
      modifies this`currentPin
      ensures Valid() && currentPin == p
    {
      currentPin := p;
    }

    /** The new-PIN input, shown only at "new". */
    method SetNewPin(p: string)
      requires Valid() && step == New && |p| <= Compartments.PinLength
      modifies this`newPin
      ensures Valid() && newPin == p
    {
      newPin := p;
    }

    /** The confirmation input, shown only at "confirm". */
    method SetConfirmPin(p: string)
      requires Valid() && step == Confirm && |p| <= Compartments.PinLength
      modifies this`confirmPin
      ensures Valid() && confirmPin == p
    {
      confirmPin := p;
    }

    /**
     * `handleNext`: one step forward, reached through an enabled "Next"
     * button; at "confirm" it does nothing. No other field changes, the
     * error message included.
     */
    method HandleNext()
      requires Valid()
      requires step != Confirm ==> NextEnabled()
      modifies this`step
      ensures Valid()
      ensures old(step) == Select ==> step == Current
      ensures old(step) == Current ==> step == New
      ensures old(step) == New ==> step == Confirm
      ensures old(step) == Confirm ==> step == Confirm
    {
      if step == Select {
        step := Current;
      } else if step == Current {
        step := New;
      } else if step == New {
        step := Confirm;
      }
    }

    /** `resetForm`: every field back to its initial value. */
    method ResetForm()
      modifies this
      ensures Valid() && IsReset()
    {
      step := Select;
      selectedCompartment := "";
      currentPin := "";
      newPin := "";
      confirmPin := "";
      error := None;
    }

    /**
     * `handleSubmit`, through the enabled "Change PIN" button. When the two
     * new PINs differ, nothing is handed on: both are cleared, the wizard
     * goes back to "new" with the error set, and the compartment and current
     * PIN are kept. When they agree, `onPinChange` receives exactly one
     * request, with four-character PINs and a chosen compartment, and the
     * form is reset.
     */
    method HandleSubmit() returns (request: Option<PinChangeRequest>)
      requires Valid() && SubmitEnabled()
      modifies this
      ensures Valid()
      ensures request.None? <==> old(newPin) != old(confirmPin)
      ensures request.None? ==>
        error == Some(MismatchError) && newPin == "" && confirmPin == "" && step == New &&
        selectedCompartment == old(selectedCompartment) && currentPin == old(currentPin)
      ensures request.Some? ==>
        request.value == PinChangeRequest(old(selectedCompartment), old(currentPin), old(newPin)) && IsReset()
      ensures request.Some? ==>
        request.value.compartmentId != "" && |request.value.currentPin| == Compartments.PinLength && |request.value.newPin| == Compartments.PinLength
    {
      if newPin != confirmPin {
        error := Some(MismatchError);
        newPin := "";
        confirmPin := "";
        step := New;
        return None;
      }
      request := Some(PinChangeRequest(selectedCompartment, currentPin, newPin));
      ResetForm();
    }

    /** `onDialogOpenChange`: closing the dialog resets the form; opening it changes nothing. */
    method OnDialogOpenChange(open: bool)
      requires Valid()
      modifies this
      ensures Valid()
      ensures !open ==> IsReset()
      ensures open ==>
        step == old(step) && selectedCompartment == old(selectedCompartment) && currentPin == old(currentPin) &&
        newPin == old(newPin) && confirmPin == old(confirmPin) && error == old(error)
    {
      if !open {
        ResetForm();
      }
    }
  }
}
