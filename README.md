# Smart-locker web portal: a Dafny model of its state machines

The portal is a client-side demo of a smart locker. A user signs in, or
registers, and reaches a dashboard with two compartments, "common" and
"private". Each compartment is locked or unlocked. Unlocking "private" asks
for a four-digit PIN. Every lock or unlock is written to an access log that
is kept newest first. Two dialogs sit beside the dashboard: a four-step
wizard that changes a compartment's PIN, and a feedback form.

This project models the four state machines behind those screens and proves
their properties:

- `Dashboard.AccessController` (`src/components/Dashboard.tsx`) owns the
  compartment list, the PIN registry, the PIN dialog state and the access
  log. The pure parts are in module `Compartments`: the toggle `map`, the
  entries it logs, the registry lookups and `isAnyCompartmentUnlocked`. The
  log record and the status it records are in module `AccessLog`
  (`src/types/AccessLog.ts`).
- `ChangePinDialog.ChangePinWizard` (`src/components/ChangePinDialog.tsx`)
  has the steps select → current → new → confirm.
- `Index.AuthSession` (`src/pages/Index.tsx`) switches between login,
  register and dashboard.
- `FeedbackDialog.FeedbackForm` (`src/components/FeedbackDialog.tsx`) holds
  the feedback type and message.
- `JsString` states the JavaScript string rules the handlers depend on:
  truthiness and `String.prototype.trim`, with ECMAScript's whitespace set.
- `Scenarios` has client methods that drive several handlers in a row and
  prove what a user observes.

Each React `useState` field becomes a class field, and each setter call
becomes an assignment. Callbacks passed in as props (`onPinChange`,
`onFeedbackSubmit`) are returned as out-values. The dialogs' `onOpenChange`
forward is not part of their `OnDialogOpenChange` methods. For the change-PIN
dialog it is the dashboard's `AccessController.SetChangePinDialogOpen`. The
feedback dialog's open flag is not modelled. Where a handler's branch
decides whether an error notice appears, the handler returns a boolean. Log
ids and timestamps come from the clock in the source. Here the caller passes
them in as `logId` and `at` (milliseconds).

Main invariants proved:
- `AccessController.Valid()` is established by the constructor and kept
  across every handler. It says:
  - compartment ids are distinct;
  - every PIN-protected compartment has a registry entry;
  - the PIN buffer holds at most four characters;
  - replaying the log gives every compartment its current status. So the
    newest entry about a compartment always records its status, and a
    compartment with no entry is locked.
- In the wizard, past "select" a compartment is chosen, and the PINs that
  reach `onPinChange` have four characters.
- The dashboard mode always has a user, so the dashboard branch always
  renders.

Four behaviours of the code a reader might not expect, all followed by the model:
- Toggling an id that no compartment has is a silent no-op in the code. It
  is not a "not found" error.
- Closing the PIN dialog only clears `pinDialogOpen`. The pending
  compartment and the PIN buffer survive. The next toggle request on a
  PIN-protected compartment overwrites the pending compartment.
- PIN verification has no compartment-id argument. It always checks the
  pending compartment. `currentCompartment &&` is JavaScript truthiness, so
  an empty pending id counts as no pending compartment.
- `handlePinChange` does not check `newPin`. The wizard's four-character
  inputs and buttons are what guarantee its length
  (`ChangePinWizard.HandleSubmit`).

## Model

| member | source | states |
|---|---|---|
| `AccessLog.Flip` | src/components/Dashboard.tsx:81 | a toggle always changes the status: locked goes to unlocked and unlocked goes to locked |
| `AccessLog.LatestAction` | src/components/Dashboard.tsx:110 | in a newest-first log, there is no latest action for a compartment exactly when no entry names it; otherwise it is the action of the first (newest) entry that names it |
| `Compartments.IsAnyCompartmentUnlocked` | src/components/Dashboard.tsx:50 | true iff some compartment's status is unlocked |
| `Compartments.Toggled` | src/components/Dashboard.tsx:79-98 | the mapped list has the same length as the original |
| `Compartments.ToggledAt` | src/components/Dashboard.tsx:79-98 | position by position, each element keeps its id, name and PIN flag, and exactly the elements with the given id get their status flipped |
| `Compartments.NewEntriesRecordToggles` | src/components/Dashboard.tsx:79-110 | the toggle logs one entry per compartment with the id; each is the record (`Entry`) of one such compartment with its name and its new status, the caller's log id and timestamp, and the session user |
| `Compartments.ReplayAfterPrepend` | src/components/Dashboard.tsx:110 | prepending an entry makes its action the replayed status of its own compartment and leaves every other compartment's replayed status alone |
| `Compartments.NewEntriesEmptyIff` | src/components/Dashboard.tsx:79-98 | the toggle logs nothing exactly when no compartment has the id |
| `Compartments.ToggleKnown` | src/components/Dashboard.tsx:79-110 | with distinct ids, toggling compartment k's id flips that one compartment and logs exactly one entry with its id, its name and the new status |
| `Compartments.ToggleUnknown` | src/components/Dashboard.tsx:79-98 | an unknown id changes no compartment and logs nothing |
| `Compartments.ToggleTwice` | src/components/Dashboard.tsx:81 | toggling the same id twice gives back the original list |
| `Compartments.ReplayAfterToggle` | src/components/Dashboard.tsx:90 | if the log replays to every compartment's status before a toggle, it still does after the toggle's entries are prepended |
| `Compartments.ToggleKeepsConsistent` | src/components/Dashboard.tsx:78-111 | a toggle preserves the controller invariant: distinct ids, a registry entry for each PIN-protected compartment, and a log that replays to the statuses |
| `Compartments.ChangedPins` | src/components/Dashboard.tsx:128-133 | with the right current PIN (`PinAccepted`: the `LookupPin` result equals it), only that id's entry changes, to the new PIN whatever it is; with a wrong PIN, or an id without an entry, the registry is unchanged; the key set never changes |
| `Compartments.PinChangeTakesEffect` | src/components/Dashboard.tsx:128-133 | after a successful change the new PIN is accepted (`PinAccepted`), the old one is refused when it differs, and other compartments accept exactly what they did before |
| `Dashboard.AccessController.constructor` | src/components/Dashboard.tsx:30-44 | both compartments start locked and only "private" requires a PIN; both PINs are "1234"; the log is empty; no pending compartment, an empty buffer and closed dialogs; the invariant holds |
| `Dashboard.AccessController.AddAccessLog` | src/components/Dashboard.tsx:101-111 | prepends exactly one entry (`Entry`), built from the compartment, the action, the clock values and the user; older entries keep their order behind it |
| `Dashboard.AccessController.MapToggle` | src/components/Dashboard.tsx:79-98 | the loop returns the toggled list, and the log becomes the toggle's entries prepended to the old log |
| `Dashboard.AccessController.ToggleLock` | src/components/Dashboard.tsx:78-99 | for a known id: the list with just that compartment flipped, and exactly one new entry in front; for an unknown id: nothing changes; registry, buffer, pending id and dialogs never change; the invariant is kept |
| `Dashboard.AccessController.VerifyAndToggleLock` | src/components/Dashboard.tsx:52-60 | a locked PIN-protected compartment only becomes pending and opens the PIN dialog, with no status or log change; any other request toggles at once, so locking needs no PIN |
| `Dashboard.AccessController.HandlePinSubmit` | src/components/Dashboard.tsx:62-76 | accepted iff there is a pending compartment (`HasPending`: its id is a truthy string) and the buffer is its registered PIN; then that compartment is toggled and logged, the dialog closes, and the pending id and buffer are cleared; otherwise only the buffer is cleared |
| `Dashboard.AccessController.HandlePinChange` | src/components/Dashboard.tsx:128-148 | succeeds iff the current PIN is the registered one; the registry becomes `ChangedPins`, and only on success does the change-PIN dialog close; compartments, log and PIN dialog are untouched |
| `Dashboard.AccessController.SetPin` | src/components/Dashboard.tsx:202-205 | the PIN input stores what is typed, at most four characters; the invariant is kept |
| `Dashboard.AccessController.SetPinDialogOpen` | src/components/Dashboard.tsx:196 | the PIN dialog's open-change sets only the open flag; the invariant is kept |
| `Dashboard.AccessController.SetChangePinDialogOpen` | src/components/Dashboard.tsx:227-231 | the change-PIN dialog's open-change sets only its open flag; the invariant is kept |
| `ChangePinDialog.ChangePinWizard.constructor` | src/components/ChangePinDialog.tsx:16-21 | starts at "select" with no compartment, empty PINs and no error |
| `ChangePinDialog.ChangePinWizard.NextEnabled` | src/components/ChangePinDialog.tsx:95-135 | under the wizard invariant, an enabled Next button is never at confirm (which shows no Next button), and the step it leads to (`NextStep`) finds what that step needs: a chosen compartment past select, a four-character current PIN at new and confirm, a four-character new PIN at confirm |
| `ChangePinDialog.ChangePinWizard.SubmitEnabled` | src/components/ChangePinDialog.tsx:155 | under the wizard invariant, an enabled Change PIN button guarantees a chosen compartment and four-character current, new and confirmation PINs |
| `ChangePinDialog.ChangePinWizard.SelectCompartment` | src/components/ChangePinDialog.tsx:82-93 | at "select", picking "common" or "private" records it |
| `ChangePinDialog.ChangePinWizard.SetCurrentPin` | src/components/ChangePinDialog.tsx:103-106 | at "current", the input stores up to four characters |
| `ChangePinDialog.ChangePinWizard.SetNewPin` | src/components/ChangePinDialog.tsx:123-126 | at "new", the input stores up to four characters |
| `ChangePinDialog.ChangePinWizard.SetConfirmPin` | src/components/ChangePinDialog.tsx:143-146 | at "confirm", the input stores up to four characters |
| `ChangePinDialog.ChangePinWizard.HandleNext` | src/components/ChangePinDialog.tsx:23-31 | behind an enabled Next button (a compartment chosen at "select", four characters at "current" and "new") it moves one step: select to current, current to new, new to confirm; it is a no-op at "confirm"; the error and every other field are left as they were |
| `ChangePinDialog.ChangePinWizard.ResetForm` | src/components/ChangePinDialog.tsx:46-53 | every field, the error included, returns to its initial value |
| `ChangePinDialog.ChangePinWizard.HandleSubmit` | src/components/ChangePinDialog.tsx:33-44 | on a mismatch: nothing is handed on, both new PINs are cleared, the step goes back to "new" with the error set, and the compartment and current PIN are kept; on a match: exactly one request (compartment, current, new), with four-character PINs, then a full reset |
| `ChangePinDialog.ChangePinWizard.OnDialogOpenChange` | src/components/ChangePinDialog.tsx:55-60 | closing resets every field; opening changes none |
| `Index.AuthSession.constructor` | src/pages/Index.tsx:10-11 | starts in login mode with no user |
| `Index.AuthSession.ShowsDashboard` | src/pages/Index.tsx:52 | under the invariant, the dashboard renders exactly in dashboard mode |
| `Index.AuthSession.HandleLogin` | src/pages/Index.tsx:13-21 | enters the dashboard with that user iff username and password are both truthy (`Truthy`), that is non-empty; otherwise mode and user are unchanged; the invariant is kept |
| `Index.AuthSession.HandleRegister` | src/pages/Index.tsx:23-31 | same as a successful login iff username, password and email are all truthy (`Truthy`), that is non-empty; otherwise nothing changes |
| `Index.AuthSession.HandleLogout` | src/pages/Index.tsx:33-36 | no user and login mode |
| `Index.AuthSession.SwitchToRegister` | src/pages/Index.tsx:43 | register mode; the user is unchanged |
| `Index.AuthSession.SwitchToLogin` | src/pages/Index.tsx:49 | login mode; the user is unchanged |
| `JsString.TrimStart` | src/components/FeedbackDialog.tsx:20 | drops exactly a leading run of whitespace; the result is a suffix that is empty or starts with a non-whitespace character |
| `JsString.TrimEnd` | src/components/FeedbackDialog.tsx:20 | drops exactly a trailing run of whitespace; the result is a prefix that is empty or ends with a non-whitespace character |
| `JsString.Trim` | src/components/FeedbackDialog.tsx:20 | the trimmed message neither starts nor ends with whitespace, and it is empty iff every character is whitespace |
| `FeedbackDialog.IsBlank` | src/components/FeedbackDialog.tsx:81 | the blank-message guard holds iff the message is all whitespace |
| `FeedbackDialog.FeedbackForm.constructor` | src/components/FeedbackDialog.tsx:16-17 | type "suggestion" and an empty message |
| `FeedbackDialog.FeedbackForm.SubmitDisabled` | src/components/FeedbackDialog.tsx:81 | the submit button is disabled iff the message is all whitespace |
| `FeedbackDialog.FeedbackForm.SetFeedbackType` | src/components/FeedbackDialog.tsx:50-63 | stores one of the four offered types |
| `FeedbackDialog.FeedbackForm.SetFeedbackMessage` | src/components/FeedbackDialog.tsx:68-72 | stores the typed message |
| `FeedbackDialog.FeedbackForm.ResetForm` | src/components/FeedbackDialog.tsx:25-28 | back to "suggestion" and an empty message |
| `FeedbackDialog.FeedbackForm.HandleSubmit` | src/components/FeedbackDialog.tsx:19-23 | sends nothing and changes nothing exactly when the submit button is disabled, that is when the message is all whitespace; otherwise sends the type and the untrimmed message, then resets |
| `FeedbackDialog.FeedbackForm.OnDialogOpenChange` | src/components/FeedbackDialog.tsx:30-35 | closing resets type and message; opening changes neither |
| `Scenarios.UnlockPrivate` | src/components/Dashboard.tsx:52-76 | on a fresh dashboard, asking for "private" waits for a PIN; "0000" is refused and leaves it locked with an empty log; "1234" unlocks it and logs one "unlocked" entry by the user |
| `Scenarios.RunWizard` | src/components/ChangePinDialog.tsx:23-44 | walking the four steps with a matching confirmation hands on exactly the compartment and the PINs entered |
| `Scenarios.ChangePinThenUnlock` | src/components/Dashboard.tsx:128-133 | after the wizard changes "private" from "1234" to "5678", the old PIN is refused and the new one unlocks it |
| `Scenarios.MismatchedConfirmation` | src/components/ChangePinDialog.tsx:33-40 | after a full walk with a mistyped confirmation nothing is handed on, and the wizard waits at "new" with the error, still holding the compartment and current PIN |
| `Scenarios.LoginLogout` | src/pages/Index.tsx:13-36 | a login with non-empty credentials shows the dashboard; logout returns to login mode with no user |

## Left out

- Toast notifications (`src/components/Dashboard.tsx:69-73`, `83-87`, `137-146`) are not modelled. They go to an external UI sink. The only thing modelled is the boolean that decides the error notices.
- Speech announcements through `AudioService` (`src/components/Dashboard.tsx:47`, `56`, `89`) are left out. They are a browser speech API and do not affect state.
- The clock reads for a log entry's id and timestamp (`src/components/Dashboard.tsx:103`, `107`) are caller-supplied parameters, because the clock is nondeterministic. A toggle that matches several compartments gives all its entries the same id and timestamp; in the source they are read once per entry.
- `handleDecoyMode` only shows a toast, so it is not modelled.
- `handleViewLogs` and the logs dialog flag are not modelled. The logs dialog (`src/components/AccessLogsDialog.tsx`) and `src/components/LockerAnimation.tsx` only render.
- `handleFeedback` and `handleFeedbackSubmit` (`src/components/Dashboard.tsx:150-163`) are not modelled. They open and close the feedback dialog, write to the console and show a toast. The form is modelled in `FeedbackForm`.
- The registration form's own password-confirmation check (`src/components/RegisterForm.tsx:20`) is not modelled. It runs before `handleRegister` is reached, and `LoginForm.tsx` and `RegisterForm.tsx` only pass values through.
- `AuthSession` holds no dashboard. Mounting the dashboard on login and discarding it on logout corresponds to constructing a fresh `AccessController`.
- React's rendering is not modelled: batching, stale closures and re-rendering. Each setter is an immediate assignment, in the order the handler calls it.
- PIN inputs: only the four-character limit of the input widgets is modelled. Which characters they accept is not.
- Strings are sequences of Unicode code points, so `|s|` counts code points where JavaScript's `.length` counts UTF-16 code units. The four-character guards (`HandlePinSubmit`, `SetPin`, the wizard's guards and setters) therefore match the source only for characters in the Basic Multilingual Plane, which includes all digits. A string such as "😀😀" has length 4 in the source and 2 here, so the model cannot submit it as a PIN.
