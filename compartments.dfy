/**
 * The pure part of the dashboard: the compartment record, the `map` that
 * `toggleLock` runs over the compartment list, the log entries that map
 * produces, the registry lookups, and `isAnyCompartmentUnlocked`.
 */
module Compartments {
  import opened Optional
  import opened AccessLog

  /** The PIN inputs hold at most, and the submit buttons want exactly, this many characters. */
  const PinLength: nat := 4

  /** A lockable compartment; `requiresPin` is false where the source leaves it undefined. */
  datatype Compartment = Compartment(id: string, name: string, status: Status, requiresPin: bool)

  /** No two compartments share an id. */
  predicate DistinctIds(cs: seq<Compartment>) {
    forall i, j :: 0 <= i < j < |cs| ==> cs[i].id != cs[j].id
  }

  predicate HasId(cs: seq<Compartment>, id: string) {
    exists k :: 0 <= k < |cs| && cs[k].id == id
  }

  /** `compartments.some(c => c.status === "unlocked")` */
  function IsAnyCompartmentUnlocked(cs: seq<Compartment>): (r: bool)
    ensures r <==> exists k :: 0 <= k < |cs| && cs[k].status == Unlocked
  {
    if cs == [] then false
    else if cs[0].status == Unlocked then true
    else
      var r := IsAnyCompartmentUnlocked(cs[1..]);
      assert forall k :: 1 <= k < |cs| ==> cs[k] == cs[1..][k - 1];
      r
  }

  /** The list after the toggle `map`: only compartments whose id is `id` change, and only in status. */
  function Toggled(cs: seq<Compartment>, id: string): (r: seq<Compartment>)
    ensures |r| == |cs|
  {
    if cs == [] then []
    else
      var c := cs[|cs| - 1];
      Toggled(cs[..|cs| - 1], id) + [if c.id == id then c.(status := Flip(c.status)) else c]
  }

  /** Position by position, the toggle flips the status of exactly the compartments with id `id` and keeps every other field. */
  lemma {:induction false} ToggledAt(cs: seq<Compartment>, id: string)
    ensures forall k :: 0 <= k < |cs| ==>
      Toggled(cs, id)[k].id == cs[k].id && Toggled(cs, id)[k].name == cs[k].name &&
      Toggled(cs, id)[k].requiresPin == cs[k].requiresPin &&
      Toggled(cs, id)[k].status == (if cs[k].id == id then Flip(cs[k].status) else cs[k].status)
  {
    if cs != [] {
      var prefix := cs[..|cs| - 1];
      ToggledAt(prefix, id);
      assert forall k :: 0 <= k < |prefix| ==> Toggled(cs, id)[k] == Toggled(prefix, id)[k] && cs[k] == prefix[k];
    }
  }

  /** `e` is the entry logged for toggling some compartment of `cs` whose id is `id`. */
  ghost predicate RecordsToggleOf(e: AccessLogEntry, cs: seq<Compartment>, id: string, logId: string, at: int, username: string) {
    exists j :: 0 <= j < |cs| && cs[j].id == id && e == Entry(cs[j], Flip(cs[j].status), logId, at, username)
  }

  lemma RecordsToggleOfPrefix(cs: seq<Compartment>, id: string, logId: string, at: int, username: string)
    requires cs != []
    ensures forall e :: RecordsToggleOf(e, cs[..|cs| - 1], id, logId, at, username) ==> RecordsToggleOf(e, cs, id, logId, at, username)
    ensures cs[|cs| - 1].id == id ==> RecordsToggleOf(Entry(cs[|cs| - 1], Flip(cs[|cs| - 1].status), logId, at, username), cs, id, logId, at, username)
  {
    forall e | RecordsToggleOf(e, cs[..|cs| - 1], id, logId, at, username)
      ensures RecordsToggleOf(e, cs, id, logId, at, username)
    {
      var j :| 0 <= j < |cs| - 1 && cs[..|cs| - 1][j].id == id &&
        e == Entry(cs[..|cs| - 1][j], Flip(cs[..|cs| - 1][j].status), logId, at, username);
      assert cs[j] == cs[..|cs| - 1][j];
    }
  }

  /** How many compartments have id `id`. */
  function CountId(cs: seq<Compartment>, id: string): nat {
    if cs == [] then 0
    else CountId(cs[..|cs| - 1], id) + (if cs[|cs| - 1].id == id then 1 else 0)
  }

  /** The record `addAccessLog` builds when compartment `c` is toggled to `action`. */
  function Entry(c: Compartment, action: Status, logId: string, at: int, username: string): AccessLogEntry {
    AccessLogEntry(logId, c.id, c.name, action, at, username)
  }

  /**
   * The entries the toggle `map` prepends to the log, newest first: one per
   * compartment whose id is `id`, the later in the list the nearer the front.
   */
  function NewEntries(cs: seq<Compartment>, id: string, logId: string, at: int, username: string): seq<AccessLogEntry> {
    if cs == [] then []
    else
      var c := cs[|cs| - 1];
      (if c.id == id then [Entry(c, Flip(c.status), logId, at, username)] else []) +
      NewEntries(cs[..|cs| - 1], id, logId, at, username)
  }

  /**
   * The toggle logs one entry per compartment whose id is `id`, and each
   * entry records such a compartment, its new status, the log id, the time
   * and the user.
   */
  lemma {:induction false} NewEntriesRecordToggles(cs: seq<Compartment>, id: string, logId: string, at: int, username: string)
    ensures |NewEntries(cs, id, logId, at, username)| == CountId(cs, id)
    ensures forall k :: 0 <= k < |NewEntries(cs, id, logId, at, username)| ==>
      RecordsToggleOf(NewEntries(cs, id, logId, at, username)[k], cs, id, logId, at, username)
  {
    if cs != [] {
      NewEntriesRecordToggles(cs[..|cs| - 1], id, logId, at, username);
      RecordsToggleOfPrefix(cs, id, logId, at, username);
    }
  }

  /** Extending the list by one compartment extends the toggled list and the new entries by that compartment's share. */
  lemma ToggleStep(cs: seq<Compartment>, i: nat, id: string, logId: string, at: int, username: string)
    requires i < |cs|
    ensures Toggled(cs[..i + 1], id) ==
      Toggled(cs[..i], id) + [if cs[i].id == id then cs[i].(status := Flip(cs[i].status)) else cs[i]]
    ensures NewEntries(cs[..i + 1], id, logId, at, username) ==
      (if cs[i].id == id then [Entry(cs[i], Flip(cs[i].status), logId, at, username)] else []) +
      NewEntries(cs[..i], id, logId, at, username)
  {
    assert cs[..i + 1][..i] == cs[..i];
  }

  /** The toggle logs something exactly when some compartment has the id. */
  lemma {:induction false} NewEntriesEmptyIff(cs: seq<Compartment>, id: string, logId: string, at: int, username: string)
    ensures NewEntries(cs, id, logId, at, username) == [] <==> !HasId(cs, id)
  {
    if cs != [] {
      var prefix := cs[..|cs| - 1];
      NewEntriesEmptyIff(prefix, id, logId, at, username);
      if HasId(prefix, id) {
        var k :| 0 <= k < |prefix| && prefix[k].id == id;
        assert cs[k].id == id;
      }
      if HasId(cs, id) && cs[|cs| - 1].id != id {
        var k :| 0 <= k < |cs| && cs[k].id == id;
        assert prefix[k].id == id;
      }
    }
  }

  /**
   * With distinct ids, toggling the id of compartment `k` flips that one
   * compartment and produces exactly one entry, which records it and its new
   * status.
   */
  lemma {:induction false} ToggleKnown(cs: seq<Compartment>, k: nat, logId: string, at: int, username: string)
    requires DistinctIds(cs) && k < |cs|
    ensures Toggled(cs, cs[k].id) == cs[k := cs[k].(status := Flip(cs[k].status))]
    ensures NewEntries(cs, cs[k].id, logId, at, username) ==
      [Entry(cs[k], Flip(cs[k].status), logId, at, username)]
  {
    var id := cs[k].id;
    var prefix := cs[..|cs| - 1];
    if k == |cs| - 1 {
      ToggleUnknown(prefix, id, logId, at, username);
    } else {
      assert prefix[k] == cs[k];
      ToggleKnown(prefix, k, logId, at, username);
    }
  }

  /** Toggling an id no compartment has changes nothing and logs nothing. */
  lemma {:induction false} ToggleUnknown(cs: seq<Compartment>, id: string, logId: string, at: int, username: string)
    requires !HasId(cs, id)
    ensures Toggled(cs, id) == cs
    ensures NewEntries(cs, id, logId, at, username) == []
  {
    if cs != [] {
      var prefix := cs[..|cs| - 1];
      ToggleUnknown(prefix, id, logId, at, username);
      assert cs == prefix + [cs[|cs| - 1]];
    }
  }

  /** Toggling the same id twice restores the list. */
  lemma ToggleTwice(cs: seq<Compartment>, id: string)
    ensures Toggled(Toggled(cs, id), id) == cs
  {
  }

  /** Prepending one entry changes the replayed status of its own compartment only, to its action. */
  lemma ReplayAfterPrepend(e: AccessLogEntry, logs: seq<AccessLogEntry>, id: string)
    ensures ReplayedStatus([e] + logs, id) == if e.compartmentId == id then e.action else ReplayedStatus(logs, id)
  {
    assert ([e] + logs)[1..] == logs;
  }

  /**
   * When the log replays to every compartment's status, it still does after
   * a toggle prepends its entries: the new entry is the latest one about the
   * toggled compartment and mentions no other.
   */
  lemma ReplayAfterToggle(cs: seq<Compartment>, logs: seq<AccessLogEntry>, id: string, logId: string, at: int, username: string)
    requires DistinctIds(cs)
    requires forall k :: 0 <= k < |cs| ==> ReplayedStatus(logs, cs[k].id) == cs[k].status
    ensures forall k :: 0 <= k < |cs| ==>
      ReplayedStatus(NewEntries(cs, id, logId, at, username) + logs, Toggled(cs, id)[k].id) == Toggled(cs, id)[k].status
  {
    if HasId(cs, id) {
      var j :| 0 <= j < |cs| && cs[j].id == id;
      ToggleKnown(cs, j, logId, at, username);
      var e := Entry(cs[j], Flip(cs[j].status), logId, at, username);
      var ts := Toggled(cs, id);
      forall k | 0 <= k < |cs|
        ensures ReplayedStatus([e] + logs, ts[k].id) == ts[k].status
      {
        ReplayAfterPrepend(e, logs, ts[k].id);
      }
    } else {
      ToggleUnknown(cs, id, logId, at, username);
      assert [] + logs == logs;
    }
  }

  /**
   * The dashboard's invariant over its compartment list, PIN registry, PIN
   * buffer and log: ids are distinct, every PIN-protected compartment has a
   * registry entry, the buffer fits the four-digit input, and replaying the
   * log gives every compartment its current status.
   */
  ghost predicate Consistent(cs: seq<Compartment>, pins: map<string, string>, pin: string, logs: seq<AccessLogEntry>) {
    DistinctIds(cs) &&
    (forall k :: 0 <= k < |cs| && cs[k].requiresPin ==> cs[k].id in pins) &&
    |pin| <= PinLength &&
    (forall k :: 0 <= k < |cs| ==> ReplayedStatus(logs, cs[k].id) == cs[k].status)
  }

  /** A toggle keeps the invariant: ids, names and PIN flags are untouched and the log still replays. */
  lemma ToggleKeepsConsistent(cs: seq<Compartment>, pins: map<string, string>, pin: string, logs: seq<AccessLogEntry>,
                              id: string, logId: string, at: int, username: string)
    requires Consistent(cs, pins, pin, logs)
    ensures Consistent(Toggled(cs, id), pins, pin, NewEntries(cs, id, logId, at, username) + logs)
  {
    ToggledAt(cs, id);
    ReplayAfterToggle(cs, logs, id, logId, at, username);
  }

  /** `compartmentPins[id]`, which is undefined for an id without an entry. */
  function LookupPin(pins: map<string, string>, id: string): Option<string> {
    if id in pins then Some(pins[id]) else None
  }

  /** `candidate === compartmentPins[id]`: a string never equals undefined. */
  predicate PinAccepted(pins: map<string, string>, id: string, candidate: string) {
    LookupPin(pins, id) == Some(candidate)
  }

  /**
   * The registry after `handlePinChange`: with the right current PIN only
   * the entry for `id` is overwritten, by `newPin` whatever it is; otherwise
   * nothing changes.
   */
  function ChangedPins(pins: map<string, string>, id: string, currentPin: string, newPin: string): (r: map<string, string>)
    ensures r.Keys == pins.Keys
    ensures PinAccepted(pins, id, currentPin) ==> r[id] == newPin
    ensures forall other :: other in pins && other != id ==> r[other] == pins[other]
    ensures !PinAccepted(pins, id, currentPin) ==> r == pins
  {
    if PinAccepted(pins, id, currentPin) then pins[id := newPin] else pins
  }

  /**
   * After a successful PIN change the new PIN is accepted, the old one (when
   * different) is refused, and every other compartment's PIN is as before.
   */
  lemma PinChangeTakesEffect(pins: map<string, string>, id: string, currentPin: string, newPin: string)
    requires PinAccepted(pins, id, currentPin)
    ensures PinAccepted(ChangedPins(pins, id, currentPin, newPin), id, newPin)
    ensures currentPin != newPin ==> !PinAccepted(ChangedPins(pins, id, currentPin, newPin), id, currentPin)
    ensures forall other, p :: other != id ==>
      (PinAccepted(ChangedPins(pins, id, currentPin, newPin), other, p) <==> PinAccepted(pins, other, p))
  {
  }
}
