/**
 * The access-log record (`AccessLogType`) and the lock status it records.
 * The log is kept newest-first, so the first entry about a compartment is
 * the latest thing that happened to it.
 */
module AccessLog {
  import opened Optional

  /** `"locked" | "unlocked"`: a compartment's status, and the action a log entry records. */
  datatype Status = Locked | Unlocked

  /** The status a toggle moves to. */
  function Flip(s: Status): (r: Status)
    ensures r != s
    ensures (r == Locked) == (s == Unlocked)
  {
    match s
    case Locked => Unlocked
    case Unlocked => Locked
  }

  /**
   * One access-log entry. The `id` and the `timestamp` come from the clock
   * (the time in milliseconds); here both are supplied by the caller.
   */
  datatype AccessLogEntry = AccessLogEntry(
    id: string,
    compartmentId: string,
    compartmentName: string,
    action: Status,
    timestamp: int,
    username: string)

  /** Entry `k` is the first, hence newest, entry about compartment `id`. */
  ghost predicate IsNewestAbout(logs: seq<AccessLogEntry>, id: string, k: int) {
    0 <= k < |logs| && logs[k].compartmentId == id &&
    forall j :: 0 <= j < k ==> logs[j].compartmentId != id
  }

  /** The action of the newest entry about compartment `id`, or None when the log never mentions it. */
  function LatestAction(logs: seq<AccessLogEntry>, id: string): (r: Option<Status>)
    ensures r.None? <==> forall k :: 0 <= k < |logs| ==> logs[k].compartmentId != id
    ensures r.Some? ==> exists k :: IsNewestAbout(logs, id, k) && logs[k].action == r.value
  {
    if logs == [] then None
    else if logs[0].compartmentId == id then Some(logs[0].action)
    else
      var r := LatestAction(logs[1..], id);
      assert forall k :: 1 <= k < |logs| ==> logs[k] == logs[1..][k - 1];
      r
  }

  /**
   * The status a compartment has according to the log alone: every
   * compartment starts locked, and each entry records the status toggled to.
   */
  function ReplayedStatus(logs: seq<AccessLogEntry>, id: string): Status {
    match LatestAction(logs, id)
    case None => Locked
    case Some(a) => a
  }
}
