/** The backend's `server-status-store`: the last status the plugin posted,
    the time it arrived, and the check that marks a silent server offline.
    `Date.now()` is passed in as `now`, in milliseconds. */
module ServerStatusStore {
  import opened Results

  /** The fields of a status object, as values. */
  datatype StatusFields = StatusFields(isOnline: bool, playerCount: int, worldTime: Option<int>, motd: string,
                                       lastUpdateSent: Option<int>)

  /** The status the store starts with: offline, nobody on, no time, empty message. */
  const InitialFields := StatusFields(false, 0, None, "", None)

  /** How long the store waits for an update before calling the server offline. */
  const StaleAfterMillis := 5000

  /** `checkStaleness` on values: the new status and the result. An online
      status older than the limit goes offline, and that is reported once. */
  function Staleness(s: StatusFields, lastUpdateTime: int, now: int): (StatusFields, bool)
  {
    if now - lastUpdateTime > StaleAfterMillis && s.isOnline then (s.(isOnline := false), true) else (s, false)
  }

  /** Staleness is reported exactly for an online status past the limit,
      it only ever clears `isOnline`, and it leaves the status offline. */
  lemma StalenessEffect(s: StatusFields, lastUpdateTime: int, now: int)
    ensures var (s', stale) := Staleness(s, lastUpdateTime, now);
            (stale <==> s.isOnline && now - lastUpdateTime > StaleAfterMillis) &&
            (stale ==> !s'.isOnline) &&
            s'.(isOnline := s.isOnline) == s &&
            (!stale ==> s' == s)
  {
  }

  /** After a check reports staleness, every later check reports nothing,
      whatever the time, until an update replaces the status. */
  lemma StaleReportedOnce(s: StatusFields, lastUpdateTime: int, now: int, later: int)
    requires Staleness(s, lastUpdateTime, now).1
    ensures var s' := Staleness(s, lastUpdateTime, now).0;
            Staleness(s', lastUpdateTime, later) == (s', false)
  {
  }

  /** A status object: the store hands out and mutates the object itself. */
  class Status {
    var isOnline: bool
    var playerCount: int
    var worldTime: Option<int>
    var motd: string
    var lastUpdateSent: Option<int>

    function Fields(): StatusFields
      reads this
    {
      StatusFields(isOnline, playerCount, worldTime, motd, lastUpdateSent)
    }

    constructor (f: StatusFields)
      ensures Fields() == f
    {
      isOnline := f.isOnline;
      playerCount := f.playerCount;
      worldTime := f.worldTime;
      motd := f.motd;
      lastUpdateSent := f.lastUpdateSent;
    }
  }

  /** The module's two variables. */
  class Store {
    var lastUpdateTime: int
    var status: Status

    /** Loading the module: the time is now, the status is the initial one. */
    constructor (now: int)
      ensures lastUpdateTime == now && status.Fields() == InitialFields && fresh(status)
    {
      lastUpdateTime := now;
      status := new Status(InitialFields);
    }

    /** `getStatus`: the stored object itself, not a copy. */
    method GetStatus() returns (s: Status)
      ensures s == status
    {
      return status;
    }

    /** `updateStatus`: the posted object becomes the status, by reference,
        and the clock restarts. */
    method UpdateStatus(newData: Status, now: int)
      modifies this
      ensures status == newData && lastUpdateTime == now
    {
      lastUpdateTime := now;
      status := newData;
    }

    /** `checkStaleness`: marks the stored object offline in place when the
        last update is more than five seconds old and the server was online. */
    method CheckStaleness(now: int) returns (stale: bool)
      modifies status
      ensures (status.Fields(), stale) == Staleness(old(status.Fields()), lastUpdateTime, now)
    {
      var age := now - lastUpdateTime;
      if age > 5000 && status.isOnline {
        status.isOnline := false;
        return true;
      }
      return false;
    }
  }

  /** A store that has just reported staleness reports nothing on the next
      check, and a freshly posted status is not stale for five seconds. */
  method StaleThenUpdated(store: Store, now: int, later: int, posted: Status, afterPost: int)
    returns (first: bool, second: bool, third: bool)
    modifies store, store.status, posted
    ensures first ==> !second
    ensures afterPost - later <= StaleAfterMillis ==> !third
    ensures store.status == posted
  {
    first := store.CheckStaleness(now);
    second := store.CheckStaleness(later);
    store.UpdateStatus(posted, later);
    third := store.CheckStaleness(afterPost);
  }
}
