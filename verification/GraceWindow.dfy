/** The supervisor's reconnect grace window (runtime/supervisor.py): after a known outage, sweeping
    waits until live workers have had time to heartbeat again. */
module GraceWindow {
  import opened Common

  datatype Event = Failed | Connected(at: int) | Polled(at: int)

  datatype State = State(down: bool, until: Option<int>)

  const START := State(false, None)

  function Step(grace: int, s: State, e: Event): State {
    match e
    case Failed => s.(down := true)
    case Connected(now) => State(false, if s.down && grace > 0 then Some(now + grace) else s.until)
    case Polled(now) => if InGrace(s, now) then s else s.(until := None)
  }

  /** The answer of `in_grace`. */
  predicate InGrace(s: State, now: int) {
    s.until.Some? && now < s.until.value
  }

  function After(grace: int, events: seq<Event>): State {
    if events == [] then START
    else Step(grace, After(grace, events[..|events| - 1]), events[|events| - 1])
  }

  /** A failure has been seen since the last connect. */
  predicate Outage(events: seq<Event>) {
    events != [] &&
    var last := events[|events| - 1];
    last.Failed? || (last.Polled? && Outage(events[..|events| - 1]))
  }

  /** The k-th event reconnects after a known outage. */
  predicate Recovers(events: seq<Event>, k: nat) {
    k < |events| && events[k].Connected? && Outage(events[..k])
  }

  /** Times on the monotonic clock, none of them after now. */
  ghost predicate Timed(events: seq<Event>, now: int) {
    && (forall i, j :: 0 <= i < j < |events| && !events[i].Failed? && !events[j].Failed? ==> events[i].at <= events[j].at)
    && forall i :: 0 <= i < |events| && !events[i].Failed? ==> events[i].at <= now
  }

  lemma {:induction false} DownMeansOutage(grace: int, events: seq<Event>)
    ensures After(grace, events).down <==> Outage(events)
  {
    if events != [] {
      DownMeansOutage(grace, events[..|events| - 1]);
    }
  }

  /** Sweeping is deferred at a time exactly when some recovery from a known outage is less than the
      grace period old; a first connect defers nothing, and polling changes no answer. */
  lemma {:induction false} DeferredExactlyAfterRecovery(grace: int, events: seq<Event>, now: int)
    requires Timed(events, now)
    ensures InGrace(After(grace, events), now) <==>
      grace > 0 && exists k: nat :: Recovers(events, k) && now < events[k].at + grace
  {
    if events != [] {
      var n := |events| - 1;
      var init, e := events[..n], events[n];
      DownMeansOutage(grace, init);
      DeferredExactlyAfterRecovery(grace, init, now);
      RecoversPrefix(events);
      if e.Connected? && Outage(init) {
        assert Recovers(events, n);
      }
    }
  }

  lemma RecoversPrefix(events: seq<Event>)
    requires events != []
    ensures var n := |events| - 1;
      forall k: nat :: k < n ==> (Recovers(events, k) <==> Recovers(events[..n], k))
  {
    var n := |events| - 1;
    forall k: nat | k < n ensures Recovers(events, k) <==> Recovers(events[..n], k) {
      assert events[..n][..k] == events[..k];
    }
  }

  class GraceTracker {
    const grace: int
    var down: bool
    var until: Option<int>

    function Snapshot(): State
      reads this
    {
      State(down, until)
    }

    constructor (grace: int)
      ensures this.grace == grace && Snapshot() == START
    {
      this.grace := grace;
      down, until := false, None;
    }

    method NoteFailure()
      modifies this
      ensures Snapshot() == Step(grace, old(Snapshot()), Failed)
    {
      down := true;
    }

    method NoteConnected(now: int)
      modifies this
      ensures Snapshot() == Step(grace, old(Snapshot()), Connected(now))
    {
      if down && grace > 0 {
        until := Some(now + grace);
      }
      down := false;
    }

    method Poll(now: int) returns (deferred: bool)
      modifies this
      ensures Snapshot() == Step(grace, old(Snapshot()), Polled(now))
      ensures deferred == InGrace(old(Snapshot()), now)
    {
      if until.None? { return false; }
      if now >= until.value {
        until := None;
        return false;
      }
      return true;
    }
  }
}
