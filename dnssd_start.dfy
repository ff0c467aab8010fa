/** The busy check of `discover()` (lib/dns-sd.js:56-58) against the awaits
    that follow it. A call runs without interruption up to
    `await this._startListening()` (line 71), but `_is_discovering` is only
    set by `_startDiscovery` (line 272), once that promise has resolved, so
    calls interleave between the check and the flag. The calls on one object
    are modelled as a sequence of events, once as written and once with the
    flag set by the call that passes the check. */
module DnsSdStart {
  datatype Event =
      /** A `discover()` call runs up to its first await. */
    | Call(id: nat)
      /** Its `_startListening` resolves and `_startDiscovery` starts the session. */
    | Listened(id: nat)
      /** Its `_startListening` rejects and `_stopDiscovery` runs. */
    | ListenFailed(id: nat)
      /** Its session ends and `_stopDiscovery` runs. */
    | Finished(id: nat)

  /** The discovery flag, the calls waiting for the socket, the calls with a
      running session and the calls turned away as busy. */
  datatype Calls = Calls(discovering: bool, waiting: set<nat>, running: set<nat>, busy: set<nat>)

  const Idle: Calls := Calls(false, {}, {}, {})

  /** As written: the check reads the flag, which only the start of a session
      sets, and `_stopDiscovery` clears it whichever call runs it. The check
      itself never sets the flag: a call is turned away exactly when the flag
      is already set, and only a resolved listen raises it. */
  function StepAsWritten(s: Calls, e: Event): (r: Calls)
    ensures s.busy <= r.busy
    ensures e.Call? ==> r.discovering == s.discovering
    ensures e.Call? ==> (e.id in r.busy <==> s.discovering || e.id in s.busy)
    ensures !s.discovering && r.discovering ==> e.Listened? && e.id in r.running
  {
    match e
    case Call(id) =>
      if s.discovering then s.(busy := s.busy + {id}) else s.(waiting := s.waiting + {id})
    case Listened(id) =>
      if id in s.waiting then s.(discovering := true, waiting := s.waiting - {id}, running := s.running + {id})
      else s
    case ListenFailed(id) =>
      if id in s.waiting then s.(discovering := false, waiting := s.waiting - {id}) else s
    case Finished(id) =>
      if id in s.running then s.(discovering := false, running := s.running - {id}) else s
  }

  /** Corrected: a call that passes the check marks the discovery as running
      before it waits for the socket: after any call the flag is set, and a
      resolved listen leaves it as it is. */
  function StepGuarded(s: Calls, e: Event): (r: Calls)
    ensures s.busy <= r.busy
    ensures e.Call? ==> r.discovering
    ensures e.Call? && !s.discovering ==> e.id in r.waiting && e.id !in r.busy - s.busy
    ensures e.Listened? ==> r.discovering == s.discovering
  {
    match e
    case Call(id) =>
      if s.discovering then s.(busy := s.busy + {id})
      else s.(discovering := true, waiting := s.waiting + {id})
    case Listened(id) =>
      if id in s.waiting then s.(waiting := s.waiting - {id}, running := s.running + {id}) else s
    case ListenFailed(id) =>
      if id in s.waiting then s.(discovering := false, waiting := s.waiting - {id}) else s
    case Finished(id) =>
      if id in s.running then s.(discovering := false, running := s.running - {id}) else s
  }

  function RunAsWritten(s: Calls, events: seq<Event>): Calls
    decreases |events|
  {
    if events == [] then s
    else StepAsWritten(RunAsWritten(s, events[..|events| - 1]), events[|events| - 1])
  }

  function RunGuarded(s: Calls, events: seq<Event>): Calls
    decreases |events|
  {
    if events == [] then s
    else StepGuarded(RunGuarded(s, events[..|events| - 1]), events[|events| - 1])
  }

  /** The calls between passing the check and the end of their session. */
  function InFlight(s: Calls): set<nat> {
    s.waiting + s.running
  }

  /** At most one call is in flight, no call both waits and runs, and the flag
      says whether there is one in flight. */
  predicate AtMostOne(s: Calls) {
    && s.waiting !! s.running
    && (s.discovering <==> InFlight(s) != {})
    && (forall a, b :: a in InFlight(s) && b in InFlight(s) ==> a == b)
  }

  /** While a call is in flight, the corrected check turns every new call away
      and changes nothing else. */
  lemma GuardedRejectsWhileInFlight(s: Calls, id: nat)
    requires AtMostOne(s) && InFlight(s) != {}
    ensures StepGuarded(s, Call(id)) == s.(busy := s.busy + {id})
  {
  }

  lemma GuardedStepKeepsAtMostOne(s: Calls, e: Event)
    requires AtMostOne(s)
    ensures AtMostOne(StepGuarded(s, e))
  {
    var t := StepGuarded(s, e);
    match e
    case Call(id) =>
      if !s.discovering {
        assert InFlight(s) == {};
        assert InFlight(t) == {id};
      }
    case Listened(id) =>
      if id in s.waiting {
        assert InFlight(t) <= InFlight(s);
        assert id in InFlight(t);
      }
    case ListenFailed(id) =>
      if id in s.waiting {
        assert InFlight(s) == {id};
        assert InFlight(t) == {};
      }
    case Finished(id) =>
      if id in s.running {
        assert InFlight(s) == {id};
        assert InFlight(t) == {};
      }
  }

  /** With the corrected ordering, whatever the calls and however their
      awaits interleave, at most one discovery is ever in flight. */
  lemma {:induction false} GuardedAtMostOne(events: seq<Event>)
    ensures AtMostOne(RunGuarded(Idle, events))
    decreases |events|
  {
    if events != [] {
      GuardedAtMostOne(events[..|events| - 1]);
      GuardedStepKeepsAtMostOne(RunGuarded(Idle, events[..|events| - 1]), events[|events| - 1]);
    }
  }

  /** `Promise.all([d.discover(a), d.discover(b)])`: both calls pass the check
      before either has its socket, and both start a session on the one
      object, which share `_discovered_devices`. The corrected ordering turns
      the second away as busy. */
  lemma AsWrittenTwoSessions()
    ensures RunAsWritten(Idle, [Call(0), Call(1), Listened(0), Listened(1)])
      == Calls(true, {}, {0, 1}, {})
    ensures RunGuarded(Idle, [Call(0), Call(1), Listened(0), Listened(1)])
      == Calls(true, {}, {0}, {1})
  {
    var events := [Call(0), Call(1), Listened(0), Listened(1)];
    assert events[..3][..2][..1][..0] == [];
    assert RunAsWritten(Idle, events[..1]) == Calls(false, {0}, {}, {});
    assert RunAsWritten(Idle, events[..2]) == Calls(false, {0, 1}, {}, {}) by {
      assert events[..2][..1] == events[..1];
    }
    assert RunAsWritten(Idle, events[..3]) == Calls(true, {1}, {0}, {}) by {
      assert events[..3][..2] == events[..2];
      assert {0, 1} - {0} == {1};
    }
    assert {1} - {1} == {};
    assert RunGuarded(Idle, events[..1]) == Calls(true, {0}, {}, {});
    assert RunGuarded(Idle, events[..2]) == Calls(true, {0}, {}, {1}) by {
      assert events[..2][..1] == events[..1];
    }
    assert RunGuarded(Idle, events[..3]) == Calls(true, {}, {0}, {1}) by {
      assert events[..3][..2] == events[..2];
      assert {0} - {0} == {};
    }
    assert events[..3] == events[..|events| - 1];
  }

  /** As written, a second call whose bind fails clears the flag of the
      session the first call is running, so a third call gets through while
      that session still runs. */
  lemma AsWrittenFailedBindClearsFlag()
    ensures RunAsWritten(Idle, [Call(0), Call(1), Listened(0), ListenFailed(1), Call(2)])
      == Calls(false, {2}, {0}, {})
  {
    var events := [Call(0), Call(1), Listened(0), ListenFailed(1), Call(2)];
    assert events[..4][..3][..2][..1][..0] == [];
    assert RunAsWritten(Idle, events[..1]) == Calls(false, {0}, {}, {});
    assert RunAsWritten(Idle, events[..2]) == Calls(false, {0, 1}, {}, {}) by {
      assert events[..2][..1] == events[..1];
    }
    assert RunAsWritten(Idle, events[..3]) == Calls(true, {1}, {0}, {}) by {
      assert events[..3][..2] == events[..2];
      assert {0, 1} - {0} == {1};
    }
    assert RunAsWritten(Idle, events[..4]) == Calls(false, {}, {0}, {}) by {
      assert events[..4][..3] == events[..3];
      assert {1} - {1} == {};
    }
    assert events[..4] == events[..|events| - 1];
  }
}
