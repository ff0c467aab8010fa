/** `startMonitoring()` and `stopMonitoring()` (lib/dns-sd.js:471-503) against
    the close callback of `_stopListening` (lib/dns-sd.js:543-569).
    `_stopListening` starts `close` on the socket, and only its callback clears
    `_is_listening` and `_udp`. Meanwhile `_startListening` (lines 505-510)
    resolves at once whenever `_is_listening` is true. Calls made without
    awaiting each other therefore interleave with that callback. No discovery
    runs in this model, and a bind always succeeds. The calls on one object are
    modelled as a sequence of events, once as written and once with the
    socket taken out of `_udp` before it is closed. */
module DnsSdListen {
  datatype Event =
      /** A `startMonitoring()` call, up to the point where it sets `_is_monitoring`. */
    | StartMonitoring
      /** A `stopMonitoring()` call, up to the `close` it starts. */
    | StopMonitoring
      /** The close callback of the socket being closed runs `cleanObj`. */
    | Closed

  /** `_is_monitoring`; `_is_listening`; whether `_udp` holds a socket; whether
      a close has been started and its callback has not yet run. */
  datatype Sock = Sock(monitoring: bool, listening: bool, socket: bool, closing: bool)

  const Idle: Sock := Sock(false, false, false, false)

  /** The object monitors only on a socket it holds, and it listens exactly
      when it holds one. */
  predicate Consistent(s: Sock) {
    && (s.listening <==> s.socket)
    && (s.monitoring ==> s.socket)
  }

  /** As written. A stop leaves the socket in `_udp` and `_is_listening` set
      until the close callback. A start made meanwhile finds `_is_listening`
      set and opens nothing. The callback clears both whatever has happened
      since, and it leaves the monitoring flag alone. */
  function StepAsWritten(s: Sock, e: Event): (r: Sock)
    ensures e == StopMonitoring ==> !r.monitoring && r.socket == s.socket && r.listening == (s.listening && s.socket)
    ensures e == StartMonitoring && s.listening ==> r.monitoring && r.socket == s.socket && r.closing == s.closing
    ensures e == Closed ==> r.monitoring == s.monitoring
    ensures e == Closed && s.closing ==> !r.socket && !r.listening
  {
    match e
    case StartMonitoring =>
      if s.monitoring then s
      else if s.listening then s.(monitoring := true)
      else s.(monitoring := true, listening := true, socket := true)
    case StopMonitoring =>
      if s.socket then s.(monitoring := false, closing := true)
      else s.(monitoring := false, listening := false)
    case Closed =>
      if s.closing then s.(listening := false, socket := false, closing := false) else s
  }

  /** Corrected. A stop takes the socket out of `_udp` and clears
      `_is_listening` before it closes the socket, so a later start opens a
      fresh socket. The callback then releases only the socket it closed. */
  function StepCorrected(s: Sock, e: Event): (r: Sock)
    ensures e == StopMonitoring ==> !r.monitoring && !r.listening && !r.socket
    ensures e == StartMonitoring && Consistent(s) ==> r.monitoring && r.listening && r.socket
    ensures e == Closed ==> r.monitoring == s.monitoring && r.listening == s.listening && r.socket == s.socket
  {
    match e
    case StartMonitoring =>
      if s.monitoring then s
      else if s.listening then s.(monitoring := true)
      else s.(monitoring := true, listening := true, socket := true)
    case StopMonitoring =>
      if s.socket then s.(monitoring := false, listening := false, socket := false, closing := true)
      else s.(monitoring := false, listening := false)
    case Closed =>
      s.(closing := false)
  }

  function RunAsWritten(s: Sock, events: seq<Event>): Sock
    decreases |events|
  {
    if events == [] then s
    else StepAsWritten(RunAsWritten(s, events[..|events| - 1]), events[|events| - 1])
  }

  function RunCorrected(s: Sock, events: seq<Event>): Sock
    decreases |events|
  {
    if events == [] then s
    else StepCorrected(RunCorrected(s, events[..|events| - 1]), events[|events| - 1])
  }

  lemma CorrectedStepKeepsConsistent(s: Sock, e: Event)
    requires Consistent(s)
    ensures Consistent(StepCorrected(s, e))
  {
  }

  /** With the corrected stop, however the calls and the close callbacks
      interleave, the object monitors only on a socket it holds. */
  lemma {:induction false} CorrectedMonitorsOnSocket(events: seq<Event>)
    ensures Consistent(RunCorrected(Idle, events))
    decreases |events|
  {
    if events != [] {
      CorrectedMonitorsOnSocket(events[..|events| - 1]);
      CorrectedStepKeepsConsistent(RunCorrected(Idle, events[..|events| - 1]), events[|events| - 1]);
    }
  }

  /** `d.stopMonitoring(); d.startMonitoring();` on a monitoring object, with
      no await between them. The start finds `_is_listening` still set and
      sets `_is_monitoring`. The close callback then drops the socket. The
      object is left monitoring with no socket, and every later
      `startMonitoring()` returns at once. The corrected stop leaves it
      monitoring on a fresh socket. */
  lemma AsWrittenRestartLosesSocket()
    ensures RunAsWritten(Idle, [StartMonitoring, StopMonitoring, StartMonitoring, Closed])
      == Sock(true, false, false, false)
    ensures !Consistent(Sock(true, false, false, false))
    ensures StepAsWritten(Sock(true, false, false, false), StartMonitoring) == Sock(true, false, false, false)
    ensures RunCorrected(Idle, [StartMonitoring, StopMonitoring, StartMonitoring, Closed])
      == Sock(true, true, true, false)
  {
    var events := [StartMonitoring, StopMonitoring, StartMonitoring, Closed];
    assert events[..3][..2][..1][..0] == [];
    assert RunAsWritten(Idle, events[..1]) == Sock(true, true, true, false);
    assert RunAsWritten(Idle, events[..2]) == Sock(false, true, true, true) by {
      assert events[..2][..1] == events[..1];
    }
    assert RunAsWritten(Idle, events[..3]) == Sock(true, true, true, true) by {
      assert events[..3][..2] == events[..2];
    }
    assert RunCorrected(Idle, events[..1]) == Sock(true, true, true, false);
    assert RunCorrected(Idle, events[..2]) == Sock(false, false, false, true) by {
      assert events[..2][..1] == events[..1];
    }
    assert RunCorrected(Idle, events[..3]) == Sock(true, true, true, true) by {
      assert events[..3][..2] == events[..2];
    }
    assert events[..3] == events[..|events| - 1];
  }
}
