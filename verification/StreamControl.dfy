/** Who may stop a stream: the session's stop channel and socket, shared by the
    handlers that start and stop streams and the streams that end by themselves.
    Each method holds the session's stream lock, so it is one step; the streams'
    own ends may come at any time and in any order. */
module StreamControl {
  import opened Bytes

  /** The `n`-th started stream owns channel `n` and, over UDP, socket `n`. */
  type Stream = nat

  /** `told` counts the times each channel was closed; closing twice panics. */
  datatype State = State(
    stopCh: Option<Stream>, socket: Option<Stream>, started: nat,
    told: multiset<Stream>, ended: set<Stream>, open: set<Stream>)

  const IDLE: State := State(None, None, 0, multiset{}, {}, {})

  /** A handler starts a stream over UDP (`listens`: the socket opened) or over
      the connection (`connected`: there is one), a handler stops the stream, or
      stream `n` ends by itself. */
  datatype Act =
    | StartUdp(listens: bool)
    | StartInterleaved(connected: bool)
    | Stop
    | Finish(n: Stream)
    | FinishInterleaved(n: Stream)

  function StopNow(s: State): State {
    s.(stopCh := None, socket := None,
       told := if s.stopCh.Some? then s.told + multiset{s.stopCh.value} else s.told,
       open := if s.socket.Some? then s.open - {s.socket.value} else s.open)
  }

  function Step(s: State, a: Act): State {
    match a
    case StartUdp(listens) =>
      var t := StopNow(s);
      if !listens then t
      else t.(stopCh := Some(t.started), socket := Some(t.started), started := t.started + 1,
          open := t.open + {t.started})
    case StartInterleaved(connected) =>
      var t := StopNow(s);
      if !connected then t else t.(stopCh := Some(t.started), started := t.started + 1)
    case Stop => StopNow(s)
    case Finish(n) =>
      var t := s.(ended := s.ended + {n});
      if s.stopCh != Some(n) then t
      else t.(stopCh := None, socket := if s.socket == Some(n) then None else s.socket,
              open := if s.socket == Some(n) then s.open - {n} else s.open)
    case FinishInterleaved(n) =>
      var t := s.(ended := s.ended + {n});
      if s.stopCh != Some(n) then t else t.(stopCh := None)
  }

  /** Only a stream that was started ends by itself, and a stream over UDP does
      so by `Finish`. */
  predicate Enabled(s: State, a: Act) {
    match a
    case Finish(n) => n < s.started
    case FinishInterleaved(n) => n < s.started && n !in s.open
    case _ => true
  }

  function Run(acts: seq<Act>): State {
    if acts == [] then IDLE else Step(Run(acts[..|acts| - 1]), acts[|acts| - 1])
  }

  predicate Possible(acts: seq<Act>) {
    acts == [] || (Possible(acts[..|acts| - 1]) && Enabled(Run(acts[..|acts| - 1]), acts[|acts| - 1]))
  }

  /** What holds between any two steps: the current stream is the newest and was
      never told to stop; no channel was closed twice; every other stream was
      told or has ended; an open socket belongs to the current stream. */
  ghost predicate Safe(s: State) {
    && (s.stopCh.Some? ==> s.stopCh.value == s.started - 1 && s.told[s.stopCh.value] == 0)
    && (forall n: Stream :: s.told[n] <= 1 && (n >= s.started ==> s.told[n] == 0))
    && (forall n: Stream :: n < s.started && s.stopCh != Some(n) ==> s.told[n] == 1 || n in s.ended)
    && (s.socket.Some? ==> s.stopCh == s.socket)
    && s.open == if s.socket.Some? then {s.socket.value} else {}
  }

  lemma StepSafe(s: State, a: Act)
    requires Safe(s) && Enabled(s, a)
    ensures Safe(Step(s, a))
  {
    hide Safe, StopNow;
    match a {
      case StartUdp(listens) =>
        StopSafe(s);
        LaunchSafe(StopNow(s), true);
      case StartInterleaved(connected) =>
        StopSafe(s);
        LaunchSafe(StopNow(s), false);
      case Stop =>
        StopSafe(s);
      case Finish(n) =>
        FinishSafe(s, n);
      case FinishInterleaved(n) =>
        FinishSafe(s, n);
    }
  }

  lemma StopSafe(s: State)
    requires Safe(s)
    ensures Safe(StopNow(s)) && StopNow(s).stopCh == StopNow(s).socket == None
  {
  }

  lemma LaunchSafe(t: State, udp: bool)
    requires Safe(t) && t.stopCh == t.socket == None
    ensures var n := t.started;
            Safe(if udp then t.(stopCh := Some(n), socket := Some(n), started := n + 1, open := t.open + {n})
                 else t.(stopCh := Some(n), started := n + 1))
  {
  }

  lemma FinishSafe(s: State, n: Stream)
    requires Safe(s) && n < s.started
    ensures Safe(Step(s, Finish(n))) && (n !in s.open ==> Safe(Step(s, FinishInterleaved(n))))
  {
  }

  /** Every interleaving is safe. */
  lemma {:induction false} RunSafe(acts: seq<Act>)
    requires Possible(acts)
    ensures Safe(Run(acts))
  {
    hide Safe, Step, Enabled;
    if acts == [] {
      IdleSafe();
    } else {
      RunSafe(acts[..|acts| - 1]);
      StepSafe(Run(acts[..|acts| - 1]), acts[|acts| - 1]);
    }
  }

  lemma IdleSafe()
    ensures Safe(IDLE)
  {
  }

  /** The end of a stream that is no longer current disturbs nothing: later
      handlers see the channel, the socket and the closed channels as before. */
  lemma StaleFinish(s: State, n: Stream)
    requires Safe(s) && n < s.started && s.stopCh != Some(n)
    ensures Step(s, Finish(n)) == Step(s, FinishInterleaved(n)) == s.(ended := s.ended + {n})
  {
  }

  /** At most one stream is still running: started, not told, not ended. */
  predicate Running(s: State, n: Stream) {
    n < s.started && s.told[n] == 0 && n !in s.ended
  }

  lemma OneRunning(acts: seq<Act>, m: Stream, n: Stream)
    requires Possible(acts) && Running(Run(acts), m) && Running(Run(acts), n)
    ensures m == n && Run(acts).stopCh == Some(n)
  {
    hide Step, Possible;
    RunSafe(acts);
  }

  /** The stream fields of a session, with the history the claims are about. */
  class SessionStream {
    var udpConn: Option<Stream>
    var stopCh: Option<Stream>
    var started: nat
    ghost var told: multiset<Stream>
    ghost var ended: set<Stream>
    ghost var open: set<Stream>

    ghost function View(): State
      reads this
    {
      State(stopCh, udpConn, started, told, ended, open)
    }

    constructor ()
      ensures View() == IDLE && Safe(View())
    {
      udpConn, stopCh, started, told, ended, open := None, None, 0, multiset{}, {}, {};
      new;
      IdleSafe();
    }

    /** `close(ch)` panics on a closed channel. */
    ghost method CloseChannel(n: Stream)
      requires told[n] == 0
      modifies this`told
      ensures told == old(told) + multiset{n}
    {
      told := told + multiset{n};
    }

    /** Closing a socket that is not open would be an error. */
    ghost method CloseSocket(n: Stream)
      requires n in open
      modifies this`open
      ensures open == old(open) - {n}
    {
      open := open - {n};
    }

    /** `stopStreamingLocked`. */
    method StopStreaming()
      requires Safe(View())
      modifies this
      ensures View() == Step(old(View()), Stop) && Safe(View())
    {
      StepSafe(View(), Stop);
      if stopCh.Some? {
        CloseChannel(stopCh.value);
        stopCh := None;
      }
      if udpConn.Some? {
        CloseSocket(udpConn.value);
        udpConn := None;
      }
    }

    /** The stream started, if one could be. */
    method StartStreaming(interleaved: bool, available: bool) returns (stream: Option<Stream>)
      requires Safe(View())
      modifies this
      ensures View() == Step(old(View()), if interleaved then StartInterleaved(available) else StartUdp(available))
          && Safe(View())
      ensures stream == stopCh == if available then Some(old(started)) else None
    {
      StepSafe(View(), if interleaved then StartInterleaved(available) else StartUdp(available));
      StopStreaming();
      if !available {
        return None;
      }
      if !interleaved {
        udpConn := Some(started);
        open := open + {started};
      }
      stopCh := Some(started);
      started := started + 1;
      return stopCh;
    }

    /** Stream `n`, over UDP with socket `n`, ends by itself. */
    method FinishStreaming(n: Stream)
      requires Safe(View()) && Enabled(View(), Finish(n))
      modifies this
      ensures View() == Step(old(View()), Finish(n)) && Safe(View())
    {
      StepSafe(View(), Finish(n));
      ended := ended + {n};
      if stopCh != Some(n) {
        return;
      }
      if udpConn == Some(n) {
        CloseSocket(n);
        udpConn := None;
      }
      stopCh := None;
    }

    method FinishInterleavedStreaming(n: Stream)
      requires Safe(View()) && Enabled(View(), FinishInterleaved(n))
      modifies this
      ensures View() == Step(old(View()), FinishInterleaved(n)) && Safe(View())
    {
      StepSafe(View(), FinishInterleaved(n));
      ended := ended + {n};
      if stopCh != Some(n) {
        return;
      }
      stopCh := None;
    }
  }
}
