/**
  The polling supervisor of sensor.py as a pure step function: one call of
  `Sensor.loop` plus the failure counting of `Sensor.run` per step, over integer
  time. Serial I/O, the camera artifact, the clock and the date rendering are inputs.
 */
module Supervisor {
  import opened Wrappers
  import opened Readings

  /** Consecutive failures after which a reboot is issued. */
  const MaxCount := 3
  /** Oldest camera artifact, in seconds, whose brightness is still used. */
  const FreshnessBound := 300
  /** Device label looked up when no port is given. */
  const SensorLabel := "Environmental sensor"

  /** The camera snapshot file as seen at the moment of the poll. */
  datatype Artifact = Missing | Present(mtime: int, brightness: int)

  /**
    Outcome of sending the read command: the transport failed (a non-zero code
    from the serial exchange), or an answer came back whose parse status is
    `status` (0 means the fields were parsed).
   */
  datatype Poll = TransportFailure | Answered(status: int, fields: RawReading)

  datatype SensorError = CannotCommunicate | SensorNotDetected

  /** `freq` is the write throttle in seconds; `hasLogfile` says whether a log path was given. */
  datatype Config = Config(freq: int, hasLogfile: bool)

  /**
    `Running` while `run` loops; `Crashed` once an exception escaped `run`
    (only `KeyboardInterrupt` is caught there); `Stopped` after an interrupt.
   */
  datatype Phase = Running | Crashed | Stopped

  datatype State = State(stored: Reading, count: nat, reboots: nat, log: seq<string>, phase: Phase)

  /** What happens between two steps: one poll cycle at time `now`, or an operator interrupt. */
  datatype Event = Cycle(poll: Poll, artifact: Artifact, now: int) | Interrupt

  /** `Sensor.detect`: the port the device report lists for the sensor label. */
  function Detect(report: map<string, string>): (r: Result<string, SensorError>)
    ensures r.Success? <==> SensorLabel in report
    ensures r.Success? ==> r.value == report[SensorLabel]
    ensures r.Failure? ==> r.error == SensorNotDetected
  {
    if SensorLabel in report then Success(report[SensorLabel]) else Failure(SensorNotDetected)
  }

  /**
    `Sensor.__init__` followed by the start of `run`: the sentinel reading, a zero
    failure counter, an empty log. An explicit port is used as given; otherwise
    the port is detected, and a missing sensor aborts start-up.
   */
  function Start(port: Option<string>, report: map<string, string>): (r: Result<(string, State), SensorError>)
    ensures r.Success? <==> port.Some? || SensorLabel in report
    ensures port.Some? ==> r.Success? && r.value.0 == port.value
    ensures port.None? && r.Success? ==> r.value.0 == report[SensorLabel]
    ensures r.Failure? ==> r.error == SensorNotDetected
    ensures r.Success? ==> r.value.1 == State(Reset(), 0, 0, [], Running)
  {
    var p :- match port
      case Some(p) => Success(p)
      case None => Detect(report);
    Success((p, State(Reset(), 0, 0, [], Running)))
  }

  /** `Sensor.must_update`: the clock is strictly past the stored reading's time plus the throttle. */
  predicate MustUpdate(stored: Reading, now: int, freq: int) {
    now > stored.timestamp + freq
  }

  /**
    The gate is shut up to and including `freq` seconds after the stored
    timestamp, and once open it stays open while that reading is kept.
   */
  lemma GateOpensAfterThrottle(stored: Reading, freq: int, now: int, later: int)
    requires now <= later
    ensures !MustUpdate(stored, stored.timestamp + freq, freq)
    ensures MustUpdate(stored, now, freq) ==> MustUpdate(stored, later, freq)
    ensures MustUpdate(stored, now, freq) <==> now - stored.timestamp > freq
  {
  }

  /** `Sensor.compute_camera_light`: the brightness of a snapshot at most `FreshnessBound` old. */
  function CameraLight(art: Artifact, now: int): (r: Option<int>)
    ensures r.Some? <==> art.Present? && now - art.mtime <= FreshnessBound
    ensures r.Some? ==> r.value == art.brightness
  {
    match art
    case Missing => None
    case Present(mtime, brightness) =>
      if now - mtime > FreshnessBound then None else Some(brightness)
  }

  /** Reading of a successful exchange at `now`; `render` is the `strftime` of a timestamp. */
  function Stamp(raw: RawReading, camera: Option<int>, now: int, render: int -> string): Reading {
    Reading(raw.temperature, raw.humidity, raw.light, raw.pressure, raw.altitude,
            camera, now, render(now))
  }

  /**
    `Sensor.communicate`: a transport failure raises; otherwise the parse status is
    returned with the reading to keep, which is a fresh one only when the status is 0.
   */
  function Communicate(stored: Reading, poll: Poll, art: Artifact, now: int, render: int -> string)
    : (r: Result<(Reading, int), SensorError>)
    ensures r.Failure? <==> poll.TransportFailure?
    ensures r.Failure? ==> r.error == CannotCommunicate
    ensures r.Success? ==> r.value.1 == poll.status
    ensures r.Success? && poll.status != 0 ==> r.value.0 == stored
    ensures r.Success? && poll.status == 0 ==>
      var n := r.value.0;
      && n.timestamp == now && n.datetime == render(now)
      && n.cameraLight == CameraLight(art, now)
      && n.temperature == poll.fields.temperature && n.humidity == poll.fields.humidity
      && n.light == poll.fields.light && n.pressure == poll.fields.pressure
      && n.altitude == poll.fields.altitude
  {
    match poll
    case TransportFailure => Failure(CannotCommunicate)
    case Answered(status, fields) =>
      var camera := CameraLight(art, now);
      if status == 0 then Success((Stamp(fields, camera, now, render), status))
      else Success((stored, status))
  }

  /**
    `Sensor.loop`: one exchange, then a line for whatever is stored if a log file
    is configured and the stored reading is older than the throttle.
   */
  function Loop(cfg: Config, render: int -> string, stored: Reading, log: seq<string>,
                poll: Poll, art: Artifact, now: int)
    : (r: Result<(Reading, seq<string>, int), SensorError>)
    ensures r.Failure? <==> poll.TransportFailure?
    ensures r.Success? ==>
      && r.value.2 == poll.status
      && (poll.status != 0 ==> r.value.0 == stored)
      && r.value.1 == (if cfg.hasLogfile && MustUpdate(r.value.0, now, cfg.freq)
                       then log + [Line(r.value.0)] else log)
  {
    var exchanged :- Communicate(stored, poll, art, now, render);
    var (kept, status) := exchanged;
    var log' := if cfg.hasLogfile && MustUpdate(kept, now, cfg.freq) then log + [Line(kept)] else log;
    Success((kept, log', status))
  }

  /** The counter after one cycle of `run`: cleared by status 0, otherwise one more. */
  function NextCount(count: nat, status: int): (c: nat)
    ensures status == 0 <==> c == 0
    ensures status != 0 ==> c == count + 1
  {
    if status == 0 then 0 else count + 1
  }

  /** One step of the supervisor. Crashed and stopped supervisors do nothing more. */
  function Step(cfg: Config, render: int -> string, s: State, e: Event): (r: State)
    ensures s.phase != Running ==> r == s
    ensures s.log <= r.log && |r.log| <= |s.log| + 1
    ensures e.Interrupt? && s.phase == Running ==> r == s.(phase := Stopped)
  {
    if s.phase != Running then s
    else match e
      case Interrupt => s.(phase := Stopped)
      case Cycle(poll, art, now) =>
        match Loop(cfg, render, s.stored, s.log, poll, art, now)
        case Failure(_) => s.(phase := Crashed)
        case Success((stored, log, status)) =>
          var count := NextCount(s.count, status);
          var reboots := if status != 0 && count == MaxCount then s.reboots + 1 else s.reboots;
          State(stored, count, reboots, log, Running)
  }

  /**
    The supervisor after a sequence of events. A halted supervisor stays as it is;
    the log only grows, by at most one line appended per event.
   */
  function Run(cfg: Config, render: int -> string, s: State, events: seq<Event>): (r: State)
    ensures s.phase != Running ==> r == s
    ensures s.log <= r.log && |r.log| <= |s.log| + |events|
    decreases |events|
  {
    if events == [] then s else Run(cfg, render, Step(cfg, render, s, events[0]), events[1..])
  }

  /** The stored reading is the sentinel or the reading of one successful exchange, stamped consistently. */
  ghost predicate Consistent(r: Reading, render: int -> string) {
    r == Reset() || r.datetime == render(r.timestamp)
  }

  lemma StepConsistent(cfg: Config, render: int -> string, s: State, e: Event)
    requires Consistent(s.stored, render)
    ensures Consistent(Step(cfg, render, s, e).stored, render)
  {
  }

  lemma {:induction false} RunConsistent(cfg: Config, render: int -> string, s: State, events: seq<Event>)
    requires Consistent(s.stored, render)
    ensures Consistent(Run(cfg, render, s, events).stored, render)
    decreases |events|
  {
    if events != [] {
      StepConsistent(cfg, render, s, events[0]);
      RunConsistent(cfg, render, Step(cfg, render, s, events[0]), events[1..]);
    }
  }

  /**
    A successful exchange never writes: the gate compares the clock with the
    timestamp the exchange has just set. It also clears the counter and issues no reboot.
   */
  lemma SuccessNeverWrites(cfg: Config, render: int -> string, s: State, fields: RawReading, art: Artifact, now: int)
    requires s.phase == Running && cfg.freq >= 0
    ensures var r := Step(cfg, render, s, Cycle(Answered(0, fields), art, now));
      && r.log == s.log && r.count == 0 && r.reboots == s.reboots && r.phase == Running
      && r.stored == Stamp(fields, CameraLight(art, now), now, render)
  {
  }

  /**
    A failed parse keeps the stored reading and writes it again whenever the gate
    is open; since a write does not move the timestamp, every such cycle writes.
   */
  lemma FailureWritesStored(cfg: Config, render: int -> string, s: State, status: int, fields: RawReading, art: Artifact, now: int)
    requires s.phase == Running && status != 0
    ensures var r := Step(cfg, render, s, Cycle(Answered(status, fields), art, now));
      && r.stored == s.stored && r.count == s.count + 1 && r.phase == Running
      && r.log == (if cfg.hasLogfile && now > s.stored.timestamp + cfg.freq
                   then s.log + [Line(s.stored)] else s.log)
  {
  }

  /**
    The sentinel's timestamp 0 is what opens the gate at start-up: a first cycle
    whose answer fails to parse logs the sentinel line once the clock is past
    `freq`, and nothing before.
   */
  lemma StartupFailureLogsSentinel(cfg: Config, render: int -> string, status: int, fields: RawReading,
                                   art: Artifact, now: int)
    requires cfg.hasLogfile && status != 0
    ensures var r := Step(cfg, render, State(Reset(), 0, 0, [], Running), Cycle(Answered(status, fields), art, now));
      r.log == (if now > cfg.freq then ["\t0\t0\t0\t0\t0\t0\n"] else [])
  {
    FailureWritesStored(cfg, render, State(Reset(), 0, 0, [], Running), status, fields, art, now);
  }

  /**
    Once the stored reading is older than the throttle, two failed cycles one
    second apart both write it: the throttle does not space the log lines.
   */
  lemma FailuresWriteBackToBack(cfg: Config, render: int -> string, s: State, e1: Event, e2: Event)
    requires s.phase == Running && cfg.hasLogfile
    requires e1.Cycle? && e1.poll.Answered? && e1.poll.status != 0
    requires e2.Cycle? && e2.poll.Answered? && e2.poll.status != 0
    requires e2.now == e1.now + 1 && e1.now > s.stored.timestamp + cfg.freq
    ensures Run(cfg, render, s, [e1, e2]).log == s.log + [Line(s.stored), Line(s.stored)]
  {
    assert e1 == Cycle(Answered(e1.poll.status, e1.poll.fields), e1.artifact, e1.now);
    assert e2 == Cycle(Answered(e2.poll.status, e2.poll.fields), e2.artifact, e2.now);
    var s1 := Step(cfg, render, s, e1);
    FailureWritesStored(cfg, render, s, e1.poll.status, e1.poll.fields, e1.artifact, e1.now);
    var s2 := Step(cfg, render, s1, e2);
    FailureWritesStored(cfg, render, s1, e2.poll.status, e2.poll.fields, e2.artifact, e2.now);
    assert [e1, e2][0] == e1 && [e1, e2][1..] == [e2];
    assert [e2][0] == e2 && [e2][1..] == [];
    assert Run(cfg, render, s2, []) == s2;
    assert Run(cfg, render, s1, [e2]) == s2;
    assert Run(cfg, render, s, [e1, e2]) == s2;
  }

  /** A transport failure raises out of `run`: nothing is counted and nothing is written. */
  lemma TransportFailureCrashes(cfg: Config, render: int -> string, s: State, art: Artifact, now: int, rest: seq<Event>)
    requires s.phase == Running
    ensures Run(cfg, render, s, [Cycle(TransportFailure, art, now)] + rest) == s.(phase := Crashed)
  {
    var s' := Step(cfg, render, s, Cycle(TransportFailure, art, now));
    assert s' == s.(phase := Crashed);
    assert ([Cycle(TransportFailure, art, now)] + rest)[1..] == rest;
  }

  /** Every event is a cycle whose answer failed to parse. */
  predicate AllParseFailures(events: seq<Event>) {
    forall i :: 0 <= i < |events| ==>
      events[i].Cycle? && events[i].poll.Answered? && events[i].poll.status != 0
  }

  /**
    A streak of `n` parse failures adds `n` to the counter, keeps the stored reading,
    and issues a reboot only if the streak carries the counter across `MaxCount`:
    exactly one reboot, however long the streak.
   */
  lemma {:induction false} FailureStreak(cfg: Config, render: int -> string, s: State, events: seq<Event>)
    requires s.phase == Running && AllParseFailures(events)
    ensures var r := Run(cfg, render, s, events);
      && r.phase == Running && r.stored == s.stored
      && r.count == s.count + |events|
      && r.reboots == s.reboots + (if s.count < MaxCount <= s.count + |events| then 1 else 0)
    decreases |events|
  {
    if events != [] {
      var e := events[0];
      var s' := Step(cfg, render, s, e);
      assert s'.count == s.count + 1 && s'.stored == s.stored && s'.phase == Running;
      assert s'.reboots == s.reboots + (if s.count + 1 == MaxCount then 1 else 0);
      assert AllParseFailures(events[1..]) by {
        forall i | 0 <= i < |events[1..]|
          ensures events[1..][i].Cycle? && events[1..][i].poll.Answered? && events[1..][i].poll.status != 0
        {
          assert events[1..][i] == events[i + 1];
        }
      }
      FailureStreak(cfg, render, s', events[1..]);
    }
  }

  /** From start-up, three or more parse failures reboot exactly once; fewer reboot never. */
  lemma RebootOnceFromStart(cfg: Config, render: int -> string, events: seq<Event>)
    requires AllParseFailures(events)
    ensures var r := Run(cfg, render, State(Reset(), 0, 0, [], Running), events);
      && r.reboots == (if |events| >= MaxCount then 1 else 0)
      && r.stored == Reset()
  {
    FailureStreak(cfg, render, State(Reset(), 0, 0, [], Running), events);
  }
}
