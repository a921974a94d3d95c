/**
 * The acquisition loop of `main`: wait for the hour or half hour, then
 * create a log file, write one line per framed record while less than
 * 1800 seconds have passed since the file was created, and start a new file
 * after the interval or after a decode error.
 *
 * The clock is modelled as the sequence of readings the program takes, in
 * the order it takes them, and the port as the sequence of its reads. The
 * model runs until one of the two runs out, which is where the program
 * would still be running.
 */
module Acquisition {
  import opened Basics
  import opened Instruments
  import opened Framing
  import opened Headers
  import opened Schedule

  /** `fileInterval`: seconds of data per file. */
  const FileInterval: int := 1800

  /**
   * One reading of the computer's clock: `time.time()` in whole seconds,
   * the local time as `datetime.now()` gives it, and the date and time
   * halves of `str(datetime.now())`.
   */
  datatype Tick = Tick(seconds: int, local: Clock, date: string, time: string)

  /** Everything the loop reads: the port (after `open_port`) and the clock. */
  datatype Env = Env(port: seq<Read>, ticks: seq<Tick>)

  /** What `main` fixes before the loop: directory, instrument, UHSAS heading, POPS bin edges. */
  datatype Config = Config(dir: string, inst: Instrument, heading: Option<string>, edge: nat -> string)

  /** Why a file was started: the trigger, the end of the interval, or a decode error. */
  datatype Cause = Triggered | Rotation | AfterError

  /**
   * One record written by `read_data`: the index it was written with, the
   * clock reading of the interval check before it, the date and time taken
   * after it was framed, and its text.
   */
  datatype Entry = Entry(index: nat, checkedAt: int, date: string, time: string, raw: string)

  /**
   * One file made by `create_logging_file`: its path and header, the
   * position of the clock reading taken when it was made, `starttime`, why
   * it was made, and the records written into it.
   */
  datatype Session = Session(path: string, header: string, madeAt: nat, start: int, cause: Cause, entries: seq<Entry>)

  /**
   * Where a run ends: the port or the clock readings ran out (the program
   * would go on), a write to a file that was never created failed, or the
   * error handler itself raised.
   */
  datatype Stop = PortEnd | ClockEnd | WriteFailed | HandlerCrash

  /** The point of `main` the program is at. */
  datatype Phase = Wait | Create(cause: Cause) | Check | Read(checkedAt: int) | Stopped(why: Stop)

  /** The decode-error handler of the source as written, and as evidently intended. */
  datatype Handler = Intended | AsWritten

  /**
   * The state of `main`: phase, cursors into the port and the clock,
   * `file_name`, the files made so far, `dataIndex`, `starttime`, and the
   * bytes of the decode errors sent to the error log.
   */
  datatype Machine = Machine(phase: Phase, pp: nat, tp: nat, fileName: Option<string>,
                             files: seq<Session>, index: nat, start: int, errors: seq<byte>)

  function Last(files: seq<Session>): Session
    requires |files| >= 1
  {
    files[|files| - 1]
  }

  /** `files` with `e` appended to the newest file. */
  function AppendEntry(files: seq<Session>, e: Entry): (r: seq<Session>)
    requires |files| >= 1
    ensures |r| == |files| && r[..|r| - 1] == files[..|files| - 1]
    ensures Last(r) == Last(files).(entries := Last(files).entries + [e])
    ensures forall i :: 0 <= i < |files| - 1 ==> r[i] == files[i]
  {
    files[..|files| - 1] + [Last(files).(entries := Last(files).entries + [e])]
  }

  /** Cursors in range, and `file_name` names the newest file when it is set. */
  predicate Wf(env: Env, m: Machine)
  {
    m.pp <= |env.port| && m.tp <= |env.ticks| &&
    (m.fileName.Some? ==> |m.files| >= 1 && Last(m.files).path == m.fileName.value)
  }

  predicate Trig(t: Tick)
  {
    StartTrigger(t.local.minute, t.local.second)
  }

  // ----- one step of `main` -----

  /** One pass of the waiting loop: read the clock, start on the trigger, else count down. */
  function WaitStep(env: Env, m: Machine): Machine
    requires m.tp <= |env.ticks|
  {
    if m.tp == |env.ticks| then m.(phase := Stopped(ClockEnd))
    else if Trig(env.ticks[m.tp]) then m.(phase := Create(Triggered), tp := m.tp + 1)
    else m.(tp := m.tp + 1)
  }

  /** `create_logging_file`, `starttime = time.time()` and `dataIndex = 0`, from one clock reading. */
  function CreateStep(cfg: Config, env: Env, m: Machine, cause: Cause): Machine
    requires m.tp <= |env.ticks|
  {
    if m.tp == |env.ticks| then m.(phase := Stopped(ClockEnd))
    else
      var t := env.ticks[m.tp];
      match CreateLoggingFile(cfg.dir, cfg.inst, cfg.heading, cfg.edge, t.local)
      case None =>
        m.(phase := Check, tp := m.tp + 1, fileName := None, index := 0, start := t.seconds)
      case Some(f) =>
        m.(phase := Check, tp := m.tp + 1, fileName := Some(f.path),
           files := m.files + [Session(f.path, f.header, m.tp, t.seconds, cause, [])],
           index := 0, start := t.seconds)
  }

  /** The inner loop's test `time.time() - starttime < fileInterval`. */
  function CheckStep(env: Env, m: Machine): Machine
    requires m.tp <= |env.ticks|
  {
    if m.tp == |env.ticks| then m.(phase := Stopped(ClockEnd))
    else
      var t := env.ticks[m.tp];
      if t.seconds - m.start < FileInterval then m.(phase := Read(t.seconds), tp := m.tp + 1)
      else m.(phase := Create(Rotation), tp := m.tp + 1)
  }

  /**
   * `read_data` and `dataIndex += 1`, with the decode-error handler: under
   * the intended handler the error is logged and a new file follows; as
   * written, the handler raises and the program ends.
   */
  function ReadStep(cfg: Config, env: Env, h: Handler, m: Machine, checkedAt: int): Machine
    requires Wf(env, m)
  {
    var f := Frame(env.port, m.pp, cfg.inst);
    match f.outcome
    case Pending => m.(phase := Stopped(PortEnd), pp := f.next)
    case Got(DecodeError(b)) =>
      if h == Intended then m.(phase := Create(AfterError), pp := f.next, errors := m.errors + [b])
      else m.(phase := Stopped(HandlerCrash), pp := f.next)
    case Got(Record(text)) =>
      if m.tp == |env.ticks| then m.(phase := Stopped(ClockEnd), pp := f.next)
      else if m.fileName.None? then m.(phase := Stopped(WriteFailed), pp := f.next, tp := m.tp + 1)
      else
        var t := env.ticks[m.tp];
        m.(phase := Check, pp := f.next, tp := m.tp + 1,
           files := AppendEntry(m.files, Entry(m.index, checkedAt, t.date, t.time, text)),
           index := m.index + 1)
  }

  /** One step of `main`. Every step that does not stop consumes a clock reading or port input. */
  function Step(cfg: Config, env: Env, h: Handler, m: Machine): (r: Machine)
    requires Wf(env, m) && !m.phase.Stopped?
    ensures Wf(env, r)
    ensures m.tp <= r.tp && m.pp <= r.pp
    ensures !r.phase.Stopped? ==> m.tp < r.tp || m.pp < r.pp
  {
    match m.phase
    case Wait => WaitStep(env, m)
    case Create(cause) => CreateStep(cfg, env, m, cause)
    case Check => CheckStep(env, m)
    case Read(checkedAt) => ReadStep(cfg, env, h, m, checkedAt)
  }

  /** `main` from state `m` until the modelled input runs out or the program stops. */
  function Loop(cfg: Config, env: Env, h: Handler, m: Machine): (r: Machine)
    requires Wf(env, m) && !m.phase.Stopped?
    ensures r.phase.Stopped?
    decreases |env.ticks| - m.tp, |env.port| - m.pp
  {
    var n := Step(cfg, env, h, m);
    if n.phase.Stopped? then n else Loop(cfg, env, h, n)
  }

  /** The end state reached from `m`: `m` itself once stopped. */
  function Finish(cfg: Config, env: Env, h: Handler, m: Machine): (r: Machine)
    requires Wf(env, m)
    ensures r.phase.Stopped?
  {
    if m.phase.Stopped? then m else Loop(cfg, env, h, m)
  }

  /** A step changes the state but not where the run ends. */
  lemma FinishStep(cfg: Config, env: Env, h: Handler, m: Machine)
    requires Wf(env, m) && !m.phase.Stopped?
    ensures Finish(cfg, env, h, Step(cfg, env, h, m)) == Finish(cfg, env, h, m)
  {
  }

  const Initial := Machine(Wait, 0, 0, None, [], 0, 0, [])

  /** The acquisition loop from program start, with the given decode-error handler. */
  function Run(cfg: Config, env: Env, h: Handler): (r: Machine)
    ensures r.phase.Stopped?
  {
    Loop(cfg, env, h, Initial)
  }

  /**
   * `main`: identify the instrument named by `args.instrument`, probe the
   * UHSAS heading first when it is the UHSAS (a failed probe ends the
   * program), then run the acquisition loop.
   */
  function Main(dir: string, instrument: string, probe: seq<Read>, edge: nat -> string, env: Env)
    : (r: Result<Machine, ProbeError>)
    ensures r.Err? <==> instrument == "uhsas" && Probe(probe, Uhsas).Err?
    ensures r.Ok? ==> r.value.phase.Stopped?
  {
    var inst := Identify(instrument);
    if inst == Uhsas then
      match Probe(probe, inst)
      case Err(e) => Err(e)
      case Ok(heading) => Ok(Run(Config(dir, inst, Some(heading), edge), env, Intended))
    else Ok(Run(Config(dir, inst, None, edge), env, Intended))
  }

  /** `main`: the header probe, the waiting loop, then the recording loops. */
  method Logger(dir: string, instrument: string, probe: seq<Read>, edge: nat -> string, env: Env)
    returns (r: Result<Machine, ProbeError>)
    ensures r == Main(dir, instrument, probe, edge, env)
  {
    var inst := Identify(instrument);
    var header: Option<string> := None;
    if inst == Uhsas {
      var probed := DefineHeader(probe, inst);
      if probed.Err? {
        return Err(probed.error);
      }
      header := Some(probed.value);
    }
    var cfg := Config(dir, inst, header, edge);
    var m := Await(cfg, env);
    if !m.phase.Stopped? {
      m := Acquire(cfg, env, m);
    }
    r := Ok(m);
  }

  /** The waiting loop of `main`: read the clock until the trigger fires. */
  method Await(cfg: Config, env: Env) returns (m: Machine)
    ensures Wf(env, m) && (m.phase.Stopped? || m.phase == Create(Triggered))
    ensures Finish(cfg, env, Intended, m) == Run(cfg, env, Intended)
  {
    var tp := 0;
    while true
      invariant tp <= |env.ticks|
      invariant Finish(cfg, env, Intended, Machine(Wait, 0, tp, None, [], 0, 0, [])) == Run(cfg, env, Intended)
      decreases |env.ticks| - tp
    {
      ghost var before := Machine(Wait, 0, tp, None, [], 0, 0, []);
      FinishStep(cfg, env, Intended, before);
      if tp == |env.ticks| {
        return Machine(Stopped(ClockEnd), 0, tp, None, [], 0, 0, []);
      }
      var localTime := env.ticks[tp];
      tp := tp + 1;
      if Trig(localTime) {
        return Machine(Create(Triggered), 0, tp, None, [], 0, 0, []);
      }
    }
  }

  /**
   * The recording loops of `main` from the trigger on: make a file, then
   * log records while the interval lasts; a decode error is logged and
   * starts the next file, as evidently intended.
   */
  method Acquire(cfg: Config, env: Env, m0: Machine) returns (m: Machine)
    requires Wf(env, m0) && m0.phase.Create?
    ensures m == Finish(cfg, env, Intended, m0)
  {
    m := m0;
    while true
      invariant Wf(env, m) && m.phase.Create?
      invariant Finish(cfg, env, Intended, m) == Finish(cfg, env, Intended, m0)
      decreases |env.ticks| - m.tp
    {
      FinishStep(cfg, env, Intended, m);
      if m.tp == |env.ticks| {
        return m.(phase := Stopped(ClockEnd));
      }
      var now := env.ticks[m.tp];
      var created := CreateLoggingFile(cfg.dir, cfg.inst, cfg.heading, cfg.edge, now.local);
      var fileName: Option<string> := None;
      var files := m.files;
      if created.Some? {
        files := files + [Session(created.value.path, created.value.header, m.tp, now.seconds, m.phase.cause, [])];
        fileName := Some(created.value.path);
      }
      var starttime := now.seconds;
      var dataIndex := 0;
      m := Interval(cfg, env, m.(phase := Check, tp := m.tp + 1, fileName := fileName, files := files,
                                 index := dataIndex, start := starttime));
      if m.phase.Stopped? {
        return;
      }
    }
  }

  /**
   * The interval loop: while `time.time() - starttime < fileInterval`, call
   * `read_data` and count the record. It ends by stopping or by asking for
   * a new file.
   */
  method Interval(cfg: Config, env: Env, m0: Machine) returns (m: Machine)
    requires Wf(env, m0) && m0.phase == Check
    ensures Wf(env, m) && (m.phase.Stopped? || m.phase.Create?)
    ensures m.phase.Create? ==> m0.tp < m.tp
    ensures Finish(cfg, env, Intended, m) == Finish(cfg, env, Intended, m0)
  {
    m := m0;
    while true
      invariant Wf(env, m) && m.phase == Check && m0.tp <= m.tp
      invariant Finish(cfg, env, Intended, m) == Finish(cfg, env, Intended, m0)
      decreases |env.ticks| - m.tp
    {
      FinishStep(cfg, env, Intended, m);
      if m.tp == |env.ticks| {
        return m.(phase := Stopped(ClockEnd));
      }
      var checkedAt := env.ticks[m.tp].seconds;
      if !(checkedAt - m.start < FileInterval) {
        return m.(phase := Create(Rotation), tp := m.tp + 1);
      }
      var reading := m.(phase := Read(checkedAt), tp := m.tp + 1);
      FinishStep(cfg, env, Intended, reading);
      m := ReadData(cfg, env, reading);
      if !m.phase.Check? {
        return;
      }
    }
  }

  /** `read_data`, then `dataIndex += 1`, with the decode-error handler around it. */
  method ReadData(cfg: Config, env: Env, m0: Machine) returns (m: Machine)
    requires Wf(env, m0) && m0.phase.Read?
    ensures m == Step(cfg, env, Intended, m0)
  {
    var framing := SerialRead(env.port, m0.pp, cfg.inst);
    m := m0.(pp := framing.next);
    if framing.outcome.Pending? {
      return m.(phase := Stopped(PortEnd));
    }
    if framing.outcome.framed.DecodeError? {
      return m.(phase := Create(AfterError), errors := m0.errors + [framing.outcome.framed.bad]);
    }
    var dataString := framing.outcome.framed.text;
    if m0.tp == |env.ticks| {
      return m.(phase := Stopped(ClockEnd));
    }
    var rightNow := env.ticks[m0.tp];
    m := m.(tp := m0.tp + 1);
    if m0.fileName.None? {
      return m.(phase := Stopped(WriteFailed));
    }
    var entry := Entry(m0.index, m0.phase.checkedAt, rightNow.date, rightNow.time, dataString);
    m := m.(phase := Check, files := AppendEntry(m0.files, entry), index := m0.index + 1);
  }
}
