/**
 * What the acquisition loop guarantees about the files it writes, proved
 * from an invariant that every step of `main` preserves.
 */
module Guarantees {
  import opened Basics
  import opened Instruments
  import opened Framing
  import opened Headers
  import opened Acquisition
  import opened Records
  import opened Text

  // ----- views of the state -----

  /** The record texts of a file's entries, in order. */
  function Raws(es: seq<Entry>): seq<string>
  {
    if |es| == 0 then [] else Raws(es[..|es| - 1]) + [es[|es| - 1].raw]
  }

  /** The record texts of all files, file after file. */
  function AllRaws(files: seq<Session>): seq<string>
  {
    if |files| == 0 then [] else AllRaws(files[..|files| - 1]) + Raws(Last(files).entries)
  }

  /** Entry `k` of a file was written with `dataIndex == k`. */
  predicate Numbered(s: Session)
  {
    forall k :: 0 <= k < |s.entries| ==> s.entries[k].index == k
  }

  /** Every entry was written after a check that found the interval still running. */
  predicate Timely(s: Session)
  {
    forall k :: 0 <= k < |s.entries| ==> s.entries[k].checkedAt - s.start < FileInterval
  }

  /** The file was made at its own clock reading, which gave `starttime`. */
  predicate Made(env: Env, s: Session)
  {
    s.madeAt < |env.ticks| && s.start == env.ticks[s.madeAt].seconds
  }

  /** Each file is named after the clock reading at which it was made. */
  predicate Named(cfg: Config, env: Env, files: seq<Session>)
  {
    forall i :: 0 <= i < |files| ==>
      files[i].madeAt < |env.ticks| && files[i].path == FilePath(cfg.dir, cfg.inst, env.ticks[files[i].madeAt].local)
  }

  predicate NoTriggerBefore(env: Env, n: nat)
    requires n <= |env.ticks|
  {
    forall j :: 0 <= j < n ==> !Trig(env.ticks[j])
  }

  /** Reading `n - 1` is the first reading on which the trigger fires. */
  predicate FirstTriggerAt(env: Env, n: nat)
  {
    1 <= n <= |env.ticks| && Trig(env.ticks[n - 1]) && NoTriggerBefore(env, n - 1)
  }

  /** The configuration lets `create_logging_file` make a file. */
  predicate CanCreate(cfg: Config)
  {
    Recognised(cfg.inst) && (cfg.inst == Uhsas ==> cfg.heading.Some?)
  }

  /** No file was started because of a decode error. */
  predicate NoAfterError(files: seq<Session>)
  {
    forall i :: 0 <= i < |files| ==> files[i].cause != AfterError
  }

  // ----- the invariant -----

  /** What holds of each file: numbered entries, timely entries, made at its reading, the instrument's header. */
  predicate FileOk(cfg: Config, env: Env, s: Session)
  {
    Numbered(s) && Timely(s) && Made(env, s) && Some(s.header) == HeaderFor(cfg.inst, cfg.heading, cfg.edge)
  }

  predicate FilesOk(cfg: Config, env: Env, files: seq<Session>)
  {
    (forall i :: 0 <= i < |files| ==> FileOk(cfg, env, files[i])) &&
    (forall i :: 0 < i < |files| ==> files[i - 1].madeAt < files[i].madeAt)
  }

  /** Why each file was started. */
  predicate CausesOk(env: Env, files: seq<Session>)
  {
    (|files| >= 1 ==> files[0].cause == Triggered && FirstTriggerAt(env, files[0].madeAt)) &&
    (forall i :: 0 < i < |files| ==> files[i].cause != Triggered) &&
    (forall i :: 0 < i < |files| && files[i].cause == Rotation ==>
      1 <= files[i].madeAt <= |env.ticks| &&
      env.ticks[files[i].madeAt - 1].seconds - files[i - 1].start >= FileInterval)
  }

  /** The state of the file being written, and what each phase knows about it. */
  predicate CurrentOk(cfg: Config, env: Env, m: Machine)
    requires Wf(env, m)
  {
    (m.fileName.Some? <==> |m.files| >= 1) &&
    (|m.files| >= 1 ==> CanCreate(cfg) && Last(m.files).madeAt < m.tp && m.start == Last(m.files).start) &&
    (CanCreate(cfg) && (m.phase.Check? || m.phase.Read? || m.phase == Create(AfterError) || m.phase == Create(Rotation)) ==>
      |m.files| >= 1) &&
    ((m.phase.Check? || m.phase.Read?) && |m.files| >= 1 ==> m.index == |Last(m.files).entries|) &&
    (m.phase.Read? ==> m.phase.checkedAt - m.start < FileInterval) &&
    (m.phase == Create(Rotation) ==> 1 <= m.tp && env.ticks[m.tp - 1].seconds - m.start >= FileInterval)
  }

  /** Before the first file: nothing has been read from the port and the trigger has not fired earlier. */
  predicate WaitOk(env: Env, m: Machine)
  {
    (m.phase.Wait? ==> m.files == [] && m.pp == 0 && m.tp <= |env.ticks| && NoTriggerBefore(env, m.tp)) &&
    (m.phase == Create(Triggered) ==> m.files == [] && m.pp == 0 && FirstTriggerAt(env, m.tp))
  }

  /** The records and decode errors framed before `pp` are in the files and in the error log, in order. */
  predicate Kept(cfg: Config, env: Env, files: seq<Session>, pp: nat, errors: seq<byte>)
    requires pp <= |env.port|
  {
    RecordTexts(Scan(env.port, 0, cfg.inst)) == AllRaws(files) + RecordTexts(Scan(env.port, pp, cfg.inst)) &&
    BadBytes(Scan(env.port, 0, cfg.inst)) == errors + BadBytes(Scan(env.port, pp, cfg.inst))
  }

  predicate KeptOk(cfg: Config, env: Env, m: Machine)
    requires Wf(env, m)
  {
    (m.phase == Stopped(PortEnd) ==> m.pp == |env.port|) &&
    (!m.phase.Stopped? || m.phase.why == PortEnd ==> Kept(cfg, env, m.files, m.pp, m.errors))
  }

  /** The handler as written never logs an error and never starts a file after one. */
  predicate HandlerOk(h: Handler, m: Machine)
  {
    h == AsWritten ==> m.errors == [] && m.phase != Create(AfterError) && NoAfterError(m.files)
  }

  predicate Inv(cfg: Config, env: Env, h: Handler, m: Machine)
  {
    Wf(env, m) && FilesOk(cfg, env, m.files) && CausesOk(env, m.files) && CurrentOk(cfg, env, m) &&
    WaitOk(env, m) && KeptOk(cfg, env, m) && HandlerOk(h, m)
  }

  // ----- small facts -----

  lemma RawsSnoc(es: seq<Entry>, e: Entry)
    ensures Raws(es + [e]) == Raws(es) + [e.raw]
  {
    assert (es + [e])[..|es|] == es;
  }

  lemma AllRawsNewFile(files: seq<Session>, s: Session)
    requires s.entries == []
    ensures AllRaws(files + [s]) == AllRaws(files)
  {
    assert (files + [s])[..|files|] == files;
  }

  lemma AllRawsAppend(files: seq<Session>, e: Entry)
    requires |files| >= 1
    ensures AllRaws(AppendEntry(files, e)) == AllRaws(files) + [e.raw]
  {
    var r := AppendEntry(files, e);
    RawsSnoc(Last(files).entries, e);
    assert r[..|r| - 1] == files[..|files| - 1];
  }

  lemma ScanGot(port: seq<Read>, pos: nat, inst: Instrument)
    requires pos <= |port| && Frame(port, pos, inst).outcome.Got?
    ensures var f := Frame(port, pos, inst);
      RecordTexts(Scan(port, pos, inst)) ==
        (if f.outcome.framed.Record? then [f.outcome.framed.text] else []) + RecordTexts(Scan(port, f.next, inst))
    ensures var f := Frame(port, pos, inst);
      BadBytes(Scan(port, pos, inst)) ==
        (if f.outcome.framed.DecodeError? then [f.outcome.framed.bad] else []) + BadBytes(Scan(port, f.next, inst))
  {
    var f := Frame(port, pos, inst);
    var s := Scan(port, pos, inst);
    assert s == [f.outcome.framed] + Scan(port, f.next, inst);
    assert s[1..] == Scan(port, f.next, inst);
  }

  lemma ScanPending(port: seq<Read>, pos: nat, inst: Instrument)
    requires pos <= |port| && Frame(port, pos, inst).outcome.Pending?
    ensures Scan(port, pos, inst) == [] && Scan(port, |port|, inst) == []
  {
    assert Frame(port, |port|, inst).outcome.Pending?;
  }

  /** A frame that reaches the end of the port keeps the accounting, with nothing left to frame. */
  lemma KeptPending(cfg: Config, env: Env, files: seq<Session>, pp: nat, errors: seq<byte>)
    requires pp <= |env.port| && Kept(cfg, env, files, pp, errors) && Frame(env.port, pp, cfg.inst).outcome.Pending?
    ensures Kept(cfg, env, files, |env.port|, errors)
  {
    ScanPending(env.port, pp, cfg.inst);
  }

  /** A decode error goes to the error log. */
  lemma KeptError(cfg: Config, env: Env, files: seq<Session>, pp: nat, errors: seq<byte>, b: byte)
    requires pp <= |env.port| && Kept(cfg, env, files, pp, errors)
    requires Frame(env.port, pp, cfg.inst).outcome == Got(DecodeError(b))
    ensures Kept(cfg, env, files, Frame(env.port, pp, cfg.inst).next, errors + [b])
  {
    ScanGot(env.port, pp, cfg.inst);
  }

  /** A record goes to the newest file. */
  lemma KeptRecord(cfg: Config, env: Env, files: seq<Session>, pp: nat, errors: seq<byte>, e: Entry)
    requires pp <= |env.port| && Kept(cfg, env, files, pp, errors) && |files| >= 1
    requires Frame(env.port, pp, cfg.inst).outcome == Got(Record(e.raw))
    ensures Kept(cfg, env, AppendEntry(files, e), Frame(env.port, pp, cfg.inst).next, errors)
  {
    var next := Frame(env.port, pp, cfg.inst).next;
    var rest := RecordTexts(Scan(env.port, next, cfg.inst));
    calc {
      RecordTexts(Scan(env.port, 0, cfg.inst));
      AllRaws(files) + RecordTexts(Scan(env.port, pp, cfg.inst));
      { ScanGot(env.port, pp, cfg.inst); }
      AllRaws(files) + ([e.raw] + rest);
      (AllRaws(files) + [e.raw]) + rest;
      { AllRawsAppend(files, e); }
      AllRaws(AppendEntry(files, e)) + rest;
    }
    assert BadBytes(Scan(env.port, pp, cfg.inst)) == BadBytes(Scan(env.port, next, cfg.inst)) by {
      ScanGot(env.port, pp, cfg.inst);
    }
  }

  /** A new empty file changes nothing in the accounting. */
  lemma KeptNewFile(cfg: Config, env: Env, files: seq<Session>, pp: nat, errors: seq<byte>, s: Session)
    requires pp <= |env.port| && Kept(cfg, env, files, pp, errors) && s.entries == []
    ensures Kept(cfg, env, files + [s], pp, errors)
  {
    AllRawsNewFile(files, s);
  }

  /** Appending a file made at reading `m.tp` keeps the per-file facts. */
  lemma FilesOkNewFile(cfg: Config, env: Env, files: seq<Session>, s: Session)
    requires FilesOk(cfg, env, files) && FileOk(cfg, env, s)
    requires |files| >= 1 ==> Last(files).madeAt < s.madeAt
    ensures FilesOk(cfg, env, files + [s])
  {
    var r := files + [s];
    forall i | 0 <= i < |r| ensures FileOk(cfg, env, r[i]) {
      if i < |files| {
        assert r[i] == files[i];
      }
    }
    forall i | 0 < i < |r| ensures r[i - 1].madeAt < r[i].madeAt {
      assert r[i - 1] == files[i - 1];
      if i < |files| {
        assert r[i] == files[i];
      }
    }
  }

  /** The file `create_logging_file` makes at a reading is made at that reading, with the instrument's header. */
  lemma FileOkMade(cfg: Config, env: Env, tp: nat, cause: Cause)
    requires tp < |env.ticks|
    requires CreateLoggingFile(cfg.dir, cfg.inst, cfg.heading, cfg.edge, env.ticks[tp].local).Some?
    ensures var f := CreateLoggingFile(cfg.dir, cfg.inst, cfg.heading, cfg.edge, env.ticks[tp].local).value;
      FileOk(cfg, env, Session(f.path, f.header, tp, env.ticks[tp].seconds, cause, []))
  {
  }

  /** Writing an entry with the next index while the interval lasts keeps the per-file facts. */
  lemma FilesOkAppend(cfg: Config, env: Env, files: seq<Session>, e: Entry)
    requires |files| >= 1 && FilesOk(cfg, env, files)
    requires e.index == |Last(files).entries| && e.checkedAt - Last(files).start < FileInterval
    ensures FilesOk(cfg, env, AppendEntry(files, e))
  {
    var r := AppendEntry(files, e);
    var last := Last(files);
    assert FileOk(cfg, env, Last(r)) by {
      assert Last(r) == last.(entries := last.entries + [e]);
      forall k | 0 <= k < |Last(r).entries|
        ensures Last(r).entries[k].index == k && Last(r).entries[k].checkedAt - Last(r).start < FileInterval
      {
        if k < |last.entries| {
          assert Last(r).entries[k] == last.entries[k];
        }
      }
    }
    forall i | 0 < i < |r| ensures r[i - 1].madeAt < r[i].madeAt {
      assert r[i - 1] == files[i - 1];
      if i < |r| - 1 {
        assert r[i] == files[i];
      }
    }
  }

  /** Writing an entry changes no file's cause, start or reading. */
  lemma CausesAppend(env: Env, files: seq<Session>, e: Entry)
    requires |files| >= 1 && CausesOk(env, files)
    ensures CausesOk(env, AppendEntry(files, e))
    ensures NoAfterError(files) ==> NoAfterError(AppendEntry(files, e))
  {
    var r := AppendEntry(files, e);
    forall i | 0 <= i < |r|
      ensures r[i].cause == files[i].cause && r[i].start == files[i].start && r[i].madeAt == files[i].madeAt
    {
      if i == |r| - 1 {
        assert r[i] == Last(r);
      }
    }
  }

  lemma CausesNewFile(env: Env, files: seq<Session>, s: Session)
    requires CausesOk(env, files)
    requires |files| == 0 ==> s.cause == Triggered && FirstTriggerAt(env, s.madeAt)
    requires |files| >= 1 ==> s.cause != Triggered
    requires |files| >= 1 && s.cause == Rotation ==>
      1 <= s.madeAt <= |env.ticks| && env.ticks[s.madeAt - 1].seconds - Last(files).start >= FileInterval
    ensures CausesOk(env, files + [s])
    ensures NoAfterError(files) && s.cause != AfterError ==> NoAfterError(files + [s])
  {
    var r := files + [s];
    assert forall i :: 0 <= i < |files| ==> r[i] == files[i];
  }

  /** Carries the invariant from the state a branch computes to the step function that computes it. */
  lemma InvEq(cfg: Config, env: Env, h: Handler, a: Machine, b: Machine)
    requires a == b
    ensures Inv(cfg, env, h, a) ==> Inv(cfg, env, h, b)
  {
  }

  // ----- each step keeps the invariant -----

  lemma WaitKeeps(cfg: Config, env: Env, h: Handler, m: Machine)
    requires Inv(cfg, env, h, m) && m.phase.Wait?
    ensures Inv(cfg, env, h, WaitStep(env, m))
  {
    var n := WaitStep(env, m);
    if m.tp < |env.ticks| && Trig(env.ticks[m.tp]) {
      assert NoTriggerBefore(env, n.tp - 1);
    } else if m.tp < |env.ticks| {
      assert NoTriggerBefore(env, n.tp);
    }
  }

  /** Stopping for any reason but the end of the port keeps the invariant. */
  lemma StopKeeps(cfg: Config, env: Env, h: Handler, m: Machine, why: Stop, pp: nat, tp: nat)
    requires !m.phase.Stopped? && why != PortEnd
    requires m.pp <= pp <= |env.port| && m.tp <= tp <= |env.ticks|
    ensures Inv(cfg, env, h, m) ==> Inv(cfg, env, h, m.(phase := Stopped(why), pp := pp, tp := tp))
  {
  }

  /** The clauses about the state, once a new file is the one being written. */
  lemma CreateMadeCurrent(cfg: Config, env: Env, h: Handler, m: Machine, s: Session)
    requires Wf(env, m) && m.tp < |env.ticks| && CanCreate(cfg) && s.madeAt == m.tp && s.entries == []
    requires HandlerOk(h, m) && (h == AsWritten ==> NoAfterError(m.files + [s]))
    requires Kept(cfg, env, m.files + [s], m.pp, m.errors)
    ensures var n := m.(phase := Check, tp := m.tp + 1, fileName := Some(s.path), files := m.files + [s],
                        index := 0, start := s.start);
      Wf(env, n) && CurrentOk(cfg, env, n) && WaitOk(env, n) && KeptOk(cfg, env, n) && HandlerOk(h, n)
  {
    assert Last(m.files + [s]) == s;
  }

  /** Why the new file is made: the first trigger, a full interval, or, as intended, a decode error. */
  lemma CreateMadeCauses(cfg: Config, env: Env, h: Handler, m: Machine, s: Session)
    requires Wf(env, m) && CausesOk(env, m.files) && CurrentOk(cfg, env, m) && WaitOk(env, m) && HandlerOk(h, m)
    requires m.phase == Create(s.cause) && CanCreate(cfg) && s.madeAt == m.tp
    ensures CausesOk(env, m.files + [s])
    ensures h == AsWritten ==> NoAfterError(m.files + [s])
  {
    CausesNewFile(env, m.files, s);
  }

  lemma CreateMadeKeeps(cfg: Config, env: Env, h: Handler, m: Machine, cause: Cause, s: Session)
    requires m.phase == Create(cause) && m.tp < |env.ticks| && CanCreate(cfg)
    requires FileOk(cfg, env, s) && s.madeAt == m.tp && s.start == env.ticks[m.tp].seconds && s.cause == cause
    requires s.entries == []
    ensures Inv(cfg, env, h, m) ==>
      Inv(cfg, env, h, m.(phase := Check, tp := m.tp + 1, fileName := Some(s.path), files := m.files + [s],
                          index := 0, start := s.start))
  {
    if Inv(cfg, env, h, m) {
      FilesOkNewFile(cfg, env, m.files, s);
      CreateMadeCauses(cfg, env, h, m, s);
      KeptNewFile(cfg, env, m.files, m.pp, m.errors, s);
      CreateMadeCurrent(cfg, env, h, m, s);
    }
  }

  lemma CreateMissingKeeps(cfg: Config, env: Env, h: Handler, m: Machine)
    requires m.phase.Create? && m.tp < |env.ticks| && !CanCreate(cfg)
    ensures Inv(cfg, env, h, m) ==>
      Inv(cfg, env, h, m.(phase := Check, tp := m.tp + 1, fileName := None, index := 0, start := env.ticks[m.tp].seconds))
  {
  }

  /** A step that makes a file keeps the invariant. */
  lemma CreateFileKeeps(cfg: Config, env: Env, h: Handler, m: Machine, cause: Cause)
    requires m.phase == Create(cause) && m.tp < |env.ticks|
    requires CreateLoggingFile(cfg.dir, cfg.inst, cfg.heading, cfg.edge, env.ticks[m.tp].local).Some?
    ensures Inv(cfg, env, h, m) ==> Inv(cfg, env, h, CreateStep(cfg, env, m, cause))
  {
    var t := env.ticks[m.tp];
    var f := CreateLoggingFile(cfg.dir, cfg.inst, cfg.heading, cfg.edge, t.local).value;
    var s := Session(f.path, f.header, m.tp, t.seconds, cause, []);
    FileOkMade(cfg, env, m.tp, cause);
    CreateMadeKeeps(cfg, env, h, m, cause, s);
    InvEq(cfg, env, h, m.(phase := Check, tp := m.tp + 1, fileName := Some(s.path), files := m.files + [s],
                          index := 0, start := s.start), CreateStep(cfg, env, m, cause));
  }

  lemma CreateKeeps(cfg: Config, env: Env, h: Handler, m: Machine, cause: Cause)
    requires Inv(cfg, env, h, m) && m.phase == Create(cause)
    ensures Inv(cfg, env, h, CreateStep(cfg, env, m, cause))
  {
    if m.tp == |env.ticks| {
      StopKeeps(cfg, env, h, m, ClockEnd, m.pp, m.tp);
      InvEq(cfg, env, h, m.(phase := Stopped(ClockEnd), pp := m.pp, tp := m.tp), CreateStep(cfg, env, m, cause));
    } else if CreateLoggingFile(cfg.dir, cfg.inst, cfg.heading, cfg.edge, env.ticks[m.tp].local).Some? {
      CreateFileKeeps(cfg, env, h, m, cause);
    } else {
      CreateMissingKeeps(cfg, env, h, m);
      InvEq(cfg, env, h, m.(phase := Check, tp := m.tp + 1, fileName := None, index := 0,
                            start := env.ticks[m.tp].seconds), CreateStep(cfg, env, m, cause));
    }
  }

  lemma CheckReadKeeps(cfg: Config, env: Env, h: Handler, m: Machine)
    requires m.phase.Check? && m.tp < |env.ticks|
    requires env.ticks[m.tp].seconds - m.start < FileInterval
    ensures Inv(cfg, env, h, m) ==> Inv(cfg, env, h, m.(phase := Read(env.ticks[m.tp].seconds), tp := m.tp + 1))
  {
  }

  lemma CheckRotateKeeps(cfg: Config, env: Env, h: Handler, m: Machine)
    requires m.phase.Check? && m.tp < |env.ticks|
    requires env.ticks[m.tp].seconds - m.start >= FileInterval
    ensures Inv(cfg, env, h, m) ==> Inv(cfg, env, h, m.(phase := Create(Rotation), tp := m.tp + 1))
  {
  }

  lemma CheckKeeps(cfg: Config, env: Env, h: Handler, m: Machine)
    requires Inv(cfg, env, h, m) && m.phase.Check?
    ensures Inv(cfg, env, h, CheckStep(env, m))
  {
    if m.tp == |env.ticks| {
      StopKeeps(cfg, env, h, m, ClockEnd, m.pp, m.tp);
      InvEq(cfg, env, h, m.(phase := Stopped(ClockEnd), pp := m.pp, tp := m.tp), CheckStep(env, m));
    } else if env.ticks[m.tp].seconds - m.start < FileInterval {
      CheckReadKeeps(cfg, env, h, m);
      InvEq(cfg, env, h, m.(phase := Read(env.ticks[m.tp].seconds), tp := m.tp + 1), CheckStep(env, m));
    } else {
      CheckRotateKeeps(cfg, env, h, m);
      InvEq(cfg, env, h, m.(phase := Create(Rotation), tp := m.tp + 1), CheckStep(env, m));
    }
  }

  lemma ReadPendingKeeps(cfg: Config, env: Env, h: Handler, m: Machine)
    requires m.phase.Read? && m.pp <= |env.port| && Frame(env.port, m.pp, cfg.inst).outcome.Pending?
    ensures Inv(cfg, env, h, m) ==> Inv(cfg, env, h, m.(phase := Stopped(PortEnd), pp := |env.port|))
  {
    if Inv(cfg, env, h, m) {
      KeptPending(cfg, env, m.files, m.pp, m.errors);
    }
  }

  lemma ReadErrorKeeps(cfg: Config, env: Env, m: Machine, b: byte)
    requires m.phase.Read? && m.pp <= |env.port|
    requires Frame(env.port, m.pp, cfg.inst).outcome == Got(DecodeError(b))
    ensures Inv(cfg, env, Intended, m) ==>
      Inv(cfg, env, Intended, m.(phase := Create(AfterError), pp := Frame(env.port, m.pp, cfg.inst).next,
                                 errors := m.errors + [b]))
  {
    if Inv(cfg, env, Intended, m) {
      KeptError(cfg, env, m.files, m.pp, m.errors, b);
    }
  }

  lemma ReadRecordKeeps(cfg: Config, env: Env, h: Handler, m: Machine, e: Entry)
    requires m.phase.Read? && m.pp <= |env.port| && m.tp < |env.ticks| && m.fileName.Some?
    requires Frame(env.port, m.pp, cfg.inst).outcome == Got(Record(e.raw))
    requires e.index == m.index && e.checkedAt == m.phase.checkedAt
    ensures Inv(cfg, env, h, m) ==>
      Inv(cfg, env, h, m.(phase := Check, pp := Frame(env.port, m.pp, cfg.inst).next, tp := m.tp + 1,
                          files := AppendEntry(m.files, e), index := m.index + 1))
  {
    if Inv(cfg, env, h, m) {
      KeptRecord(cfg, env, m.files, m.pp, m.errors, e);
      FilesOkAppend(cfg, env, m.files, e);
      CausesAppend(env, m.files, e);
    }
  }

  lemma ReadKeeps(cfg: Config, env: Env, h: Handler, m: Machine, checkedAt: int)
    requires Inv(cfg, env, h, m) && m.phase == Read(checkedAt)
    ensures Inv(cfg, env, h, ReadStep(cfg, env, h, m, checkedAt))
  {
    var f := Frame(env.port, m.pp, cfg.inst);
    var n := ReadStep(cfg, env, h, m, checkedAt);
    if f.outcome.Pending? {
      ReadPendingKeeps(cfg, env, h, m);
      InvEq(cfg, env, h, m.(phase := Stopped(PortEnd), pp := |env.port|), n);
    } else if f.outcome.framed.DecodeError? {
      if h == Intended {
        ReadErrorKeeps(cfg, env, m, f.outcome.framed.bad);
        InvEq(cfg, env, h, m.(phase := Create(AfterError), pp := f.next, errors := m.errors + [f.outcome.framed.bad]), n);
      } else {
        StopKeeps(cfg, env, h, m, HandlerCrash, f.next, m.tp);
        InvEq(cfg, env, h, m.(phase := Stopped(HandlerCrash), pp := f.next, tp := m.tp), n);
      }
    } else {
      ReadGotRecordKeeps(cfg, env, h, m, checkedAt);
    }
  }

  lemma ReadGotRecordKeeps(cfg: Config, env: Env, h: Handler, m: Machine, checkedAt: int)
    requires Inv(cfg, env, h, m) && m.phase == Read(checkedAt)
    requires Frame(env.port, m.pp, cfg.inst).outcome.Got? && Frame(env.port, m.pp, cfg.inst).outcome.framed.Record?
    ensures Inv(cfg, env, h, ReadStep(cfg, env, h, m, checkedAt))
  {
    var f := Frame(env.port, m.pp, cfg.inst);
    var n := ReadStep(cfg, env, h, m, checkedAt);
    if m.tp == |env.ticks| {
      StopKeeps(cfg, env, h, m, ClockEnd, f.next, m.tp);
      InvEq(cfg, env, h, m.(phase := Stopped(ClockEnd), pp := f.next, tp := m.tp), n);
    } else if m.fileName.None? {
      StopKeeps(cfg, env, h, m, WriteFailed, f.next, m.tp + 1);
      InvEq(cfg, env, h, m.(phase := Stopped(WriteFailed), pp := f.next, tp := m.tp + 1), n);
    } else {
      ReadEntryKeeps(cfg, env, h, m, checkedAt);
    }
  }

  /** A step that writes a record keeps the invariant. */
  lemma ReadEntryKeeps(cfg: Config, env: Env, h: Handler, m: Machine, checkedAt: int)
    requires Wf(env, m) && m.phase == Read(checkedAt) && m.tp < |env.ticks| && m.fileName.Some?
    requires Frame(env.port, m.pp, cfg.inst).outcome.Got? && Frame(env.port, m.pp, cfg.inst).outcome.framed.Record?
    ensures Inv(cfg, env, h, m) ==> Inv(cfg, env, h, ReadStep(cfg, env, h, m, checkedAt))
  {
    var f := Frame(env.port, m.pp, cfg.inst);
    var t := env.ticks[m.tp];
    var e := Entry(m.index, checkedAt, t.date, t.time, f.outcome.framed.text);
    ReadRecordKeeps(cfg, env, h, m, e);
    InvEq(cfg, env, h, m.(phase := Check, pp := f.next, tp := m.tp + 1, files := AppendEntry(m.files, e),
                          index := m.index + 1), ReadStep(cfg, env, h, m, checkedAt));
  }

  lemma StepKeeps(cfg: Config, env: Env, h: Handler, m: Machine)
    requires Inv(cfg, env, h, m) && !m.phase.Stopped?
    ensures Inv(cfg, env, h, Step(cfg, env, h, m))
  {
    match m.phase
    case Wait => WaitKeeps(cfg, env, h, m);
    case Create(cause) => CreateKeeps(cfg, env, h, m, cause);
    case Check => CheckKeeps(cfg, env, h, m);
    case Read(checkedAt) => ReadKeeps(cfg, env, h, m, checkedAt);
  }

  lemma {:induction false} LoopKeeps(cfg: Config, env: Env, h: Handler, m: Machine)
    requires Inv(cfg, env, h, m) && !m.phase.Stopped?
    ensures Inv(cfg, env, h, Loop(cfg, env, h, m))
    decreases |env.ticks| - m.tp, |env.port| - m.pp
  {
    StepKeeps(cfg, env, h, m);
    var n := Step(cfg, env, h, m);
    if !n.phase.Stopped? {
      LoopKeeps(cfg, env, h, n);
    }
  }

  lemma RunKeeps(cfg: Config, env: Env, h: Handler)
    ensures Inv(cfg, env, h, Run(cfg, env, h))
  {
    assert NoTriggerBefore(env, 0);
    assert Inv(cfg, env, h, Initial);
    LoopKeeps(cfg, env, h, Initial);
  }

  // ----- file names, kept apart from the rest of the invariant -----

  lemma NamedNewFile(cfg: Config, env: Env, files: seq<Session>, s: Session)
    requires Named(cfg, env, files)
    requires s.madeAt < |env.ticks| && s.path == FilePath(cfg.dir, cfg.inst, env.ticks[s.madeAt].local)
    ensures Named(cfg, env, files + [s])
  {
    assert forall i :: 0 <= i < |files| ==> (files + [s])[i] == files[i];
  }

  lemma NamedAppend(cfg: Config, env: Env, files: seq<Session>, e: Entry)
    requires |files| >= 1 && Named(cfg, env, files)
    ensures Named(cfg, env, AppendEntry(files, e))
  {
    var r := AppendEntry(files, e);
    forall i | 0 <= i < |r|
      ensures r[i].madeAt < |env.ticks| && r[i].path == FilePath(cfg.dir, cfg.inst, env.ticks[r[i].madeAt].local)
    {
      if i < |files| - 1 {
        assert r[i] == files[i];
      } else {
        assert r[i] == Last(r);
      }
    }
  }

  lemma CreateNamed(cfg: Config, env: Env, m: Machine, cause: Cause)
    requires m.tp <= |env.ticks| && Named(cfg, env, m.files)
    ensures Named(cfg, env, CreateStep(cfg, env, m, cause).files)
  {
    if m.tp < |env.ticks| {
      var t := env.ticks[m.tp];
      var f := CreateLoggingFile(cfg.dir, cfg.inst, cfg.heading, cfg.edge, t.local);
      if f.Some? {
        var s := Session(f.value.path, f.value.header, m.tp, t.seconds, cause, []);
        NamedNewFile(cfg, env, m.files, s);
        assert CreateStep(cfg, env, m, cause).files == m.files + [s];
      }
    }
  }

  lemma ReadNamed(cfg: Config, env: Env, h: Handler, m: Machine, checkedAt: int)
    requires Wf(env, m) && Named(cfg, env, m.files)
    ensures Named(cfg, env, ReadStep(cfg, env, h, m, checkedAt).files)
  {
    var f := Frame(env.port, m.pp, cfg.inst);
    if f.outcome.Got? && f.outcome.framed.Record? && m.tp < |env.ticks| && m.fileName.Some? {
      var t := env.ticks[m.tp];
      var e := Entry(m.index, checkedAt, t.date, t.time, f.outcome.framed.text);
      NamedAppend(cfg, env, m.files, e);
      assert ReadStep(cfg, env, h, m, checkedAt).files == AppendEntry(m.files, e);
    }
  }

  lemma StepNamed(cfg: Config, env: Env, h: Handler, m: Machine)
    requires Wf(env, m) && !m.phase.Stopped? && Named(cfg, env, m.files)
    ensures Named(cfg, env, Step(cfg, env, h, m).files)
  {
    match m.phase
    case Wait =>
    case Create(cause) => CreateNamed(cfg, env, m, cause);
    case Check =>
    case Read(checkedAt) => ReadNamed(cfg, env, h, m, checkedAt);
  }

  lemma {:induction false} LoopNamed(cfg: Config, env: Env, h: Handler, m: Machine)
    requires Wf(env, m) && !m.phase.Stopped? && Named(cfg, env, m.files)
    ensures Named(cfg, env, Loop(cfg, env, h, m).files)
    decreases |env.ticks| - m.tp, |env.port| - m.pp
  {
    StepNamed(cfg, env, h, m);
    var n := Step(cfg, env, h, m);
    if !n.phase.Stopped? {
      LoopNamed(cfg, env, h, n);
    }
  }

  // ----- what a run guarantees -----

  /** Entry `k` of every file is written with `dataIndex == k`: the index restarts at 0 in each file. */
  lemma RunNumbersRecords(cfg: Config, env: Env, h: Handler)
    ensures var r := Run(cfg, env, h);
      forall i, k :: 0 <= i < |r.files| && 0 <= k < |r.files[i].entries| ==> r.files[i].entries[k].index == k
  {
    RunKeeps(cfg, env, h);
    var r := Run(cfg, env, h);
    assert forall i :: 0 <= i < |r.files| ==> Numbered(r.files[i]) by {
      forall i | 0 <= i < |r.files| ensures Numbered(r.files[i]) {
        assert FileOk(cfg, env, r.files[i]);
      }
    }
  }

  /**
   * For the timed instruments, the line `read_data` writes for entry `k` of
   * any file starts with `k` in five digits, while `k` fits in five digits.
   */
  lemma RunLinesIndexed(cfg: Config, env: Env, h: Handler)
    requires Anemometer(cfg.inst) || cfg.inst == Uhsas
    ensures var r := Run(cfg, env, h);
      forall i, k :: 0 <= i < |r.files| && 0 <= k < |r.files[i].entries| && k < 100000 ==>
        var e := r.files[i].entries[k];
        var line := Line(cfg.inst, e.index, e.date, e.time, e.raw);
        |line| > 5 && IsDigits(line[..5]) && DigitsValue(line[..5]) == k
  {
    RunNumbersRecords(cfg, env, h);
    var r := Run(cfg, env, h);
    forall i, k | 0 <= i < |r.files| && 0 <= k < |r.files[i].entries| && k < 100000
      ensures var e := r.files[i].entries[k];
        var line := Line(cfg.inst, e.index, e.date, e.time, e.raw);
        |line| > 5 && IsDigits(line[..5]) && DigitsValue(line[..5]) == k
    {
      var e := r.files[i].entries[k];
      IndexField(cfg.inst, e.index, e.date, e.time, e.raw);
    }
  }

  /**
   * Every record was written after a check, made after the file was created,
   * that found fewer than `fileInterval` seconds elapsed since `starttime`.
   */
  lemma RunWithinInterval(cfg: Config, env: Env, h: Handler)
    ensures var r := Run(cfg, env, h);
      forall i, k :: 0 <= i < |r.files| && 0 <= k < |r.files[i].entries| ==>
        r.files[i].entries[k].checkedAt - r.files[i].start < FileInterval
  {
    RunKeeps(cfg, env, h);
    var r := Run(cfg, env, h);
    assert forall i :: 0 <= i < |r.files| ==> Timely(r.files[i]) by {
      forall i | 0 <= i < |r.files| ensures Timely(r.files[i]) {
        assert FileOk(cfg, env, r.files[i]);
      }
    }
  }

  /**
   * Every file is named after the clock reading at which it was made, which
   * is also its `starttime`; it starts with the instrument's header; and the
   * files were made at ever later readings.
   */
  lemma RunFilesNamedByReading(cfg: Config, env: Env, h: Handler)
    ensures var r := Run(cfg, env, h);
      forall i :: 0 <= i < |r.files| ==>
        r.files[i].madeAt < |env.ticks| &&
        r.files[i].start == env.ticks[r.files[i].madeAt].seconds &&
        r.files[i].path == FilePath(cfg.dir, cfg.inst, env.ticks[r.files[i].madeAt].local) &&
        Some(r.files[i].header) == HeaderFor(cfg.inst, cfg.heading, cfg.edge)
    ensures var r := Run(cfg, env, h);
      forall i, j :: 0 <= i < j < |r.files| ==> r.files[i].madeAt < r.files[j].madeAt
  {
    RunKeeps(cfg, env, h);
    LoopNamed(cfg, env, h, Initial);
    var r := Run(cfg, env, h);
    assert FilesOk(cfg, env, r.files);
    FilesMadeInOrder(cfg, env, r.files);
  }

  /** What `FilesOk` says about every file, and the order of their readings. */
  lemma FilesMadeInOrder(cfg: Config, env: Env, files: seq<Session>)
    requires FilesOk(cfg, env, files)
    ensures forall i :: 0 <= i < |files| ==>
      files[i].madeAt < |env.ticks| && files[i].start == env.ticks[files[i].madeAt].seconds &&
      Some(files[i].header) == HeaderFor(cfg.inst, cfg.heading, cfg.edge)
    ensures forall i, j :: 0 <= i < j < |files| ==> files[i].madeAt < files[j].madeAt
  {
    forall i | 0 <= i < |files|
      ensures files[i].madeAt < |env.ticks| && files[i].start == env.ticks[files[i].madeAt].seconds &&
        Some(files[i].header) == HeaderFor(cfg.inst, cfg.heading, cfg.edge)
    {
      assert FileOk(cfg, env, files[i]);
    }
    Increasing(files);
  }

  lemma {:induction false} Increasing(files: seq<Session>)
    requires forall i :: 0 < i < |files| ==> files[i - 1].madeAt < files[i].madeAt
    ensures forall i, j :: 0 <= i < j < |files| ==> files[i].madeAt < files[j].madeAt
  {
    if |files| > 1 {
      var init := files[..|files| - 1];
      assert forall i :: 0 < i < |init| ==> init[i - 1].madeAt < init[i].madeAt;
      Increasing(init);
      forall i, j | 0 <= i < j < |files| ensures files[i].madeAt < files[j].madeAt {
        if j < |files| - 1 {
          assert init[i] == files[i] && init[j] == files[j];
        } else if i < j - 1 {
          assert init[i] == files[i] && init[j - 1] == files[j - 1];
        }
      }
    }
  }

  /**
   * The first file is made right after the first reading on which the
   * trigger fires; every later file is made because the interval ran out or
   * after a decode error, and one made because the interval ran out follows
   * a check that found at least `fileInterval` seconds since the previous
   * file's `starttime`.
   */
  lemma RunStartsAtTrigger(cfg: Config, env: Env, h: Handler)
    ensures var r := Run(cfg, env, h);
      |r.files| >= 1 ==> r.files[0].cause == Triggered && FirstTriggerAt(env, r.files[0].madeAt)
    ensures var r := Run(cfg, env, h);
      forall i :: 0 < i < |r.files| ==> r.files[i].cause != Triggered
    ensures var r := Run(cfg, env, h);
      forall i :: 0 < i < |r.files| && r.files[i].cause == Rotation ==>
        1 <= r.files[i].madeAt <= |env.ticks| &&
        env.ticks[r.files[i].madeAt - 1].seconds - r.files[i - 1].start >= FileInterval
  {
    RunKeeps(cfg, env, h);
  }

  lemma ScanEnd(port: seq<Read>, inst: Instrument)
    ensures Scan(port, |port|, inst) == []
  {
  }

  /**
   * With the intended handler, a run that frames the whole port loses
   * nothing: the files hold every framed record, in order, and the error log
   * every decode error, in order.
   */
  lemma RunKeepsEveryRecord(cfg: Config, env: Env)
    ensures var r := Run(cfg, env, Intended);
      r.phase == Stopped(PortEnd) ==>
        AllRaws(r.files) == RecordTexts(Scan(env.port, 0, cfg.inst)) &&
        r.errors == BadBytes(Scan(env.port, 0, cfg.inst))
  {
    RunKeeps(cfg, env, Intended);
    ScanEnd(env.port, cfg.inst);
  }

  /**
   * Without a header for the instrument no file is made, and a run that
   * frames the whole port then framed no record: the first record ends the
   * program, as writing to a file that was never created fails.
   */
  lemma NoHeaderNoFile(cfg: Config, env: Env, h: Handler)
    requires !Recognised(cfg.inst) || (cfg.inst == Uhsas && cfg.heading.None?)
    ensures var r := Run(cfg, env, h);
      r.files == [] && (r.phase == Stopped(PortEnd) ==> RecordTexts(Scan(env.port, 0, cfg.inst)) == [])
  {
    RunKeeps(cfg, env, h);
    ScanEnd(env.port, cfg.inst);
  }

  /**
   * The UHSAS header ends without a newline, so the first record written
   * into a new UHSAS file lands on the heading line: the header ends with
   * the heading's last character, and the first record's index follows it
   * directly. A probed heading meets the precondition (`ProbedHeadingOneLine`).
   */
  lemma UhsasHeadingJoinsFirstLine(heading: string, edge: nat -> string, date: string, time: string, raw: string)
    requires |heading| > 0 && '\n' !in heading
    ensures var h := HeaderFor(Uhsas, Some(heading), edge).value;
      var line := Line(Uhsas, 0, date, time, raw);
      h[|h| - 1] == heading[|heading| - 1] && h[|h| - 1] != '\n' &&
      (h + line)[|h|..|h| + 5] == line[..5] && IsDigits(line[..5]) && DigitsValue(line[..5]) == 0
  {
    IndexField(Uhsas, 0, date, time, raw);
    var h := HeaderFor(Uhsas, Some(heading), edge).value;
    assert h == Timing + heading;
    assert heading[|heading| - 1] in heading;
  }

  // ----- the decode-error handler -----

  /**
   * As written, the handler never logs anything and never starts a file:
   * a run that frames the whole port saw no decode error, so any decode
   * error ends the program before the input does.
   */
  lemma AsWrittenStopsAtDecodeError(cfg: Config, env: Env)
    ensures var r := Run(cfg, env, AsWritten);
      r.errors == [] && NoAfterError(r.files) &&
      (r.phase == Stopped(PortEnd) ==> BadBytes(Scan(env.port, 0, cfg.inst)) == [])
  {
    RunKeeps(cfg, env, AsWritten);
    ScanEnd(env.port, cfg.inst);
  }

  /** At a decode error the handler as written stops the program; the intended one logs the byte and goes on. */
  lemma DecodeErrorCrashes(cfg: Config, env: Env, m: Machine, b: byte)
    requires Wf(env, m) && m.phase.Read? && Frame(env.port, m.pp, cfg.inst).outcome == Got(DecodeError(b))
    ensures Step(cfg, env, AsWritten, m).phase == Stopped(HandlerCrash)
    ensures var n := Step(cfg, env, Intended, m); n.phase == Create(AfterError) && n.errors == m.errors + [b]
  {
  }

  /**
   * With the intended handler, a decode error is followed by a new file
   * that starts empty with `dataIndex` back at 0; the files so far are kept
   * as they were.
   */
  lemma DecodeErrorStartsNewFile(cfg: Config, env: Env, m: Machine, b: byte)
    requires Wf(env, m) && m.phase.Read? && Frame(env.port, m.pp, cfg.inst).outcome == Got(DecodeError(b))
    requires m.tp < |env.ticks| && CanCreate(cfg)
    ensures var n := Step(cfg, env, Intended, Step(cfg, env, Intended, m));
      n.phase == Check && n.index == 0 && n.errors == m.errors + [b] &&
      |n.files| == |m.files| + 1 && n.files[..|m.files|] == m.files &&
      Last(n.files).cause == AfterError && Last(n.files).entries == [] && n.start == Last(n.files).start
  {
    var n1 := Step(cfg, env, Intended, m);
    assert n1.tp == m.tp;
    var n := Step(cfg, env, Intended, n1);
    assert n.files[..|m.files|] == m.files;
  }

  /**
   * A check that finds at least `FileInterval` seconds since the file was
   * started leads, one step later, to a new empty file made from the next
   * clock reading, with the index back at 0 and the interval restarted.
   */
  lemma RotationStartsNewFile(cfg: Config, env: Env, h: Handler, m: Machine)
    requires Wf(env, m) && m.phase == Check && m.tp + 1 < |env.ticks| && CanCreate(cfg)
    requires env.ticks[m.tp].seconds - m.start >= FileInterval
    ensures var n := Step(cfg, env, h, Step(cfg, env, h, m));
      n.phase == Check && n.index == 0 &&
      |n.files| == |m.files| + 1 && n.files[..|m.files|] == m.files &&
      Last(n.files).cause == Rotation && Last(n.files).entries == [] &&
      Last(n.files).madeAt == m.tp + 1 && n.start == env.ticks[m.tp + 1].seconds
  {
    var n1 := Step(cfg, env, h, m);
    assert n1.phase == Create(Rotation) && n1.tp == m.tp + 1;
    var n := Step(cfg, env, h, n1);
    assert n.files[..|m.files|] == m.files;
  }

  /** The example's configuration: a Windmaster logging into `logs`. */
  const ExampleConfig := Config("logs", Windmaster, None, (j: nat) => "")

  /** The example's port and clock: the byte 200, read at 00:00:00 and 00:00:01. */
  const ExampleEnv := Env([[200]], [Tick(0, Clock(2024, 1, 1, 0, 0, 0), "2024-01-01", "00:00:00"),
                                    Tick(0, Clock(2024, 1, 1, 0, 0, 0), "2024-01-01", "00:00:00"),
                                    Tick(1, Clock(2024, 1, 1, 0, 0, 1), "2024-01-01", "00:00:01")])

  /** The example's port frames as one decode error. */
  lemma ExampleFrame()
    ensures Frame(ExampleEnv.port, 0, Windmaster) == Framing(Got(DecodeError(200)), 1)
  {
  }

  /** The example's first three steps: trigger, file creation, interval check; then the byte is read. */
  lemma ExampleFirstSteps(h: Handler) returns (m: Machine)
    ensures Wf(ExampleEnv, m) && m.phase == Read(1) && m.pp == 0 && m.tp == 3 && m.errors == []
    ensures Run(ExampleConfig, ExampleEnv, h) == Finish(ExampleConfig, ExampleEnv, h, m)
  {
    var cfg, env := ExampleConfig, ExampleEnv;
    var m1 := Step(cfg, env, h, Initial);
    assert m1.phase == Create(Triggered) && m1.tp == 1 && m1.pp == 0;
    var m2 := Step(cfg, env, h, m1);
    assert m2.phase == Check && m2.tp == 2 && m2.pp == 0 && m2.start == 0;
    m := Step(cfg, env, h, m2);
    FinishStep(cfg, env, h, Initial);
    FinishStep(cfg, env, h, m1);
    FinishStep(cfg, env, h, m2);
  }

  /**
   * One port, two handlers: the clock reads 00:00:00 and the port sends the
   * byte 200, which is not ASCII. As written the program ends at that byte.
   */
  lemma DecodeErrorExample()
    ensures Run(ExampleConfig, ExampleEnv, AsWritten).phase == Stopped(HandlerCrash)
  {
    var cfg, env := ExampleConfig, ExampleEnv;
    ExampleFrame();
    var m := ExampleFirstSteps(AsWritten);
    FinishStep(cfg, env, AsWritten, m);
    assert Step(cfg, env, AsWritten, m).phase == Stopped(HandlerCrash);
  }

  /** The same port with the intended handler: the byte is logged and the run goes on until the clock runs out. */
  lemma DecodeErrorLoggedExample()
    ensures Run(ExampleConfig, ExampleEnv, Intended).errors == [200]
    ensures Run(ExampleConfig, ExampleEnv, Intended).phase == Stopped(ClockEnd)
  {
    var cfg, env := ExampleConfig, ExampleEnv;
    ExampleFrame();
    var m := ExampleFirstSteps(Intended);
    var n := Step(cfg, env, Intended, m);
    assert n.phase == Create(AfterError) && n.errors == [200] && n.tp == 3;
    FinishStep(cfg, env, Intended, m);
    FinishStep(cfg, env, Intended, n);
    assert Step(cfg, env, Intended, n) == n.(phase := Stopped(ClockEnd));
  }
}
