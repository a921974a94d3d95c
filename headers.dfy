/**
 * Header and file-name construction: the UHSAS heading probed from the
 * instrument (`define_header`), the POPS bin columns (`bin_headers`), and
 * the per-instrument header and file name of `create_logging_file`.
 */
module Headers {
  import opened Basics
  import opened Text
  import opened Instruments
  import opened Framing

  /** One joined column name, `a + "_" + b`. */
  function Token(a: string, b: string): string
  {
    a + "_" + b
  }

  /** `[i + "_" + j for i, j in zip(xs, ys)]`: pairs up to the shorter list. */
  function ZipTokens(xs: seq<string>, ys: seq<string>): seq<string>
  {
    seq(Min(|xs|, |ys|), k requires 0 <= k < Min(|xs|, |ys|) => Token(xs[k], ys[k]))
  }

  // ----- the UHSAS heading -----

  /** `line.split("\r")[0].split("\t")`: a probed line's tab-separated fields. */
  function HeadingFields(line: string): seq<string>
  {
    Split(Before(line, '\r'), '\t')
  }

  /** The comma-joined column names built from the two probed lines. */
  function JointHeader(line0: string, line1: string): string
  {
    Join(",", ZipTokens(HeadingFields(line0), HeadingFields(line1)))
  }

  /** A heading field holds no character that its line lacks. */
  lemma HeadingFieldsWithout(line: string, d: char, k: nat)
    requires d !in line && k < |HeadingFields(line)|
    ensures d !in HeadingFields(line)[k]
  {
    var b := Before(line, '\r');
    assert forall j :: 0 <= j < |b| ==> b[j] == line[j];
    SplitPieceWithout(b, '\t', d, k);
  }

  /**
   * The joined heading of two lines without newlines is a single, nonempty
   * line: it has at least one column, and that column holds an underscore.
   */
  lemma JointHeaderOneLine(line0: string, line1: string)
    requires '\n' !in line0 && '\n' !in line1
    ensures |JointHeader(line0, line1)| > 0 && '\n' !in JointHeader(line0, line1)
  {
    var a, b := HeadingFields(line0), HeadingFields(line1);
    var toks := ZipTokens(a, b);
    forall k | 0 <= k < |toks| ensures '\n' !in toks[k] {
      HeadingFieldsWithout(line0, '\n', k);
      HeadingFieldsWithout(line1, '\n', k);
    }
    JoinWithout(",", toks, '\n');
    assert |toks| >= 1 && |toks[0]| > 0;
  }

  /**
   * The joined heading has one column per position both probed lines have,
   * and column `k` joins the two lines' `k`-th fields with an underscore.
   */
  lemma JointHeaderColumns(line0: string, line1: string)
    requires ',' !in line0 && ',' !in line1
    ensures var a, b := HeadingFields(line0), HeadingFields(line1);
      var cols := Split(JointHeader(line0, line1), ',');
      |cols| == Min(|a|, |b|) && |cols| >= 1 &&
      forall k :: 0 <= k < |cols| ==> cols[k] == a[k] + "_" + b[k]
  {
    var a, b := HeadingFields(line0), HeadingFields(line1);
    var toks := ZipTokens(a, b);
    forall k | 0 <= k < |toks| ensures ',' !in toks[k] {
      HeadingFieldsWithout(line0, ',', k);
      HeadingFieldsWithout(line1, ',', k);
    }
    SplitJoin(toks, ',');
  }

  /** Why probing the UHSAS heading stopped the program before logging began. */
  datatype ProbeError = ProbeDecodeError(bad: byte) | ProbeIncomplete

  function ProbeFailure(o: Outcome): ProbeError
    requires !(o.Got? && o.framed.Record?)
  {
    if o.Got? then ProbeDecodeError(o.framed.bad) else ProbeIncomplete
  }

  /** A framing that completed a record. */
  predicate GotRecord(f: Framing) { f.outcome.Got? && f.outcome.framed.Record? }

  /**
   * What `define_header` computes: two records framed one after the other
   * from a freshly opened port, their fields zipped and comma joined. A
   * decode error is not caught anywhere on this path, so it ends the
   * program; that, and input ending early, is the `Err` result.
   */
  function Probe(probe: seq<Read>, inst: Instrument): Result<string, ProbeError>
  {
    var f0 := Frame(probe, 0, inst);
    if !GotRecord(f0) then Err(ProbeFailure(f0.outcome))
    else
      var f1 := Frame(probe, f0.next, inst);
      if !GotRecord(f1) then Err(ProbeFailure(f1.outcome))
      else Ok(JointHeader(f0.outcome.framed.text, f1.outcome.framed.text))
  }

  /**
   * A heading probed from the UHSAS is one nonempty line: both framed records
   * end at their line feed, so neither, nor their join, holds a newline.
   */
  lemma ProbedHeadingOneLine(probe: seq<Read>)
    ensures Probe(probe, Uhsas).Ok? ==>
      |Probe(probe, Uhsas).value| > 0 && '\n' !in Probe(probe, Uhsas).value
  {
    var f0 := Frame(probe, 0, Uhsas);
    if GotRecord(f0) {
      FrameSound(probe, 0, Uhsas);
      var f1 := Frame(probe, f0.next, Uhsas);
      if GotRecord(f1) {
        FrameSound(probe, f0.next, Uhsas);
        assert Ascii(Terminator(Uhsas)) == '\n';
        JointHeaderOneLine(f0.outcome.framed.text, f1.outcome.framed.text);
      }
    }
  }

  /** `define_header`: two calls of `serial_read`, then the split, zip and join. */
  method DefineHeader(probe: seq<Read>, inst: Instrument) returns (r: Result<string, ProbeError>)
    ensures r == Probe(probe, inst)
  {
    var first := SerialRead(probe, 0, inst);
    if !GotRecord(first) {
      return Err(ProbeFailure(first.outcome));
    }
    var second := SerialRead(probe, first.next, inst);
    if !GotRecord(second) {
      return Err(ProbeFailure(second.outcome));
    }
    var header0 := HeadingFields(first.outcome.framed.text);
    var header1 := HeadingFields(second.outcome.framed.text);
    var jointHeader := ZipTokens(header0, header1);
    r := Ok(Join(",", jointHeader));
  }

  /**
   * The probed heading succeeds exactly when the port yields two records in
   * a row; its columns then pair the first record's fields with the
   * second's, position by position, as many as the shorter one has.
   */
  lemma ProbeColumns(probe: seq<Read>, inst: Instrument)
    ensures var f0 := Frame(probe, 0, inst);
      Probe(probe, inst).Ok? <==> GotRecord(f0) && GotRecord(Frame(probe, f0.next, inst))
    ensures var f0 := Frame(probe, 0, inst);
      Probe(probe, inst).Ok? ==>
        var f1 := Frame(probe, f0.next, inst);
        var a, b := HeadingFields(f0.outcome.framed.text), HeadingFields(f1.outcome.framed.text);
        ',' !in f0.outcome.framed.text && ',' !in f1.outcome.framed.text ==>
          var cols := Split(Probe(probe, inst).value, ',');
          |cols| == Min(|a|, |b|) && forall k :: 0 <= k < |cols| ==> cols[k] == a[k] + "_" + b[k]
  {
    var f0 := Frame(probe, 0, inst);
    if GotRecord(f0) {
      var f1 := Frame(probe, f0.next, inst);
      if GotRecord(f1) && ',' !in f0.outcome.framed.text && ',' !in f1.outcome.framed.text {
        JointHeaderColumns(f0.outcome.framed.text, f1.outcome.framed.text);
      }
    }
  }

  // ----- the POPS bin columns -----

  /** Number of POPS size bins used by `create_logging_file`. */
  const PopsBins: nat := 16

  /**
   * The bin columns, one per bin: bin `k` runs from edge `k` to edge `k + 1`.
   * `edge(j)` stands for `str(round(10 ** (logmin + j * delta), 2))`.
   */
  function BinTokens(nbins: nat, edge: nat -> string): (r: seq<string>)
    ensures |r| == nbins
  {
    if nbins == 0 then [] else BinTokens(nbins - 1, edge) + [Token(edge(nbins - 1), edge(nbins))]
  }

  /** Bin `k`'s column joins edge `k` and edge `k + 1`. */
  lemma {:induction false} BinTokensAt(nbins: nat, edge: nat -> string, k: nat)
    requires k < nbins
    ensures BinTokens(nbins, edge)[k] == Token(edge(k), edge(k + 1))
  {
    if k < nbins - 1 {
      BinTokensAt(nbins - 1, edge, k);
    }
  }

  function BinHeader(nbins: nat, edge: nat -> string): string
  {
    Join(",", BinTokens(nbins, edge))
  }

  /**
   * `bin_headers`: the lower and upper edge lists built bin by bin, then
   * zipped; `nbins` must be positive because the source divides by it.
   */
  method BinHeaders(nbins: nat, edge: nat -> string) returns (header: string)
    requires nbins >= 1
    ensures header == BinHeader(nbins, edge)
  {
    var lower := [edge(0)];
    var upper := [edge(1)];
    assert ZipTokens(lower, upper) == BinTokens(1, edge);
    for i := 1 to nbins
      invariant |lower| == i && |upper| == i
      invariant ZipTokens(lower, upper) == BinTokens(i, edge)
    {
      var binNumber := i + 1;
      ZipStep(lower, upper, edge(binNumber - 1), edge(binNumber));
      lower := lower + [edge(binNumber - 1)];
      upper := upper + [edge(binNumber)];
    }
    var jointHeader := ZipTokens(lower, upper);
    header := Join(",", jointHeader);
  }

  /** Zipping one more pair appends one more token. */
  lemma ZipStep(xs: seq<string>, ys: seq<string>, x: string, y: string)
    requires |xs| == |ys|
    ensures ZipTokens(xs + [x], ys + [y]) == ZipTokens(xs, ys) + [Token(x, y)]
  {
  }

  /**
   * The bin header has exactly `nbins` columns, in ascending bin order, and
   * adjacent bins share an edge: bin `k`'s upper edge is bin `k + 1`'s lower.
   */
  lemma BinHeaderColumns(nbins: nat, edge: nat -> string)
    requires nbins >= 1
    requires forall j: nat :: ',' !in edge(j)
    ensures var cols := Split(BinHeader(nbins, edge), ',');
      |cols| == nbins &&
      forall k {:trigger cols[k]} :: 0 <= k < nbins ==> cols[k] == edge(k) + "_" + edge(k + 1)
  {
    BinTokensLackComma(nbins, edge);
    SplitJoin(BinTokens(nbins, edge), ',');
    forall k | 0 <= k < nbins ensures BinTokens(nbins, edge)[k] == edge(k) + "_" + edge(k + 1) {
      BinTokensAt(nbins, edge, k);
    }
  }

  lemma BinTokensLackComma(nbins: nat, edge: nat -> string)
    requires forall j: nat :: ',' !in edge(j)
    ensures forall k :: 0 <= k < nbins ==> ',' !in BinTokens(nbins, edge)[k]
  {
    forall k | 0 <= k < nbins ensures ',' !in BinTokens(nbins, edge)[k] {
      BinTokensAt(nbins, edge, k);
      assert ',' !in edge(k) && ',' !in edge(k + 1);
    }
  }

  // ----- headers and file names -----

  const Timing := "Index,Day_CPU(YYYY-MM-DD),time_CPU(HH:MM:SS.FFF),"

  const WindmasterHeader := Timing + "Start_codon,u(m/s),v(m/s),w(m/s),"
    + "unit_ident,SOS(m/s),T(Celsius),Error_code,Check_sum\n"

  const Csat3bHeader := Timing + "u_x(m/s),u_y(m/s),u_z(m/s),"
    + "T(Celsius),Diagnostic_code,record_counter,sig_hex\n"

  const PopsColumns := "Name, Serial, DateTime(YYYYMMDD),Time(S Unix-epoch),"
    + "Particle_con(cc),POPS_flow(sccm),POPS_P(hPa),POPS_T(C),"
    + "Data_status, baseline(counts), stdev_baseline, max_stdev,"
    + "PumpFB(PID),LaserT(C),LaserFB(PID),Laser_Monitor,Voltage(V),"

  /**
   * The header written first into each new file; `None` where the source's
   * `try` block fails (no branch for the instrument, so `fname` is unbound;
   * or the UHSAS heading is missing, so `timing + None` raises).
   */
  function HeaderFor(inst: Instrument, heading: Option<string>, edge: nat -> string): (r: Option<string>)
    ensures r.Some? <==> Recognised(inst) && (inst == Uhsas ==> heading.Some?)
  {
    match inst
    case Windmaster => Some(WindmasterHeader)
    case Csat3b => Some(Csat3bHeader)
    case Uhsas => if heading.Some? then Some(Timing + heading.value) else None
    case Pops => Some(PopsColumns + BinHeader(PopsBins, edge) + "\n")
    case Serial => Some("")
    case Unrecognised(_) => None
  }

  /** `%y%m%d%H%M%S`: two digits each for year of century, month, day, hour, minute, second. */
  function Stamp(c: Clock): string
  {
    ZeroPad(c.year % 100, 2) + ZeroPad(c.month, 2) + ZeroPad(c.day, 2)
      + ZeroPad(c.hour, 2) + ZeroPad(c.minute, 2) + ZeroPad(c.second, 2)
  }

  /** A file just created: its path and the header written into it. */
  datatype NewFile = NewFile(path: string, header: string)

  /** `dir_path + "/" + time.strftime(fname)`. */
  function FilePath(dir: string, inst: Instrument, c: Clock): (r: string)
    ensures |r| == |dir| + |Name(inst)| + |Stamp(c)| + 6
    ensures r[..|dir| + 1] == dir + "/" && r[|r| - 4..] == ".csv"
  {
    dir + "/" + Name(inst) + "_" + Stamp(c) + ".csv"
  }

  /**
   * `create_logging_file`, returning the new file or `None` when its `try`
   * block fails: a file is made exactly for a recognised instrument and, for
   * the UHSAS, a probed heading.
   */
  function CreateLoggingFile(dir: string, inst: Instrument, heading: Option<string>,
                             edge: nat -> string, c: Clock): (r: Option<NewFile>)
    ensures r.Some? <==> Recognised(inst) && (inst == Uhsas ==> heading.Some?)
  {
    match HeaderFor(inst, heading, edge)
    case None => None
    case Some(header) => Some(NewFile(FilePath(dir, inst, c), header))
  }

  /**
   * The headers per instrument: the two anemometer headers and the POPS
   * header end in a newline, the UHSAS header is the timing columns followed
   * by the probed heading with nothing added, the generic serial header is
   * empty, and the timed instruments' headers start with the three columns
   * the line prefix fills.
   */
  lemma HeaderShapes(heading: Option<string>, edge: nat -> string)
    ensures var h := HeaderFor(Windmaster, heading, edge).value; h[|h| - 1] == '\n' && h[..|Timing|] == Timing
    ensures var h := HeaderFor(Csat3b, heading, edge).value; h[|h| - 1] == '\n' && h[..|Timing|] == Timing
    ensures var h := HeaderFor(Pops, heading, edge).value; h[|h| - 1] == '\n'
    ensures heading.Some? ==> HeaderFor(Uhsas, heading, edge) == Some(Timing + heading.value)
    ensures HeaderFor(Serial, heading, edge) == Some("")
  {
  }

  /** Twelve digits that read, two by two, as year of century, month, day, hour, minute and second of `c`. */
  predicate ReadsAs(st: string, c: Clock)
    requires |st| == 12 && IsDigits(st)
  {
    DigitsValue(st[0..2]) == c.year % 100 && DigitsValue(st[2..4]) == c.month &&
    DigitsValue(st[4..6]) == c.day && DigitsValue(st[6..8]) == c.hour &&
    DigitsValue(st[8..10]) == c.minute && DigitsValue(st[10..12]) == c.second
  }

  /**
   * The stamp is twelve digits that read back, two by two, as the year of
   * century, month, day, hour, minute and second of the creation time.
   */
  lemma StampFields(c: Clock)
    requires c.month < 100 && c.day < 100 && c.hour < 100 && c.minute < 100 && c.second < 100
    ensures |Stamp(c)| == 12 && IsDigits(Stamp(c)) && ReadsAs(Stamp(c), c)
  {
    assert Pow10(2) == 100;
    ZeroPadExact(c.year % 100, 2);
    ZeroPadExact(c.month, 2);
    ZeroPadExact(c.day, 2);
    ZeroPadExact(c.hour, 2);
    ZeroPadExact(c.minute, 2);
    ZeroPadExact(c.second, 2);
    Pairs(ZeroPad(c.year % 100, 2), ZeroPad(c.month, 2), ZeroPad(c.day, 2),
          ZeroPad(c.hour, 2), ZeroPad(c.minute, 2), ZeroPad(c.second, 2));
  }

  /**
   * The file made at a clock reading is named `<dir>/<instrument>_` followed
   * by the twelve stamp digits and `.csv`, the digits reading back as the
   * reading's fields; its header is the instrument's.
   */
  lemma CreatedFile(dir: string, inst: Instrument, heading: Option<string>, edge: nat -> string, c: Clock)
    requires ValidClock(c) && CreateLoggingFile(dir, inst, heading, edge, c).Some?
    ensures var f := CreateLoggingFile(dir, inst, heading, edge, c).value;
      var p := dir + "/" + Name(inst) + "_";
      |f.path| == |p| + 16 && f.path[..|p|] == p && f.path[|p| + 12..] == ".csv" &&
      IsDigits(f.path[|p|..|p| + 12]) && ReadsAs(f.path[|p|..|p| + 12], c) &&
      Some(f.header) == HeaderFor(inst, heading, edge)
  {
    StampFields(c);
    PathParts(dir + "/" + Name(inst) + "_", Stamp(c));
  }

  lemma PathParts(p: string, s: string)
    requires |s| == 12
    ensures var q := p + s + ".csv";
      |q| == |p| + 16 && q[..|p|] == p && q[|p| + 12..] == ".csv" && q[|p|..|p| + 12] == s
  {
  }

  /** Six two-digit fields laid end to end. */
  lemma Pairs(a: string, b: string, c: string, d: string, e: string, f: string)
    requires |a| == 2 && |b| == 2 && |c| == 2 && |d| == 2 && |e| == 2 && |f| == 2
    requires IsDigits(a) && IsDigits(b) && IsDigits(c) && IsDigits(d) && IsDigits(e) && IsDigits(f)
    ensures var s := a + b + c + d + e + f;
      |s| == 12 && IsDigits(s) &&
      s[0..2] == a && s[2..4] == b && s[4..6] == c && s[6..8] == d && s[8..10] == e && s[10..12] == f
  {
  }
}
