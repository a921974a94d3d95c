# Flux logger acquisition engine in Dafny

A model of the acquisition engine of `Flux_logger.py`, a serial-port data
logger for sonic anemometers (Gill WindMaster, Campbell CSAT3B) and aerosol
instruments (POPS, UHSAS). The program waits for the hour or the half hour,
then frames records from the port, formats each into one CSV line, and
appends the lines to a log file. It starts a new file every 1800 seconds and,
as its error handler is evidently intended to, after every decode error.

Modules, one file each:

- `basics.dfy` holds `Basics`: bytes, `Option`, `Result`, and a clock reading as integer fields.
- `text.dfy` holds `Text`: Python's `str.split` with a one-character separator, `sep.join`, per-character replacement, and `"{:0wd}"` zero padding, with their round trips.
- `instruments.dfy` holds `Instruments`: the five instrument names, the record terminator, the baud rate and the line settings of `open_port`.
- `framing.dfy` holds `Framing`: `serial_read` as a method with a loop, proved against the function `Frame`, plus soundness and completeness of framing.
- `records.dfy` holds `Records`: the line `read_data` writes for each instrument.
- `headers.dfy` holds `Headers`: `define_header` (the UHSAS heading probe), `bin_headers` (the POPS bin columns), and the headers and file name of `create_logging_file`.
- `schedule.dfy` holds `Schedule`: the start trigger and `countdown`.
- `acquisition.dfy` holds `Acquisition`. It models the loops of `main` as a state machine (`Step`, `Loop`, `Run`) and as imperative methods (`Logger`, `Await`, `Acquire`, `Interval`, `ReadData`), each proved equal to the state machine.
- `guarantees.dfy` holds `Guarantees`. It proves an invariant that every step of `main` preserves, and from it what every run guarantees about the files it writes.

There is no I/O in the model:

- The port is the sequence of what successive `ser.read()` calls return: one byte, or nothing, because the port has `timeout=0`.
- The clock is the sequence of readings the program takes, in order. Each reading has integer seconds for `time.time()`, the local time fields, and the date and time strings of `str(datetime.now())`.
- A run ends when one of these two inputs runs out (the real program would still be running), or when the program itself stops.

Design decisions:

- **Clock reads.** Each `datetime.now()` / `time.time()` of the source takes one clock reading, in source order. There are two exceptions:
  - `create_logging_file` followed by `starttime = time.time()` (lines 324-331) uses a single reading, so the file name and `starttime` come from the same instant.
  - The `time.time()` behind the unused `millis` (line 244) takes no reading.
- **Timestamps of a record.** The date and time written with a record come from the reading taken after it was framed (lines 244-247). That reading is separate from the interval check before it (line 336).
- **After a decode error.** The handler's `continue` at line 343 re-enters the `while(True)` at line 321. So `create_logging_file` runs again, a new file is started, and `dataIndex` is set back to 0 at line 333.
- **Unrecognised instrument.** `create_logging_file` fails inside its `try` and returns `None`. The first framed record then fails in `open(None, 'a+')`, which nothing catches; the model stops with `WriteFailed`.
- **Instrument names.** `Main` takes the string `args.instrument` and turns it into an `Instrument` with `Instruments.Identify`, which makes the string comparisons of the source once.
- **UHSAS header.** The UHSAS header is the timing columns plus the probed heading, with no newline (line 179). `read_data` appends the first record right after it (line 270), so that record ends up on the heading line. The model keeps this; `Guarantees.UhsasHeadingJoinsFirstLine` states it, and `Headers.ProbedHeadingOneLine` shows that a probed heading meets its precondition.
- **Failed UHSAS probe.** `main` calls `define_header` outside any `try` (line 306), so a decode error while probing the UHSAS heading ends the program; `Main` returns `Err(ProbeDecodeError(b))` for it. `Err(ProbeIncomplete)` means only that the modelled probe input ran out before two records, as `PortEnd` does for the main loop: the real `serial_read` would still be polling.

## Model

| member | source | states |
|---|---|---|
| Instruments.Identify | Flux_logger.py:158-197 | the string comparisons name exactly the five instruments; any other name is `Unrecognised` and keeps its string |
| Instruments.IdentifyName | Flux_logger.py:158-197 | round trip: identifying an instrument's own name gives the instrument back |
| Instruments.Terminator | Flux_logger.py:214-215 | the record terminator is `\r` exactly for the WindMaster and `\n` for every other instrument |
| Instruments.Baud | Flux_logger.py:297-302 | the baud rate chosen in `main`; `Instruments.ProfileTable` states which instruments get which rate |
| Instruments.Settings | Flux_logger.py:96-115 | the line settings `open_port` passes; `Instruments.ProfileTable` states them per instrument |
| Instruments.ProfileTable | Flux_logger.py:96-115 | only the CSAT3B enables xonxoff and dsrdtr; every instrument uses rtscts, 8N1 and timeout 0; the rate (lines 297-302) is 115200 exactly for the CSAT3B and the UHSAS, else 9600 |
| Framing.Collect | Flux_logger.py:224-227 | the read loop consumes at least one read when it completes a frame, and runs to the end of the input when it does not |
| Framing.Frame | Flux_logger.py:211-229 | a framing call resumes after the reads it consumed, having consumed at least one when it framed something; when it is still waiting it has consumed every read |
| Framing.SerialRead | Flux_logger.py:211-229 | the loop of `serial_read`, with the leading-terminator guard and empty reads, computes exactly `Frame` |
| Framing.FrameAt | Flux_logger.py:220-227 | completeness: at the first terminator or non-ASCII byte after the start, framing returns the ASCII text of all bytes before it, or the decode error for that byte, and resumes right after it |
| Framing.FramePending | Flux_logger.py:224-227 | when no read after the start ends framing, the call is still waiting at the end of the input |
| Framing.FrameSound | Flux_logger.py:224-227 | soundness: a record is the in-order ASCII text of the bytes between its start and the first terminator, has no terminator or non-ASCII byte in between, and never contains the terminator character |
| Framing.FrameDecodeErrorSound | Flux_logger.py:226 | a decode error reports the first byte of 0x80 or above after the start; the partial record is dropped and framing resumes after that byte |
| Framing.LeadingTerminatorTwice | Flux_logger.py:220-221 | only one leading terminator is skipped: a second one ends an empty record |
| Framing.LeadingTerminatorSkipped | Flux_logger.py:220-224 | a leading terminator followed by a record frames that record |
| Framing.EmptyFirstReadKeepsTerminator | Flux_logger.py:213-224 | the guard checks only the first read: after an empty first read, a terminator ends an empty record |
| Framing.EmptyReadsIgnored | Flux_logger.py:224-227 | an empty read after the first appends nothing: removing it changes no framing outcome |
| Framing.Scan | Flux_logger.py:211-229 | the frames that successive `serial_read` calls complete; there are at most as many as there are reads left, since each frame consumes at least one |
| Text.Split | Flux_logger.py:259 | `str.split(c)` yields one more piece than `c` occurs |
| Text.Before | Flux_logger.py:259 | `s.split(c)[0]` is the longest prefix of `s` without `c`, ending just before the first `c` |
| Text.SplitPieces | Flux_logger.py:259 | no piece of `s.split(c)` contains `c` |
| Text.SplitConcat | Flux_logger.py:259 | splitting at a separator splits the two sides independently |
| Text.JoinSplitReplace | Flux_logger.py:259-260 | `b.join(s.split(a))` is `s` with every `a` replaced by `b` |
| Text.JoinSplit | Flux_logger.py:259-260 | round trip: `c.join(s.split(c)) == s` |
| Text.SplitJoin | Flux_logger.py:129 | round trip: splitting a join gives the parts back when no part holds the separator |
| Text.ConvertSeparator | Flux_logger.py:259-260 | for `from != to` and a string `s` without `to`, `to.join(s.split(from))` replaces every `from` by `to`, and splitting the result at `to` gives the original pieces |
| Text.CountAbsent | Flux_logger.py:259 | a character occurs in a string exactly when it is counted there |
| Text.DecimalValue | Flux_logger.py:253 | `str(n)` is a string of digits that reads back as `n` |
| Text.ZeroPadExact | Flux_logger.py:253 | zero padding to width `w` (`"{:05d}"` with `w = 5`) gives exactly `w` digits reading back as `n` when `n < 10^w` |
| Records.LineShape | Flux_logger.py:251-270 | anemometer line = index, date, time, raw; UHSAS line = index, date, time, then the text before the first `\r` with tabs made commas; any other instrument's line = the raw record; every line ends in a newline, and it is the only newline when the record, date and time hold none (a WindMaster record ends at `\r` and so may hold `\n`) |
| Records.FileString | Flux_logger.py:251-265 | `fileString`: for an anemometer the raw record is kept verbatim at the end; an instrument other than the anemometers and the UHSAS gets the raw record unchanged |
| Records.Line | Flux_logger.py:270 | what `read_data` appends ends in a newline |
| Records.IndexField | Flux_logger.py:253 | for anemometers and the UHSAS, while the index is below 100000, the first five characters of a line read back as the index, followed by `", "` |
| Records.UhsasConversion | Flux_logger.py:258-262 | for a record without commas, the converted UHSAS record has no tab and no `\r`, and its comma fields are the tab fields of the text before the first `\r`, one more than its tabs |
| Records.LineFields | Flux_logger.py:251-262 | when the date and time hold no comma (and, for the UHSAS, the record holds none either), a line's comma fields are the index, the date, the time, then the record's own fields: the comma fields of an anemometer record, the tab fields of a UHSAS record |
| Headers.JointHeaderColumns | Flux_logger.py:126-129 | for probed lines without commas, the joined heading has `min(len(a), len(b))` columns, and column `k` is `a[k] + "_" + b[k]` |
| Headers.DefineHeader | Flux_logger.py:122-132 | `define_header` computes `Probe`: two framed records, split, zipped and joined, or the error that stops the program |
| Headers.Probe | Flux_logger.py:122-132 | what `define_header` computes, including the errors that stop the program; `Headers.ProbeColumns` states when it succeeds and what its columns are |
| Headers.ProbeColumns | Flux_logger.py:122-132 | the probe succeeds exactly when the port yields two records in a row; for records without commas its columns then pair the two records' fields |
| Headers.BinTokens | Flux_logger.py:143-149 | there is one bin column per bin |
| Headers.BinHeader | Flux_logger.py:149-150 | the POPS bin header; `Headers.BinHeaderColumns` states its columns |
| Headers.BinHeaders | Flux_logger.py:134-151 | the loop of `bin_headers` computes exactly `BinHeader` |
| Headers.BinHeaderColumns | Flux_logger.py:143-150 | `nbins` columns in bin order; bin `k` runs from edge `k` to edge `k + 1`, so adjacent bins share an edge |
| Headers.HeaderFor | Flux_logger.py:156-209 | a header exists exactly for a recognised instrument and, for the UHSAS, a probed heading (a failing `open` is left out) |
| Headers.CreateLoggingFile | Flux_logger.py:154-209 | a file is made exactly for a recognised instrument and, for the UHSAS, a probed heading (a failing `open` is left out) |
| Headers.HeaderShapes | Flux_logger.py:158-197 | WindMaster, CSAT3B and POPS headers end in a newline; the UHSAS header is the timing columns plus the heading with nothing added; the serial header is empty |
| Headers.Stamp | Flux_logger.py:160-201 | the `%y%m%d%H%M%S` stamp; `Headers.StampFields` states that its digits read back as the clock fields |
| Headers.FilePath | Flux_logger.py:201-202 | `dir_path + "/" + filename`: it starts with the directory and a slash, ends in `.csv`, and is as long as its parts |
| Headers.StampFields | Flux_logger.py:160-201 | `%y%m%d%H%M%S` gives twelve digits that read back, two by two, as year of century, month, day, hour, minute and second |
| Headers.CreatedFile | Flux_logger.py:200-206 | the new file is `dir/<instrument>_` plus those twelve digits plus `.csv`, and it gets the instrument's header |
| Schedule.Countdown | Flux_logger.py:273-287 | the countdown shows nothing exactly in minute 30 |
| Schedule.TriggerOnBoundary | Flux_logger.py:317 | the trigger fires exactly on second 0 of the hour and of the half hour |
| Schedule.CountdownBounds | Flux_logger.py:273-287 | for a valid clock reading the display is within 00:00 to 29:59 |
| Schedule.CountdownToBoundary | Flux_logger.py:276-286 | when shown, the countdown is one second short of the time left to the next hour or half hour |
| Schedule.CountdownSilentInMinuteThirty | Flux_logger.py:278-286 | in minute 30 nothing is shown, although the next start is up to 30 minutes away |
| Acquisition.WaitStep | Flux_logger.py:311-317 | one pass of the waiting loop; `Guarantees.WaitKeeps` states that it keeps the invariant, including that the first file follows the first trigger |
| Acquisition.CreateStep | Flux_logger.py:324-333 | `create_logging_file`, `starttime` and `dataIndex = 0`; `Guarantees.CreateKeeps` states that it keeps the invariant |
| Acquisition.CheckStep | Flux_logger.py:336 | the interval test; `Guarantees.CheckKeeps` states that it keeps the invariant |
| Acquisition.ReadStep | Flux_logger.py:337-343 | `read_data` with the decode-error handler; `Guarantees.ReadKeeps` states that it keeps the invariant, and `Guarantees.DecodeErrorCrashes` states what each handler does |
| Acquisition.Step | Flux_logger.py:310-347 | a step keeps the cursors in range, never moves them backwards, and consumes input unless it stops |
| Acquisition.Loop | Flux_logger.py:310-347 | the loops of `main` always end, stopped, on finite input |
| Acquisition.FinishStep | Flux_logger.py:310-347 | a step changes the state but not where the run ends |
| Acquisition.Run | Flux_logger.py:310-347 | the loops of `main` from program start end stopped on finite input |
| Acquisition.Main | Flux_logger.py:290-347 | `Main` returns `Err` exactly when the instrument is `"uhsas"` and its heading probe fails; every other end, crashes included, is an `Ok` state whose phase says why it stopped |
| Acquisition.Logger | Flux_logger.py:290-347 | `main` computes `Main`: the UHSAS probe, then the run of the loops with the intended error handler |
| Acquisition.Await | Flux_logger.py:311-317 | the waiting loop ends stopped or at the first trigger, on the path of the run |
| Acquisition.Acquire | Flux_logger.py:321-343 | the recording loops reach exactly the end state of the run |
| Acquisition.Interval | Flux_logger.py:336-338 | the interval loop ends stopped or asking for a new file after consuming a clock reading, on the path of the run |
| Acquisition.ReadData | Flux_logger.py:241-271 | `read_data`, `dataIndex += 1` and the handler around them compute exactly one step of the run |
| Guarantees.RunKeeps | Flux_logger.py:310-347 | every run ends in a state that satisfies the invariant |
| Guarantees.RunNumbersRecords | Flux_logger.py:333-338 | entry `k` of every file is written with `dataIndex == k`: the index starts at 0 in each file and rises by one per record |
| Guarantees.RunLinesIndexed | Flux_logger.py:333-338 | for the timed instruments, the line written for entry `k` starts with `k` in five digits while `k < 100000` |
| Guarantees.RunWithinInterval | Flux_logger.py:329-338 | every record in a file was written after a check that found fewer than 1800 s since the file's `starttime` |
| Guarantees.RunFilesNamedByReading | Flux_logger.py:324-331 | every file is named after the clock reading at which it was made, which also gave its `starttime`; it holds the instrument's header; files are made at strictly later readings |
| Guarantees.RunStartsAtTrigger | Flux_logger.py:317-336 | the first file follows the first reading on which the trigger fires; no later file is triggered; a file started for rotation follows a check that found at least 1800 s since the previous file's `starttime` |
| Guarantees.RunKeepsEveryRecord | Flux_logger.py:336-343 | with the intended handler, a run that frames the whole port writes every framed record in order, and logs every decode error in order |
| Guarantees.NoHeaderNoFile | Flux_logger.py:208-209 | without a header no file is made, and a run that frames the whole port then framed no record |
| Guarantees.AsWrittenStopsAtDecodeError | Flux_logger.py:339-343 | as written, the handler never logs and never starts a file; a run that frames the whole port saw no decode error |
| Headers.ProbedHeadingOneLine | Flux_logger.py:122-132 | a heading probed from the UHSAS is nonempty and holds no newline, so it is a single line |
| Guarantees.UhsasHeadingJoinsFirstLine | Flux_logger.py:175-179 | the UHSAS header ends with the heading's last character and no newline, and the first record's five-digit index `00000` follows it directly |
| Guarantees.DecodeErrorCrashes | Flux_logger.py:339-343 | at a decode error the handler as written stops the program; the intended one logs the byte and asks for a new file |
| Guarantees.DecodeErrorStartsNewFile | Flux_logger.py:321-343 | with the intended handler, for an instrument that gets a header and while a clock reading is left, a decode error is followed by a new empty file with the index back at 0; earlier files are unchanged |
| Guarantees.RotationStartsNewFile | Flux_logger.py:321-336 | for an instrument that gets a header and while two clock readings are left, a check that finds at least 1800 s since `starttime` is followed by a new empty file made at the next reading, with the index back at 0 and `starttime` taken from that reading; earlier files are unchanged |
| Guarantees.DecodeErrorExample | Flux_logger.py:52-57 | one concrete port, the byte 200 on a WindMaster: as written, the run ends in the handler |
| Guarantees.DecodeErrorLoggedExample | Flux_logger.py:339-343 | the same port with the intended handler: the byte is logged and the run goes on until the clock runs out |

## Left out

- `serial_ports` and `input_arguments` are OS probing and argument parsing. The instrument string, the directory and the port are inputs of `Main`.
- `open_port` opens the port at the start of recording (line 320) and, for the UHSAS, once before that inside `define_header` (line 123). The model gives the probe its own read sequence, `probe`, and the recording loop the port's reads in `Env`; the port settings are kept only as a table (`Instruments.Settings`).
- I/O is left out: `print`, `sleep(1)`, opening, writing and closing files, and `ser.close()`. A file is modelled by its path, header and entries; `Records.Line` gives the text written for each entry.
- `Headers.HeaderFor` and `Headers.CreateLoggingFile`: an `open` that fails inside `create_logging_file` (line 203) is also caught by its `except` (line 208), which returns `None`. The model assumes opening the file succeeds, so only an unrecognised instrument or a missing UHSAS heading gives `None`.
- `KeyboardInterrupt` is left out. A run ends where the modelled input ends.
- `bin_headers`: `10**x` and `round(…, 2)` are floating point. The edge strings are the input function `edge`; `Headers.BinTokens` is built from them.
- `time.time()` returns float seconds; the model uses integer seconds. The unused `millis` is left out.
- `Acquisition.Loop` ends only because the input is finite. That does not say the real program stops.
- Two files made within the same second get the same name, and `open(…, 'a+')` appends to the existing file. The model keeps them as two files with equal paths.
- The log writes of `log_err_warn` (lines 56-57) are modelled as the byte appended to `errors`. The timestamp and message format are left out.

## Findings

| source | as written | input that shows it | evidently intended | confidence | as-written member | corrected member |
|---|---|---|---|---|---|---|
| Flux_logger.py:54 | `log_err_warn` calls `basicConfig` on a `logging.Logger` object, which has no such method. The handler at lines 339-343 raises `AttributeError`; nothing catches it, and the program ends at the first decode error. | a WindMaster run whose port sends the byte 200 while recording (`Guarantees.ExampleEnv`) | call `logging.basicConfig`, log the error, and carry on with a new file | high; not executed | Guarantees.DecodeErrorExample | Guarantees.DecodeErrorLoggedExample |
