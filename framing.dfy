/**
 * Record framing (`serial_read`): one record is the ASCII text of the bytes
 * read before the instrument's terminator. The port is opened with a zero
 * timeout, so a read yields either one byte or nothing; the port is modelled
 * as the sequence of what its successive reads return, and a framing call
 * starts at a cursor into that sequence and reports where the next call
 * resumes.
 */
module Framing {
  import opened Basics
  import opened Instruments

  /** What one `ser.read()` returns: no byte (nothing arrived yet) or one byte. */
  type Read = s: seq<byte> | |s| <= 1

  /** A framed record, or the byte that ASCII decoding rejected. */
  datatype Framed = Record(text: string) | DecodeError(bad: byte)

  /**
   * `Pending`: the modelled reads ran out before a terminator or a bad byte;
   * the program would still be polling the port.
   */
  datatype Outcome = Got(framed: Framed) | Pending

  /** An outcome and the index of the first read not consumed. */
  datatype Framing = Framing(outcome: Outcome, next: nat)

  /** ASCII decoding of one byte below 0x80. */
  function Ascii(b: byte): char
  {
    (b as int) as char
  }

  function AsciiText(bs: seq<byte>): (s: string)
    ensures |s| == |bs|
  {
    seq(|bs|, k requires 0 <= k < |bs| => Ascii(bs[k]))
  }

  /** All bytes delivered by a run of reads, in order (empty reads add nothing). */
  function Flatten(rs: seq<Read>): seq<byte>
  {
    if |rs| == 0 then [] else rs[0] + Flatten(rs[1..])
  }

  /** A read that ends framing: the terminator, or a byte that is not ASCII. */
  predicate Stops(r: Read, term: byte)
  {
    r == [term] || (|r| == 1 && r[0] >= 128)
  }

  /** No read in `port[i..k]` ends framing. */
  ghost predicate Quiet(port: seq<Read>, i: nat, k: nat, term: byte)
    requires i <= k <= |port|
  {
    forall j :: i <= j < k ==> !Stops(port[j], term)
  }

  /** The body of the read loop: `acc` is the text decoded so far, `port[i]` the byte in hand. */
  function Collect(port: seq<Read>, i: nat, term: byte, acc: string): (f: Framing)
    requires i <= |port|
    ensures i <= f.next <= |port|
    ensures f.outcome.Pending? ==> f.next == |port|
    ensures f.outcome.Got? ==> i < f.next
    decreases |port| - i
  {
    if i == |port| then Framing(Pending, |port|)
    else if port[i] == [term] then Framing(Got(Record(acc)), i + 1)
    else if port[i] == [] then Collect(port, i + 1, term, acc)
    else if port[i][0] >= 128 then Framing(Got(DecodeError(port[i][0])), i + 1)
    else Collect(port, i + 1, term, acc + [Ascii(port[i][0])])
  }

  /** Where the record starts: one terminator in the very first read is skipped. */
  function Start(port: seq<Read>, pos: nat, term: byte): (s: nat)
    requires pos <= |port|
    ensures pos <= s <= |port|
  {
    if pos < |port| && port[pos] == [term] then pos + 1 else pos
  }

  /** The specification of `serial_read` from cursor `pos`. */
  function Frame(port: seq<Read>, pos: nat, inst: Instrument): (f: Framing)
    requires pos <= |port|
    ensures pos <= f.next <= |port|
    ensures f.outcome.Pending? ==> f.next == |port|
    ensures f.outcome.Got? ==> pos < f.next
  {
    var term := Terminator(inst);
    Collect(port, Start(port, pos, term), term, "")
  }

  /** `serial_read`: the read loop over the port from cursor `pos`. */
  method SerialRead(port: seq<Read>, pos: nat, inst: Instrument) returns (f: Framing)
    requires pos <= |port|
    ensures f == Frame(port, pos, inst)
  {
    var valueString := "";
    var term := Terminator(inst);
    var i := pos;
    if i == |port| {
      return Framing(Pending, |port|);
    }
    var mchar := port[i];
    i := i + 1;
    if mchar == [term] {
      if i == |port| {
        return Framing(Pending, |port|);
      }
      mchar := port[i];
      i := i + 1;
    }
    while mchar != [term]
      invariant pos < i <= |port|
      invariant mchar == port[i - 1]
      invariant Collect(port, i - 1, term, valueString) == Frame(port, pos, inst)
      decreases |port| - i
    {
      if |mchar| == 1 {
        if mchar[0] >= 128 {
          return Framing(Got(DecodeError(mchar[0])), i);
        }
        valueString := valueString + [Ascii(mchar[0])];
      }
      if i == |port| {
        return Framing(Pending, |port|);
      }
      mchar := port[i];
      i := i + 1;
    }
    f := Framing(Got(Record(valueString)), i);
  }

  // ----- what framing computes, stated without the loop -----

  lemma FlattenStep(port: seq<Read>, i: nat, k: nat)
    requires i < k <= |port|
    ensures Flatten(port[i..k]) == port[i] + Flatten(port[i + 1..k])
  {
    assert port[i..k][1..] == port[i + 1..k];
  }

  lemma AsciiTextConcat(a: seq<byte>, b: seq<byte>)
    ensures AsciiText(a + b) == AsciiText(a) + AsciiText(b)
  {
  }

  lemma {:induction false} CollectAt(port: seq<Read>, i: nat, term: byte, acc: string, k: nat)
    requires term < 128
    requires i <= k < |port| && Stops(port[k], term) && Quiet(port, i, k, term)
    ensures Collect(port, i, term, acc) ==
      Framing(Got(if port[k] == [term] then Record(acc + AsciiText(Flatten(port[i..k])))
                  else DecodeError(port[k][0])), k + 1)
    decreases k - i
  {
    if i == k {
      assert port[i..k] == [];
      assert AsciiText(Flatten(port[i..k])) == "";
      assert acc + AsciiText(Flatten(port[i..k])) == acc;
      if port[k] != [term] {
        assert |port[k]| == 1 && port[k][0] >= 128;
        assert port[k] != [];
      }
    } else {
      var rest := Flatten(port[i + 1..k]);
      FlattenStep(port, i, k);
      AsciiTextConcat(port[i], rest);
      if port[i] == [] {
        assert Flatten(port[i..k]) == rest;
        CollectAt(port, i + 1, term, acc, k);
      } else {
        assert AsciiText(port[i]) == [Ascii(port[i][0])];
        CollectAt(port, i + 1, term, acc + [Ascii(port[i][0])], k);
        assert acc + [Ascii(port[i][0])] + AsciiText(rest) == acc + AsciiText(Flatten(port[i..k]));
      }
    }
  }

  lemma {:induction false} CollectQuiet(port: seq<Read>, i: nat, term: byte, acc: string)
    requires i <= |port| && Quiet(port, i, |port|, term)
    ensures Collect(port, i, term, acc) == Framing(Pending, |port|)
    decreases |port| - i
  {
    if i < |port| {
      if port[i] == [] {
        CollectQuiet(port, i + 1, term, acc);
      } else {
        CollectQuiet(port, i + 1, term, acc + [Ascii(port[i][0])]);
      }
    }
  }

  /**
   * Completeness: when `port[k]` is the first terminator or non-ASCII byte at
   * or after the record's start, framing returns the ASCII text of all bytes
   * read before it (or the decode error for that byte) and resumes at k + 1.
   */
  lemma FrameAt(port: seq<Read>, pos: nat, inst: Instrument, k: nat)
    requires pos <= |port|
    requires var t := Terminator(inst); Start(port, pos, t) <= k < |port| && Stops(port[k], t)
    requires var t := Terminator(inst); Quiet(port, Start(port, pos, t), k, t)
    ensures var t := Terminator(inst); var s := Start(port, pos, t);
      Frame(port, pos, inst) ==
        Framing(Got(if port[k] == [t] then Record(AsciiText(Flatten(port[s..k])))
                    else DecodeError(port[k][0])), k + 1)
  {
    var t := Terminator(inst);
    var s := Start(port, pos, t);
    CollectAt(port, s, t, "", k);
    assert "" + AsciiText(Flatten(port[s..k])) == AsciiText(Flatten(port[s..k]));
  }

  /** When no read after the start ends framing, the call is still waiting. */
  lemma FramePending(port: seq<Read>, pos: nat, inst: Instrument)
    requires pos <= |port|
    requires var t := Terminator(inst); Quiet(port, Start(port, pos, t), |port|, t)
    ensures Frame(port, pos, inst) == Framing(Pending, |port|)
  {
    var t := Terminator(inst);
    CollectQuiet(port, Start(port, pos, t), t, "");
  }

  /** Where a framed read ends: at the first read that stops framing, which tells record from error. */
  lemma {:induction false} CollectEnd(port: seq<Read>, i: nat, term: byte, acc: string)
    requires term < 128 && i <= |port|
    requires Collect(port, i, term, acc).outcome.Got?
    ensures var f := Collect(port, i, term, acc);
      i < f.next && Stops(port[f.next - 1], term) && Quiet(port, i, f.next - 1, term) &&
      (f.outcome.framed.Record? <==> port[f.next - 1] == [term]) &&
      (f.outcome.framed.DecodeError? ==> port[f.next - 1] == [f.outcome.framed.bad])
    decreases |port| - i
  {
    if !(port[i] == [term] || (|port[i]| == 1 && port[i][0] >= 128)) {
      var acc' := if port[i] == [] then acc else acc + [Ascii(port[i][0])];
      CollectEnd(port, i + 1, term, acc');
    }
  }

  /** A framed record is the text decoded so far followed by the reads before the terminator. */
  lemma {:induction false} CollectText(port: seq<Read>, i: nat, term: byte, acc: string)
    requires term < 128 && i <= |port|
    requires Collect(port, i, term, acc).outcome.Got? && Collect(port, i, term, acc).outcome.framed.Record?
    ensures var f := Collect(port, i, term, acc);
      i < f.next && f.outcome.framed.text == acc + AsciiText(Flatten(port[i..f.next - 1]))
    decreases |port| - i
  {
    var f := Collect(port, i, term, acc);
    if port[i] == [term] || (|port[i]| == 1 && port[i][0] >= 128) {
      assert port[i..i] == [];
    } else {
      var acc' := if port[i] == [] then acc else acc + [Ascii(port[i][0])];
      CollectText(port, i + 1, term, acc');
      var rest := Flatten(port[i + 1..f.next - 1]);
      FlattenStep(port, i, f.next - 1);
      AsciiTextConcat(port[i], rest);
      if port[i] != [] {
        assert AsciiText(port[i]) == [Ascii(port[i][0])];
      }
    }
  }

  lemma {:induction false} QuietBytes(port: seq<Read>, i: nat, k: nat, term: byte)
    requires i <= k <= |port| && Quiet(port, i, k, term)
    ensures forall b :: b in Flatten(port[i..k]) ==> b < 128 && b != term
    decreases k - i
  {
    if i < k {
      FlattenStep(port, i, k);
      QuietBytes(port, i + 1, k, term);
    } else {
      assert port[i..k] == [];
    }
  }

  /**
   * Soundness: a framed record is the in-order ASCII text of the bytes read
   * after the start and before a terminator, none of them a terminator, and
   * the record never contains the terminator character.
   */
  lemma FrameSound(port: seq<Read>, pos: nat, inst: Instrument)
    requires pos <= |port|
    requires Frame(port, pos, inst).outcome.Got?
    requires Frame(port, pos, inst).outcome.framed.Record?
    ensures var t := Terminator(inst); var s := Start(port, pos, t); var n := Frame(port, pos, inst).next;
      s < n <= |port| && port[n - 1] == [t] && Quiet(port, s, n - 1, t) &&
      Frame(port, pos, inst).outcome.framed.text == AsciiText(Flatten(port[s..n - 1])) &&
      Ascii(t) !in Frame(port, pos, inst).outcome.framed.text
  {
    var t := Terminator(inst);
    var s := Start(port, pos, t);
    var f := Frame(port, pos, inst);
    CollectEnd(port, s, t, "");
    CollectText(port, s, t, "");
    QuietBytes(port, s, f.next - 1, t);
    var bs := Flatten(port[s..f.next - 1]);
    forall j | 0 <= j < |bs| ensures AsciiText(bs)[j] != Ascii(t) {
      assert bs[j] in bs;
      assert Ascii(bs[j]) as int == bs[j] as int;
    }
  }

  /** A decode error names the first non-ASCII byte; the partial record is dropped. */
  lemma FrameDecodeErrorSound(port: seq<Read>, pos: nat, inst: Instrument)
    requires pos <= |port|
    requires Frame(port, pos, inst).outcome.Got?
    requires Frame(port, pos, inst).outcome.framed.DecodeError?
    ensures var t := Terminator(inst); var s := Start(port, pos, t); var f := Frame(port, pos, inst);
      s < f.next <= |port| && port[f.next - 1] == [f.outcome.framed.bad] &&
      f.outcome.framed.bad >= 128 && Quiet(port, s, f.next - 1, t)
  {
    var t := Terminator(inst);
    CollectEnd(port, Start(port, pos, t), t, "");
  }

  /** Exactly one leading terminator is skipped: a second one ends an empty record. */
  lemma LeadingTerminatorTwice(port: seq<Read>, pos: nat, inst: Instrument)
    requires pos + 1 < |port|
    requires port[pos] == [Terminator(inst)] && port[pos + 1] == [Terminator(inst)]
    ensures Frame(port, pos, inst) == Framing(Got(Record("")), pos + 2)
  {
  }

  /** A leading terminator followed by a record frames that record, not an empty one. */
  lemma LeadingTerminatorSkipped(port: seq<Read>, pos: nat, inst: Instrument, k: nat)
    requires pos < k < |port| && port[pos] == [Terminator(inst)] && port[k] == [Terminator(inst)]
    requires Quiet(port, pos + 1, k, Terminator(inst))
    ensures Frame(port, pos, inst) == Framing(Got(Record(AsciiText(Flatten(port[pos + 1..k])))), k + 1)
  {
    FrameAt(port, pos, inst, k);
  }

  /**
   * The guard looks only at the first read: when that read is empty, a
   * terminator right after it ends an empty record.
   */
  lemma EmptyFirstReadKeepsTerminator(port: seq<Read>, pos: nat, inst: Instrument)
    requires pos + 1 < |port| && port[pos] == [] && port[pos + 1] == [Terminator(inst)]
    ensures Frame(port, pos, inst) == Framing(Got(Record("")), pos + 2)
  {
    var t := Terminator(inst);
    assert port[pos] != [t];
    assert Start(port, pos, t) == pos;
    assert Collect(port, pos + 1, t, "") == Framing(Got(Record("")), pos + 2);
  }

  lemma {:induction false} CollectShift(port: seq<Read>, j: nat, k: nat, term: byte, acc: string)
    requires j < |port| && j <= k <= |port| - 1
    ensures var port' := port[..j] + port[j + 1..];
      Collect(port, k + 1, term, acc).outcome == Collect(port', k, term, acc).outcome
    decreases |port| - k
  {
    var port' := port[..j] + port[j + 1..];
    if k < |port'| {
      assert port'[k] == port[k + 1];
      var acc' := if port[k + 1] == [] || port[k + 1] == [term] || port[k + 1][0] >= 128 then acc
                  else acc + [Ascii(port[k + 1][0])];
      CollectShift(port, j, k + 1, term, acc');
    }
  }

  lemma {:induction false} CollectSkipEmpty(port: seq<Read>, i: nat, j: nat, term: byte, acc: string)
    requires i <= j < |port| && port[j] == []
    ensures Collect(port, i, term, acc).outcome == Collect(port[..j] + port[j + 1..], i, term, acc).outcome
    decreases j - i
  {
    var port' := port[..j] + port[j + 1..];
    if i == j {
      CollectShift(port, j, j, term, acc);
    } else {
      assert port'[i] == port[i];
      var acc' := if port[i] == [] || port[i] == [term] || port[i][0] >= 128 then acc
                  else acc + [Ascii(port[i][0])];
      CollectSkipEmpty(port, i + 1, j, term, acc');
    }
  }

  /** An empty read after the first one appends nothing: removing it changes no outcome. */
  lemma EmptyReadsIgnored(port: seq<Read>, pos: nat, inst: Instrument, j: nat)
    requires pos < j < |port| && port[j] == []
    ensures Frame(port, pos, inst).outcome == Frame(port[..j] + port[j + 1..], pos, inst).outcome
  {
    var t := Terminator(inst);
    var port' := port[..j] + port[j + 1..];
    assert port'[pos] == port[pos];
    assert Start(port', pos, t) == Start(port, pos, t);
    CollectSkipEmpty(port, Start(port, pos, t), j, t, "");
  }

  // ----- the stream of frames -----

  /**
   * Every frame `serial_read` would complete, call after call, from cursor
   * `pos` to the end of the input; each consumes at least one read.
   */
  function Scan(port: seq<Read>, pos: nat, inst: Instrument): (r: seq<Framed>)
    requires pos <= |port|
    ensures |r| <= |port| - pos
    decreases |port| - pos
  {
    var f := Frame(port, pos, inst);
    if f.outcome.Pending? then [] else [f.outcome.framed] + Scan(port, f.next, inst)
  }

  /** The texts of the complete records, in order. */
  function RecordTexts(fs: seq<Framed>): seq<string>
  {
    if |fs| == 0 then []
    else (if fs[0].Record? then [fs[0].text] else []) + RecordTexts(fs[1..])
  }

  /** The offending bytes of the decode errors, in order. */
  function BadBytes(fs: seq<Framed>): seq<byte>
  {
    if |fs| == 0 then []
    else (if fs[0].DecodeError? then [fs[0].bad] else []) + BadBytes(fs[1..])
  }
}
