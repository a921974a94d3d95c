/**
 * Record normalisation (`read_data`, formatting part): the text of one
 * framed record becomes one line of the current log file.
 */
module Records {
  import opened Basics
  import opened Text
  import opened Instruments

  /** The two sonic anemometers, whose records are already comma separated. */
  predicate Anemometer(i: Instrument) { i == Csat3b || i == Windmaster }

  /** `"{:05d}".format(index) + ", " + date + ", " + time + ","`. */
  function Prefix(index: nat, date: string, time: string): string
  {
    ZeroPad(index, 5) + ", " + date + ", " + time + ","
  }

  /** `','.join(raw.split("\r")[0].split("\t"))`: the UHSAS record made comma separated. */
  function UhsasFields(raw: string): string
  {
    Join(",", Split(Before(raw, '\r'), '\t'))
  }

  /** `fileString` in `read_data`; `date` and `time` are the two halves of `str(datetime.now())`. */
  function FileString(inst: Instrument, index: nat, date: string, time: string, raw: string): (r: string)
    ensures Anemometer(inst) ==> |raw| < |r| && r[|r| - |raw|..] == raw
    ensures !Anemometer(inst) && inst != Uhsas ==> r == raw
  {
    if Anemometer(inst) then Prefix(index, date, time) + raw
    else if inst == Uhsas then Prefix(index, date, time) + UhsasFields(raw)
    else raw
  }

  /** What `read_data` appends to the file: the formatted record and one newline. */
  function Line(inst: Instrument, index: nat, date: string, time: string, raw: string): (r: string)
    ensures |r| >= 1 && r[|r| - 1] == '\n'
  {
    FileString(inst, index, date, time, raw) + "\n"
  }

  /**
   * The shape of each written line: anemometer records behind the index,
   * date and time; UHSAS records cut at the first carriage return with tabs
   * turned into commas; every other record verbatim; in every case one
   * newline at the end, and no other newline unless the inputs hold one.
   */
  lemma LineShape(inst: Instrument, index: nat, date: string, time: string, raw: string)
    ensures Anemometer(inst) ==>
      Line(inst, index, date, time, raw) == ZeroPad(index, 5) + ", " + date + ", " + time + "," + raw + "\n"
    ensures inst == Uhsas ==>
      Line(inst, index, date, time, raw) ==
        ZeroPad(index, 5) + ", " + date + ", " + time + "," + Replace(Before(raw, '\r'), '\t', ',') + "\n"
    ensures !Anemometer(inst) && inst != Uhsas ==> Line(inst, index, date, time, raw) == raw + "\n"
    ensures var line := Line(inst, index, date, time, raw);
      line[|line| - 1] == '\n' &&
      ('\n' !in raw && '\n' !in date && '\n' !in time ==> '\n' !in line[..|line| - 1])
  {
    JoinSplitReplace(Before(raw, '\r'), '\t', ',');
    var f := FileString(inst, index, date, time, raw);
    assert Line(inst, index, date, time, raw)[..|f|] == f;
    if '\n' !in raw && '\n' !in date && '\n' !in time {
      NoNewline(inst, index, date, time, raw);
    }
  }

  lemma NoNewline(inst: Instrument, index: nat, date: string, time: string, raw: string)
    requires '\n' !in raw && '\n' !in date && '\n' !in time
    ensures '\n' !in FileString(inst, index, date, time, raw)
  {
    ZeroPadDigits(index, 5);
    DigitsHaveNoNewline(ZeroPad(index, 5));
    if inst == Uhsas {
      var b := Before(raw, '\r');
      assert forall k :: 0 <= k < |b| ==> b[k] == raw[k];
      JoinSplitReplace(b, '\t', ',');
      assert '\n' !in Replace(b, '\t', ',');
    }
  }

  lemma DigitsHaveNoNewline(s: string)
    requires IsDigits(s)
    ensures '\n' !in s
  {
  }

  /** The index field reads back as the index while it fits in five digits. */
  lemma IndexField(inst: Instrument, index: nat, date: string, time: string, raw: string)
    requires Anemometer(inst) || inst == Uhsas
    requires index < 100000
    ensures var line := Line(inst, index, date, time, raw);
      |line| > 5 && IsDigits(line[..5]) && DigitsValue(line[..5]) == index && line[5..7] == ", "
  {
    var tail := if inst == Uhsas then UhsasFields(raw) else raw;
    assert Line(inst, index, date, time, raw) == Prefix(index, date, time) + (tail + "\n");
    PrefixIndex(index, date, time, tail + "\n");
  }

  lemma PrefixIndex(index: nat, date: string, time: string, tail: string)
    requires index < 100000
    ensures var line := Prefix(index, date, time) + tail;
      |line| > 5 && IsDigits(line[..5]) && DigitsValue(line[..5]) == index && line[5..7] == ", "
  {
    assert Pow10(5) == 100000 by {
      assert Pow10(1) == 10;
      assert Pow10(2) == 100;
      assert Pow10(3) == 1000;
      assert Pow10(4) == 10000;
    }
    ZeroPadExact(index, 5);
    var z := ZeroPad(index, 5);
    var line := Prefix(index, date, time) + tail;
    assert line == z + (", " + date + ", " + time + "," + tail);
    assert line[..5] == z;
  }

  /**
   * UHSAS conversion: only the text before the first carriage return is
   * kept, no tab is left, and the fields are that text's tab-separated
   * fields, one more than its tabs.
   */
  lemma UhsasConversion(raw: string)
    requires ',' !in raw
    ensures '\t' !in UhsasFields(raw) && '\r' !in UhsasFields(raw)
    ensures Split(UhsasFields(raw), ',') == Split(Before(raw, '\r'), '\t')
    ensures |Split(UhsasFields(raw), ',')| == 1 + Count(Before(raw, '\r'), '\t')
  {
    var b := Before(raw, '\r');
    assert forall k :: 0 <= k < |b| ==> b[k] == raw[k];
    assert ',' !in b;
    ConvertSeparator(b, '\t', ',');
  }

  /**
   * The comma-separated fields of a line: an anemometer line is the index,
   * the date and the time followed by the record's own fields; a UHSAS line
   * is the same three followed by the record's tab-separated fields.
   */
  lemma LineFields(inst: Instrument, index: nat, date: string, time: string, raw: string)
    requires ',' !in date && ',' !in time
    ensures Anemometer(inst) ==>
      Split(FileString(inst, index, date, time, raw), ',') ==
        [ZeroPad(index, 5), " " + date, " " + time] + Split(raw, ',')
    ensures inst == Uhsas && ',' !in raw ==>
      Split(FileString(inst, index, date, time, raw), ',') ==
        [ZeroPad(index, 5), " " + date, " " + time] + Split(Before(raw, '\r'), '\t')
  {
    if Anemometer(inst) {
      PrefixFields(index, date, time, raw);
    } else if inst == Uhsas && ',' !in raw {
      PrefixFields(index, date, time, UhsasFields(raw));
      UhsasConversion(raw);
    }
  }

  lemma PrefixFields(index: nat, date: string, time: string, rest: string)
    requires ',' !in date && ',' !in time
    ensures Split(Prefix(index, date, time) + rest, ',') ==
      [ZeroPad(index, 5), " " + date, " " + time] + Split(rest, ',')
  {
    var z := ZeroPad(index, 5);
    ZeroPadDigits(index, 5);
    DigitsHaveNoComma(z);
    PrefixAsFields(z, date, time, rest);
    ThreeFields(z, " " + date, " " + time, rest);
  }

  lemma ThreeFields(z: string, d: string, t: string, rest: string)
    requires ',' !in z && ',' !in d && ',' !in t
    ensures Split(z + [','] + (d + [','] + (t + [','] + rest)), ',') == [z, d, t] + Split(rest, ',')
  {
    var s3 := t + [','] + rest;
    var s2 := d + [','] + s3;
    FieldCons(t, rest);
    FieldCons(d, s3);
    FieldCons(z, s2);
    SeqThree(z, d, t, Split(rest, ','));
  }

  lemma SeqThree(z: string, d: string, t: string, r: seq<string>)
    ensures [z] + ([d] + ([t] + r)) == [z, d, t] + r
  {
  }

  lemma PrefixAsFields(z: string, date: string, time: string, rest: string)
    ensures z + ", " + date + ", " + time + "," + rest ==
      z + [','] + ((" " + date) + [','] + ((" " + time) + [','] + rest))
  {
  }

  /** One comma-free field in front of a comma. */
  lemma FieldCons(field: string, rest: string)
    requires ',' !in field
    ensures Split(field + [','] + rest, ',') == [field] + Split(rest, ',')
  {
    SplitConcat(field, rest, ',');
    SplitNoSeparator(field, ',');
  }
}
