/**
 * The instrument profiles the logger knows. The program names an instrument
 * by the string given on its command line; every branch of the program
 * compares that string against the five names below, and a name matching
 * none of them falls through to each branch's default.
 */
module Instruments {
  import opened Basics

  datatype Instrument =
    | Serial        // generic serial device, the command-line default
    | Windmaster    // Gill WindMaster sonic anemometer
    | Csat3b        // Campbell CSAT3B sonic anemometer
    | Pops          // portable optical particle spectrometer
    | Uhsas         // ultra-high-sensitivity aerosol spectrometer
    | Unrecognised(name: string)

  const KnownNames: set<string> := {"serial", "windmaster", "csat3b", "pops", "uhsas"}

  /** An `Unrecognised` value carries a name that is really not one of the five. */
  predicate WellFormed(i: Instrument) {
    i.Unrecognised? ==> i.name !in KnownNames
  }

  predicate Recognised(i: Instrument) { !i.Unrecognised? }

  /** The command-line string that selects `i`. */
  function Name(i: Instrument): string {
    match i
    case Serial => "serial"
    case Windmaster => "windmaster"
    case Csat3b => "csat3b"
    case Pops => "pops"
    case Uhsas => "uhsas"
    case Unrecognised(n) => n
  }

  /** The string comparisons `instrument_type == "..."`, made once. */
  function Identify(name: string): (i: Instrument)
    ensures Name(i) == name && WellFormed(i)
    ensures Recognised(i) <==> name in KnownNames
  {
    if name == "serial" then Serial
    else if name == "windmaster" then Windmaster
    else if name == "csat3b" then Csat3b
    else if name == "pops" then Pops
    else if name == "uhsas" then Uhsas
    else Unrecognised(name)
  }

  /** Round trip: identifying an instrument's own name gives the instrument back. */
  lemma IdentifyName(i: Instrument)
    requires WellFormed(i)
    ensures Identify(Name(i)) == i
  {
  }

  const CR: byte := 13
  const LF: byte := 10

  /** The byte that ends one record: carriage return for the WindMaster, newline otherwise. */
  function Terminator(i: Instrument): (t: byte)
    ensures t == CR <==> i == Windmaster
    ensures t == LF <==> i != Windmaster
  {
    if i == Windmaster then CR else LF
  }

  /** Baud rate chosen in `main`: 9600 unless the instrument is the CSAT3B or the UHSAS. */
  function Baud(i: Instrument): (rate: nat)
  {
    if i == Csat3b || i == Uhsas then 115200 else 9600
  }

  /** Serial line settings passed to the port; only flow control differs by instrument. */
  datatype LineSettings = LineSettings(
    dataBits: nat, parityNone: bool, stopBits: nat,
    rtscts: bool, xonxoff: bool, dsrdtr: bool,
    nonBlocking: bool)

  function Settings(i: Instrument): LineSettings
  {
    if i == Csat3b then LineSettings(8, true, 1, true, true, true, true)
    else LineSettings(8, true, 1, true, false, false, true)
  }

  /**
   * The per-instrument configuration: exactly two instruments use the higher
   * rate, exactly one enables software flow control and modem-ready
   * signalling, all use hardware flow control, 8N1 framing and non-blocking
   * reads, and only the WindMaster ends its records with a carriage return.
   */
  lemma ProfileTable(i: Instrument)
    ensures Baud(i) == 115200 <==> i in {Csat3b, Uhsas}
    ensures Baud(i) == 9600 <==> i !in {Csat3b, Uhsas}
    ensures Settings(i).xonxoff <==> i == Csat3b
    ensures Settings(i).dsrdtr <==> i == Csat3b
    ensures Settings(i).rtscts && Settings(i).nonBlocking
    ensures Settings(i).dataBits == 8 && Settings(i).parityNone && Settings(i).stopBits == 1
    ensures Terminator(i) == CR <==> i == Windmaster
  {
  }
}
