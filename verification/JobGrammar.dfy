/** The command language of job files: what each call of get_next and its parse_ companion takes
    from the text ahead, on every text, well formed or not; and the canonical way to write a command. */
module JobGrammar {
  import opened Seating
  import opened Decimal

  /** The two versions of the language: Part 1 has BARRIER and a thread id in WAIT, Part 2 neither. */
  datatype Dialect = Part1 | Part2

  datatype Command =
    | Create(id: nat, rows: nat, cols: nat)
    | Reserve(id: nat, seats: seq<Seat>)
    | Show(id: nat)
    | ListEvents
    | Wait(delay: nat, target: Option<nat>)
    | Help
    | Barrier
    | Empty
    | Invalid
    | EndOfCommands

  /** The word a line starts with, as get_next reports it. */
  datatype Keyword = KCreate | KReserve | KShow | KList | KWait | KHelp | KBarrier | KEmpty | KInvalid | KEnd

  datatype Read<+T> = Read(value: T, rest: string)

  /** Skip to just after the next newline. If the newline of the current line has been taken
      already, this drops the line after it. */
  function Cleanup(s: string): (r: string)
    ensures |r| <= |s|
  {
    if s == "" then "" else if s[0] == '\n' then s[1..] else Cleanup(s[1..])
  }

  /** At most `n` characters. */
  function Ahead(s: string, n: nat): string {
    if n <= |s| then s[..n] else s
  }

  function Beyond(s: string, n: nat): (r: string)
    ensures |r| <= |s|
  {
    if n <= |s| then s[n..] else ""
  }

  /** A keyword that must be followed by arguments; its last character is a space. */
  function Word(s: string, word: string, k: Keyword): (r: Read<Keyword>)
    requires word != "" && s != ""
    ensures r.value in {k, KInvalid} && |r.rest| < |s|
  {
    if Ahead(s, |word|) == word then Read(k, Beyond(s, |word|))
    else Read(KInvalid, Cleanup(Beyond(s, |word|)))
  }

  /** A keyword that must be alone on its line. */
  function WholeLine(s: string, word: string, k: Keyword): (w: Read<Keyword>)
    requires word != "" && s != ""
    ensures w.value in {k, KInvalid} && |w.rest| < |s|
  {
    var r := Word(s, word, k);
    if r.value == KInvalid || r.rest == "" then r
    else if r.rest[0] != '\n' then Read(KInvalid, Cleanup(r.rest[1..]))
    else Read(k, r.rest[1..])
  }

  function GetNext(d: Dialect, s: string): (r: Read<Keyword>)
    ensures r.value == KEnd <==> s == ""
    ensures if s == "" then r.rest == "" else |r.rest| < |s|
  {
    if s == "" then Read(KEnd, "")
    else match s[0]
      case 'C' => Word(s, "CREATE ", KCreate)
      case 'R' => Word(s, "RESERVE ", KReserve)
      case 'S' => Word(s, "SHOW ", KShow)
      case 'L' => WholeLine(s, "LIST", KList)
      case 'W' => Word(s, "WAIT ", KWait)
      case 'H' => WholeLine(s, "HELP", KHelp)
      case '#' => Read(KEmpty, Cleanup(s[1..]))
      case '\n' => Read(KEmpty, s[1..])
      case c =>
        if c == 'B' && d.Part1? then WholeLine(s, "BARRIER", KBarrier)
        else Read(KInvalid, Cleanup(s[1..]))
  }

  predicate LineEnd(c: char) { c == '\n' || c == '\0' }

  function ParseCreate(s: string): (r: Read<Option<Command>>)
    ensures |r.rest| <= |s|
    ensures r.value.Some? ==> !r.value.value.EndOfCommands?
  {
    var id := ReadUint(s);
    if id.value.None? || id.next != ' ' then Read(None, Cleanup(id.rest)) else
    var rows := ReadUint(id.rest);
    if rows.value.None? || rows.next != ' ' then Read(None, Cleanup(rows.rest)) else
    var cols := ReadUint(rows.rest);
    if cols.value.None? || !LineEnd(cols.next) then Read(None, Cleanup(cols.rest))
    else Read(Some(Create(id.value.value, rows.value.value, cols.value.value)), cols.rest)
  }

  /** One `(x,y)` and the character after it, which says whether another seat follows. */
  function ParseSeat(s: string): (r: Read<Option<(Seat, bool)>>)
    ensures if s == "" then r.value.None? else |r.rest| < |s|
  {
    if s == "" || s[0] != '(' then Read(None, Cleanup(Beyond(s, 1))) else
    var x := ReadUint(s[1..]);
    if x.value.None? || x.next != ',' then Read(None, Cleanup(x.rest)) else
    var y := ReadUint(x.rest);
    if y.value.None? || y.next != ')' then Read(None, Cleanup(y.rest)) else
    if y.rest == "" || (y.rest[0] != ' ' && y.rest[0] != ']') then Read(None, Cleanup(Beyond(y.rest, 1)))
    else Read(Some((Seat(x.value.value, y.value.value), y.rest[0] == ' ')), y.rest[1..])
  }

  /** What follows a complete seat list must be the end of the line. */
  function AfterList(s: string, seats: seq<Seat>): (r: Read<Option<seq<Seat>>>)
    ensures |r.rest| <= |s|
  {
    if s == "" || !LineEnd(s[0]) then Read(None, Cleanup(Beyond(s, 1))) else Read(Some(seats), s[1..])
  }

  /** The rest of a seat list of which `got` have been read. */
  function ParseSeats(s: string, got: seq<Seat>): (w: Read<Option<seq<Seat>>>)
    ensures |w.rest| <= |s|
    decreases |s|
  {
    var r := ParseSeat(s);
    if r.value.None? then Read(None, r.rest) else
    var (seat, more) := r.value.value;
    var all := got + [seat];
    if more && |all| < MAX_RESERVATION_SIZE then ParseSeats(r.rest, all)
    else if |all| >= MAX_RESERVATION_SIZE then Read(None, Cleanup(r.rest))
    else AfterList(r.rest, all)
  }

  /** How a seat list goes on after one seat has been read. */
  lemma AfterSeat(s: string, got: seq<Seat>, seat: Seat, more: bool, rest: string)
    requires ParseSeat(s) == Read(Some((seat, more)), rest)
    ensures more && |got| + 1 < MAX_RESERVATION_SIZE ==> ParseSeats(s, got) == ParseSeats(rest, got + [seat])
    ensures |got| + 1 >= MAX_RESERVATION_SIZE ==> ParseSeats(s, got) == Read(None, Cleanup(rest))
    ensures !more && |got| + 1 < MAX_RESERVATION_SIZE ==> ParseSeats(s, got) == AfterList(rest, got + [seat])
  {
  }

  function ParseReserve(s: string): (r: Read<Option<Command>>)
    ensures |r.rest| <= |s|
    ensures r.value.Some? ==> !r.value.value.EndOfCommands?
  {
    var id := ReadUint(s);
    if id.value.None? || id.next != ' ' then Read(None, Cleanup(id.rest)) else
    if id.rest == "" || id.rest[0] != '[' then Read(None, Cleanup(Beyond(id.rest, 1))) else
    var seats := ParseSeats(id.rest[1..], []);
    if seats.value.None? then Read(None, seats.rest)
    else Read(Some(Reserve(id.value.value, seats.value.value)), seats.rest)
  }

  function ParseShow(s: string): (r: Read<Option<Command>>)
    ensures |r.rest| <= |s|
    ensures r.value.Some? ==> !r.value.value.EndOfCommands?
  {
    var id := ReadUint(s);
    if id.value.None? || !LineEnd(id.next) then Read(None, Cleanup(id.rest))
    else Read(Some(Show(id.value.value)), id.rest)
  }

  /** Part 2 passes no place for a thread id and skips it. */
  function ParseWait(d: Dialect, s: string): (r: Read<Option<Command>>)
    ensures |r.rest| <= |s|
    ensures r.value.Some? ==> !r.value.value.EndOfCommands?
  {
    var delay := ReadUint(s);
    if delay.value.None? then Read(None, Cleanup(delay.rest))
    else if delay.next == ' ' then
      if d.Part2? then Read(Some(Wait(delay.value.value, None)), Cleanup(delay.rest))
      else
        var tid := ReadUint(delay.rest);
        if tid.value.None? || !LineEnd(tid.next) then Read(None, Cleanup(tid.rest))
        else Read(Some(Wait(delay.value.value, tid.value)), tid.rest)
    else if LineEnd(delay.next) then Read(Some(Wait(delay.value.value, None)), delay.rest)
    else Read(None, Cleanup(delay.rest))
  }

  function OrInvalid(r: Read<Option<Command>>): Read<Command> {
    Read(if r.value.Some? then r.value.value else Invalid, r.rest)
  }

  /** One turn of the command loop: get_next and, by its answer, the matching parse function.
      Part 1 refuses a WAIT of no time. */
  function NextCommand(d: Dialect, s: string): Read<Command> {
    var k := GetNext(d, s);
    match k.value
    case KCreate => OrInvalid(ParseCreate(k.rest))
    case KReserve => OrInvalid(ParseReserve(k.rest))
    case KShow => OrInvalid(ParseShow(k.rest))
    case KWait =>
      var r := OrInvalid(ParseWait(d, k.rest));
      if d.Part1? && r.value.Wait? && r.value.delay == 0 then Read(Invalid, r.rest) else r
    case KList => Read(ListEvents, k.rest)
    case KHelp => Read(Help, k.rest)
    case KBarrier => Read(Barrier, k.rest)
    case KEmpty => Read(Empty, k.rest)
    case KInvalid => Read(Invalid, k.rest)
    case KEnd => Read(EndOfCommands, k.rest)
  }

  /** Every command but the end of the file takes at least one character. */
  lemma CommandShorter(d: Dialect, s: string)
    ensures s == "" <==> NextCommand(d, s).value == EndOfCommands
    ensures s == "" ==> NextCommand(d, s).rest == ""
    ensures s != "" ==> |NextCommand(d, s).rest| < |s|
  {
  }

  /** The commands of a whole file, read by one thread. */
  function ParseAll(d: Dialect, s: string): seq<Command>
    decreases |s|
  {
    if s == "" then []
    else
      CommandShorter(d, s);
      [NextCommand(d, s).value] + ParseAll(d, NextCommand(d, s).rest)
  }

  // ----- Canonical text: each function writes its part in front of `tail` -----

  function Num(n: nat, c: char, tail: string): string {
    Digits(n) + [c] + tail
  }

  /** The text of a seat list from its first parenthesis to the end of the line. */
  function SeatsText(seats: seq<Seat>, tail: string): string
    requires seats != []
  {
    "(" + Num(seats[0].x, ',', Num(seats[0].y, ')',
      if |seats| == 1 then "]" + ("\n" + tail) else " " + SeatsText(seats[1..], tail)))
  }

  function CommandText(c: Command, tail: string): string
    requires c.Reserve? ==> c.seats != []
  {
    match c
    case Create(id, rows, cols) => "CREATE " + Num(id, ' ', Num(rows, ' ', Num(cols, '\n', tail)))
    case Reserve(id, seats) => "RESERVE " + Num(id, ' ', "[" + SeatsText(seats, tail))
    case Show(id) => "SHOW " + Num(id, '\n', tail)
    case ListEvents => "LIST" + ("\n" + tail)
    case Wait(delay, target) =>
      "WAIT " + (if target.Some? then Num(delay, ' ', Num(target.value, '\n', tail)) else Num(delay, '\n', tail))
    case Help => "HELP" + ("\n" + tail)
    case Barrier => "BARRIER" + ("\n" + tail)
    case Empty => "\n" + tail
    case Invalid => tail
    case EndOfCommands => tail
  }

  predicate IsUint(n: nat) { n < UINT_RANGE }

  predicate UintSeats(seats: seq<Seat>) {
    forall i :: 0 <= i < |seats| ==> IsUint(seats[i].x) && IsUint(seats[i].y)
  }

  /** The commands the language can express. */
  predicate Writable(d: Dialect, c: Command) {
    match c
    case Create(id, rows, cols) => IsUint(id) && IsUint(rows) && IsUint(cols)
    case Reserve(id, seats) => IsUint(id) && 1 <= |seats| < MAX_RESERVATION_SIZE && UintSeats(seats)
    case Show(id) => IsUint(id)
    case Wait(delay, target) =>
      && IsUint(delay)
      && (d.Part1? ==> delay > 0 && (target.Some? ==> IsUint(target.value)))
      && (d.Part2? ==> target.None?)
    case Barrier => d.Part1?
    case Invalid => false
    case EndOfCommands => false
    case _ => true
  }
}
