/** Writing commands and reading them back. */
module JobRoundTrip {
  import opened Seating
  import opened Decimal
  import opened JobGrammar

  lemma {:induction false} CleanupOver(a: string, t: string)
    requires '\n' !in a
    ensures Cleanup(a + t) == Cleanup(t)
  {
    if a == "" {
      assert a + t == t;
    } else {
      assert (a + t)[1..] == a[1..] + t;
      CleanupOver(a[1..], t);
    }
  }

  lemma CleanupNum(n: nat, c: char, t: string)
    requires c != '\n'
    ensures Cleanup(Num(n, c, t)) == Cleanup(t)
  {
    CleanupOver(Digits(n) + [c], t);
  }

  lemma CleanupLine(t: string)
    ensures Cleanup("\n" + t) == t
  {
    assert ("\n" + t)[1..] == t;
  }

  lemma HeadAndTail(c: char, t: string)
    ensures ([c] + t)[0] == c && ([c] + t)[1..] == t && Beyond([c] + t, 1) == t
  {
  }

  lemma WordAhead(word: string, k: Keyword, t: string)
    requires word != ""
    ensures Word(word + t, word, k) == Read(k, t)
  {
    assert (word + t)[..|word|] == word && (word + t)[|word|..] == t;
  }

  lemma LineAhead(word: string, k: Keyword, t: string)
    requires word != "" && k != KInvalid
    ensures WholeLine(word + ("\n" + t), word, k) == Read(k, t)
  {
    WordAhead(word, k, "\n" + t);
    HeadAndTail('\n', t);
  }

  lemma NumAhead(n: nat, c: char, t: string)
    requires IsUint(n) && !IsDigit(c)
    ensures ReadUint(Num(n, c, t)) == UintRead(Some(n), c, t)
  {
    UintRoundTrip(n, c, t);
  }

  lemma KeywordAhead(d: Dialect, word: string, k: Keyword, t: string)
    requires (word, k) in {("CREATE ", KCreate), ("RESERVE ", KReserve), ("SHOW ", KShow), ("WAIT ", KWait)}
    ensures GetNext(d, word + t) == Read(k, t)
  {
    WordAhead(word, k, t);
    assert (word + t)[0] == word[0];
  }

  lemma WholeLineAhead(d: Dialect, word: string, k: Keyword, t: string)
    requires (word, k) in {("LIST", KList), ("HELP", KHelp)} || (d.Part1? && (word, k) == ("BARRIER", KBarrier))
    ensures GetNext(d, word + ("\n" + t)) == Read(k, t)
  {
    LineAhead(word, k, t);
    assert (word + ("\n" + t))[0] == word[0];
  }

  /** CREATE's arguments, given where each number ends. */
  lemma CreateArguments(s0: string, s1: string, s2: string, id: nat, rows: nat, cols: nat, t: string)
    requires ReadUint(s0) == UintRead(Some(id), ' ', s1)
    requires ReadUint(s1) == UintRead(Some(rows), ' ', s2)
    requires ReadUint(s2) == UintRead(Some(cols), '\n', t)
    ensures ParseCreate(s0) == Read(Some(Command.Create(id, rows, cols)), t)
  {
  }

  lemma CreateRoundTrip(d: Dialect, c: Command, t: string)
    requires c.Create? && Writable(d, c)
    ensures NextCommand(d, CommandText(c, t)) == Read(c, t)
  {
    var t2 := Num(c.cols, '\n', t);
    var t1 := Num(c.rows, ' ', t2);
    var t0 := Num(c.id, ' ', t1);
    assert ParseCreate(t0) == Read(Some(c), t) by {
      NumAhead(c.id, ' ', t1);
      NumAhead(c.rows, ' ', t2);
      NumAhead(c.cols, '\n', t);
      CreateArguments(t0, t1, t2, c.id, c.rows, c.cols, t);
    }
    KeywordAhead(d, "CREATE ", KCreate, t0);
  }

  lemma ShowRoundTrip(d: Dialect, c: Command, t: string)
    requires c.Show? && Writable(d, c)
    ensures NextCommand(d, CommandText(c, t)) == Read(c, t)
  {
    KeywordAhead(d, "SHOW ", KShow, Num(c.id, '\n', t));
    NumAhead(c.id, '\n', t);
  }

  lemma WaitAllRoundTrip(d: Dialect, delay: nat, t: string)
    requires Writable(d, Wait(delay, None))
    ensures NextCommand(d, CommandText(Wait(delay, None), t)) == Read(Wait(delay, None), t)
  {
    KeywordAhead(d, "WAIT ", KWait, Num(delay, '\n', t));
    NumAhead(delay, '\n', t);
  }

  /** The arguments of a WAIT for one thread, given where each number ends. */
  lemma WaitOneArguments(s0: string, s1: string, delay: nat, target: nat, t: string)
    requires ReadUint(s0) == UintRead(Some(delay), ' ', s1)
    requires ReadUint(s1) == UintRead(Some(target), '\n', t)
    ensures ParseWait(Part1, s0) == Read(Some(Wait(delay, Some(target))), t)
  {
  }

  lemma WaitOneRoundTrip(d: Dialect, delay: nat, target: nat, t: string)
    requires Writable(d, Wait(delay, Some(target)))
    ensures NextCommand(d, CommandText(Wait(delay, Some(target)), t)) == Read(Wait(delay, Some(target)), t)
  {
    var t1 := Num(target, '\n', t);
    KeywordAhead(d, "WAIT ", KWait, Num(delay, ' ', t1));
    NumAhead(delay, ' ', t1);
    NumAhead(target, '\n', t);
    WaitOneArguments(Num(delay, ' ', t1), t1, delay, target, t);
  }

  lemma WaitRoundTrip(d: Dialect, c: Command, t: string)
    requires c.Wait? && Writable(d, c)
    ensures NextCommand(d, CommandText(c, t)) == Read(c, t)
  {
    if c.target.Some? {
      WaitOneRoundTrip(d, c.delay, c.target.value, t);
    } else {
      WaitAllRoundTrip(d, c.delay, t);
    }
  }

  /** The command loop's answer to a keyword that takes no arguments. */
  lemma NoArguments(d: Dialect, s: string, k: Keyword, t: string)
    requires GetNext(d, s) == Read(k, t)
    ensures k == KList ==> NextCommand(d, s) == Read(ListEvents, t)
    ensures k == KHelp ==> NextCommand(d, s) == Read(Help, t)
    ensures k == KBarrier ==> NextCommand(d, s) == Read(Barrier, t)
    ensures k == KEmpty ==> NextCommand(d, s) == Read(Empty, t)
  {
  }

  lemma PlainRoundTrip(d: Dialect, c: Command, t: string)
    requires Writable(d, c) && (c.ListEvents? || c.Help? || c.Barrier?)
    ensures NextCommand(d, CommandText(c, t)) == Read(c, t)
  {
    var word, k := if c.ListEvents? then "LIST" else if c.Help? then "HELP" else "BARRIER",
                   if c.ListEvents? then KList else if c.Help? then KHelp else KBarrier;
    WholeLineAhead(d, word, k, t);
    NoArguments(d, word + ("\n" + t), k, t);
  }

  lemma EmptyRoundTrip(d: Dialect, t: string)
    ensures NextCommand(d, CommandText(Empty, t)) == Read(Empty, t)
  {
    HeadAndTail('\n', t);
    NewlineAhead(d, "\n" + t, t);
    NoArguments(d, "\n" + t, KEmpty, t);
  }

  lemma NewlineAhead(d: Dialect, s: string, t: string)
    requires s != "" && s[0] == '\n' && s[1..] == t
    ensures GetNext(d, s) == Read(KEmpty, t)
  {
  }

  lemma SeatRoundTrip(seat: Seat, c: char, t: string)
    requires IsUint(seat.x) && IsUint(seat.y) && (c == ' ' || c == ']')
    ensures ParseSeat("(" + Num(seat.x, ',', Num(seat.y, ')', [c] + t))) == Read(Some((seat, c == ' ')), t)
  {
    var t1 := Num(seat.y, ')', [c] + t);
    HeadAndTail('(', Num(seat.x, ',', t1));
    NumAhead(seat.x, ',', t1);
    NumAhead(seat.y, ')', [c] + t);
    HeadAndTail(c, t);
  }

  lemma Regroup<T>(a: seq<T>, b: seq<T>)
    requires b != []
    ensures a + [b[0]] + b[1..] == a + b
    ensures |b| == 1 ==> a + [b[0]] == a + b
  {
  }

  lemma {:induction false} SeatsRoundTrip(seats: seq<Seat>, got: seq<Seat>, t: string)
    requires seats != [] && UintSeats(seats) && |got| + |seats| < MAX_RESERVATION_SIZE
    ensures ParseSeats(SeatsText(seats, t), got) == Read(Some(got + seats), t)
    decreases |seats|
  {
    var s := SeatsText(seats, t);
    Regroup(got, seats);
    if |seats| == 1 {
      SeatRoundTrip(seats[0], ']', "\n" + t);
      AfterSeat(s, got, seats[0], false, "\n" + t);
      HeadAndTail('\n', t);
    } else {
      SeatRoundTrip(seats[0], ' ', SeatsText(seats[1..], t));
      AfterSeat(s, got, seats[0], true, SeatsText(seats[1..], t));
      SeatsRoundTrip(seats[1..], got + [seats[0]], t);
    }
  }

  lemma {:induction false} CleanupSeats(seats: seq<Seat>, t: string)
    requires seats != []
    ensures Cleanup(SeatsText(seats, t)) == t
    decreases |seats|
  {
    var tail := if |seats| == 1 then "]" + ("\n" + t) else " " + SeatsText(seats[1..], t);
    CleanupOver("(", Num(seats[0].x, ',', Num(seats[0].y, ')', tail)));
    CleanupNum(seats[0].x, ',', Num(seats[0].y, ')', tail));
    CleanupNum(seats[0].y, ')', tail);
    if |seats| == 1 {
      CleanupOver("]", "\n" + t);
      CleanupLine(t);
    } else {
      CleanupOver(" ", SeatsText(seats[1..], t));
      CleanupSeats(seats[1..], t);
    }
  }

  /** With the 256th seat the list is given up and the rest of its line skipped. */
  lemma {:induction false} SeatsTooMany(seats: seq<Seat>, got: seq<Seat>, t: string)
    requires seats != [] && UintSeats(seats) && |got| < MAX_RESERVATION_SIZE <= |got| + |seats|
    ensures ParseSeats(SeatsText(seats, t), got) == Read(None, t)
    decreases |seats|
  {
    var s := SeatsText(seats, t);
    if |seats| == 1 {
      SeatRoundTrip(seats[0], ']', "\n" + t);
      AfterSeat(s, got, seats[0], false, "\n" + t);
      CleanupLine(t);
    } else {
      SeatRoundTrip(seats[0], ' ', SeatsText(seats[1..], t));
      AfterSeat(s, got, seats[0], true, SeatsText(seats[1..], t));
      if |got| + 1 < MAX_RESERVATION_SIZE {
        SeatsTooMany(seats[1..], got + [seats[0]], t);
      } else {
        CleanupSeats(seats[1..], t);
      }
    }
  }

  /** A RESERVE line with any positive number of seats is read back exactly when it names fewer
      than 256 of them; otherwise it alone is refused and reading goes on at the next line. */
  lemma ReserveRoundTrip(d: Dialect, id: nat, seats: seq<Seat>, t: string)
    requires IsUint(id) && seats != [] && UintSeats(seats)
    ensures var c := Command.Reserve(id, seats);
      NextCommand(d, CommandText(c, t)) == Read(if |seats| < MAX_RESERVATION_SIZE then c else Invalid, t)
  {
    var t1 := "[" + SeatsText(seats, t);
    var r := ParseSeats(SeatsText(seats, t), []);
    assert r == if |seats| < MAX_RESERVATION_SIZE then Read(Some(seats), t) else Read(None, t) by {
      if |seats| < MAX_RESERVATION_SIZE {
        SeatsRoundTrip(seats, [], t);
        assert [] + seats == seats;
      } else {
        SeatsTooMany(seats, [], t);
      }
    }
    NumAhead(id, ' ', t1);
    ReserveArguments(Num(id, ' ', t1), id, SeatsText(seats, t), r);
    KeywordAhead(d, "RESERVE ", KReserve, Num(id, ' ', t1));
  }

  /** RESERVE's arguments, given what the seat list is read as. */
  lemma ReserveArguments(s0: string, id: nat, s1: string, r: Read<Option<seq<Seat>>>)
    requires ReadUint(s0) == UintRead(Some(id), ' ', "[" + s1) && ParseSeats(s1, []) == r
    ensures ParseReserve(s0) ==
      Read(if r.value.Some? then Some(Command.Reserve(id, r.value.value)) else None, r.rest)
  {
    HeadAndTail('[', s1);
  }

  /** One command, written canonically in front of any text, is read back and nothing else is. */
  lemma CommandRoundTrip(d: Dialect, c: Command, t: string)
    requires Writable(d, c)
    ensures NextCommand(d, CommandText(c, t)) == Read(c, t)
  {
    match c
    case Create(_, _, _) => CreateRoundTrip(d, c, t);
    case Reserve(id, seats) => ReserveRoundTrip(d, id, seats, t);
    case Show(_) => ShowRoundTrip(d, c, t);
    case Wait(_, _) => WaitRoundTrip(d, c, t);
    case Empty => EmptyRoundTrip(d, t);
    case _ => PlainRoundTrip(d, c, t);
  }

  /** The three numbers of a CREATE are the id, the rows and the columns, in this order. */
  lemma CreateLineRead(d: Dialect, id: nat, rows: nat, cols: nat, t: string)
    requires IsUint(id) && IsUint(rows) && IsUint(cols)
    ensures NextCommand(d, "CREATE " + Digits(id) + " " + Digits(rows) + " " + Digits(cols) + "\n" + t) ==
      Read(Command.Create(id, rows, cols), t)
  {
    var (a, b, c) := (Digits(id), Digits(rows), Digits(cols));
    assert "CREATE " + a + " " + b + " " + c + "\n" + t ==
      "CREATE " + (a + [' '] + (b + [' '] + (c + ['\n'] + t)));
    CommandRoundTrip(d, Command.Create(id, rows, cols), t);
  }

  lemma SeatSplit(a: string, t: string)
    ensures a + ")]\n" + t == a + [')'] + ("]" + ("\n" + t))
    ensures a + " [(" + t == a + [' '] + ("[" + ("(" + t))
  {
  }

  /** The numbers of a seat are its row and its column. */
  lemma ReserveLineRead(d: Dialect, id: nat, x: nat, y: nat, t: string)
    requires IsUint(id) && IsUint(x) && IsUint(y)
    ensures NextCommand(d, "RESERVE " + (Digits(id) + " [(" + (Digits(x) + "," + (Digits(y) + ")]\n" + t)))) ==
      Read(Command.Reserve(id, [Seat(x, y)]), t)
  {
    SeatSplit(Digits(y), t);
    SeatSplit(Digits(id), Digits(x) + "," + (Digits(y) + ")]\n" + t));
    CommandRoundTrip(d, Command.Reserve(id, [Seat(x, y)]), t);
  }

  ghost predicate AllWritable(d: Dialect, cs: seq<Command>) {
    forall i :: 0 <= i < |cs| ==> Writable(d, cs[i])
  }

  function FileText(d: Dialect, cs: seq<Command>): string
    requires AllWritable(d, cs)
  {
    if cs == [] then "" else CommandText(cs[0], FileText(d, cs[1..]))
  }

  /** A whole file of canonical commands is read back as the list it was written from. */
  lemma {:induction false} FileRoundTrip(d: Dialect, cs: seq<Command>)
    requires AllWritable(d, cs)
    ensures ParseAll(d, FileText(d, cs)) == cs
  {
    if cs != [] {
      CommandRoundTrip(d, cs[0], FileText(d, cs[1..]));
      CommandShorter(d, FileText(d, cs));
      FileRoundTrip(d, cs[1..]);
      assert cs == [cs[0]] + cs[1..];
    }
  }

  /** So different lists of commands are never written as one text. */
  lemma PrintingInjective(d: Dialect, cs: seq<Command>, ds: seq<Command>)
    requires AllWritable(d, cs) && AllWritable(d, ds) && FileText(d, cs) == FileText(d, ds)
    ensures cs == ds
  {
    FileRoundTrip(d, cs);
    FileRoundTrip(d, ds);
  }

  /** A canonical SHOW line costs the next line if its number does not fit: the newline has been
      consumed with the number, so skipping to a newline skips one line more. */
  lemma ShowEatsNextLine(d: Dialect, id: nat, line: string, t: string)
    requires '\n' !in line
    ensures NextCommand(d, "SHOW " + Num(id, '\n', line + ("\n" + t))) ==
      if id < UINT_RANGE then Read(Command.Show(id), line + ("\n" + t)) else Read(Invalid, t)
  {
    var tail := line + ("\n" + t);
    KeywordAhead(d, "SHOW ", KShow, Num(id, '\n', tail));
    UintRoundTrip(id, '\n', tail);
    CleanupOver(line, "\n" + t);
    CleanupLine(t);
  }
}
