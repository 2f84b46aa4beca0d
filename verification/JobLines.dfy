/** What one line of a job file can do to the lines after it. A line affects only itself unless a read
    that the parser then refuses has taken its newline: the cleanup that follows skips to the next one. */
module JobLines {
  import opened Seating
  import opened Decimal
  import opened JobGrammar
  import opened JobRoundTrip

  predicate OneLine(a: string) { '\n' !in a }

  /** The rest `a` of a line, its newline, and the lines after it. */
  function InLine(a: string, t: string): string { a + ("\n" + t) }

  // ----- Which lines do it -----

  /** The number `a` goes on with, if it fits. */
  function NumberAhead(a: string): Option<nat> {
    var v := Value(a[..DigitRun(a)]);
    if v < UINT_RANGE then Some(v) else None
  }

  /** The character that ends that number on the line. */
  function EndAhead(a: string): char { if DigitRun(a) < |a| then a[DigitRun(a)] else '\n' }

  /** What is ahead of it then: the rest of the line, or only the lines after it. */
  function RestAhead(a: string, t: string): string {
    if DigitRun(a) < |a| then InLine(a[DigitRun(a) + 1..], t) else t
  }

  /** `k` numbers are still expected on the line, and the one whose reading takes the newline is refused:
      it is not the last one, or does not fit. */
  predicate NumbersEat(a: string, k: nat)
    requires k > 0
  {
    var n := DigitRun(a);
    if n == |a| then k > 1 || NumberAhead(a).None?
    else k > 1 && a[n] == ' ' && NumberAhead(a).Some? && NumbersEat(a[n + 1..], k - 1)
  }

  predicate WaitEats(d: Dialect, a: string) {
    var n := DigitRun(a);
    if n == |a| then NumberAhead(a).None?
    else d.Part1? && a[n] == ' ' && NumberAhead(a).Some? && NumbersEat(a[n + 1..], 1)
  }

  /** Where reading goes on after a number that fits and is ended by `c`. */
  function Coordinate(a: string, c: char): (p: Option<nat>)
    ensures p.Some? ==> p.value <= |a|
  {
    var n := DigitRun(a);
    if n < |a| && a[n] == c && NumberAhead(a).Some? then Some(n + 1) else None
  }

  predicate AllDigitsLeft(a: string) { DigitRun(a) == |a| }

  /** What one seat of a list does on its line: the line breaks off inside it, it is wrong before that,
      or it is there, ending before position `p`, and another seat must follow or not. */
  datatype SeatEnding = Breaks | Wrong | Ends(p: nat, more: bool)

  function Shifted(e: SeatEnding, n: nat): SeatEnding {
    if e.Ends? then Ends(e.p + n, e.more) else e
  }

  function SeatEnd(a: string): (e: SeatEnding)
    ensures e.Ends? ==> 0 < e.p <= |a|
  {
    if a == "" then Breaks else if a[0] != '(' then Wrong else Shifted(SeatEndX(a[1..]), 1)
  }

  function SeatEndX(x: string): (e: SeatEnding)
    ensures e.Ends? ==> e.p <= |x|
  {
    if AllDigitsLeft(x) then Breaks
    else match Coordinate(x, ',')
      case None => Wrong
      case Some(p) => Shifted(SeatEndY(x[p..]), p)
  }

  function SeatEndY(y: string): (e: SeatEnding)
    ensures e.Ends? ==> e.p <= |y|
  {
    if AllDigitsLeft(y) then Breaks
    else match Coordinate(y, ')')
      case None => Wrong
      case Some(p) =>
        if p == |y| then Breaks
        else if y[p] == ' ' || y[p] == ']' then Ends(p + 1, y[p] == ' ')
        else Wrong
  }

  /** A seat list of which `count` seats have been read breaks off at the end of the line. */
  predicate SeatsEat(a: string, count: nat)
    decreases |a|
  {
    match SeatEnd(a)
    case Breaks => true
    case Wrong => false
    case Ends(p, more) => more && count + 1 < MAX_RESERVATION_SIZE && SeatsEat(a[p..], count + 1)
  }

  predicate ReserveEats(a: string) {
    AllDigitsLeft(a) || (
      var p := Coordinate(a, ' ');
      p.Some? && (p.value == |a| || (a[p.value] == '[' && SeatsEat(a[p.value + 1..], 0))))
  }

  /** The four keywords with arguments. */
  function ArgumentWord(c: char): (w: Option<(string, Keyword)>)
    ensures w.Some? ==> OneLine(w.value.0) && w.value.0 != ""
  {
    if c == 'C' then Some(("CREATE ", KCreate)) else if c == 'R' then Some(("RESERVE ", KReserve))
    else if c == 'S' then Some(("SHOW ", KShow)) else if c == 'W' then Some(("WAIT ", KWait))
    else None
  }

  /** The keywords that stand alone on their line. */
  function AloneWord(d: Dialect, c: char): (w: Option<(string, Keyword)>)
    ensures w.Some? ==> OneLine(w.value.0) && w.value.0 != ""
  {
    if c == 'L' then Some(("LIST", KList)) else if c == 'H' then Some(("HELP", KHelp))
    else if c == 'B' && d.Part1? then Some(("BARRIER", KBarrier)) else None
  }

  /** Whether the arguments of the keyword `k` cost the next line. */
  predicate Eats(d: Dialect, k: Keyword, a: string) {
    match k
    case KCreate => NumbersEat(a, 3)
    case KReserve => ReserveEats(a)
    case KShow => NumbersEat(a, 1)
    case KWait => WaitEats(d, a)
    case _ => false
  }

  /** Characters get_next reads for a line that begins with `c` before it compares them. */
  function WordLength(d: Dialect, c: char): nat {
    if ArgumentWord(c).Some? then |ArgumentWord(c).value.0|
    else if AloneWord(d, c).Some? then |AloneWord(d, c).value.0|
    else 0
  }

  /** The line is shorter than the keyword its first letter announces. */
  predicate ShortWord(d: Dialect, line: string) {
    line != "" && |line| < WordLength(d, line[0])
  }

  /** The arguments break off at the end of the line where more was expected, or end in a number too
      big to keep. */
  predicate ArgumentsEat(d: Dialect, line: string) {
    && line != "" && ArgumentWord(line[0]).Some?
    && var (word, k) := ArgumentWord(line[0]).value;
    && word <= line && Eats(d, k, line[|word|..])
  }

  /** What a line costs those after it: nothing, or `n` of their characters and then all up to the
      next newline. */
  datatype Cost = Nothing | Into(n: nat)

  function CostOf(d: Dialect, line: string): Cost {
    if ShortWord(d, line) then Into(WordLength(d, line[0]) - |line| - 1)
    else if ArgumentsEat(d, line) then Into(0)
    else Nothing
  }

  // ----- Reading inside a line -----

  /** Reading goes on behind a NUL of the line, which the parser takes for the end of the file. */
  ghost predicate BehindNul(line: string, t: string, rest: string) {
    exists n: nat :: NulAt(line, n) && rest == InLine(line[n..], t)
  }

  predicate NulAt(line: string, n: nat) { 0 < n <= |line| && line[n - 1] == '\0' }

  lemma BehindNulLift(line: string, p: nat, t: string, rest: string)
    requires p <= |line| && BehindNul(line[p..], t, rest)
    ensures BehindNul(line, t, rest)
  {
    var n: nat :| NulAt(line[p..], n) && rest == InLine(line[p..][n..], t);
    assert NulAt(line, p + n) && line[p..][n..] == line[p + n..];
  }

  /** Either way the line is over, or all that is left of it is behind a NUL. */
  ghost predicate LeavesRest(line: string, t: string, rest: string) {
    rest == t || BehindNul(line, t, rest)
  }

  lemma LeavesRestLift(line: string, p: nat, t: string, rest: string)
    requires p <= |line| && LeavesRest(line[p..], t, rest)
    ensures LeavesRest(line, t, rest)
  {
    if rest != t {
      BehindNulLift(line, p, t, rest);
    }
  }

  lemma SkipRest(a: string, t: string)
    requires OneLine(a)
    ensures Cleanup(InLine(a, t)) == t
  {
    CleanupOver(a, "\n" + t);
    CleanupLine(t);
  }

  lemma InLineAt(a: string, n: nat, t: string)
    requires n <= |a|
    ensures InLine(a, t)[n..] == InLine(a[n..], t) && Beyond(InLine(a, t), n) == InLine(a[n..], t)
    ensures n < |a| ==> InLine(a, t)[n] == a[n]
    ensures InLine(a, t)[..n] == a[..n] && InLine(a, t) != ""
    ensures OneLine(a) ==> OneLine(a[n..])
  {
    assert InLine(a, t)[n..] == a[n..] + ("\n" + t);
  }

  lemma InLineEnd(t: string)
    ensures InLine("", t)[0] == '\n' && InLine("", t)[1..] == t && Beyond(InLine("", t), 1) == t && InLine("", t) != ""
  {
    assert InLine("", t) == "\n" + t;
  }

  lemma {:induction false} RunInLine(a: string, t: string)
    ensures DigitRun(InLine(a, t)) == DigitRun(a)
  {
    if a == "" {
      InLineEnd(t);
    } else {
      InLineAt(a, 1, t);
      RunInLine(a[1..], t);
    }
  }

  /** What is ahead of the digits a line goes on with. */
  lemma BehindRun(a: string, n: nat, t: string)
    requires n <= |a|
    ensures n < |InLine(a, t)| && InLine(a, t)[..n] == a[..n]
    ensures InLine(a, t)[n] == if n < |a| then a[n] else '\n'
    ensures InLine(a, t)[n + 1..] == if n < |a| then InLine(a[n + 1..], t) else t
  {
    if n < |a| {
      InLineAt(a, n + 1, t);
    } else {
      assert InLine(a, t)[n..] == "\n" + t;
      assert InLine(a, t)[n + 1..] == InLine(a, t)[n..][1..];
    }
  }

  lemma UintAt(s: string, a: string)
    requires DigitRun(s) == DigitRun(a) < |s| && s[..DigitRun(a)] == a[..DigitRun(a)]
    ensures ReadUint(s) == UintRead(NumberAhead(a), s[DigitRun(a)], s[DigitRun(a) + 1..])
  {
  }

  /** A number read inside a line: it is ended by a character of the line, or takes the newline. */
  lemma NumberInLine(a: string, t: string)
    ensures ReadUint(InLine(a, t)) == UintRead(NumberAhead(a), EndAhead(a), RestAhead(a, t))
  {
    RunInLine(a, t);
    BehindRun(a, DigitRun(a), t);
    UintAt(InLine(a, t), a);
  }

  // ----- The parse functions on a line -----

  /** The number that must end the line: SHOW's only one, CREATE's and WAIT's last. */
  lemma LastNumber(a: string, t: string)
    requires OneLine(a)
    ensures var (r, n) := (ReadUint(InLine(a, t)), DigitRun(a));
      && (NumbersEat(a, 1) ==> r.value.None? && r.rest == t)
      && (!NumbersEat(a, 1) ==>
            if r.value.Some? && LineEnd(r.next) then LeavesRest(a, t, r.rest) else Cleanup(r.rest) == t)
  {
    NumberInLine(a, t);
    var n := DigitRun(a);
    if n < |a| {
      if a[n] == '\0' {
        assert NulAt(a, n + 1);
      }
      InLineAt(a, n + 1, t);
      SkipRest(a[n + 1..], t);
    }
  }

  /** A number that fits and is followed by a space. */
  predicate Goes(r: UintRead) { r.value.Some? && r.next == ' ' }

  lemma RefusedNumber(a: string, t: string)
    requires OneLine(a)
    ensures Cleanup(ReadUint(InLine(a, t)).rest) == if DigitRun(a) == |a| then Cleanup(t) else t
  {
    NumberInLine(a, t);
    var n := DigitRun(a);
    if n < |a| {
      InLineAt(a, n + 1, t);
      SkipRest(a[n + 1..], t);
    }
  }

  /** A number that must be followed by a space. */
  lemma EarlierNumber(a: string, k: nat, t: string)
    requires OneLine(a) && k > 1
    ensures var (r, n) := (ReadUint(InLine(a, t)), DigitRun(a));
      if Goes(r) then
        n < |a| && r.rest == InLine(a[n + 1..], t) && OneLine(a[n + 1..])
        && (NumbersEat(a, k) <==> NumbersEat(a[n + 1..], k - 1))
      else
        Cleanup(r.rest) == if NumbersEat(a, k) then Cleanup(t) else t
  {
    NumberInLine(a, t);
    RefusedNumber(a, t);
  }

  /** What a refused or accepted rest of a line leaves. */
  ghost predicate Left(eats: bool, line: string, t: string, r: Read<Option<Command>>) {
    if eats then r == Read(None, Cleanup(t)) else LeavesRest(line, t, r.rest)
  }

  /** CREATE, given that its first two numbers are as they should be. */
  lemma CreateLastLine(a: string, t: string, b: string, c: string)
    requires OneLine(a) && OneLine(b) && OneLine(c)
    requires Goes(ReadUint(InLine(a, t))) && ReadUint(InLine(a, t)).rest == InLine(b, t)
    requires Goes(ReadUint(InLine(b, t))) && ReadUint(InLine(b, t)).rest == InLine(c, t)
    ensures Left(NumbersEat(c, 1), c, t, ParseCreate(InLine(a, t)))
  {
    LastNumber(c, t);
  }

  lemma RefusedLine(eats: bool, line: string, t: string, r: Read<Option<Command>>)
    requires r == Read(None, if eats then Cleanup(t) else t)
    ensures Left(eats, line, t, r)
  {
  }

  lemma CreateStopsAtId(s: string)
    requires !Goes(ReadUint(s))
    ensures ParseCreate(s) == Read(None, Cleanup(ReadUint(s).rest))
  {
  }

  lemma CreateStopsAtRows(s: string, s1: string)
    requires Goes(ReadUint(s)) && ReadUint(s).rest == s1 && !Goes(ReadUint(s1))
    ensures ParseCreate(s) == Read(None, Cleanup(ReadUint(s1).rest))
  {
  }

  /** CREATE's id: what is read of it, `r`, decides. */
  lemma CreateIdLine(a: string, t: string, r: UintRead, eats: bool)
    requires OneLine(a) && r == ReadUint(InLine(a, t))
    requires Goes(r) ==> Left(eats, a, t, ParseCreate(InLine(a, t)))
    requires !Goes(r) ==> Cleanup(r.rest) == if eats then Cleanup(t) else t
    ensures Left(eats, a, t, ParseCreate(InLine(a, t)))
  {
    if !Goes(r) {
      CreateStopsAtId(InLine(a, t));
      RefusedLine(eats, a, t, ParseCreate(InLine(a, t)));
    }
  }

  lemma CreateLine(a: string, t: string)
    requires OneLine(a)
    ensures Left(NumbersEat(a, 3), a, t, ParseCreate(InLine(a, t)))
  {
    var r := ReadUint(InLine(a, t));
    EarlierNumber(a, 3, t);
    if Goes(r) {
      CreateRowsLine(a, t, a[DigitRun(a) + 1..]);
    }
    CreateIdLine(a, t, r, NumbersEat(a, 3));
  }

  lemma CreateRowsLine(a: string, t: string, b: string)
    requires OneLine(a) && OneLine(b) && DigitRun(a) < |a| && b == a[DigitRun(a) + 1..]
    requires Goes(ReadUint(InLine(a, t))) && ReadUint(InLine(a, t)).rest == InLine(b, t)
    ensures Left(NumbersEat(b, 2), a, t, ParseCreate(InLine(a, t)))
  {
    EarlierNumber(b, 2, t);
    if Goes(ReadUint(InLine(b, t))) {
      var c := b[DigitRun(b) + 1..];
      CreateLastLine(a, t, b, c);
      LeftLift(NumbersEat(c, 1), b, DigitRun(b) + 1, t, ParseCreate(InLine(a, t)));
      LeftLift(NumbersEat(c, 1), a, DigitRun(a) + 1, t, ParseCreate(InLine(a, t)));
    } else {
      CreateStopsAtRows(InLine(a, t), InLine(b, t));
      RefusedLine(NumbersEat(b, 2), a, t, ParseCreate(InLine(a, t)));
    }
  }

  lemma LeftLift(eats: bool, line: string, p: nat, t: string, r: Read<Option<Command>>)
    requires p <= |line| && Left(eats, line[p..], t, r)
    ensures Left(eats, line, t, r)
  {
    if !eats {
      LeavesRestLift(line, p, t, r.rest);
    }
  }

  lemma ShowLine(a: string, t: string)
    requires OneLine(a)
    ensures Left(NumbersEat(a, 1), a, t, ParseShow(InLine(a, t)))
  {
    LastNumber(a, t);
  }

  lemma WaitRefused(d: Dialect, s: string)
    requires var r := ReadUint(s); r.value.None? || (r.next != ' ' && !LineEnd(r.next))
    ensures ParseWait(d, s) == Read(None, Cleanup(ReadUint(s).rest))
  {
  }

  lemma WaitEnds(d: Dialect, s: string)
    requires var r := ReadUint(s); r.value.Some? && LineEnd(r.next)
    ensures ParseWait(d, s).rest == ReadUint(s).rest
  {
  }

  lemma WaitSkips(s: string)
    requires Goes(ReadUint(s))
    ensures ParseWait(Part2, s).rest == Cleanup(ReadUint(s).rest)
  {
  }

  lemma WaitNamesThread(s: string, s1: string)
    requires Goes(ReadUint(s)) && ReadUint(s).rest == s1
    ensures var r := ReadUint(s1);
      if r.value.Some? && LineEnd(r.next) then ParseWait(Part1, s).rest == r.rest
      else ParseWait(Part1, s) == Read(None, Cleanup(r.rest))
  {
  }

  /** A WAIT whose delay is not followed by a space: the end of the line, or refused. */
  lemma WaitStopsLine(d: Dialect, a: string, t: string)
    requires OneLine(a) && !Goes(ReadUint(InLine(a, t)))
    ensures Left(NumbersEat(a, 1), a, t, ParseWait(d, InLine(a, t)))
  {
    var s := InLine(a, t);
    LastNumber(a, t);
    if ReadUint(s).value.Some? && LineEnd(ReadUint(s).next) {
      WaitEnds(d, s);
    } else {
      WaitRefused(d, s);
    }
  }

  /** Part 1's thread id. */
  lemma WaitThreadLine(a: string, p: nat, t: string)
    requires OneLine(a) && p <= |a| && Goes(ReadUint(InLine(a, t))) && ReadUint(InLine(a, t)).rest == InLine(a[p..], t)
    ensures Left(NumbersEat(a[p..], 1), a, t, ParseWait(Part1, InLine(a, t)))
  {
    var s := InLine(a, t);
    LastNumber(a[p..], t);
    WaitNamesThread(s, InLine(a[p..], t));
    LeftLift(NumbersEat(a[p..], 1), a, p, t, ParseWait(Part1, s));
  }

  lemma WaitGoesOn(d: Dialect, a: string, p: nat, t: string)
    requires OneLine(a) && p <= |a| && Goes(ReadUint(InLine(a, t))) && ReadUint(InLine(a, t)).rest == InLine(a[p..], t)
    ensures Left(d.Part1? && NumbersEat(a[p..], 1), a, t, ParseWait(d, InLine(a, t)))
  {
    if d.Part1? {
      WaitThreadLine(a, p, t);
    } else {
      WaitSkips(InLine(a, t));
      SkipRest(a[p..], t);
    }
  }

  /** What the delay of a WAIT line is ended by. */
  lemma WaitDelay(d: Dialect, a: string, t: string)
    ensures var (r, n) := (ReadUint(InLine(a, t)), DigitRun(a));
      if Goes(r) then
        n < |a| && r.rest == InLine(a[n + 1..], t) && (WaitEats(d, a) <==> d.Part1? && NumbersEat(a[n + 1..], 1))
      else WaitEats(d, a) <==> NumbersEat(a, 1)
  {
    NumberInLine(a, t);
  }

  lemma WaitLine(d: Dialect, a: string, t: string)
    requires OneLine(a)
    ensures Left(WaitEats(d, a), a, t, ParseWait(d, InLine(a, t)))
  {
    WaitDelay(d, a, t);
    if Goes(ReadUint(InLine(a, t))) {
      WaitGoesOn(d, a, DigitRun(a) + 1, t);
    } else {
      WaitStopsLine(d, a, t);
    }
  }

  /** A coordinate, and what is left when it is refused. */
  lemma CoordinateInLine(a: string, c: char, t: string)
    requires OneLine(a) && c != '\n' && !IsDigit(c)
    ensures var (r, p) := (ReadUint(InLine(a, t)), Coordinate(a, c));
      if p.Some? then
        r.value.Some? && r.next == c && r.rest == InLine(a[p.value..], t) && OneLine(a[p.value..])
      else
        (r.value.None? || r.next != c) && Cleanup(r.rest) == if AllDigitsLeft(a) then Cleanup(t) else t
    ensures AllDigitsLeft(a) ==> Coordinate(a, c).None?
  {
    NumberInLine(a, t);
    var n := DigitRun(a);
    if n < |a| {
      InLineAt(a, n + 1, t);
      SkipRest(a[n + 1..], t);
    }
  }

  /** What a seat at the beginning of `a` is read as. */
  ghost predicate SeatRead(e: SeatEnding, a: string, t: string, r: Read<Option<(Seat, bool)>>) {
    match e
    case Breaks => r == Read(None, Cleanup(t))
    case Wrong => r == Read(None, t)
    case Ends(p, more) =>
      p <= |a| && OneLine(a[p..]) && r.value.Some? && r.value.value.1 == more && r.rest == InLine(a[p..], t)
  }

  lemma SeatReadLift(e: SeatEnding, a: string, n: nat, t: string, r: Read<Option<(Seat, bool)>>)
    requires n <= |a| && SeatRead(e, a[n..], t, r)
    ensures SeatRead(Shifted(e, n), a, t, r)
  {
    if e.Ends? {
      assert a[n..][e.p..] == a[e.p + n..];
    }
  }

  lemma SeatStopsAtX(s: string)
    requires s != "" && s[0] == '(' && var x := ReadUint(s[1..]); x.value.None? || x.next != ','
    ensures ParseSeat(s) == Read(None, Cleanup(ReadUint(s[1..]).rest))
  {
  }

  lemma SeatStopsAtY(s: string, y: string)
    requires s != "" && s[0] == '('
    requires var x := ReadUint(s[1..]); x.value.Some? && x.next == ',' && x.rest == y
    requires var z := ReadUint(y); z.value.None? || z.next != ')'
    ensures ParseSeat(s) == Read(None, Cleanup(ReadUint(y).rest))
  {
  }

  lemma SeatGoesOn(s: string, y: string, rest: string)
    requires s != "" && s[0] == '(' && rest != ""
    requires var x := ReadUint(s[1..]); x.value.Some? && x.next == ',' && x.rest == y
    requires var z := ReadUint(y); z.value.Some? && z.next == ')' && z.rest == rest
    ensures if rest[0] == ' ' || rest[0] == ']' then
        && ParseSeat(s).value.Some? && ParseSeat(s).value.value.1 == (rest[0] == ' ') && ParseSeat(s).rest == rest[1..]
      else ParseSeat(s) == Read(None, Cleanup(Beyond(rest, 1)))
  {
  }

  lemma SeatInLine(a: string, t: string)
    requires OneLine(a)
    ensures SeatRead(SeatEnd(a), a, t, ParseSeat(InLine(a, t)))
  {
    var s := InLine(a, t);
    if a == "" {
      InLineEnd(t);
    } else {
      InLineAt(a, 0, t);
      InLineAt(a, 1, t);
      if a[0] != '(' {
        SkipRest(a[1..], t);
      } else {
        XInLine(a[1..], s, t);
        SeatReadLift(SeatEndX(a[1..]), a, 1, t, ParseSeat(s));
      }
    }
  }

  lemma XInLine(x: string, s: string, t: string)
    requires OneLine(x) && s != "" && s[0] == '(' && s[1..] == InLine(x, t)
    ensures SeatRead(SeatEndX(x), x, t, ParseSeat(s))
  {
    CoordinateInLine(x, ',', t);
    if Coordinate(x, ',').None? {
      SeatStopsAtX(s);
    } else {
      var p := Coordinate(x, ',').value;
      YInLine(x[p..], s, t);
      SeatReadLift(SeatEndY(x[p..]), x, p, t, ParseSeat(s));
    }
  }

  lemma YInLine(y: string, s: string, t: string)
    requires OneLine(y) && s != "" && s[0] == '('
    requires var x := ReadUint(s[1..]); x.value.Some? && x.next == ',' && x.rest == InLine(y, t)
    ensures SeatRead(SeatEndY(y), y, t, ParseSeat(s))
  {
    CoordinateInLine(y, ')', t);
    if Coordinate(y, ')').None? {
      SeatStopsAtY(s, InLine(y, t));
    } else {
      BehindSeat(y, Coordinate(y, ')').value, s, t);
    }
  }

  lemma BehindSeat(y: string, p: nat, s: string, t: string)
    requires OneLine(y) && s != "" && s[0] == '(' && p <= |y| && Coordinate(y, ')') == Some(p) && !AllDigitsLeft(y)
    requires var x := ReadUint(s[1..]); x.value.Some? && x.next == ',' && x.rest == InLine(y, t)
    requires var z := ReadUint(InLine(y, t)); z.value.Some? && z.next == ')' && z.rest == InLine(y[p..], t)
    ensures SeatRead(SeatEndY(y), y, t, ParseSeat(s))
  {
    var b := y[p..];
    InLineAt(b, 0, t);
    SeatGoesOn(s, InLine(y, t), InLine(b, t));
    if b == "" {
      InLineEnd(t);
    } else {
      InLineAt(b, 1, t);
      SkipRest(b[1..], t);
      assert b[1..] == y[p + 1..];
    }
  }

  /** What a seat list leaves. */
  ghost predicate SeatsLeft(eats: bool, line: string, t: string, r: Read<Option<seq<Seat>>>) {
    if eats then r == Read(None, Cleanup(t)) else LeavesRest(line, t, r.rest)
  }

  lemma ListEndInLine(a: string, seats: seq<Seat>, t: string)
    requires OneLine(a)
    ensures LeavesRest(a, t, AfterList(InLine(a, t), seats).rest)
  {
    InLineAt(a, 0, t);
    if a == "" {
      InLineEnd(t);
    } else {
      InLineAt(a, 1, t);
      SkipRest(a[1..], t);
      if a[0] == '\0' {
        assert NulAt(a, 1);
      }
    }
  }

  lemma SeatsLift(eats: bool, line: string, p: nat, t: string, r: Read<Option<seq<Seat>>>)
    requires p <= |line| && SeatsLeft(eats, line[p..], t, r)
    ensures SeatsLeft(eats, line, t, r)
  {
    if !eats {
      LeavesRestLift(line, p, t, r.rest);
    }
  }

  lemma SeatsRefused(s: string, got: seq<Seat>)
    requires ParseSeat(s).value.None?
    ensures ParseSeats(s, got) == Read(None, ParseSeat(s).rest)
  {
  }

  /** The list after its last seat, or with one seat too many. */
  lemma SeatsEnd(a: string, got: seq<Seat>, t: string, b: string, seat: Seat, more: bool)
    requires OneLine(b) && ParseSeat(InLine(a, t)) == Read(Some((seat, more)), InLine(b, t))
    requires !more || |got| + 1 >= MAX_RESERVATION_SIZE
    ensures LeavesRest(b, t, ParseSeats(InLine(a, t), got).rest)
  {
    AfterSeat(InLine(a, t), got, seat, more, InLine(b, t));
    if |got| + 1 >= MAX_RESERVATION_SIZE {
      SkipRest(b, t);
    } else {
      ListEndInLine(b, got + [seat], t);
    }
  }

  lemma SeatsEatStops(a: string, n: nat)
    requires !SeatEnd(a).Ends?
    ensures SeatsEat(a, n) == SeatEnd(a).Breaks?
  {
  }

  lemma SeatsEatGoesOn(a: string, n: nat, p: nat, more: bool)
    requires SeatEnd(a) == Ends(p, more) && p <= |a|
    ensures SeatsEat(a, n) == (more && n + 1 < MAX_RESERVATION_SIZE && SeatsEat(a[p..], n + 1))
  {
  }

  lemma SeatsStop(a: string, got: seq<Seat>, t: string, e: SeatEnding)
    requires !e.Ends? && SeatRead(e, a, t, ParseSeat(InLine(a, t)))
    ensures SeatsLeft(e.Breaks?, a, t, ParseSeats(InLine(a, t), got))
  {
    SeatsRefused(InLine(a, t), got);
  }

  lemma {:induction false} SeatsLine(a: string, got: seq<Seat>, t: string)
    requires OneLine(a)
    ensures SeatsLeft(SeatsEat(a, |got|), a, t, ParseSeats(InLine(a, t), got))
    decreases |a|, 1
  {
    SeatInLine(a, t);
    var e := SeatEnd(a);
    if e.Ends? {
      SeatsLineOn(a, got, t, e.p, e.more);
    } else {
      SeatsEatStops(a, |got|);
      SeatsStop(a, got, t, e);
    }
  }

  lemma {:induction false} SeatsLineOn(a: string, got: seq<Seat>, t: string, p: nat, more: bool)
    requires SeatEnd(a) == Ends(p, more) && 0 < p <= |a| && SeatRead(Ends(p, more), a, t, ParseSeat(InLine(a, t)))
    ensures SeatsLeft(SeatsEat(a, |got|), a, t, ParseSeats(InLine(a, t), got))
    decreases |a|, 0
  {
    var seat := ParseSeat(InLine(a, t)).value.value.0;
    SeatsEatGoesOn(a, |got|, p, more);
    if more && |got| + 1 < MAX_RESERVATION_SIZE {
      SeatsLineMore(a, got, t, a[p..], seat);
    } else {
      SeatsEnd(a, got, t, a[p..], seat, more);
    }
    SeatsLift(SeatsEat(a, |got|), a, p, t, ParseSeats(InLine(a, t), got));
  }

  lemma {:induction false} SeatsLineMore(a: string, got: seq<Seat>, t: string, b: string, seat: Seat)
    requires OneLine(b) && |b| < |a| && ParseSeat(InLine(a, t)) == Read(Some((seat, true)), InLine(b, t))
    requires |got| + 1 < MAX_RESERVATION_SIZE
    ensures SeatsLeft(SeatsEat(b, |got| + 1), b, t, ParseSeats(InLine(a, t), got))
    decreases |b|, 2
  {
    AfterSeat(InLine(a, t), got, seat, true, InLine(b, t));
    SeatsLine(b, got + [seat], t);
  }

  /** RESERVE's arguments, given where the id ends. */
  lemma ReserveListLine(s: string, b: string, t: string)
    requires OneLine(b) && Goes(ReadUint(s)) && ReadUint(s).rest == InLine(b, t)
    ensures Left(b == "" || (b[0] == '[' && SeatsEat(b[1..], 0)), b, t, ParseReserve(s))
  {
    InLineAt(b, 0, t);
    if b == "" {
      InLineEnd(t);
    } else {
      InLineAt(b, 1, t);
      SkipRest(b[1..], t);
      if b[0] == '[' {
        SeatsLine(b[1..], [], t);
        var r := ParseSeats(InLine(b[1..], t), []);
        if !SeatsEat(b[1..], 0) {
          LeavesRestLift(b, 1, t, r.rest);
        }
      }
    }
  }

  lemma ReserveLine(a: string, t: string)
    requires OneLine(a)
    ensures Left(ReserveEats(a), a, t, ParseReserve(InLine(a, t)))
  {
    CoordinateInLine(a, ' ', t);
    var p := Coordinate(a, ' ');
    if p.Some? {
      var b := a[p.value..];
      ReserveListLine(InLine(a, t), b, t);
      assert b != "" ==> b[1..] == a[p.value + 1..] && b[0] == a[p.value];
      LeftLift(ReserveEats(a), a, p.value, t, ParseReserve(InLine(a, t)));
    }
  }

  // ----- The keyword -----

  /** The keyword read takes the whole line, its newline, and what the keyword still lacks. */
  lemma ShortWordLine(line: string, word: string, k: Keyword, t: string)
    requires OneLine(line) && OneLine(word) && line != "" && |line| < |word|
    ensures Word(InLine(line, t), word, k) == Read(KInvalid, Cleanup(Beyond(t, |word| - |line| - 1)))
  {
    var s := InLine(line, t);
    assert s[|line|] == '\n';
    if |word| <= |s| {
      assert s[..|word|][|line|] == '\n';
      assert s[|word|..] == t[|word| - |line| - 1..];
    }
    assert Ahead(s, |word|) != word;
  }

  lemma WordLine(line: string, word: string, k: Keyword, t: string)
    requires OneLine(line) && word != "" && line != "" && |word| <= |line|
    ensures Word(InLine(line, t), word, k) ==
      if word <= line then Read(k, InLine(line[|word|..], t)) else Read(KInvalid, t)
  {
    InLineAt(line, |word|, t);
    SkipRest(line[|word|..], t);
    assert word <= line <==> line[..|word|] == word;
  }

  lemma WholeLineStages(s: string, word: string, k: Keyword, w: Read<Keyword>)
    requires word != "" && s != "" && k != KInvalid && Word(s, word, k) == w
    ensures w.value == KInvalid ==> WholeLine(s, word, k) == w
    ensures w.value != KInvalid && w.rest != "" ==>
      WholeLine(s, word, k).rest == if w.rest[0] == '\n' then w.rest[1..] else Cleanup(w.rest[1..])
  {
  }

  /** What is left of a line after a keyword that should end it. */
  lemma EndOfLine(a: string, t: string)
    requires OneLine(a)
    ensures var s := InLine(a, t); s != "" && (if s[0] == '\n' then s[1..] else Cleanup(s[1..])) == t
  {
    InLineAt(a, 0, t);
    if a == "" {
      InLineEnd(t);
    } else {
      InLineAt(a, 1, t);
      SkipRest(a[1..], t);
    }
  }

  lemma WholeLineLong(line: string, word: string, k: Keyword, t: string)
    requires OneLine(line) && word != "" && line != "" && k != KInvalid && |word| <= |line|
    ensures WholeLine(InLine(line, t), word, k).rest == t
  {
    WordLine(line, word, k, t);
    WholeLineStages(InLine(line, t), word, k, Word(InLine(line, t), word, k));
    if word <= line {
      EndOfLine(line[|word|..], t);
    }
  }

  lemma WholeLineLine(line: string, word: string, k: Keyword, t: string)
    requires OneLine(line) && OneLine(word) && word != "" && line != "" && k != KInvalid
    ensures |line| >= |word| ==> WholeLine(InLine(line, t), word, k).rest == t
    ensures |line| < |word| ==>
      WholeLine(InLine(line, t), word, k) == Read(KInvalid, Cleanup(Beyond(t, |word| - |line| - 1)))
  {
    if |line| < |word| {
      ShortWordLine(line, word, k, t);
    } else {
      WholeLineLong(line, word, k, t);
    }
  }

  // ----- A whole line -----

  /** What reading a line of this cost leaves ahead. */
  ghost predicate Pays(c: Cost, line: string, t: string, r: Read<Command>) {
    if c.Into? then r == Read(Invalid, Cleanup(Beyond(t, c.n))) else LeavesRest(line, t, r.rest)
  }

  lemma WordStart(d: Dialect, s: string)
    requires s != "" && ArgumentWord(s[0]).Some?
    ensures var (word, k) := ArgumentWord(s[0]).value;
      WordLength(d, s[0]) == |word| && GetNext(d, s) == Word(s, word, k)
  {
  }

  lemma DispatchPlain(d: Dialect, s: string)
    requires GetNext(d, s).value !in {KCreate, KReserve, KShow, KWait}
    ensures NextCommand(d, s).rest == GetNext(d, s).rest
    ensures GetNext(d, s).value == KInvalid ==> NextCommand(d, s).value == Invalid
  {
  }

  /** A word of which the line is the beginning, or which the line does not begin with. */
  lemma BadWord(line: string, t: string, word: string, k: Keyword, r: Read<Command>)
    requires OneLine(line) && OneLine(word) && line != "" && word != "" && !(word <= line)
    requires r == Read(Invalid, Word(InLine(line, t), word, k).rest)
    ensures Pays(if |line| < |word| then Into(|word| - |line| - 1) else Nothing, line, t, r)
  {
    if |line| < |word| {
      ShortWordLine(line, word, k, t);
    } else {
      WordLine(line, word, k, t);
    }
  }

  lemma BadWordCost(d: Dialect, line: string)
    requires line != "" && ArgumentWord(line[0]).Some? && !(ArgumentWord(line[0]).value.0 <= line)
    ensures var n := |ArgumentWord(line[0]).value.0|;
      CostOf(d, line) == if |line| < n then Into(n - |line| - 1) else Nothing
  {
  }

  lemma WordRefused(line: string, t: string, word: string, k: Keyword)
    requires OneLine(line) && OneLine(word) && line != "" && word != "" && !(word <= line)
    ensures Word(InLine(line, t), word, k).value == KInvalid
  {
    if |line| < |word| {
      ShortWordLine(line, word, k, t);
    } else {
      WordLine(line, word, k, t);
    }
  }

  lemma BadWordLine(d: Dialect, line: string, t: string)
    requires OneLine(line) && line != "" && ArgumentWord(line[0]).Some?
    requires !(ArgumentWord(line[0]).value.0 <= line)
    ensures Pays(CostOf(d, line), line, t, NextCommand(d, InLine(line, t)))
  {
    var (word, k) := ArgumentWord(line[0]).value;
    InLineAt(line, 0, t);
    WordStart(d, InLine(line, t));
    WordRefused(line, t, word, k);
    DispatchPlain(d, InLine(line, t));
    BadWord(line, t, word, k, NextCommand(d, InLine(line, t)));
    BadWordCost(d, line);
  }

  /** The command loop hands the text after the keyword to the matching parse function. */
  lemma Dispatch(d: Dialect, s: string, k: Keyword, a: string)
    requires GetNext(d, s) == Read(k, a)
    ensures k == KCreate ==> NextCommand(d, s) == OrInvalid(ParseCreate(a))
    ensures k == KReserve ==> NextCommand(d, s) == OrInvalid(ParseReserve(a))
    ensures k == KShow ==> NextCommand(d, s) == OrInvalid(ParseShow(a))
    ensures k == KWait ==> var w := ParseWait(d, a);
      NextCommand(d, s).rest == w.rest && (w.value.None? ==> NextCommand(d, s).value == Invalid)
  {
  }

  lemma ArgumentsCost(d: Dialect, line: string)
    requires line != "" && ArgumentWord(line[0]).Some? && ArgumentWord(line[0]).value.0 <= line
    ensures var (word, k) := ArgumentWord(line[0]).value;
      CostOf(d, line) == if Eats(d, k, line[|word|..]) then Into(0) else Nothing
  {
  }

  lemma ArgumentsRead(eats: bool, line: string, n: nat, t: string, r: Read<Option<Command>>, c: Read<Command>)
    requires n <= |line| && Left(eats, line[n..], t, r)
    requires c.rest == r.rest && (r.value.None? ==> c.value == Invalid)
    ensures Pays(if eats then Into(0) else Nothing, line, t, c)
  {
    LeftLift(eats, line, n, t, r);
    assert Beyond(t, 0) == t;
  }

  /** The arguments of a keyword that is there. */
  lemma ArgumentsLine(d: Dialect, k: Keyword, line: string, n: nat, a: string, t: string)
    requires OneLine(a) && n <= |line| && a == line[n..] && k in {KCreate, KReserve, KShow, KWait}
    requires GetNext(d, InLine(line, t)) == Read(k, InLine(a, t))
    ensures Pays(if Eats(d, k, a) then Into(0) else Nothing, line, t, NextCommand(d, InLine(line, t)))
  {
    var s, b := InLine(line, t), InLine(a, t);
    Dispatch(d, s, k, b);
    match k
    case KCreate =>
      CreateLine(a, t);
      ArgumentsRead(NumbersEat(a, 3), line, n, t, ParseCreate(b), NextCommand(d, s));
    case KReserve =>
      ReserveLine(a, t);
      ArgumentsRead(ReserveEats(a), line, n, t, ParseReserve(b), NextCommand(d, s));
    case KShow =>
      ShowLine(a, t);
      ArgumentsRead(NumbersEat(a, 1), line, n, t, ParseShow(b), NextCommand(d, s));
    case KWait =>
      WaitLine(d, a, t);
      ArgumentsRead(WaitEats(d, a), line, n, t, ParseWait(d, b), NextCommand(d, s));
  }

  lemma GoodWordLine(d: Dialect, line: string, t: string)
    requires OneLine(line) && line != "" && ArgumentWord(line[0]).Some?
    requires ArgumentWord(line[0]).value.0 <= line
    ensures Pays(CostOf(d, line), line, t, NextCommand(d, InLine(line, t)))
  {
    var (word, k) := ArgumentWord(line[0]).value;
    InLineAt(line, 0, t);
    WordStart(d, InLine(line, t));
    WordLine(line, word, k, t);
    InLineAt(line, |word|, t);
    ArgumentsLine(d, k, line, |word|, line[|word|..], t);
    ArgumentsCost(d, line);
  }

  lemma ListStart(d: Dialect, s: string)
    requires s != "" && s[0] == 'L'
    ensures GetNext(d, s) == WholeLine(s, "LIST", KList)
  {
  }

  lemma HelpStart(d: Dialect, s: string)
    requires s != "" && s[0] == 'H'
    ensures GetNext(d, s) == WholeLine(s, "HELP", KHelp)
  {
  }

  lemma BarrierStart(s: string)
    requires s != "" && s[0] == 'B'
    ensures GetNext(Part1, s) == WholeLine(s, "BARRIER", KBarrier)
  {
  }

  lemma AloneStart(d: Dialect, s: string)
    requires s != "" && AloneWord(d, s[0]).Some?
    ensures var (word, k) := AloneWord(d, s[0]).value;
      GetNext(d, s) == WholeLine(s, word, k) && k !in {KCreate, KReserve, KShow, KWait, KInvalid}
  {
    if s[0] == 'L' {
      ListStart(d, s);
    } else if s[0] == 'H' {
      HelpStart(d, s);
    } else {
      BarrierStart(s);
    }
  }

  lemma AloneCost(d: Dialect, line: string)
    requires line != "" && AloneWord(d, line[0]).Some?
    ensures var n := |AloneWord(d, line[0]).value.0|;
      CostOf(d, line) == if |line| < n then Into(n - |line| - 1) else Nothing
  {
  }

  lemma AloneRead(line: string, t: string, n: nat, w: Read<Keyword>, r: Read<Command>)
    requires if |line| < n then w == Read(KInvalid, Cleanup(Beyond(t, n - |line| - 1))) else w.rest == t
    requires r.rest == w.rest && (w.value == KInvalid ==> r.value == Invalid)
    ensures Pays(if |line| < n then Into(n - |line| - 1) else Nothing, line, t, r)
  {
  }

  lemma AloneDispatch(d: Dialect, s: string, word: string, k: Keyword)
    requires s != "" && AloneWord(d, s[0]) == Some((word, k))
    ensures var (w, r) := (WholeLine(s, word, k), NextCommand(d, s));
      r.rest == w.rest && (w.value == KInvalid ==> r.value == Invalid)
  {
    AloneStart(d, s);
    DispatchPlain(d, s);
  }

  lemma AloneWordKind(d: Dialect, c: char)
    requires AloneWord(d, c).Some?
    ensures AloneWord(d, c).value.1 != KInvalid
  {
  }

  lemma AloneWhole(line: string, t: string, word: string, k: Keyword, r: Read<Command>)
    requires OneLine(line) && OneLine(word) && line != "" && word != "" && k != KInvalid && InLine(line, t) != ""
    requires var w := WholeLine(InLine(line, t), word, k); r.rest == w.rest && (w.value == KInvalid ==> r.value == Invalid)
    ensures Pays(if |line| < |word| then Into(|word| - |line| - 1) else Nothing, line, t, r)
  {
    WholeLineLine(line, word, k, t);
    AloneRead(line, t, |word|, WholeLine(InLine(line, t), word, k), r);
  }

  lemma AloneRest(d: Dialect, line: string, t: string, word: string, k: Keyword)
    requires OneLine(line) && line != "" && AloneWord(d, line[0]) == Some((word, k))
    ensures Pays(if |line| < |word| then Into(|word| - |line| - 1) else Nothing, line, t, NextCommand(d, InLine(line, t)))
  {
    AloneWordKind(d, line[0]);
    InLineAt(line, 0, t);
    AloneDispatch(d, InLine(line, t), word, k);
    AloneWhole(line, t, word, k, NextCommand(d, InLine(line, t)));
  }

  lemma AloneLine(d: Dialect, line: string, t: string)
    requires OneLine(line) && line != "" && AloneWord(d, line[0]).Some?
    ensures Pays(CostOf(d, line), line, t, NextCommand(d, InLine(line, t)))
  {
    var (word, k) := AloneWord(d, line[0]).value;
    AloneRest(d, line, t, word, k);
    AloneCost(d, line);
  }

  lemma OtherStart(d: Dialect, s: string)
    requires s != "" && ArgumentWord(s[0]).None? && AloneWord(d, s[0]).None?
    ensures GetNext(d, s).value in {KEmpty, KInvalid}
    ensures GetNext(d, s).rest == if s[0] == '\n' then s[1..] else Cleanup(s[1..])
  {
  }

  lemma OtherCost(d: Dialect, line: string)
    requires line != "" ==> ArgumentWord(line[0]).None? && AloneWord(d, line[0]).None?
    ensures CostOf(d, line) == Nothing
  {
  }

  /** Empty lines, comments, and lines that begin like no keyword. */
  lemma OtherLine(d: Dialect, line: string, t: string)
    requires OneLine(line)
    requires line != "" ==> ArgumentWord(line[0]).None? && AloneWord(d, line[0]).None?
    ensures Pays(CostOf(d, line), line, t, NextCommand(d, InLine(line, t)))
  {
    InLineAt(line, 0, t);
    EndOfLine(line, t);
    OtherCost(d, line);
    if line == "" {
      InLineEnd(t);
    }
    OtherStart(d, InLine(line, t));
    DispatchPlain(d, InLine(line, t));
  }

  // ----- Main results -----

  /** What any line whatever, read as a command, leaves of the lines after it. */
  lemma LineLeft(d: Dialect, line: string, t: string)
    requires OneLine(line)
    ensures Pays(CostOf(d, line), line, t, NextCommand(d, InLine(line, t)))
  {
    if line != "" && ArgumentWord(line[0]).Some? {
      if ArgumentWord(line[0]).value.0 <= line {
        GoodWordLine(d, line, t);
      } else {
        BadWordLine(d, line, t);
      }
    } else if line != "" && AloneWord(d, line[0]).Some? {
      AloneLine(d, line, t);
    } else {
      OtherLine(d, line, t);
    }
  }

  lemma {:induction false} CleanupShortens(t: string)
    requires t != ""
    ensures |Cleanup(t)| < |t|
  {
    if t[0] != '\n' && t[1..] != "" {
      CleanupShortens(t[1..]);
    }
  }

  lemma CostShortens(t: string, n: nat)
    requires t != ""
    ensures Cleanup(Beyond(t, n)) != t
  {
    if Beyond(t, n) != "" {
      CleanupShortens(Beyond(t, n));
    }
  }

  /** A line with no NUL in it affects only itself if and only if it is not shorter than the keyword
      its first letter announces, and its arguments neither break off at its end nor end in a number
      too big to keep. Every line that costs others is itself refused. */
  lemma AffectsOnlyItselfIff(d: Dialect, line: string, t: string)
    requires OneLine(line) && '\0' !in line && t != ""
    ensures NextCommand(d, InLine(line, t)).rest == t <==> !ShortWord(d, line) && !ArgumentsEat(d, line)
    ensures NextCommand(d, InLine(line, t)).rest != t ==> NextCommand(d, InLine(line, t)).value == Invalid
  {
    LineLeft(d, line, t);
    CostIff(d, line);
    PaysIff(CostOf(d, line), line, t, NextCommand(d, InLine(line, t)));
  }

  lemma CostIff(d: Dialect, line: string)
    ensures CostOf(d, line) == Nothing <==> !ShortWord(d, line) && !ArgumentsEat(d, line)
  {
  }

  lemma PaysIff(c: Cost, line: string, t: string, r: Read<Command>)
    requires '\0' !in line && t != "" && Pays(c, line, t, r)
    ensures r.rest == t <==> c == Nothing
    ensures r.rest != t ==> r.value == Invalid
  {
    if c.Into? {
      CostShortens(t, c.n);
    }
  }
}
