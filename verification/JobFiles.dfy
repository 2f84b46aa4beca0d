/** The parser as it runs: a file cursor, a 16-byte buffer and coordinate arrays filled in place. */
module JobFiles {
  import opened Seating
  import opened Decimal
  import opened JobGrammar
  import opened Reservation

  /** What the parser relies on: the last line is ended by a newline, and no run of digits fills
      the 16-byte buffer. */
  ghost predicate Clean(s: string) {
    && (s != "" ==> s[|s| - 1] == '\n')
    && forall p :: 0 <= p <= |s| ==> ShortRun(s, p)
  }

  ghost predicate ShortRun(s: string, p: nat)
    requires p <= |s|
  {
    DigitRun(s[p..]) < 16
  }

  lemma CleanSuffix(s: string, n: nat)
    requires Clean(s) && n <= |s|
    ensures Clean(s[n..])
  {
    forall p | 0 <= p <= |s[n..]|
      ensures ShortRun(s[n..], p)
    {
      assert s[n..][p..] == s[n + p..];
      assert ShortRun(s, n + p);
    }
  }

  /** A number in a clean text is ended before the text is, and only a newline ends the text. */
  lemma CleanNumber(s: string)
    requires Clean(s) && s != ""
    ensures DigitRun(s) < 16 && DigitRun(s) < |s|
    ensures Clean(ReadUint(s).rest)
    ensures ReadUint(s).next != '\n' ==> ReadUint(s).rest != ""
  {
    assert ShortRun(s, 0);
    assert s[0..] == s;
    CleanSuffix(s, DigitRun(s) + 1);
  }

  /** strtoul on a buffer: the digits up to the first other character. */
  function Strtoul(buf: string): nat {
    Value(buf[..DigitRun(buf)])
  }

  lemma RunAhead(s: string, n: nat)
    requires n < |s| && AllDigits(s[..n]) && !IsDigit(s[n])
    ensures DigitRun(s) == n
  {
    if n > 0 {
      assert s[..n][0] == s[0];
      assert s[1..][..n - 1] == s[..n][1..];
      RunAhead(s[1..], n - 1);
    }
  }

  lemma RunAt(s: string, i: nat)
    requires i <= DigitRun(s) < |s|
    ensures IsDigit(s[i]) <==> i < DigitRun(s)
  {
    RunOf(s, DigitRun(s), i);
  }

  lemma RunOf(s: string, n: nat, i: nat)
    requires i <= n < |s| && AllDigits(s[..n]) && !IsDigit(s[n])
    ensures IsDigit(s[i]) <==> i < n
  {
    assert i < n ==> s[i] == s[..n][i];
  }

  /** xs[n] = x; ys[n] = y; */
  method PutSeat(xs: array<nat>, ys: array<nat>, n: nat, seat: Seat)
    requires n < xs.Length == ys.Length && xs != ys
    modifies xs, ys
    ensures SeatsOf(xs[..n + 1], ys[..n + 1]) == old(SeatsOf(xs[..n], ys[..n])) + [seat]
  {
    xs[n] := seat.x;
    ys[n] := seat.y;
  }

  /** Of the seat list `s`, `got` have been read and `rest` is ahead. */
  ghost predicate SeatsRead(s: string, got: seq<Seat>, rest: string) {
    if |got| < MAX_RESERVATION_SIZE then ParseSeats(rest, got) == ParseSeats(s, [])
    else ParseSeats(s, []) == Read(None, Cleanup(rest))
  }

  /** The seat list `s` has been read to its last seat, refused, or given up with the 256th: by `num`. */
  ghost predicate SeatsDone(s: string, num: nat, seats: seq<Seat>, rest: string) {
    ParseSeats(s, []) ==
      if num == 0 then Read(None, rest)
      else if num == MAX_RESERVATION_SIZE then Read(None, Cleanup(rest))
      else AfterList(rest, seats)
  }

  lemma SeatTaken(s: string, got: seq<Seat>, ahead: string, seat: Seat, more: bool, rest: string)
    requires SeatsRead(s, got, ahead) && |got| < MAX_RESERVATION_SIZE
    requires ParseSeat(ahead) == Read(Some((seat, more)), rest)
    ensures more || |got| + 1 == MAX_RESERVATION_SIZE ==> SeatsRead(s, got + [seat], rest)
    ensures !more || |got| + 1 == MAX_RESERVATION_SIZE ==> SeatsDone(s, |got| + 1, got + [seat], rest)
  {
    AfterSeat(ahead, got, seat, more, rest);
  }

  lemma SeatRefused(s: string, got: seq<Seat>, ahead: string, rest: string)
    requires SeatsRead(s, got, ahead) && |got| < MAX_RESERVATION_SIZE && ParseSeat(ahead) == Read(None, rest)
    ensures SeatsDone(s, 0, [], rest)
  {
  }

  class JobFile {
    const text: string
    var pos: nat

    ghost predicate Valid()
      reads this
    {
      pos <= |text|
    }

    ghost function Rest(): string
      reads this
      requires Valid()
    {
      text[pos..]
    }

    constructor (text: string)
      ensures Valid() && Rest() == text
    {
      this.text := text;
      this.pos := 0;
    }

    /** read(fd, &c, 1) */
    method ReadChar() returns (n: nat, c: char)
      requires Valid()
      modifies this
      ensures Valid()
      ensures old(Rest()) == "" ==> n == 0 && Rest() == ""
      ensures old(Rest()) != "" ==> n == 1 && c == old(Rest())[0] && Rest() == old(Rest())[1..]
    {
      if pos == |text| {
        return 0, '\0';
      }
      n, c := 1, text[pos];
      pos := pos + 1;
    }

    /** read(fd, buf + at, n) on a regular file: as many characters as there are, up to n. */
    method ReadInto(buf: array<char>, at: nat, n: nat) returns (got: nat)
      requires Valid() && at + n <= buf.Length
      modifies this, buf
      ensures Valid()
      ensures got == |Ahead(old(Rest()), n)| && Rest() == Beyond(old(Rest()), n)
      ensures buf[..at] == old(buf[..at]) && buf[at..at + got] == Ahead(old(Rest()), n)
    {
      got := if n <= |text| - pos then n else |text| - pos;
      for i := 0 to got
        invariant pos == old(pos) && buf[..at] == old(buf[..at])
        invariant buf[at..at + i] == text[pos..pos + i]
      {
        buf[at + i] := text[pos + i];
        assert buf[at..at + i + 1] == buf[at..at + i] + [text[pos + i]];
        assert text[pos..pos + i + 1] == text[pos..pos + i] + [text[pos + i]];
      }
      assert text[pos..][..got] == text[pos..pos + got];
      pos := pos + got;
    }

    method SkipLine()
      requires Valid()
      modifies this
      ensures Valid() && Rest() == Cleanup(old(Rest()))
    {
      var n, c := ReadChar();
      while n == 1 && c != '\n'
        invariant Valid() && n <= 1
        invariant (if n == 1 && c == '\n' then Rest() else if n == 1 then Cleanup(Rest()) else "") == Cleanup(old(Rest()))
        invariant n == 0 ==> Rest() == ""
        decreases |Rest()|, n
      {
        n, c := ReadChar();
      }
    }

    /** The reading loop of read_uint and parse_uint: digits into the buffer, then a NUL. */
    method FillDigits(buf: array<char>) returns (next: char)
      requires Valid() && DigitRun(Rest()) < |Rest()| && DigitRun(Rest()) < buf.Length
      modifies this, buf
      ensures Valid()
      ensures var (s, run) := (old(Rest()), DigitRun(old(Rest())));
        next == s[run] && Rest() == s[run + 1..] && buf[..run] == s[..run] && buf[run] == '\0'
    {
      var i := 0;
      ghost var s := Rest();
      ghost var run := DigitRun(s);
      while true
        invariant Valid() && 0 <= i <= run && Rest() == s[i..]
        invariant buf[..i] == s[..i]
        decreases run - i
      {
        var n, c := ReadChar();
        buf[i] := c;
        next := buf[i];
        RunAt(s, i);
        if buf[i] > '9' || buf[i] < '0' {
          buf[i] := '\0';
          break;
        }
        i := i + 1;
      }
    }

    /** read_uint of Part 1, parse_uint of Part 2. */
    method GetUint() returns (value: Option<nat>, next: char)
      requires Valid() && Rest() != "" && Clean(Rest())
      modifies this
      ensures Valid() && UintRead(value, next, Rest()) == ReadUint(old(Rest()))
    {
      var buf := new char[16];
      ghost var s := Rest();
      ghost var run := DigitRun(s);
      CleanNumber(s);
      next := FillDigits(buf);
      assert buf[..][..run] == s[..run];
      RunAhead(buf[..], run);
      var ul := Strtoul(buf[..]);
      value := if ul >= UINT_RANGE then None else Some(ul);
    }

    /** The rest of a keyword whose first character is in the buffer already. */
    method TryWord(buf: array<char>, word: string, k: Keyword) returns (r: Keyword)
      requires Valid() && 2 <= |word| <= buf.Length && buf[0] == word[0]
      modifies this, buf
      ensures Valid() && Read(r, Rest()) == Word([word[0]] + old(Rest()), word, k)
    {
      ghost var s := [word[0]] + Rest();
      var got := ReadInto(buf, 1, |word| - 1);
      assert Beyond(s, |word|) == Rest();
      assert got == |word| - 1 ==> buf[..|word|] == buf[..1] + buf[1..|word|];
      assert got == |word| - 1 ==> Ahead(s, |word|) == buf[..|word|];
      if got != |word| - 1 || buf[..|word|] != word {
        SkipLine();
        return KInvalid;
      }
      return k;
    }

    /** The end of a line that consists of a keyword alone. */
    method TryLineEnd(k: Keyword) returns (r: Keyword)
      requires Valid() && k != KInvalid
      modifies this
      ensures Valid()
      ensures Read(r, Rest()) ==
        (if old(Rest()) == "" then Read(k, "")
         else if old(Rest())[0] != '\n' then Read(KInvalid, Cleanup(old(Rest())[1..]))
         else Read(k, old(Rest())[1..]))
    {
      var n, c := ReadChar();
      if n != 0 && c != '\n' {
        SkipLine();
        return KInvalid;
      }
      return k;
    }

    method NextKeyword(d: Dialect) returns (r: Keyword)
      requires Valid()
      modifies this
      ensures Valid() && Read(r, Rest()) == GetNext(d, old(Rest()))
    {
      ghost var s := Rest();
      var buf := new char[16];
      var n, c := ReadChar();
      if n != 1 {
        return KEnd;
      }
      assert s == [c] + Rest();
      buf[0] := c;
      match c
      case 'C' => r := TryWord(buf, "CREATE ", KCreate);
      case 'R' => r := TryWord(buf, "RESERVE ", KReserve);
      case 'S' => r := TryWord(buf, "SHOW ", KShow);
      case 'W' => r := TryWord(buf, "WAIT ", KWait);
      case 'L' =>
        r := TryWord(buf, "LIST", KList);
        if r == KList { r := TryLineEnd(KList); }
      case 'H' =>
        r := TryWord(buf, "HELP", KHelp);
        if r == KHelp { r := TryLineEnd(KHelp); }
      case '#' =>
        SkipLine();
        r := KEmpty;
      case '\n' => r := KEmpty;
      case _ =>
        if c == 'B' && d.Part1? {
          r := TryWord(buf, "BARRIER", KBarrier);
          if r == KBarrier { r := TryLineEnd(KBarrier); }
        } else {
          SkipLine();
          r := KInvalid;
        }
    }

    method TakeCreate() returns (r: Option<Command>)
      requires Valid() && Rest() != "" && Clean(Rest())
      modifies this
      ensures Valid() && Read(r, Rest()) == ParseCreate(old(Rest()))
    {
      CleanNumber(Rest());
      var id, c := GetUint();
      if id.None? || c != ' ' {
        SkipLine();
        return None;
      }
      CleanNumber(Rest());
      var rows;
      rows, c := GetUint();
      if rows.None? || c != ' ' {
        SkipLine();
        return None;
      }
      CleanNumber(Rest());
      var cols;
      cols, c := GetUint();
      if cols.None? || (c != '\n' && c != '\0') {
        SkipLine();
        return None;
      }
      return Some(Create(id.value, rows.value, cols.value));
    }

    method TakeShow() returns (r: Option<Command>)
      requires Valid() && Rest() != "" && Clean(Rest())
      modifies this
      ensures Valid() && Read(r, Rest()) == ParseShow(old(Rest()))
    {
      var id, c := GetUint();
      if id.None? || (c != '\n' && c != '\0') {
        SkipLine();
        return None;
      }
      return Some(Show(id.value));
    }

    method TakeWait(d: Dialect) returns (r: Option<Command>)
      requires Valid() && Rest() != "" && Clean(Rest())
      modifies this
      ensures Valid() && Read(r, Rest()) == ParseWait(d, old(Rest()))
    {
      CleanNumber(Rest());
      var delay, c := GetUint();
      if delay.None? {
        SkipLine();
        return None;
      }
      if c == ' ' {
        if d.Part2? {
          SkipLine();
          return Some(Wait(delay.value, None));
        }
        var tid;
        tid, c := GetUint();
        if tid.None? || (c != '\n' && c != '\0') {
          SkipLine();
          return None;
        }
        return Some(Wait(delay.value, tid));
      } else if c == '\n' || c == '\0' {
        return Some(Wait(delay.value, None));
      } else {
        SkipLine();
        return None;
      }
    }

    /** One `(x,y)`, and whether another one follows. */
    method TakeSeat() returns (r: Option<(Seat, bool)>)
      requires Valid() && Clean(Rest())
      modifies this
      ensures Valid() && Read(r, Rest()) == ParseSeat(old(Rest()))
      ensures r.Some? ==> Clean(Rest())
    {
      ghost var s := Rest();
      var n, c := ReadChar();
      if n != 1 || c != '(' {
        SkipLine();
        return None;
      }
      CleanSuffix(s, 1);
      CleanNumber(Rest());
      var x;
      x, c := GetUint();
      if x.None? || c != ',' {
        SkipLine();
        return None;
      }
      CleanNumber(Rest());
      var y;
      y, c := GetUint();
      if y.None? || c != ')' {
        SkipLine();
        return None;
      }
      CleanSuffix(Rest(), 1);
      n, c := ReadChar();
      if n != 1 || (c != ' ' && c != ']') {
        SkipLine();
        return None;
      }
      return Some((Seat(x.value, y.value), c == ' '));
    }

    /** parse_reserve: the number of seats read into the arrays, 0 on failure. */
    method TakeReserve(xs: array<nat>, ys: array<nat>) returns (num: nat, id: nat)
      requires Valid() && Rest() != "" && Clean(Rest())
      requires xs.Length == ys.Length == MAX_RESERVATION_SIZE && xs != ys
      modifies this, xs, ys
      ensures Valid() && num <= MAX_RESERVATION_SIZE
      ensures Rest() == ParseReserve(old(Rest())).rest
      ensures ParseReserve(old(Rest())).value ==
        if num == 0 then None else Some(Command.Reserve(id, SeatsOf(xs[..num], ys[..num])))
    {
      CleanNumber(Rest());
      var v, c := GetUint();
      if v.None? || c != ' ' {
        SkipLine();
        return 0, 0;
      }
      id := v.value;
      ghost var list := Rest();
      var n;
      n, c := ReadChar();
      if n != 1 || c != '[' {
        SkipLine();
        return 0, id;
      }
      CleanSuffix(list, 1);
      num := TakeSeats(xs, ys);
    }

    /** The seat loop of parse_reserve: the number of seats read, 0 on failure, 256 when it gives up. */
    method SeatLoop(xs: array<nat>, ys: array<nat>) returns (num: nat)
      requires Valid() && Clean(Rest())
      requires xs.Length == ys.Length == MAX_RESERVATION_SIZE && xs != ys
      modifies this, xs, ys
      ensures Valid() && num <= MAX_RESERVATION_SIZE
      ensures SeatsDone(old(Rest()), num, SeatsOf(xs[..num], ys[..num]), Rest())
    {
      ghost var s := Rest();
      num := 0;
      while num < MAX_RESERVATION_SIZE
        invariant Valid() && Clean(Rest()) && num <= MAX_RESERVATION_SIZE
        invariant SeatsRead(s, SeatsOf(xs[..num], ys[..num]), Rest())
        invariant num == MAX_RESERVATION_SIZE ==> SeatsDone(s, num, SeatsOf(xs[..num], ys[..num]), Rest())
      {
        var r := KeepSeat(xs, ys, num, s);
        if r.None? {
          return 0;
        }
        num := num + 1;
        if !r.value {
          break;
        }
      }
    }

    /** Reads one more seat of the list `s` into the arrays: whether another follows, None if refused. */
    method KeepSeat(xs: array<nat>, ys: array<nat>, num: nat, ghost s: string) returns (more: Option<bool>)
      requires Valid() && Clean(Rest()) && num < MAX_RESERVATION_SIZE
      requires xs.Length == ys.Length == MAX_RESERVATION_SIZE && xs != ys
      requires SeatsRead(s, SeatsOf(xs[..num], ys[..num]), Rest())
      modifies this, xs, ys
      ensures Valid()
      ensures more.None? ==> SeatsDone(s, 0, [], Rest())
      ensures more.Some? ==> Clean(Rest())
      ensures var got := SeatsOf(xs[..num + 1], ys[..num + 1]);
        && (more.Some? && (more.value || num + 1 == MAX_RESERVATION_SIZE) ==> SeatsRead(s, got, Rest()))
        && (more.Some? && (!more.value || num + 1 == MAX_RESERVATION_SIZE) ==> SeatsDone(s, num + 1, got, Rest()))
    {
      ghost var ahead := Rest();
      ghost var got := SeatsOf(xs[..num], ys[..num]);
      var r := TakeSeat();
      if r.None? {
        SeatRefused(s, got, ahead, Rest());
        return None;
      }
      SeatTaken(s, got, ahead, r.value.0, r.value.1, Rest());
      PutSeat(xs, ys, num, r.value.0);
      return Some(r.value.1);
    }

    method TakeSeats(xs: array<nat>, ys: array<nat>) returns (num: nat)
      requires Valid() && Clean(Rest())
      requires xs.Length == ys.Length == MAX_RESERVATION_SIZE && xs != ys
      modifies this, xs, ys
      ensures Valid() && num <= MAX_RESERVATION_SIZE
      ensures Read(if num == 0 then None else Some(SeatsOf(xs[..num], ys[..num])), Rest()) ==
        ParseSeats(old(Rest()), [])
    {
      num := SeatLoop(xs, ys);
      if num == 0 {
        return;
      }
      if num == MAX_RESERVATION_SIZE {
        SkipLine();
        return 0;
      }
      ghost var rows, cols := xs[..num], ys[..num];
      var ok := EndLine();
      assert xs[..num] == rows && ys[..num] == cols;
      if !ok {
        return 0;
      }
    }

    /** The character that must end a RESERVE line. */
    method EndLine() returns (ok: bool)
      requires Valid()
      modifies this
      ensures Valid()
      ensures ok <==> old(Rest()) != "" && LineEnd(old(Rest())[0])
      ensures Rest() == if ok then old(Rest())[1..] else Cleanup(Beyond(old(Rest()), 1))
    {
      var n, c := ReadChar();
      if n != 1 || (c != '\n' && c != '\0') {
        SkipLine();
        return false;
      }
      return true;
    }

    /** One turn of the command loop up to the point where the command is known. */
    method TakeCommand(d: Dialect, xs: array<nat>, ys: array<nat>) returns (c: Command)
      requires Valid() && Clean(Rest())
      requires xs.Length == ys.Length == MAX_RESERVATION_SIZE && xs != ys
      modifies this, xs, ys
      ensures Valid() && Read(c, Rest()) == NextCommand(d, old(Rest()))
    {
      ghost var s := Rest();
      var k := NextKeyword(d);
      ArgumentsAhead(d, s);
      match k
      case KCreate =>
        var r := TakeCreate();
        c := if r.Some? then r.value else Invalid;
      case KReserve =>
        var num, id := TakeReserve(xs, ys);
        c := if num > 0 then Command.Reserve(id, SeatsOf(xs[..num], ys[..num])) else Invalid;
      case KShow =>
        var r := TakeShow();
        c := if r.Some? then r.value else Invalid;
      case KWait =>
        var r := TakeWait(d);
        c := if r.None? || (d.Part1? && r.value.Wait? && r.value.delay == 0) then Invalid else r.value;
      case KList => c := ListEvents;
      case KHelp => c := Help;
      case KBarrier => c := Barrier;
      case KEmpty => c := Empty;
      case KInvalid => c := Invalid;
      case KEnd => c := EndOfCommands;
    }
  }

  /** After a keyword that takes arguments a clean text goes on. */
  lemma ArgumentsAhead(d: Dialect, s: string)
    requires Clean(s)
    ensures var k := GetNext(d, s);
      k.value in {KCreate, KReserve, KShow, KWait} ==> k.rest != "" && Clean(k.rest)
  {
    if s != "" {
      match s[0]
      case 'C' => WordLeavesText(s, "CREATE ", KCreate);
      case 'R' => WordLeavesText(s, "RESERVE ", KReserve);
      case 'S' => WordLeavesText(s, "SHOW ", KShow);
      case 'W' => WordLeavesText(s, "WAIT ", KWait);
      case _ =>
    }
  }

  lemma WordLeavesText(s: string, word: string, k: Keyword)
    requires Clean(s) && s != "" && word != "" && word[|word| - 1] == ' ' && k != KInvalid
    ensures Word(s, word, k).value == k ==> Word(s, word, k).rest != "" && Clean(Word(s, word, k).rest)
  {
    if Ahead(s, |word|) == word {
      assert s[|word| - 1] == word[|word| - 1];
      CleanSuffix(s, |word|);
    }
  }
}
