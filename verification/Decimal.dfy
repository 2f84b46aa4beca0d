/** Unsigned decimal numbers as text: what is printed, what is read, and the two digit loops. */
module Decimal {
  import opened Seating

  predicate IsDigit(c: char) { '0' <= c <= '9' }

  function DigitOf(d: nat): (c: char)
    requires d < 10
    ensures IsDigit(c)
  {
    '0' + d as char
  }

  function Digit(c: char): (d: nat)
    requires IsDigit(c)
    ensures d < 10
  {
    (c - '0') as nat
  }

  lemma DigitInverse(d: nat)
    requires d < 10
    ensures Digit(DigitOf(d)) == d
  {
  }

  /** The decimal text of a number, as `%u` prints it. */
  function Digits(n: nat): (s: string)
    ensures s != "" && AllDigits(s)
  {
    if n < 10 then [DigitOf(n)] else Digits(n / 10) + [DigitOf(n % 10)]
  }

  predicate AllDigits(s: string) { forall i :: 0 <= i < |s| ==> IsDigit(s[i]) }

  /** The number a run of digits stands for; an empty run stands for 0. */
  function Value(s: string): nat
    requires AllDigits(s)
  {
    if s == "" then 0 else Value(s[..|s| - 1]) * 10 + Digit(s[|s| - 1])
  }

  lemma {:induction false} ValueOfDigits(n: nat)
    ensures Value(Digits(n)) == n
  {
    if n < 10 {
      DigitInverse(n);
      assert Value([DigitOf(n)]) == Value([DigitOf(n)][..0]) * 10 + Digit(DigitOf(n));
    } else {
      ValueOfDigits(n / 10);
      DigitInverse(n % 10);
      assert Digits(n)[..|Digits(n)| - 1] == Digits(n / 10);
    }
  }

  function Pow10(k: nat): (p: nat)
    ensures p >= 1
  {
    if k == 0 then 1 else 10 * Pow10(k - 1)
  }

  /** Numbers are written without leading zeros. */
  lemma {:induction false} NoLeadingZero(n: nat)
    ensures Digits(n) != "" && (Digits(n)[0] == '0' ==> n == 0) && (n == 0 ==> Digits(n) == "0")
  {
    if n >= 10 {
      NoLeadingZero(n / 10);
    }
  }

  lemma {:induction false} DigitsLength(n: nat, k: nat)
    requires n < Pow10(k) && k >= 1
    ensures |Digits(n)| <= k
  {
    assert Pow10(1) == 10;
    if n >= 10 {
      DigitsLength(n / 10, k - 1);
    }
  }

  /** An `unsigned int` never takes more than ten digits. */
  lemma UintDigits(n: nat)
    requires n < UINT_RANGE
    ensures 1 <= |Digits(n)| <= 10
  {
    assert Pow10(5) == 100000;
    assert Pow10(10) == 10 * (10 * (10 * (10 * (10 * Pow10(5)))));
    DigitsLength(n, 10);
  }

  /** Length of the run of digits a text starts with. */
  function DigitRun(s: string): (n: nat)
    ensures n <= |s| && AllDigits(s[..n]) && (n < |s| ==> !IsDigit(s[n]))
  {
    if s != "" && IsDigit(s[0]) then 1 + DigitRun(s[1..]) else 0
  }

  /** What one call of read_uint or parse_uint does to the text ahead. `next` is the character that
      ended the run, NUL at the end of the file; it is consumed. None: the number does not fit. */
  datatype UintRead = UintRead(value: Option<nat>, next: char, rest: string)

  function ReadUint(s: string): (r: UintRead)
    ensures |r.rest| <= |s|
  {
    var n := DigitRun(s);
    var v := Value(s[..n]);
    UintRead(if v < UINT_RANGE then Some(v) else None,
             if n < |s| then s[n] else '\0',
             if n < |s| then s[n + 1..] else "")
  }

  lemma {:induction false} DigitRunOf(d: string, c: char, tail: string)
    requires AllDigits(d) && !IsDigit(c)
    ensures DigitRun(d + [c] + tail) == |d|
  {
    if d != "" {
      DigitRunOf(d[1..], c, tail);
      assert (d + [c] + tail)[1..] == d[1..] + [c] + tail;
    }
  }

  /** Reading back a printed number returns it, with the delimiter, for every `unsigned int`. */
  lemma UintRoundTrip(n: nat, c: char, tail: string)
    requires !IsDigit(c)
    ensures ReadUint(Digits(n) + [c] + tail) ==
      UintRead(if n < UINT_RANGE then Some(n) else None, c, tail)
  {
    var d := Digits(n);
    DigitRunOf(d, c, tail);
    ValueOfDigits(n);
    assert (d + [c] + tail)[..|d|] == d;
    assert (d + [c] + tail)[|d| + 1..] == tail;
  }

  /** The digits of `n` not yet in `done`, after one digit more. */
  lemma LastDigit(value: nat, done: string, digits: string)
    requires value > 0 && Digits(value) + done == digits
    ensures 1 <= |Digits(value)|
    ensures var more := [DigitOf(value % 10)] + done;
      if value / 10 > 0 then Digits(value / 10) + more == digits else more == digits
  {
    var rest := if value < 10 then "" else Digits(value / 10);
    assert Digits(value) == rest + [DigitOf(value % 10)];
    assert rest + [DigitOf(value % 10)] + done == rest + ([DigitOf(value % 10)] + done);
  }

  /** A file or pipe written to: each write may take only part of what it is given. */
  class Sink {
    var text: string

    constructor ()
      ensures text == ""
    {
      text := "";
    }

    /** One write call: takes between 1 and all of the bytes offered. */
    method Write(bytes: string) returns (written: nat)
      requires bytes != ""
      modifies this
      ensures 1 <= written <= |bytes|
      ensures text == old(text) + bytes[..written]
    {
      var w: nat :| 1 <= w <= |bytes|;
      written := w;
      text := text + bytes[..written];
    }

    /** Write the buffer from position `from` on, until all of it is taken. */
    method WriteFrom(buffer: array<char>, from: nat)
      requires from <= buffer.Length
      modifies this
      ensures text == old(text) + buffer[from..]
    {
      var i := from;
      while i < buffer.Length
        invariant from <= i <= buffer.Length
        invariant text == old(text) + buffer[from..i]
      {
        var written := Write(buffer[i..]);
        assert buffer[from..i] + buffer[i..][..written] == buffer[from..i + written];
        i := i + written;
      }
      assert buffer[from..i] == buffer[from..];
    }

    /** print_uint: digits from the end of a 16-byte buffer, then writes until all are taken. */
    method PrintUint(n: nat)
      requires n < UINT_RANGE
      modifies this
      ensures text == old(text) + Digits(n)
    {
      var buffer := new char[16];
      var i := 16;
      var value: nat := n;
      UintDigits(n);
      while value > 0
        invariant 0 <= i <= 16 && text == old(text)
        invariant value > 0 ==> Digits(value) + buffer[i..] == Digits(n)
        invariant value == 0 ==> (n == 0 && i == 16) || (i < 16 && buffer[i..] == Digits(n))
      {
        ghost var done := buffer[i..];
        assert |Digits(n)| == |Digits(value)| + (16 - i);
        LastDigit(value, done, Digits(n));
        i := i - 1;
        buffer[i] := DigitOf(value % 10);
        assert buffer[i..] == [DigitOf(value % 10)] + done;
        value := value / 10;
      }
      if i == 16 {
        i := i - 1;
        buffer[i] := '0';
        assert buffer[i..] == ['0'];
        assert Digits(0) == [DigitOf(0)] && DigitOf(0) == '0';
      }
      assert buffer[i..] == Digits(n);
      WriteFrom(buffer, i);
    }

    /** print_str, and Part 1's safe_write: write until nothing is left. */
    method PrintStr(str: string)
      modifies this
      ensures text == old(text) + str
    {
      var rest := str;
      while |rest| > 0
        invariant text + rest == old(text) + str
        decreases |rest|
      {
        var written := Write(rest);
        assert rest == rest[..written] + rest[written..];
        rest := rest[written..];
      }
    }
  }
}
