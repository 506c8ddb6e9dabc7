/** libc/stdio.c: numbers printed by divide-then-reverse, and the format interpreter. */
module Stdio {

  const DIGITS := "0123456789abcdef"

  // ---- the numeral of n, most significant digit first ----

  function Digits(n: nat, base: int): (s: string)
    requires 2 <= base <= 16
    ensures |s| > 0
  {
    if n < base then [DIGITS[n]]
    else
      Quotient(n, base);
      Digits(n / base, base) + [DIGITS[n % base]]
  }

  ghost function Value(c: char): int {
    if '0' <= c <= '9' then c as int - '0' as int
    else if 'a' <= c <= 'f' then c as int - 'a' as int + 10
    else -1
  }

  ghost predicate Numeral(s: string, base: int) {
    s != [] && forall i | 0 <= i < |s| :: 0 <= Value(s[i]) < base
  }

  ghost function Parse(s: string, base: int): int {
    if s == [] then 0 else Parse(s[..|s| - 1], base) * base + Value(s[|s| - 1])
  }

  lemma DigitValue(d: int)
    requires 0 <= d < 16
    ensures Value(DIGITS[d]) == d
  {
  }

  lemma ValueInjective(c: char, d: int)
    requires 0 <= d < 16 && Value(c) == d
    ensures c == DIGITS[d]
  {
  }

  lemma {:induction false} ParseDigits(n: nat, base: int)
    requires 2 <= base <= 16
    ensures Numeral(Digits(n, base), base) && Parse(Digits(n, base), base) == n
    ensures Digits(n, base)[0] == '0' <==> n == 0
    ensures n == 0 ==> Digits(n, base) == "0"
    decreases n
  {
    var s := Digits(n, base);
    if n < base {
      DigitValue(n);
      assert Parse(s[..0], base) == 0;
    } else {
      DigitValue(n % base);
      Quotient(n, base);
      ParseDigits(n / base, base);
      assert s[..|s| - 1] == Digits(n / base, base);
    }
  }

  lemma Quotient(n: nat, base: int)
    requires 2 <= base && base <= n
    ensures 0 < n / base < n && 0 <= n % base < base && n == (n / base) * base + n % base
  {
  }

  lemma {:induction false} ParseNonNegative(s: string, base: int)
    requires 2 <= base <= 16 && Numeral(s, base)
    ensures Parse(s, base) >= 0
    ensures s[0] != '0' ==> Parse(s, base) > 0
    decreases |s|
  {
    hide Value;
    var rest, c := s[..|s| - 1], s[|s| - 1];
    ZeroDigit(c);
    if rest == [] {
      assert Parse(rest, base) == 0;
    } else {
      ParseNonNegative(rest, base);
      if Parse(rest, base) > 0 { AtLeastOnce(Parse(rest, base), base); }
    }
  }

  lemma ZeroDigit(c: char)
    ensures Value(c) == 0 <==> c == '0'
  {
  }

  lemma DivMod(q: int, r: int, base: int)
    requires 2 <= base && 0 <= r < base && 0 < q
    ensures (q * base + r) / base == q && (q * base + r) % base == r && q * base + r >= base
  {
    AtLeastOnce(q, base);
    assert ((q * base + r) / base) * base + (q * base + r) % base == q * base + r;
    Unique(q, (q * base + r) / base, r, (q * base + r) % base, base);
  }

  lemma {:induction false} AtLeastOnce(d: int, base: int)
    requires 1 <= d && 0 <= base
    ensures d * base >= base
  {
    if d > 1 { AtLeastOnce(d - 1, base); }
  }

  lemma Unique(q: int, q': int, r: int, r': int, base: int)
    requires 2 <= base && 0 <= r < base && 0 <= r' < base && q * base + r == q' * base + r'
    ensures q == q' && r == r'
  {
    var d := q - q';
    assert d * base == q * base - q' * base;
    if d >= 1 { AtLeastOnce(d, base); }
    if d <= -1 { AtLeastOnce(-d, base); }
  }

  lemma DigitsStep(q: nat, r: int, base: int)
    requires 2 <= base <= 16 && 0 < q && 0 <= r < base
    ensures q * base + r >= 0 && Digits(q * base + r, base) == Digits(q, base) + [DIGITS[r]]
  {
    DivMod(q, r, base);
  }

  // Digits is the only numeral of n without a leading zero.
  lemma {:induction false} DigitsUnique(s: string, base: int)
    requires 2 <= base <= 16 && Numeral(s, base) && (s[0] == '0' ==> |s| == 1)
    ensures Parse(s, base) >= 0 && s == Digits(Parse(s, base), base)
    decreases |s|
  {
    hide Value, Digits;
    var rest, c := s[..|s| - 1], s[|s| - 1];
    assert s == rest + [c];
    ValueInjective(c, Value(c));
    ParseNonNegative(s, base);
    if rest == [] {
      assert Parse(rest, base) == 0;
      DigitsOne(Value(c), base);
    } else {
      ParseNonNegative(rest, base);
      DigitsUnique(rest, base);
      DigitsStep(Parse(rest, base), Value(c), base);
    }
  }

  lemma DigitsOne(d: int, base: int)
    requires 2 <= base <= 16 && 0 <= d < base
    ensures Digits(d, base) == [DIGITS[d]]
  {
  }

  // ---- writing into a buffer ----

  ghost function Rev(s: string): (r: string)
    ensures |r| == |s|
  {
    seq(|s|, i requires 0 <= i < |s| => s[|s| - 1 - i])
  }

  // Only buf[lo..hi] may differ from what it was.
  ghost predicate Outside(now: string, was: string, lo: int, hi: int) {
    |now| == |was| && forall i | 0 <= i < |now| && !(lo <= i < hi) :: now[i] == was[i]
  }

  lemma ReversedSlice(now: string, was: string, lo: int, hi: int)
    requires 0 <= lo <= hi <= |now| == |was|
    requires forall i | lo <= i < hi :: now[i] == was[lo + hi - 1 - i]
    ensures now[lo..hi] == Rev(was[lo..hi])
  {
    forall i | 0 <= i < hi - lo ensures now[lo..hi][i] == Rev(was[lo..hi])[i] {
      assert now[lo + i] == was[lo + hi - 1 - (lo + i)];
    }
  }

  method ReverseRange(buf: array<char>, lo: int, hi: int)
    requires 0 <= lo <= hi <= buf.Length
    modifies buf
    ensures buf[lo..hi] == Rev(old(buf[lo..hi])) && Outside(buf[..], old(buf[..]), lo, hi)
  {
    ghost var was := buf[..];
    var left, right := lo, hi - 1;
    while left < right
      invariant lo <= left <= right + 1 <= hi && left - lo == hi - 1 - right
      invariant forall i | 0 <= i < buf.Length && !(lo <= i < left || right < i < hi) :: buf[i] == was[i]
      invariant forall i | lo <= i < left || right < i < hi :: buf[i] == was[lo + hi - 1 - i]
    {
      buf[left], buf[right] := buf[right], buf[left];
      left, right := left + 1, right - 1;
    }
    forall i | lo <= i < hi ensures buf[i] == was[lo + hi - 1 - i] {
      if left == right && i == left { assert lo + hi - 1 - i == i; }
    }
    ReversedSlice(buf[..], was, lo, hi);
    assert was[lo..hi] == old(buf[lo..hi]) && buf[..][lo..hi] == buf[lo..hi];
  }

  // One more low digit: the numeral is what is left to print followed by the reverse of the buffer.
  ghost predicate Pending(n: nat, base: int, number: nat, done: string)
    requires 2 <= base <= 16
  {
    Digits(n, base) == if number > 0 then Digits(number, base) + Rev(done) else Rev(done)
  }

  lemma PendingStep(n: nat, base: int, number: nat, done: string)
    requires 2 <= base <= 16 && number > 0 && Pending(n, base, number, done)
    ensures Pending(n, base, number / base, done + [DIGITS[number % base]])
    ensures number / base < number
  {
    var c := DIGITS[number % base];
    assert Rev(done + [c]) == [c] + Rev(done);
    if number < base {
      Small(number, base);
    } else {
      Quotient(number, base);
      assert Digits(number, base) + Rev(done) == Digits(number / base, base) + ([c] + Rev(done));
    }
  }

  lemma Small(n: nat, base: int)
    requires n < base
    ensures n / base == 0 && n % base == n
  {
  }

  lemma PendingLength(n: nat, base: int, number: nat, done: string)
    requires 2 <= base <= 16 && Pending(n, base, number, done)
    ensures number == 0 ==> Digits(n, base) == Rev(done)
    ensures number > 0 ==> |done| < |Digits(n, base)|
  {
  }

  lemma PendingStart(n: nat, base: int)
    requires 2 <= base <= 16
    ensures if n == 0 then Pending(n, base, 0, "0") else Pending(n, base, n, "")
  {
    assert Rev("0") == "0";
    assert Rev("") == "" && Digits(n, base) + "" == Digits(n, base);
  }

  // sprintbase
  method SprintBase(buf: array<char>, at: int, n: nat, base: int) returns (len: int)
    requires 2 <= base <= 16 && 0 <= at && at + |Digits(n, base)| < buf.Length
    modifies buf
    ensures len == |Digits(n, base)| && buf[at..at + len] == Digits(n, base) && buf[at + len] == '\0'
    ensures Outside(buf[..], old(buf[..]), at, at + len + 1)
  {
    hide Digits, Pending, Rev;
    var number, p := n, at;
    PendingStart(n, base);
    ghost var done := "";
    if number == 0 {
      buf[p] := '0';
      p := p + 1;
      done := "0";
    }
    while number > 0
      invariant 0 <= number && at <= p <= at + |Digits(n, base)|
      invariant done == buf[at..p] && Pending(n, base, number, done)
      invariant Outside(buf[..], old(buf[..]), at, p)
    {
      PendingLength(n, base, number, done);
      PendingStep(n, base, number, done);
      Remainder(number, base);
      done := done + [DIGITS[number % base]];
      buf[p] := DIGITS[number % base];
      p := p + 1;
      number := number / base;
    }
    PendingLength(n, base, number, done);
    buf[p] := '\0';
    len := p - at;
    assert buf[at..p] == done;
    ReverseRange(buf, at, p);
  }

  lemma Remainder(n: nat, base: int)
    requires 2 <= base
    ensures 0 <= n % base < base && 0 <= n / base
  {
  }

  // ---- the format interpreter; a C string is the sequence of its characters before the terminator ----

  datatype Arg = Number(n: nat) | Text(s: string)

  // unsigned long -> int -> unsigned long, as the argument goes through a signed 32-bit variable.
  function ThroughInt(n: nat): nat {
    var low := n % 0x1_0000_0000;
    if low < 0x8000_0000 then low else low + 0xffff_ffff_0000_0000
  }

  // The next argument is of the kind the conversion letter c takes.
  ghost predicate Fits(c: char, args: seq<Arg>) {
    && (c == 'u' || c == 'x' ==> args != [] && args[0].Number?)
    && (c == 's' ==> args != [] && args[0].Text?)
  }

  function Rest(c: char, args: seq<Arg>): seq<Arg> {
    if (c == 'u' || c == 'x' || c == 's') && args != [] then args[1..] else args
  }

  // What a caller owes: a fitting argument for each conversion, and no lone final percent sign.
  ghost predicate Callable(fmt: string, args: seq<Arg>) {
    fmt == [] ||
    if fmt[0] != '%' then Callable(fmt[1..], args)
    else |fmt| >= 2 && Fits(fmt[1], args) && Callable(fmt[2..], Rest(fmt[1], args))
  }

  // The text of the conversion letter c; an unknown letter prints nothing.
  ghost function Piece(c: char, args: seq<Arg>): string
    requires Fits(c, args)
  {
    if c == 'u' then Digits(ThroughInt(args[0].n), 10)
    else if c == 'x' then "0x" + Digits(ThroughInt(args[0].n), 16)
    else if c == 's' then args[0].s
    else ""
  }

  ghost function Format(fmt: string, args: seq<Arg>): string
    requires Callable(fmt, args)
  {
    if fmt == [] then ""
    else if fmt[0] != '%' then [fmt[0]] + Format(fmt[1..], args)
    else Piece(fmt[1], args) + Format(fmt[2..], Rest(fmt[1], args))
  }

  ghost function Unread(fmt: string, args: seq<Arg>): seq<Arg>
    requires Callable(fmt, args)
  {
    if fmt == [] then args
    else if fmt[0] != '%' then Unread(fmt[1..], args)
    else Unread(fmt[2..], Rest(fmt[1], args))
  }

  // Formatting distributes over concatenation of formats, the second taking the arguments the first left.
  lemma {:induction false} FormatConcat(f: string, g: string, args: seq<Arg>)
    requires Callable(f, args) && Callable(g, Unread(f, args))
    ensures Callable(f + g, args) && Format(f + g, args) == Format(f, args) + Format(g, Unread(f, args))
    decreases |f|
  {
    hide Piece, Rest, Fits;
    if f == [] {
      assert f + g == g;
    } else if f[0] != '%' {
      FormatConcat(f[1..], g, args);
      assert (f + g)[1..] == f[1..] + g;
      var t, u := Format(f[1..], args), Format(g, Unread(f, args));
      assert [f[0]] + (t + u) == ([f[0]] + t) + u;
    } else {
      FormatConcat(f[2..], g, Rest(f[1], args));
      ConversionConcat(f, g, args);
    }
  }

  lemma ConversionConcat(f: string, g: string, args: seq<Arg>)
    requires |f| >= 2 && f[0] == '%' && Callable(f, args) && Callable(g, Unread(f, args))
    requires Callable(f[2..] + g, Rest(f[1], args))
    requires Format(f[2..] + g, Rest(f[1], args)) == Format(f[2..], Rest(f[1], args)) + Format(g, Unread(f, args))
    ensures Callable(f + g, args) && Format(f + g, args) == Format(f, args) + Format(g, Unread(f, args))
  {
    hide Piece, Rest, Fits;
    assert (f + g)[2..] == f[2..] + g;
    var t, u := Format(f[2..], Rest(f[1], args)), Format(g, Unread(f, args));
    assert Piece(f[1], args) + (t + u) == (Piece(f[1], args) + t) + u;
  }

  // A number argument prints as itself exactly below 2^31 or in the top 2^31 of the 64-bit range.
  lemma PrintsExactly(n: nat, base: int)
    requires n < 0x1_0000_0000_0000_0000 && 2 <= base <= 16
    ensures Parse(Digits(ThroughInt(n), base), base) == n <==> n < 0x8000_0000 || n >= 0xffff_ffff_8000_0000
    ensures Digits(ThroughInt(n), base) == Digits(n, base) <==> n < 0x8000_0000 || n >= 0xffff_ffff_8000_0000
  {
    ParseDigits(ThroughInt(n), base);
    ParseDigits(n, base);
    ThroughIntExact(n);
  }

  lemma ThroughIntExact(n: nat)
    requires n < 0x1_0000_0000_0000_0000
    ensures ThroughInt(n) == n <==> n < 0x8000_0000 || n >= 0xffff_ffff_8000_0000
  {
  }

  // ---- what each conversion prints ----

  // s is the numeral of n in the base, without leading zeros.
  ghost predicate Spells(s: string, n: int, base: int) {
    Numeral(s, base) && Parse(s, base) == n && (s[0] == '0' ==> s == "0")
  }

  // v is n through a signed 32-bit variable: the same low 32 bits, and within 2^31 of 0 modulo 2^64.
  predicate PrintedAs(v: int, n: nat) {
    v % 0x1_0000_0000 == n % 0x1_0000_0000 && (0 <= v < 0x8000_0000 || 0xffff_ffff_8000_0000 <= v < 0x1_0000_0000_0000_0000)
  }

  lemma ThroughIntPrinted(n: nat)
    ensures PrintedAs(ThroughInt(n), n) && (n < 0x8000_0000 ==> ThroughInt(n) == n)
  {
  }

  // %u and %x print their argument in base 10 and, after 0x, in base 16; below 2^31 that is the
  // argument itself. Each takes one argument.
  lemma PrintsNumber(args: seq<Arg>)
    requires args != [] && args[0].Number?
    ensures Callable("%u", args) && Unread("%u", args) == args[1..]
    ensures Callable("%x", args) && Unread("%x", args) == args[1..]
    ensures exists v :: && PrintedAs(v, args[0].n) && (args[0].n < 0x8000_0000 ==> v == args[0].n)
                        && Spells(Format("%u", args), v, 10) && SpellsHex(Format("%x", args), v)
  {
    hide PrintedAs, ThroughInt, Spells, Digits;
    var v := ThroughInt(args[0].n);
    ThroughIntPrinted(args[0].n);
    OneConversion('u', args);
    OneConversion('x', args);
    DigitsSpell(v, 10);
    DigitsSpell(v, 16);
    assert ("0x" + Digits(v, 16))[2..] == Digits(v, 16);
    assert PrintedAs(v, args[0].n);
  }

  ghost predicate SpellsHex(s: string, n: int) {
    |s| > 2 && s[..2] == "0x" && Spells(s[2..], n, 16)
  }

  lemma DigitsSpell(n: nat, base: int)
    requires 2 <= base <= 16
    ensures Spells(Digits(n, base), n, base)
  {
    ParseDigits(n, base);
  }

  // %s prints its argument and takes it.
  lemma PrintsText(args: seq<Arg>)
    requires args != [] && args[0].Text?
    ensures Callable("%s", args) && Format("%s", args) == args[0].s && Unread("%s", args) == args[1..]
  {
    OneConversion('s', args);
  }

  // Any other letter prints nothing and takes no argument.
  lemma PrintsNothing(c: char, args: seq<Arg>)
    requires c != 'u' && c != 'x' && c != 's'
    ensures Callable(['%', c], args) && Format(['%', c], args) == "" && Unread(['%', c], args) == args
  {
    OneConversion(c, args);
  }

  lemma OneConversion(c: char, args: seq<Arg>)
    requires Fits(c, args)
    ensures Callable(['%', c], args) && Format(['%', c], args) == Piece(c, args) && Unread(['%', c], args) == Rest(c, args)
  {
    hide Piece, Rest, Fits;
    var f := ['%', c];
    assert f[2..] == [] && f[0] == '%' && f[1] == c;
    assert Piece(c, args) + "" == Piece(c, args);
  }

  // A format without percent signs is its own text.
  lemma {:induction false} PrintsItself(fmt: string, args: seq<Arg>)
    requires '%' !in fmt
    ensures Callable(fmt, args) && Format(fmt, args) == fmt && Unread(fmt, args) == args
    decreases |fmt|
  {
    if fmt != [] {
      PrintsItself(fmt[1..], args);
      assert fmt == [fmt[0]] + fmt[1..];
    }
  }

  // strcpy
  method StrCpy(buf: array<char>, at: int, src: string) returns (end: int)
    requires 0 <= at && at + |src| < buf.Length
    modifies buf
    ensures end == at + |src| && buf[at..end] == src && buf[end] == '\0'
    ensures Outside(buf[..], old(buf[..]), at, end + 1)
  {
    var i := 0;
    while i < |src|
      invariant 0 <= i <= |src| && buf[at..at + i] == src[..i]
      invariant Outside(buf[..], old(buf[..]), at, at + i)
    {
      buf[at + i] := src[i];
      i := i + 1;
    }
    end := at + i;
    buf[end] := '\0';
  }

  // The body of one conversion: its text is appended at p.
  method Convert(buf: array<char>, p: int, c: char, args: seq<Arg>) returns (q: int)
    requires Fits(c, args) && 0 <= p && p + |Piece(c, args)| < buf.Length
    modifies buf
    ensures q == p + |Piece(c, args)| && buf[..q] == old(buf[..p]) + Piece(c, args)
    ensures Outside(buf[..], old(buf[..]), p, q + 1)
  {
    hide Digits, ThroughInt;
    if c == 'u' {
      var len := SprintBase(buf, p, ThroughInt(args[0].n), 10);
      q := p + len;
    } else if c == 'x' {
      q := ConvertHex(buf, p, ThroughInt(args[0].n));
    } else if c == 's' {
      q := StrCpy(buf, p, args[0].s);
    } else {
      q := p;
    }
    assert buf[..q] == old(buf[..p]) + Piece(c, args);
  }

  method ConvertHex(buf: array<char>, p: int, n: nat) returns (q: int)
    requires 0 <= p && p + 2 + |Digits(n, 16)| < buf.Length
    modifies buf
    ensures q == p + 2 + |Digits(n, 16)| && buf[p..q] == "0x" + Digits(n, 16)
    ensures Outside(buf[..], old(buf[..]), p, q + 1)
  {
    hide Digits;
    buf[p] := '0';
    buf[p + 1] := 'x';
    var len := SprintBase(buf, p + 2, n, 16);
    q := p + 2 + len;
    assert buf[p..q] == [buf[p], buf[p + 1]] + buf[p + 2..q];
  }

  // What is written so far, followed by the text of the rest of the format, is the whole text.
  ghost predicate Progress(whole: string, done: string, fmt: string, args: seq<Arg>) {
    Callable(fmt, args) && whole == done + Format(fmt, args)
  }

  lemma ProgressStep(whole: string, done: string, fmt: string, args: seq<Arg>)
    requires Progress(whole, done, fmt, args) && fmt != []
    ensures fmt[0] != '%' ==> |done| < |whole| && Progress(whole, done + [fmt[0]], fmt[1..], args)
    ensures fmt[0] == '%' ==>
              && |fmt| >= 2 && Fits(fmt[1], args)
              && |done| + |Piece(fmt[1], args)| <= |whole|
              && Progress(whole, done + Piece(fmt[1], args), fmt[2..], Rest(fmt[1], args))
  {
    if fmt[0] != '%' {
      assert done + ([fmt[0]] + Format(fmt[1..], args)) == (done + [fmt[0]]) + Format(fmt[1..], args);
    } else {
      var t := Format(fmt[2..], Rest(fmt[1], args));
      assert done + (Piece(fmt[1], args) + t) == (done + Piece(fmt[1], args)) + t;
    }
  }

  lemma ProgressEnds(whole: string, fmt: string, args: seq<Arg>)
    requires Callable(fmt, args)
    ensures Progress(Format(fmt, args), "", fmt, args)
    ensures forall done, rest :: Progress(whole, done, "", rest) ==> whole == done
  {
    assert "" + Format(fmt, args) == Format(fmt, args);
    forall done, rest | Progress(whole, done, "", rest) ensures whole == done {
      assert done + Format("", rest) == done;
    }
  }

  // vsprintf
  method Vsprintf(buf: array<char>, fmt: string, args: seq<Arg>) returns (len: int)
    requires Callable(fmt, args) && |Format(fmt, args)| < buf.Length
    modifies buf
    ensures len == |Format(fmt, args)| && buf[..len] == Format(fmt, args) && buf[len] == '\0'
    ensures Outside(buf[..], old(buf[..]), 0, len + 1)
  {
    hide Format, Callable, Piece, Rest, Progress, Fits;
    ghost var whole := Format(fmt, args);
    var p, i, rest := 0, 0, args;
    ProgressEnds(whole, fmt, args);
    assert buf[..0] == "" && fmt[0..] == fmt;
    while i < |fmt|
      invariant 0 <= i <= |fmt| && 0 <= p <= |whole|
      invariant Progress(whole, buf[..p], fmt[i..], rest)
      invariant Outside(buf[..], old(buf[..]), 0, p + 1)
    {
      ProgressStep(whole, buf[..p], fmt[i..], rest);
      ghost var done := buf[..p];
      if fmt[i] != '%' {
        buf[p] := fmt[i];
        p, i := p + 1, i + 1;
        assert buf[..p] == done + [fmt[i - 1]];
      } else {
        var c := fmt[i + 1];
        p := Convert(buf, p, c, rest);
        rest := Rest(c, rest);
        i := i + 2;
      }
    }
    assert fmt[i..] == "";
    buf[p] := '\0';
    len := p;
  }
}
