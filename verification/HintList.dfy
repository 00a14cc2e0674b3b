/** The list of revealed hints is stored as comma-separated text, and read back before each use. */
module HintLists {

  /** int. */
  type int32 = x: int | -0x8000_0000 <= x < 0x8000_0000

  /** std::stoi and the loop around it may throw. */
  datatype Result<T> = Ok(value: T) | InvalidArgument | OutOfRange

  // ----- numbers

  function Digit(d: nat): char
    requires d < 10
  {
    '0' + d as char
  }

  predicate IsDigit(c: char) {
    '0' <= c <= '9'
  }

  function DigitValue(c: char): nat
    requires IsDigit(c)
  {
    (c - '0') as int
  }

  function Digits(n: nat): string {
    if n < 10 then [Digit(n)] else Digits(n / 10) + [Digit(n % 10)]
  }

  /** std::to_string. */
  function ToString(n: int): string {
    if n < 0 then ['-'] + Digits(-n) else Digits(n)
  }

  predicate IsSpace(c: char) {
    c in [' ', '\t', '\n', '\U{0B}', '\U{0C}', '\r']
  }

  function SkipSpace(s: string): string {
    if s != "" && IsSpace(s[0]) then SkipSpace(s[1..]) else s
  }

  /** The number that the leading digits of s continue acc to. */
  function Number(s: string, acc: nat): nat {
    if s != "" && IsDigit(s[0]) then Number(s[1..], 10 * acc + DigitValue(s[0])) else acc
  }

  /** std::stoi: white space, an optional sign, digits; what follows them is ignored. */
  function Stoi(s: string): Result<int32> {
    var text := SkipSpace(s);
    var digits := if text != "" && text[0] in ['-', '+'] then text[1..] else text;
    if digits == "" || !IsDigit(digits[0]) then InvalidArgument
    else
      var n := Number(digits, 0);
      var value: int := if text[0] == '-' then 0 - n else n;
      if -0x8000_0000 <= value < 0x8000_0000 then Ok(value) else OutOfRange
  }

  predicate AllDigits(s: string) {
    forall i :: 0 <= i < |s| ==> IsDigit(s[i])
  }

  lemma {:induction false} DigitsAreDigits(n: nat)
    ensures Digits(n) != "" && AllDigits(Digits(n))
  {
    if n >= 10 { DigitsAreDigits(n / 10); }
  }

  lemma {:induction false} NumberAppend(s: string, c: char, acc: nat)
    requires AllDigits(s) && IsDigit(c)
    ensures Number(s + [c], acc) == 10 * Number(s, acc) + DigitValue(c)
  {
    if s == "" {
      assert s + [c] == [c] && [c][1..] == "";
    } else {
      assert (s + [c])[1..] == s[1..] + [c];
      NumberAppend(s[1..], c, 10 * acc + DigitValue(s[0]));
    }
  }

  lemma {:induction false} NumberOfDigits(n: nat)
    ensures Number(Digits(n), 0) == n
  {
    if n >= 10 {
      DigitsAreDigits(n / 10);
      NumberOfDigits(n / 10);
      NumberAppend(Digits(n / 10), Digit(n % 10), 0);
    } else {
      assert Digits(n)[1..] == "";
    }
  }

  /** Every int is read back as it was written. */
  lemma StoiToString(n: int32)
    ensures Stoi(ToString(n)) == Ok(n)
  {
    var m: int := if n < 0 then 0 - n else n;
    DigitsAreDigits(m);
    NumberOfDigits(m);
    if n < 0 { assert ToString(n)[1..] == Digits(m); }
  }

  // ----- lists

  /** The text of a list: its numbers with commas between them. */
  function Csv(xs: seq<int>): string {
    if xs == [] then "" else ToString(xs[0]) + (if |xs| == 1 then "" else "," + Csv(xs[1..]))
  }

  /** The end of the text up to the first comma. */
  function CommaAt(s: string): nat
    ensures CommaAt(s) <= |s|
  {
    if s == "" || s[0] == ',' then 0 else 1 + CommaAt(s[1..])
  }

  /** The numbers read so far, then those of the rest of the text. */
  function Extends(done: seq<int32>, rest: Result<seq<int32>>): Result<seq<int32>> {
    match rest
    case Ok(xs) => Ok(done + xs)
    case error => error
  }

  /** What a text lists: the numbers between its commas, empty stretches skipped. The first stretch
      that is not a number stops the reading. */
  function Listed(s: string): Result<seq<int32>>
    decreases |s|
  {
    if s == "" then Ok([])
    else
      var end := CommaAt(s);
      var rest := if end == |s| then "" else s[end + 1..];
      if end == 0 then Listed(rest)
      else
        match Stoi(s[..end])
        case InvalidArgument => InvalidArgument
        case OutOfRange => OutOfRange
        case Ok(x) => Extends([x], Listed(rest))
  }

  lemma {:induction false} CommaAfter(s: string, t: string)
    requires ',' !in s
    ensures CommaAt(s + t) == |s| + CommaAt(t)
  {
    if s == "" {
      assert s + t == t;
    } else {
      assert (s + t)[1..] == s[1..] + t;
      CommaAfter(s[1..], t);
    }
  }

  lemma NoComma(n: int)
    ensures ToString(n) != "" && ',' !in ToString(n)
  {
    DigitsAreDigits(if n < 0 then -n else n);
  }

  /** Reading a text that starts with a number and goes on, if at all, after a comma. */
  lemma ListedFirst(first: string, x: int32, tail: string)
    requires first != "" && ',' !in first && Stoi(first) == Ok(x)
    requires tail != "" ==> tail[0] == ','
    ensures Listed(first + tail) == Extends([x], if tail == "" then Ok([]) else Listed(tail[1..]))
  {
    hide Stoi;
    CommaAfter(first, tail);
    assert (first + tail)[..|first|] == first;
    if tail != "" { assert (first + tail)[|first| + 1..] == tail[1..]; }
  }

  /** The round trip: what was stored is what is read, for every list of ints. */
  lemma {:induction false} RoundTrip(xs: seq<int32>)
    ensures Listed(Csv(xs)) == Ok(xs)
  {
    hide Stoi; hide ToString;
    if xs != [] {
      NoComma(xs[0]);
      StoiToString(xs[0]);
      if |xs| == 1 {
        ListedFirst(ToString(xs[0]), xs[0], "");
        assert [xs[0]] + [] == xs;
      } else {
        ListedFirst(ToString(xs[0]), xs[0], "," + Csv(xs[1..]));
        RoundTrip(xs[1..]);
        assert ("," + Csv(xs[1..]))[1..] == Csv(xs[1..]);
        assert [xs[0]] + xs[1..] == xs;
      }
    }
  }

  lemma {:induction false} CsvAppend(xs: seq<int>, x: int)
    ensures Csv(xs + [x]) == if xs == [] then ToString(x) else Csv(xs) + "," + ToString(x)
  {
    if xs == [] {
      assert xs + [x] == [x];
    } else {
      assert (xs + [x])[1..] == xs[1..] + [x];
      CsvAppend(xs[1..], x);
    }
  }

  method HintsToCsv(hints: seq<int32>) returns (out: string)
    ensures out == Csv(hints)
    ensures Listed(out) == Ok(hints)
  {
    out := "";
    for i := 0 to |hints|
      invariant out == Csv(hints[..i])
    {
      assert hints[..i + 1] == hints[..i] + [hints[i]];
      CsvAppend(hints[..i], hints[i]);
      if i > 0 { out := out + ","; }
      out := out + ToString(hints[i]);
    }
    assert hints[..|hints|] == hints;
    RoundTrip(hints);
  }

  lemma ExtendsTwice(done: seq<int32>, more: seq<int32>, rest: Result<seq<int32>>)
    ensures Extends(done, Extends(more, rest)) == Extends(done + more, rest)
    ensures Extends([], rest) == rest
  {
    if rest.Ok? {
      assert done + (more + rest.value) == (done + more) + rest.value;
      assert [] + rest.value == rest.value;
    }
  }

  method ParseHintsCsv(csv: string) returns (r: Result<seq<int32>>)
    ensures r == Listed(csv)
  {
    hide Stoi;
    var result: seq<int32> := [];
    var position := 0;
    assert csv[0..] == csv;
    ExtendsTwice([], [], Listed(csv));
    while position < |csv|
      invariant position <= |csv|
      invariant Extends(result, Listed(csv[position..])) == Listed(csv)
    {
      ghost var rest := csv[position..];
      var end := position + CommaAt(csv[position..]);
      var token := csv[position..end];
      assert rest[..CommaAt(rest)] == token;
      if end < |csv| { assert rest[CommaAt(rest) + 1..] == csv[end + 1..]; }
      if token != "" {
        match Stoi(token)
        case InvalidArgument => return InvalidArgument;
        case OutOfRange => return OutOfRange;
        case Ok(x) =>
          ExtendsTwice(result, [x], Listed(csv[if end < |csv| then end + 1 else |csv|..]));
          result := result + [x];
      }
      position := if end < |csv| then end + 1 else |csv|;
    }
    assert csv[position..] == "" && result + [] == result;
    r := Ok(result);
  }
}
