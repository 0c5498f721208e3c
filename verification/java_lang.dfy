/** The parts of java.lang the task utilities lean on: fixed-width integers with
    their wrap-around, the exceptions the code can raise, Integer.parseInt,
    Integer.toString and the two ways String.split is used on material specs. */
module JavaLang {

  const MIN_INT: int := -0x8000_0000
  const MAX_INT: int := 0x7fff_ffff

  /** A Java `int`. */
  newtype int32 = x: int | -0x8000_0000 <= x < 0x8000_0000

  /** A Java `byte`. */
  newtype int8 = x: int | -0x80 <= x < 0x80

  datatype Option<+T> = None | Some(value: T)

  /** The exceptions the modelled code lets escape. */
  datatype Exception =
    | NullPointer        // List.copyOf on a list holding null
    | ClassCast          // a cast of a configuration value to String or Integer
    | NumberFormat       // Integer.parseInt on text that is not an int
    | IllegalArgument    // Enum.valueOf on an unknown constant name
    | IndexOutOfBounds   // indexing past the end of an array

  /** The outcome of a call that either returns a value or throws. */
  datatype Result<+T> = Ok(value: T) | Throws(exception: Exception)

  // ---------------------------------------------------------------------------
  // Two's-complement arithmetic

  /** The `int` a mathematical integer wraps around to. */
  function Wrap(x: int): (r: int32)
    ensures MIN_INT <= x <= MAX_INT ==> r as int == x
  {
    ((x - MIN_INT) % 0x1_0000_0000 + MIN_INT) as int32
  }

  /** Wrapping once at the end is the same as wrapping after every step. */
  lemma WrapAdd(a: int, b: int)
    ensures Wrap(Wrap(a) as int + b) == Wrap(a + b)
  {
    var k := (a - MIN_INT) / 0x1_0000_0000;
    assert Wrap(a) as int + b - MIN_INT == (a + b - MIN_INT) - k * 0x1_0000_0000;
    ModShift(a + b - MIN_INT, k);
  }

  lemma ModShift(x: int, k: int)
    ensures (x - k * 0x1_0000_0000) % 0x1_0000_0000 == x % 0x1_0000_0000
  {
    var d := x / 0x1_0000_0000;
    var r := x % 0x1_0000_0000;
    assert x - k * 0x1_0000_0000 == (d - k) * 0x1_0000_0000 + r;
    ModOfMultiplePlus(x - k * 0x1_0000_0000, d - k, r);
  }

  lemma ModOfMultiplePlus(x: int, q: int, r: int)
    requires 0 <= r < 0x1_0000_0000 && x == q * 0x1_0000_0000 + r
    ensures x % 0x1_0000_0000 == r
  {
  }

  /** Java `a + b` on ints. */
  function Add32(a: int32, b: int32): int32 { Wrap(a as int + b as int) }

  /** Java `a - b` on ints. */
  function Sub32(a: int32, b: int32): int32 { Wrap(a as int - b as int) }

  /** `++x` on an int: Integer.MAX_VALUE wraps to Integer.MIN_VALUE. */
  function Succ(x: int32): int32 { Wrap(x as int + 1) }

  /** `--x` on an int: Integer.MIN_VALUE wraps to Integer.MAX_VALUE. */
  function Pred(x: int32): int32 { Wrap(x as int - 1) }

  /** Incrementing then decrementing (or the other way round) gives back the
      original value, wrap-around included. */
  lemma SuccPredInverse(x: int32)
    ensures Pred(Succ(x)) == x
    ensures Succ(Pred(x)) == x
  {
    if x as int == MAX_INT {
      assert Succ(x) as int == MIN_INT;
    } else {
      assert Succ(x) as int == x as int + 1;
    }
    if x as int == MIN_INT {
      assert Pred(x) as int == MAX_INT;
    } else {
      assert Pred(x) as int == x as int - 1;
    }
  }

  // ---------------------------------------------------------------------------
  // Decimal text

  predicate IsDigit(c: char) { '0' <= c <= '9' }

  predicate AllDigits(s: string) { forall i :: 0 <= i < |s| ==> IsDigit(s[i]) }

  function DigitChar(d: nat): (c: char)
    requires d < 10
    ensures IsDigit(c)
  {
    ('0' as int + d) as char
  }

  function DigitValue(c: char): (d: nat)
    requires IsDigit(c)
    ensures d < 10
  {
    c as int - '0' as int
  }

  /** The decimal digits of n, most significant first, with no leading zero. */
  function Digits(n: nat): (s: string)
    ensures |s| > 0 && AllDigits(s)
    decreases n
  {
    if n < 10 then [DigitChar(n)] else Digits(n / 10) + [DigitChar(n % 10)]
  }

  /** The number a string of decimal digits denotes. */
  function DigitsValue(s: string): nat
    requires AllDigits(s)
  {
    if s == [] then 0 else DigitsValue(s[..|s| - 1]) * 10 + DigitValue(s[|s| - 1])
  }

  lemma {:induction false} DigitsValueOfDigits(n: nat)
    ensures DigitsValue(Digits(n)) == n
  {
    if n >= 10 {
      var s := Digits(n);
      assert s[..|s| - 1] == Digits(n / 10);
      DigitsValueOfDigits(n / 10);
    }
  }

  /** Integer.toString / String.valueOf of an int. */
  function IntToString(n: int32): (s: string)
    ensures |s| > 0
  {
    if n < 0 then "-" + Digits(-(n as int)) else Digits(n as int)
  }

  /** Integer.parseInt in radix 10: an optional '-' or '+', at least one digit,
      and a value that fits an int; None stands for NumberFormatException. */
  function ParseInt(s: string): Option<int32>
  {
    if s == [] then None
    else
      var body := if s[0] == '-' || s[0] == '+' then s[1..] else s;
      if body == [] || !AllDigits(body) then None
      else
        var v: int := if s[0] == '-' then -(DigitsValue(body) as int) else DigitsValue(body);
        if MIN_INT <= v <= MAX_INT then Some(v as int32) else None
  }

  /** Parsing the text Integer.toString produces gives the number back. */
  lemma ParseIntToString(n: int32)
    ensures ParseInt(IntToString(n)) == Some(n)
  {
    var s := IntToString(n);
    if n < 0 {
      assert s[1..] == Digits(-(n as int));
      DigitsValueOfDigits(-(n as int));
    } else {
      DigitsValueOfDigits(n as int);
    }
  }

  /** Text that is not a number is refused, never read as 0. */
  lemma ParseIntRejectsEmptyAndSigns()
    ensures ParseInt("") == None
    ensures ParseInt("-") == None && ParseInt("+") == None
    ensures ParseInt("1a") == None
  {
    assert !AllDigits("1a") by { assert !IsDigit("1a"[1]); }
  }

  // ---------------------------------------------------------------------------
  // Splitting at colons

  /** The index of the first colon of s. */
  function FirstColon(s: string): (i: nat)
    requires ':' in s
    ensures i < |s| && s[i] == ':' && ':' !in s[..i]
  {
    if s[0] == ':' then 0
    else
      assert ':' in s[1..] by { var k :| 0 <= k < |s| && s[k] == ':'; assert s[1..][k - 1] == ':'; }
      var j := FirstColon(s[1..]);
      assert s[..j + 1] == [s[0]] + s[1..][..j];
      j + 1
  }

  /** `s.split(":", 2)`: the text before the first colon and, when there is a
      colon, the text after it; the two pieces and the colon make up s. */
  function SplitAtFirstColon(s: string): (r: (string, Option<string>))
    ensures ':' !in r.0
    ensures r.1.None? <==> ':' !in s
    ensures r.1.None? ==> r.0 == s
    ensures r.1.Some? ==> s == r.0 + ":" + r.1.value
  {
    if ':' !in s then (s, None)
    else
      var i := FirstColon(s);
      assert s == s[..i] + ":" + s[i + 1..];
      (s[..i], Some(s[i + 1..]))
  }

  /** A spec written as name, colon, rest splits into exactly those parts when
      the name has no colon of its own. */
  lemma SplitAtFirstColonOf(name: string, rest: string)
    requires ':' !in name
    ensures SplitAtFirstColon(name + ":" + rest) == (name, Some(rest))
  {
    var s := name + ":" + rest;
    assert s[|name|] == ':';
    assert s[..|name|] == name;
    assert s[|name| + 1..] == rest;
  }

  /** All the colon-separated pieces of s, in order. */
  function ColonPieces(s: string): (ps: seq<string>)
    ensures |ps| >= 1
    decreases |s|
  {
    var (head, rest) := SplitAtFirstColon(s);
    if rest.None? then [head] else [head] + ColonPieces(rest.value)
  }

  /** What String.split does with the trailing empty pieces when no limit is given. */
  function DropTrailingEmpty(ps: seq<string>): seq<string>
  {
    if ps == [] then []
    else if ps[|ps| - 1] == "" then DropTrailingEmpty(ps[..|ps| - 1])
    else ps
  }

  /** `s.split(":")[0]`: a string with no colon comes back whole; otherwise the
      first piece, unless dropping trailing empty pieces left none, where Java
      throws ArrayIndexOutOfBoundsException (None). */
  function SplitHeadAsWritten(s: string): Option<string>
  {
    if ':' !in s then Some(s)
    else
      var ps := DropTrailingEmpty(ColonPieces(s));
      if ps == [] then None else Some(ps[0])
  }

  predicate OnlyColons(s: string) { forall i :: 0 <= i < |s| ==> s[i] == ':' }

  predicate AllEmpty(ps: seq<string>) { forall i :: 0 <= i < |ps| ==> ps[i] == "" }

  lemma {:induction false} DropTrailingEmptyPrefix(ps: seq<string>)
    ensures DropTrailingEmpty(ps) == [] <==> AllEmpty(ps)
    ensures DropTrailingEmpty(ps) != [] ==> DropTrailingEmpty(ps)[0] == ps[0]
  {
    if ps != [] && ps[|ps| - 1] == "" {
      DropTrailingEmptyPrefix(ps[..|ps| - 1]);
    }
  }

  lemma {:induction false} ColonPiecesAllEmpty(s: string)
    ensures AllEmpty(ColonPieces(s)) <==> OnlyColons(s)
    decreases |s|
  {
    var ps := ColonPieces(s);
    if ':' in s {
      var head := SplitAtFirstColon(s).0;
      var tail := SplitAtFirstColon(s).1.value;
      ColonPiecesAllEmpty(tail);
      assert ps == [head] + ColonPieces(tail);
      if OnlyColons(s) {
        assert head == "";
        forall i | 0 <= i < |tail| ensures tail[i] == ':' {
          assert tail[i] == s[|head| + 1 + i];
        }
        forall i | 0 <= i < |ps| ensures ps[i] == "" {
          if i > 0 { assert ps[i] == ColonPieces(tail)[i - 1]; }
        }
      }
      if AllEmpty(ps) {
        assert head == "" by { assert ps[0] == head; }
        forall i | 0 <= i < |ColonPieces(tail)| ensures ColonPieces(tail)[i] == "" {
          assert ColonPieces(tail)[i] == ps[i + 1];
        }
        assert s == ":" + tail;
      }
    } else {
      assert ps == [s];
      if s != [] {
        assert s[0] in s;
        assert ps[0] != "";
      }
    }
  }

  /** `s.split(":")[0]` throws exactly on a non-empty string made only of colons;
      on every other string it is the text before the first colon. */
  lemma SplitHeadAsWrittenCases(s: string)
    ensures SplitHeadAsWritten(s).None? <==> s != "" && OnlyColons(s)
    ensures SplitHeadAsWritten(s).Some? ==> SplitHeadAsWritten(s).value == SplitAtFirstColon(s).0
  {
    if ':' in s {
      assert s != "";
      ColonPiecesAllEmpty(s);
      DropTrailingEmptyPrefix(ColonPieces(s));
    } else if s != "" {
      assert s[0] != ':';
    }
  }
}
