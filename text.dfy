/** The two Python string operations the route serializer relies on:
    `str.split(sep)` with a one-character separator, and `int(x)` on the
    pieces.  `int` is modelled on its plain form: an optional sign followed
    by ASCII digits. */
module Text {
  import opened Errors

  /** `sep.join(parts)`. */
  function Join(parts: seq<string>, sep: char): string
    requires |parts| >= 1
  {
    if |parts| == 1 then parts[0] else parts[0] + [sep] + Join(parts[1..], sep)
  }

  /** `s.split(sep)`; what it computes is stated by `SplitSpec`. */
  function Split(s: string, sep: char): (parts: seq<string>)
    ensures |parts| >= 1
  {
    if |s| == 0 then [""]
    else
      var rest := Split(s[1..], sep);
      if s[0] == sep then [""] + rest
      else [[s[0]] + rest[0]] + rest[1..]
  }

  /** No piece holds the separator, and joining the pieces back with it
      gives `s`; consecutive separators give empty pieces. */
  lemma {:induction false} SplitSpec(s: string, sep: char)
    ensures forall i :: 0 <= i < |Split(s, sep)| ==> sep !in Split(s, sep)[i]
    ensures Join(Split(s, sep), sep) == s
  {
    if |s| > 0 {
      SplitSpec(s[1..], sep);
      var rest := Split(s[1..], sep);
      if s[0] == sep {
        assert ([""] + rest)[1..] == rest;
        assert s == [sep] + s[1..];
      } else {
        var parts := [[s[0]] + rest[0]] + rest[1..];
        assert parts[1..] == rest[1..];
        assert s == [s[0]] + s[1..];
      }
    }
  }

  /** The number of separators in `s`. */
  function Count(s: string, c: char): nat {
    if |s| == 0 then 0 else (if s[0] == c then 1 else 0) + Count(s[1..], c)
  }

  /** `split` yields one piece more than there are separators. */
  lemma {:induction false} SplitCount(s: string, sep: char)
    ensures |Split(s, sep)| == Count(s, sep) + 1
  {
    if |s| > 0 {
      SplitCount(s[1..], sep);
    }
  }

  /** Splitting a join of separator-free pieces gives the pieces back. */
  lemma {:induction false} SplitJoin(parts: seq<string>, sep: char)
    requires |parts| >= 1
    requires forall i :: 0 <= i < |parts| ==> sep !in parts[i]
    ensures Split(Join(parts, sep), sep) == parts
  {
    if |parts| == 1 {
      SplitNoSeparator(parts[0], sep);
    } else {
      var tail := Join(parts[1..], sep);
      SplitJoin(parts[1..], sep);
      SplitPrefix(parts[0], tail, sep);
    }
  }

  lemma {:induction false} SplitNoSeparator(s: string, sep: char)
    requires sep !in s
    ensures Split(s, sep) == [s]
  {
    if |s| > 0 {
      assert s[0] != sep && sep !in s[1..];
      SplitNoSeparator(s[1..], sep);
      assert [s[0]] + s[1..] == s;
    }
  }

  /** A separator-free prefix followed by the separator becomes the first
      piece. */
  lemma {:induction false} SplitPrefix(a: string, b: string, sep: char)
    requires sep !in a
    ensures Split(a + [sep] + b, sep) == [a] + Split(b, sep)
  {
    if |a| == 0 {
      assert a + [sep] + b == [sep] + b;
      assert ([sep] + b)[1..] == b;
    } else {
      SplitPrefix(a[1..], b, sep);
      assert (a + [sep] + b)[1..] == a[1..] + [sep] + b;
      assert [a[0]] + a[1..] == a;
    }
  }

  predicate IsDigit(c: char) {
    '0' <= c <= '9'
  }

  function DigitValue(c: char): nat
    requires IsDigit(c)
  {
    (c as int - '0' as int) as nat
  }

  function DigitChar(d: nat): char
    requires d < 10
  {
    (d + '0' as int) as char
  }

  /** The number a run of decimal digits denotes (0 for the empty one). */
  function DigitsValue(s: string): nat
    requires forall i :: 0 <= i < |s| ==> IsDigit(s[i])
  {
    if |s| == 0 then 0 else 10 * DigitsValue(s[..|s| - 1]) + DigitValue(s[|s| - 1])
  }

  predicate AllDigits(s: string) {
    |s| >= 1 && forall i :: 0 <= i < |s| ==> IsDigit(s[i])
  }

  /** `int(x)`: a sign, then digits; anything else raises ValueError. */
  function ParseInt(x: string): (r: Result<int>)
    ensures r.Err? ==> r.error == NotAnInteger(x) && r.error.Class() == ValueError
    ensures r.Ok? <==> AllDigits(x) || (|x| >= 2 && x[0] in "+-" && AllDigits(x[1..]))
  {
    if AllDigits(x) then Ok(DigitsValue(x))
    else if |x| >= 2 && x[0] == '-' && AllDigits(x[1..]) then Ok(-(DigitsValue(x[1..]) as int))
    else if |x| >= 2 && x[0] == '+' && AllDigits(x[1..]) then Ok(DigitsValue(x[1..]))
    else Err(NotAnInteger(x))
  }

  /** `[int(x) for x in parts]`; what it computes is stated by
      `ParseIntsSpec`. */
  function ParseInts(parts: seq<string>): Result<seq<int>> {
    if |parts| == 0 then Ok([])
    else match ParseInt(parts[0])
      case Err(e) => Err(e)
      case Ok(v) =>
        match ParseInts(parts[1..])
        case Err(e) => Err(e)
        case Ok(vs) => Ok([v] + vs)
  }

  /** The list holds every piece's integer, in order, unless some piece is
      not an integer, in which case the first such piece's error is raised. */
  lemma {:induction false} ParseIntsSpec(parts: seq<string>)
    ensures ParseInts(parts).Ok? <==> forall i :: 0 <= i < |parts| ==> ParseInt(parts[i]).Ok?
    ensures ParseInts(parts).Ok? ==>
              |ParseInts(parts).value| == |parts| &&
              forall i :: 0 <= i < |parts| ==> ParseInts(parts).value[i] == ParseInt(parts[i]).value
    ensures ParseInts(parts).Err? ==>
              exists i :: 0 <= i < |parts| && ParseInt(parts[i]).Err? && ParseInts(parts).error == ParseInt(parts[i]).error
                          && forall j :: 0 <= j < i ==> ParseInt(parts[j]).Ok?
  {
    if |parts| > 0 && ParseInt(parts[0]).Ok? {
      ParseIntsSpec(parts[1..]);
      var tail := parts[1..];
      if ParseInts(tail).Err? {
        var i :| 0 <= i < |tail| && ParseInt(tail[i]).Err? && ParseInts(tail).error == ParseInt(tail[i]).error
                 && forall j :: 0 <= j < i ==> ParseInt(tail[j]).Ok?;
        assert ParseInts(parts).error == ParseInt(parts[i + 1]).error;
        assert forall j :: 0 <= j < i + 1 ==> ParseInt(parts[j]).Ok?;
      }
    }
  }

  /** A two-character field such as "07" is read as a two-digit decimal
      number, a leading zero included. */
  lemma TwoDigits(s: string)
    requires |s| == 2 && IsDigit(s[0]) && IsDigit(s[1])
    ensures ParseInt(s) == Ok(10 * DigitValue(s[0]) + DigitValue(s[1]))
  {
    assert AllDigits(s);
    var p := s[..1];
    assert p == [s[0]] && p[..0] == [];
    assert DigitsValue(p) == DigitValue(s[0]);
  }

  /** Parsing one more piece in front puts its integer in front. */
  lemma ParseIntsCons(p: string, ps: seq<string>)
    requires ParseInt(p).Ok? && ParseInts(ps).Ok?
    ensures ParseInts([p] + ps) == Ok([ParseInt(p).value] + ParseInts(ps).value)
  {
    assert ([p] + ps)[0] == p && ([p] + ps)[1..] == ps;
  }

  /** The decimal digits of `n`, without leading zeros. */
  function ShowNat(n: nat): (s: string)
    ensures AllDigits(s)
  {
    if n < 10 then [DigitChar(n)] else ShowNat(n / 10) + [DigitChar(n % 10)]
  }

  /** `int(str(n)) == n`. */
  lemma {:induction false} ParseShowNat(n: nat)
    ensures ParseInt(ShowNat(n)) == Ok(n)
  {
    ShowNatValue(n);
  }

  lemma {:induction false} ShowNatValue(n: nat)
    ensures DigitsValue(ShowNat(n)) == n
  {
    if n >= 10 {
      ShowNatValue(n / 10);
      var s := ShowNat(n);
      assert s[..|s| - 1] == ShowNat(n / 10);
    }
  }

  /** `str(z)`: a minus sign before the digits of a negative number. */
  function ShowInt(z: int): (s: string)
    ensures |s| >= 1
  {
    if z < 0 then "-" + ShowNat(-z) else ShowNat(z)
  }

  /** `int(str(z)) == z` for every integer, negative ones included. */
  lemma ParseShowInt(z: int)
    ensures ParseInt(ShowInt(z)) == Ok(z)
  {
    if z < 0 {
      ParseShowNat(-z);
      ParseIntSigned(ShowNat(-z));
    } else {
      ParseShowNat(z);
    }
  }

  /** A leading `+` changes nothing, and a leading `-` negates. */
  lemma ParseIntSigned(s: string)
    requires AllDigits(s)
    ensures ParseInt("+" + s) == ParseInt(s)
    ensures ParseInt("-" + s) == Ok(-ParseInt(s).value)
  {
    assert ("+" + s)[1..] == s && ("-" + s)[1..] == s;
    assert !AllDigits("+" + s) && !AllDigits("-" + s) by {
      assert ("+" + s)[0] == '+' && ("-" + s)[0] == '-';
    }
  }

  /** Leading zeros change nothing: `int("007") == int("7")`. */
  lemma ParseIntLeadingZero(s: string)
    requires AllDigits(s)
    ensures ParseInt("0" + s) == ParseInt(s)
  {
    assert AllDigits("0" + s) by {
      assert forall i :: 1 <= i < |"0" + s| ==> ("0" + s)[i] == s[i - 1];
    }
    DigitsLeadingZero(s);
  }

  lemma {:induction false} DigitsLeadingZero(s: string)
    requires forall i :: 0 <= i < |s| ==> IsDigit(s[i])
    ensures forall i :: 0 <= i < |"0" + s| ==> IsDigit(("0" + s)[i])
    ensures DigitsValue("0" + s) == DigitsValue(s)
  {
    var t := "0" + s;
    assert forall i :: 1 <= i < |t| ==> t[i] == s[i - 1];
    if |s| == 0 {
      assert t == "0" && t[..0] == [];
    } else {
      var init := s[..|s| - 1];
      DigitsLeadingZero(init);
      assert t[..|t| - 1] == "0" + init;
      assert t[|t| - 1] == s[|s| - 1];
    }
  }
}
