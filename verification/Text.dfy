/** Strings as Python sees them: split and join, spans of characters, decimal numerals. */
module Text {

  const BLANKS: set<char> := {' ', '\t'}
  const DIGITS: set<char> := {'0', '1', '2', '3', '4', '5', '6', '7', '8', '9'}

  // ----- split and join -----

  /** s.split(sep) for a one-character separator. */
  function Split(s: string, sep: char): (parts: seq<string>)
    ensures |parts| > 0
  {
    if s == "" then
      [""]
    else
      var rest := Split(s[1..], sep);
      if s[0] == sep then [""] + rest else [[s[0]] + rest[0]] + rest[1..]
  }

  /** sep.join(parts). */
  function Join(parts: seq<string>, sep: char): string {
    if |parts| == 0 then ""
    else if |parts| == 1 then parts[0]
    else parts[0] + [sep] + Join(parts[1..], sep)
  }

  ghost predicate Free(parts: seq<string>, sep: char) {
    forall i | 0 <= i < |parts| :: sep !in parts[i]
  }

  lemma {:induction false} SplitIsFree(s: string, sep: char)
    ensures Free(Split(s, sep), sep)
  {
    if s == "" {
    } else {
      SplitIsFree(s[1..], sep);
    }
  }

  lemma {:induction false} JoinSplit(s: string, sep: char)
    ensures Join(Split(s, sep), sep) == s
  {
    if s == "" {
    } else {
      var rest := Split(s[1..], sep);
      JoinSplit(s[1..], sep);
      if s[0] == sep {
        assert ([""] + rest)[1..] == rest;
        assert s == [sep] + s[1..];
      } else {
        var parts := [[s[0]] + rest[0]] + rest[1..];
        assert parts[1..] == rest[1..];
        if |rest| == 1 {
          assert s == [s[0]] + rest[0];
        } else {
          assert s == [s[0]] + (rest[0] + [sep] + Join(rest[1..], sep));
          assert s == parts[0] + [sep] + Join(parts[1..], sep);
        }
      }
    }
  }

  lemma {:induction false} SplitPart(part: string, tail: string, sep: char)
    requires sep !in part
    ensures Split(part, sep) == [part]
    ensures Split(part + [sep] + tail, sep) == [part] + Split(tail, sep)
  {
    var whole := part + [sep] + tail;
    if part == "" {
      assert whole[1..] == tail;
    } else {
      SplitPart(part[1..], tail, sep);
      assert whole[1..] == part[1..] + [sep] + tail;
      assert [part[0]] + part[1..] == part;
      var rest := [part[1..]] + Split(tail, sep);
      assert rest[1..] == Split(tail, sep);
    }
  }

  lemma {:induction false} PartWith(s: string, sep: char, c: char) returns (k: nat)
    requires c in s && c != sep
    ensures k < |Split(s, sep)| && c in Split(s, sep)[k]
  {
    var rest := Split(s[1..], sep);
    if s[0] == c {
      k := 0;
    } else {
      k := PartWith(s[1..], sep, c);
      if s[0] == sep {
        k := k + 1;
      }
    }
  }

  lemma {:induction false} SplitJoin(parts: seq<string>, sep: char)
    requires |parts| > 0 && Free(parts, sep)
    ensures Split(Join(parts, sep), sep) == parts
  {
    if |parts| == 1 {
      SplitPart(parts[0], "", sep);
    } else {
      assert Free(parts[1..], sep);
      SplitJoin(parts[1..], sep);
      SplitPart(parts[0], Join(parts[1..], sep), sep);
      assert parts == [parts[0]] + parts[1..];
    }
  }

  /** Join distributes over a split of the list around one of its parts. */
  lemma {:induction false} JoinAround(before: seq<string>, part: string, after: seq<string>, sep: char)
    ensures Join(before + ([part] + after), sep) == Lead(before, sep) + (part + Trail(after, sep))
  {
    var whole := before + ([part] + after);
    if |before| == 0 {
      assert whole == [part] + after;
      assert whole[1..] == after;
    } else {
      assert whole[0] == before[0] && whole[1..] == before[1..] + ([part] + after);
      JoinAround(before[1..], part, after, sep);
      Reassociate(before[0] + [sep], Lead(before[1..], sep), part + Trail(after, sep));
    }
  }

  lemma Reassociate(a: string, b: string, c: string)
    ensures a + (b + c) == (a + b) + c
  {
  }

  /** The joined text of the parts that precede another part, separators included. */
  function Lead(parts: seq<string>, sep: char): string {
    if |parts| == 0 then "" else parts[0] + [sep] + Lead(parts[1..], sep)
  }

  /** The joined text of the parts that follow another part, separators included. */
  function Trail(parts: seq<string>, sep: char): string {
    if |parts| == 0 then "" else [sep] + Join(parts, sep)
  }

  lemma {:induction false} LeadEndsWithSeparator(parts: seq<string>, sep: char)
    ensures Lead(parts, sep) == "" || Lead(parts, sep)[|Lead(parts, sep)| - 1] == sep
  {
    if |parts| > 0 {
      LeadEndsWithSeparator(parts[1..], sep);
    }
  }

  /** name.rstrip(".") */
  function RstripDots(name: string): string {
    if name != "" && name[|name| - 1] == '.' then RstripDots(name[..|name| - 1]) else name
  }

  // ----- spans -----

  ghost predicate Over(s: string, cs: set<char>) {
    forall i | 0 <= i < |s| :: s[i] in cs
  }

  /** The longest prefix of s made of characters of cs: what [cs]* matches. */
  function Take(s: string, cs: set<char>): string {
    if s == "" || s[0] !in cs then "" else [s[0]] + Take(s[1..], cs)
  }

  /** The rest of s after that prefix. */
  function Drop(s: string, cs: set<char>): string {
    if s == "" || s[0] !in cs then s else Drop(s[1..], cs)
  }

  lemma {:induction false} TakeDrop(s: string, cs: set<char>)
    ensures s == Take(s, cs) + Drop(s, cs) && Over(Take(s, cs), cs)
    ensures Drop(s, cs) == "" || Drop(s, cs)[0] !in cs
  {
    if s != "" && s[0] in cs {
      TakeDrop(s[1..], cs);
      Reassociate([s[0]], Take(s[1..], cs), Drop(s[1..], cs));
      assert s == [s[0]] + s[1..];
    }
  }

  /** The greedy prefix stops exactly where the character class ends. */
  lemma {:induction false} TakeDropOf(run: string, rest: string, cs: set<char>)
    requires Over(run, cs)
    requires rest == "" || rest[0] !in cs
    ensures Take(run + rest, cs) == run && Drop(run + rest, cs) == rest
  {
    if run == "" {
      assert run + rest == rest;
    } else {
      TakeDropOf(run[1..], rest, cs);
      assert (run + rest)[1..] == run[1..] + rest;
      assert run == [run[0]] + run[1..];
    }
  }

  /** part in whole, for strings. */
  predicate Contains(whole: string, part: string) {
    exists k | 0 <= k <= |whole| - |part| :: OccursAt(whole, part, k)
  }

  predicate OccursAt(whole: string, part: string, k: nat)
    requires k <= |whole| - |part|
  {
    whole[k..k + |part|] == part
  }

  // ----- decimal numerals -----

  predicate IsNumeral(s: string) {
    |s| > 0 && forall i | 0 <= i < |s| :: s[i] in DIGITS
  }

  function DigitValue(c: char): (v: nat)
    requires c in DIGITS
    ensures v < 10
  {
    (c as int) - ('0' as int)
  }

  function DigitChar(v: nat): (c: char)
    requires v < 10
    ensures c in DIGITS && DigitValue(c) == v
  {
    "0123456789"[v]
  }

  /** int(s) for a string of ASCII digits, leading zeros allowed. */
  function Number(s: string): nat
    requires forall i | 0 <= i < |s| :: s[i] in DIGITS
  {
    if s == "" then 0 else 10 * Number(s[..|s| - 1]) + DigitValue(s[|s| - 1])
  }

  /** str(n) for a natural number. */
  function Decimal(n: nat): (s: string)
    ensures IsNumeral(s)
  {
    if n < 10 then [DigitChar(n)] else Decimal(n / 10) + [DigitChar(n % 10)]
  }

  /** s.zfill(width) for a string of digits. */
  function Zfill(s: string, width: nat): (z: string)
    ensures IsNumeral(s) ==> IsNumeral(z)
    ensures |z| == if |s| < width then width else |s|
    decreases width - |s|
  {
    if |s| >= width then s else Zfill("0" + s, width)
  }

  lemma {:induction false} NumberOfDecimal(n: nat)
    ensures Number(Decimal(n)) == n
  {
    var s := Decimal(n);
    if n < 10 {
      assert s[..0] == "";
    } else {
      NumberOfDecimal(n / 10);
      assert s[..|s| - 1] == Decimal(n / 10);
    }
  }

  lemma {:induction false} NumberOfLeadingZero(s: string)
    requires IsNumeral(s)
    ensures IsNumeral("0" + s) && Number("0" + s) == Number(s)
  {
    var z := "0" + s;
    assert z[..|z| - 1] == "0" + s[..|s| - 1];
    if |s| == 1 {
      assert z[..1] == "0" && s[..0] == "";
      assert Number("0") == 10 * Number("0"[..0]) + 0;
    } else {
      NumberOfLeadingZero(s[..|s| - 1]);
    }
  }

  lemma {:induction false} NumberOfZfill(s: string, width: nat)
    requires IsNumeral(s)
    ensures Number(Zfill(s, width)) == Number(s)
    decreases width - |s|
  {
    if |s| < width {
      NumberOfLeadingZero(s);
      NumberOfZfill("0" + s, width);
    }
  }

  lemma {:induction false} DecimalWidthIsMonotone(m: nat, n: nat)
    requires m <= n
    ensures |Decimal(m)| <= |Decimal(n)|
    decreases n
  {
    if n >= 10 {
      if m >= 10 {
        DecimalWidthIsMonotone(m / 10, n / 10);
      }
    }
  }
}
