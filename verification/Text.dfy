// Strings as krkn's parsers use them: split, rsplit, join, decimal numbers.

module Text {

  /** Python's `s.split(c)`: always at least one part. */
  function Split(s: string, c: char): (parts: seq<string>)
    ensures |parts| >= 1
    ensures forall p :: p in parts ==> c !in p
    ensures Join(parts, c) == s
  {
    if s == "" then [""]
    else
      var rest := Split(s[1..], c);
      if s[0] == c then [""] + rest
      else
        assert ([[s[0]] + rest[0]] + rest[1..])[1..] == rest[1..];
        [[s[0]] + rest[0]] + rest[1..]
  }

  /** Python's `c.join(parts)`. */
  function Join(parts: seq<string>, c: char): string
  {
    if parts == [] then ""
    else if |parts| == 1 then parts[0]
    else parts[0] + [c] + Join(parts[1..], c)
  }

  lemma {:induction false} SplitWhole(s: string, c: char)
    requires c !in s
    ensures Split(s, c) == [s]
  {
    if s != "" {
      SplitWhole(s[1..], c);
      assert [s[0]] + s[1..] == s;
    }
  }

  /** Splitting distributes over a separator: nothing on either side can move across it. */
  lemma {:induction false} SplitAround(a: string, b: string, c: char)
    ensures Split(a + [c] + b, c) == Split(a, c) + Split(b, c)
  {
    hide Split, Join;
    var s := a + [c] + b;
    SplitEmpty(c);
    SplitCons(s, c);
    if a == "" {
      assert s[1..] == b;
    } else {
      SplitAround(a[1..], b, c);
      assert s[1..] == a[1..] + [c] + b && s[0] == a[0];
      SplitCons(a, c);
      HeadOfJoined(Split(a[1..], c), Split(b, c));
    }
  }

  lemma HeadOfJoined(x: seq<string>, y: seq<string>)
    requires x != []
    ensures (x + y)[0] == x[0] && (x + y)[1..] == x[1..] + y
  {
  }

  lemma SplitEmpty(c: char)
    ensures Split("", c) == [""]
  {
  }

  lemma SplitCons(s: string, c: char)
    requires s != ""
    ensures s[0] == c ==> Split(s, c) == [""] + Split(s[1..], c)
    ensures s[0] != c ==>
              Split(s, c) == [[s[0]] + Split(s[1..], c)[0]] + Split(s[1..], c)[1..]
  {
  }

  lemma SplitTwoTails(a: string, b: string, d: string, c: char)
    requires c !in b && c !in d
    ensures Split(a + [c] + b + [c] + d, c) == Split(a, c) + [b, d]
  {
    var tail := b + [c] + d;
    assert a + [c] + b + [c] + d == a + [c] + tail;
    SplitAround(a, tail, c);
    SplitAround(b, d, c);
    SplitWhole(b, c);
    SplitWhole(d, c);
  }

  /** Separator-free parts survive printing and splitting. */
  lemma {:induction false} SplitJoin(parts: seq<string>, c: char)
    requires |parts| >= 1
    requires forall p :: p in parts ==> c !in p
    ensures Split(Join(parts, c), c) == parts
  {
    if |parts| == 1 {
      SplitWhole(parts[0], c);
      assert parts == [parts[0]];
    } else {
      SplitAround(parts[0], Join(parts[1..], c), c);
      SplitJoin(parts[1..], c);
      SplitWhole(parts[0], c);
      assert parts == [parts[0]] + parts[1..];
    }
  }

  lemma {:induction false} JoinAround(a: seq<string>, b: seq<string>, c: char)
    requires a != [] && b != []
    ensures Join(a + b, c) == Join(a, c) + [c] + Join(b, c)
  {
    if |a| == 1 {
      assert (a + b)[1..] == b;
    } else {
      JoinAround(a[1..], b, c);
      assert (a + b)[1..] == a[1..] + b;
    }
  }

  /** Index of the first occurrence of `c`, or the length when there is none. */
  function IndexOf(s: string, c: char): (k: nat)
    ensures k <= |s|
    ensures c !in s[..k]
    ensures k < |s| <==> c in s
    ensures k < |s| ==> s[k] == c
  {
    if s == "" then 0
    else if s[0] == c then 0
    else
      assert s == [s[0]] + s[1..];
      assert s[..IndexOf(s[1..], c) + 1] == [s[0]] + s[1..][..IndexOf(s[1..], c)];
      1 + IndexOf(s[1..], c)
  }

  /** Python's `s.split(c, 1)`. */
  function SplitOnce(s: string, c: char): seq<string>
  {
    var k := IndexOf(s, c);
    if k == |s| then [s] else [s[..k], s[k + 1..]]
  }

  lemma {:induction false} IndexAround(a: string, b: string, c: char)
    requires c !in a
    ensures IndexOf(a + [c] + b, c) == |a|
  {
    if a != "" {
      IndexAround(a[1..], b, c);
      assert (a + [c] + b)[1..] == a[1..] + [c] + b;
    }
  }

  /** Python's `s.rsplit(c, n)`: at most `n` cuts, taken from the right. */
  function RSplit(s: string, c: char, n: nat): (parts: seq<string>)
    ensures |parts| >= 1
    decreases n
  {
    var k := LastIndexOf(s, c);
    if n == 0 || k < 0 then [s]
    else RSplit(s[..k], c, n - 1) + [s[k + 1..]]
  }

  function LastIndexOf(s: string, c: char): (k: int)
    ensures -1 <= k < |s|
    ensures k >= 0 ==> s[k] == c && c !in s[k + 1..]
    ensures k == -1 <==> c !in s
  {
    if s == "" then -1
    else if s[|s| - 1] == c then |s| - 1
    else
      assert s == s[..|s| - 1] + [s[|s| - 1]];
      var k := LastIndexOf(s[..|s| - 1], c);
      assert k >= 0 ==> s[k + 1..] == s[..|s| - 1][k + 1..] + [s[|s| - 1]];
      k
  }

  lemma {:induction false} LastAround(a: string, b: string, c: char)
    requires c !in b
    ensures LastIndexOf(a + [c] + b, c) == |a|
  {
    if b != "" {
      LastAround(a, b[..|b| - 1], c);
      assert (a + [c] + b)[..|a| + |b|] == a + [c] + b[..|b| - 1];
    }
  }

  /** Cutting from the right agrees with the full split on its last `n` parts. */
  lemma RSplitIsTailOfSplit(s: string, c: char, n: nat)
    requires n < |Split(s, c)|
    ensures var parts := Split(s, c);
            RSplit(s, c, n) == [Join(parts[..|parts| - n], c)] + parts[|parts| - n..]
  {
    hide Split, Join, RSplit;
    var parts := Split(s, c);
    assert forall i :: 0 <= i < |parts| ==> parts[i] in parts;
    RSplitJoined(parts, c, n);
  }

  lemma {:induction false} RSplitJoined(parts: seq<string>, c: char, n: nat)
    requires n < |parts|
    requires forall i :: 0 <= i < |parts| ==> c !in parts[i]
    ensures RSplit(Join(parts, c), c, n) == [Join(parts[..|parts| - n], c)] + parts[|parts| - n..]
    decreases n
  {
    hide RSplit, Join;
    if n == 0 {
      assert parts[..|parts|] == parts;
      RSplitZero(Join(parts, c), c);
    } else {
      var init, last := parts[..|parts| - 1], parts[|parts| - 1];
      RSplitJoined(init, c, n - 1);
      RSplitSnoc(init, last, c, n);
      assert parts == init + [last];
      assert init[..|init| - (n - 1)] == parts[..|parts| - n];
      assert init[|init| - (n - 1)..] + [last] == parts[|parts| - n..];
    }
  }

  lemma RSplitZero(s: string, c: char)
    ensures RSplit(s, c, 0) == [s]
  {
  }

  lemma RSplitSnoc(init: seq<string>, last: string, c: char, n: nat)
    requires n > 0 && init != [] && c !in last
    ensures RSplit(Join(init + [last], c), c, n) == RSplit(Join(init, c), c, n - 1) + [last]
  {
    JoinAround(init, [last], c);
    var a := Join(init, c);
    LastAround(a, last, c);
    var s := a + [c] + last;
    assert s[..|a|] == a && s[|a| + 1..] == last;
  }

  // ---- Character classes and decimal numbers (ASCII only)

  predicate Digit(c: char) { '0' <= c <= '9' }

  predicate Alnum(c: char) { Digit(c) || 'a' <= c <= 'z' || 'A' <= c <= 'Z' }

  /** Python's `s.isdigit()`: false on the empty string. */
  predicate IsDigits(s: string) { s != "" && forall c :: c in s ==> Digit(c) }

  /** Python's `s.isalnum()`. */
  predicate IsAlnum(s: string) { s != "" && forall c :: c in s ==> Alnum(c) }

  /** The accepted characters by their codes; both tests are false on the empty string. */
  lemma CharacterClasses(s: string)
    ensures IsDigits(s) <==> s != "" && forall c :: c in s ==> 48 <= c as int <= 57
    ensures IsAlnum(s) <==>
            s != "" && forall c :: c in s ==> 48 <= c as int <= 57 || 65 <= c as int <= 90 || 97 <= c as int <= 122
  {
  }

  function DigitChar(d: nat): (c: char)
    requires d < 10
    ensures Digit(c) && c as int - '0' as int == d
  {
    '0' + d as char
  }

  /** `str(n)` for a natural number. */
  function Decimal(n: nat): (s: string)
    ensures IsDigits(s)
  {
    if n < 10 then [DigitChar(n)] else Decimal(n / 10) + [DigitChar(n % 10)]
  }

  /** `int(s)` for a string of digits; leading zeros are accepted. */
  function Parse(s: string): nat
    requires forall c :: c in s ==> Digit(c)
  {
    if s == "" then 0
    else
      assert Digit(s[|s| - 1]);
      10 * Parse(s[..|s| - 1]) + (s[|s| - 1] as int - '0' as int)
  }

  lemma {:induction false} ParseDecimal(n: nat)
    ensures Parse(Decimal(n)) == n
  {
    var s := Decimal(n);
    if n < 10 {
      assert s[..|s| - 1] == "";
    } else {
      ParseDecimal(n / 10);
      assert s[..|s| - 1] == Decimal(n / 10);
    }
  }

  predicate EndsWith(s: string, suffix: string)
  {
    |s| >= |suffix| && s[|s| - |suffix|..] == suffix
  }

  /** Python's `s[:-n]`. */
  function DropLast(s: string, n: nat): string
  {
    if |s| >= n then s[..|s| - n] else ""
  }
}
