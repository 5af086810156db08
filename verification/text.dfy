/** Decimal numerals and separator-joined lists, with their parsers. */
module Text {
  import opened Results

  predicate IsDigit(c: char) {
    '0' <= c <= '9'
  }

  /** Every character of s is drawn from the given alphabet. */
  predicate Over(s: string, alphabet: set<char>) {
    forall i :: 0 <= i < |s| ==> s[i] in alphabet
  }

  const Digits: set<char> := {'0', '1', '2', '3', '4', '5', '6', '7', '8', '9'}

  function DigitChar(d: nat): (c: char)
    requires d < 10
    ensures c in Digits
  {
    ['0', '1', '2', '3', '4', '5', '6', '7', '8', '9'][d]
  }

  function DigitValue(c: char): nat
    requires c in Digits
  {
    c as int - '0' as int
  }

  /** Decimal numeral of n, without leading zeros. */
  function NatToString(n: nat): (s: string)
    ensures |s| >= 1 && Over(s, Digits)
    ensures |s| > 1 ==> s[0] != '0'
    decreases n
  {
    if n < 10 then [DigitChar(n)] else NatToString(n / 10) + [DigitChar(n % 10)]
  }

  /** Value of a string of decimal digits. */
  function DigitsValue(s: string): nat
    requires Over(s, Digits)
    decreases |s|
  {
    if |s| == 0 then 0 else DigitsValue(s[..|s| - 1]) * 10 + DigitValue(s[|s| - 1])
  }

  function ParseNat(s: string): Option<nat> {
    if |s| == 0 || !Over(s, Digits) then None else Some(DigitsValue(s))
  }

  lemma {:induction false} ParseNatRoundTrip(n: nat)
    ensures ParseNat(NatToString(n)) == Some(n)
    decreases n
  {
    var s := NatToString(n);
    if n >= 10 {
      ParseNatRoundTrip(n / 10);
      assert s[..|s| - 1] == NatToString(n / 10);
    } else {
      assert s == [DigitChar(n)] && s[..0] == [];
      assert DigitsValue(s) == DigitsValue([]) * 10 + DigitValue(s[0]);
      assert DigitValue(s[0]) == n;
    }
  }

  /** Distinct numbers get distinct numerals. */
  lemma NatToStringInjective(m: nat, n: nat)
    requires m != n
    ensures NatToString(m) != NatToString(n)
  {
    ParseNatRoundTrip(m);
    ParseNatRoundTrip(n);
  }

  /** The parts with the separator between each pair. */
  function Join(parts: seq<string>, sep: char): string
    decreases |parts|
  {
    if |parts| == 0 then ""
    else if |parts| == 1 then parts[0]
    else parts[0] + [sep] + Join(parts[1..], sep)
  }

  lemma {:induction false} JoinOver(parts: seq<string>, sep: char, alphabet: set<char>)
    requires sep in alphabet
    requires forall k :: 0 <= k < |parts| ==> Over(parts[k], alphabet)
    ensures Over(Join(parts, sep), alphabet)
    decreases |parts|
  {
    if |parts| > 1 {
      JoinOver(parts[1..], sep, alphabet);
    }
  }

  /** The pieces of s between occurrences of sep; always at least one. */
  function SplitOn(s: string, sep: char): (r: seq<string>)
    ensures |r| >= 1
    decreases |s|
  {
    if |s| == 0 then [""]
    else if s[0] == sep then [""] + SplitOn(s[1..], sep)
    else
      var rest := SplitOn(s[1..], sep);
      [[s[0]] + rest[0]] + rest[1..]
  }

  lemma {:induction false} SplitOnPlain(p: string, sep: char)
    requires sep !in p
    ensures SplitOn(p, sep) == [p]
    decreases |p|
  {
    if |p| > 0 {
      SplitOnPlain(p[1..], sep);
      assert [p[0]] + p[1..] == p;
    }
  }

  lemma {:induction false} SplitOnFront(p: string, sep: char, t: string)
    requires sep !in p
    ensures SplitOn(p + [sep] + t, sep) == [p] + SplitOn(t, sep)
    decreases |p|
  {
    var s := p + [sep] + t;
    if |p| == 0 {
      assert s[1..] == t;
    } else {
      assert s[1..] == p[1..] + [sep] + t;
      SplitOnFront(p[1..], sep, t);
      assert [p[0]] + p[1..] == p;
    }
  }

  /** Splitting a joined list gives the list back, provided no part contains
      the separator. */
  lemma {:induction false} SplitJoin(parts: seq<string>, sep: char)
    requires |parts| >= 1
    requires forall k :: 0 <= k < |parts| ==> sep !in parts[k]
    ensures SplitOn(Join(parts, sep), sep) == parts
    decreases |parts|
  {
    if |parts| == 1 {
      SplitOnPlain(parts[0], sep);
    } else {
      SplitJoin(parts[1..], sep);
      SplitOnFront(parts[0], sep, Join(parts[1..], sep));
      assert [parts[0]] + parts[1..] == parts;
    }
  }
}
