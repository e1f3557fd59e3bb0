/**
 * Strings as sequences of characters: the Python `str.split` on one
 * separator character, `str.join`, substring search and the decimal
 * rendering of an integer in a template literal or f-string.
 */
module Text {

  /** `sep.join(parts)` */
  function Join(sep: string, parts: seq<string>): (r: string)
    ensures |parts| == 1 ==> r == parts[0]
  {
    if |parts| == 0 then ""
    else if |parts| == 1 then parts[0]
    else parts[0] + sep + Join(sep, parts[1..])
  }

  /** `s.split(c)` for a one-character separator: never empty, and `""` splits into `[""]`. */
  function Split(s: string, c: char): (r: seq<string>)
    ensures |r| >= 1
    ensures forall i :: 0 <= i < |r| ==> c !in r[i]
  {
    if |s| == 0 then [""]
    else
      var rest := Split(s[1..], c);
      if s[0] == c then [""] + rest
      else [[s[0]] + rest[0]] + rest[1..]
  }

  /** Number of occurrences of `c` in `s`. */
  function Count(s: string, c: char): nat
  {
    if |s| == 0 then 0 else (if s[0] == c then 1 else 0) + Count(s[1..], c)
  }

  /** Joining the pieces of a split with the separator gives back the string. */
  lemma {:induction false} JoinSplit(s: string, c: char)
    ensures Join([c], Split(s, c)) == s
  {
    if |s| > 0 {
      JoinSplit(s[1..], c);
      var rest := Split(s[1..], c);
      if s[0] == c {
        assert Split(s, c) == [""] + rest;
        assert s == [c] + s[1..];
      } else {
        var r := [[s[0]] + rest[0]] + rest[1..];
        assert Split(s, c) == r;
        if |rest| == 1 {
          assert s == [s[0]] + s[1..];
        } else {
          assert rest == [rest[0]] + rest[1..];
          assert Join([c], rest) == rest[0] + [c] + Join([c], rest[1..]);
          assert r[1..] == rest[1..];
        }
      }
    }
  }

  /** A split has one more piece than the string has separators. */
  lemma {:induction false} SplitLength(s: string, c: char)
    ensures |Split(s, c)| == Count(s, c) + 1
  {
    if |s| > 0 {
      SplitLength(s[1..], c);
    }
  }

  /** Whether `pat` occurs in `s` at position `i`. */
  predicate OccursAt(s: string, pat: string, i: nat)
  {
    i + |pat| <= |s| && s[i..i + |pat|] == pat
  }

  /** Whether `pat` occurs in `s` at some position at or after `from`. */
  function ContainsFrom(s: string, pat: string, from: nat): (r: bool)
    ensures r <==> exists i: nat :: from <= i && OccursAt(s, pat, i)
    decreases |s| - from
  {
    if from + |pat| > |s| then false
    else if s[from..from + |pat|] == pat then assert OccursAt(s, pat, from); true
    else ContainsFrom(s, pat, from + 1)
  }

  /** `pat in s` for Python strings, `s.includes(pat)` in JavaScript. */
  function Contains(s: string, pat: string): (r: bool)
    ensures r <==> exists i: nat :: OccursAt(s, pat, i)
  {
    ContainsFrom(s, pat, 0)
  }

  function DigitChar(d: nat): char
    requires d < 10
  {
    ['0', '1', '2', '3', '4', '5', '6', '7', '8', '9'][d]
  }

  /** The decimal digits of a natural number, without leading zeros. */
  function NatToString(n: nat): (r: string)
    ensures |r| >= 1
    ensures forall i :: 0 <= i < |r| ==> '0' <= r[i] <= '9'
    decreases n
  {
    if n < 10 then [DigitChar(n)] else NatToString(n / 10) + [DigitChar(n % 10)]
  }

  /** `${n}` / `str(n)` for an integer: a minus sign for negative numbers. */
  function IntToString(n: int): (r: string)
    ensures |r| >= 1
    ensures (r[0] == '-') <==> n < 0
  {
    if n < 0 then "-" + NatToString(-n) else NatToString(n)
  }
}
