/** Netstrings, section 2 of Bernstein's Netstrings specification, as src/djb/NetstringParser.cxx
    reads them and as the netstring generator writes them. */
module Netstring {
  import opened Base
  import Decimal

  newtype size_t = x: int | 0 <= x <= SIZE_MAX

  // ---------------------------------------------------------------- the format

  /** What the length part announcing `n` bytes may look like: decimal, at most 2^64-1, and
      without leading zero unless `n` is zero. */
  predicate Announces(digits: string, n: nat) {
    && digits != ""
    && Decimal.AllDigits(digits)
    && Decimal.Value(digits) == n <= 18446744073709551615
    && (n > 0 ==> digits[0] != '0')
  }

  /** `e` is an accepted encoding of `v`. */
  predicate Encodes(e: string, v: string) {
    && |v| + 2 <= |e|
    && e[|e| - |v| - 2..] == ":" + v + ","
    && Announces(e[..|e| - |v| - 2], |v|)
  }

  /** The header that announces `n` bytes. */
  function Header(n: nat): string {
    Decimal.ToText(n) + ":"
  }

  function Encode(v: string): string {
    Header(|v|) + v + ","
  }

  /** The accepted language, exactly: the canonical encoding, and for the empty string also
      every longer run of zeroes as its length. */
  lemma EncodesIff(e: string, v: string)
    requires |v| <= SIZE_MAX
    ensures Encodes(e, v) <==>
            if v != "" then e == Encode(v)
            else |e| >= 3 && e == Decimal.Zeros(|e| - 2) + ":,"
  {
    EncodeIsAccepted(v);
    if |v| + 2 <= |e| {
      var digits := e[..|e| - |v| - 2];
      assert e == digits + e[|e| - |v| - 2..];
      if Encodes(e, v) {
        if v == "" {
          Decimal.ZeroValue(digits);
        } else {
          Decimal.TextOfValue(digits);
        }
      }
      if v == "" && |e| >= 3 && e == Decimal.Zeros(|e| - 2) + ":," {
        assert digits == Decimal.Zeros(|e| - 2);
        Decimal.ZeroValue(digits);
      }
    }
  }

  lemma EncodeIsAccepted(v: string)
    requires |v| <= SIZE_MAX
    ensures Encodes(Encode(v), v)
  {
    Decimal.ValueOfText(|v|);
    var e, digits := Encode(v), Decimal.ToText(|v|);
    assert e == digits + (":" + v + ",");
    assert e[..|e| - |v| - 2] == digits;
  }

  // ---------------------------------------------------------------- the parser

  /** Index of the first `c`, or the length if there is none. */
  function IndexOf(s: string, c: char): (i: nat)
    ensures i <= |s| && (i < |s| ==> s[i] == c)
  {
    if s == "" || s[0] == c then 0 else 1 + IndexOf(s[1..], c)
  }

  lemma {:induction false} IndexOfUnique(s: string, c: char, i: nat)
    requires i < |s| && s[i] == c && c !in s[..i]
    ensures IndexOf(s, c) == i
  {
    if i > 0 {
      assert s[0] in s[..i];
      assert s[1..][..i - 1] == s[..i][1..];
      IndexOfUnique(s[1..], c, i - 1);
    }
  }

  datatype Reading = Nothing | Found(value: string, rest: string)

  /** The first netstring of `input` and what follows it. */
  function Next(input: string): Reading {
    var colon := IndexOf(input, ':');
    if colon == |input| then Nothing else
    var digits, rest := input[..colon], input[colon + 1..];
    match Decimal.ParseSize(digits)
    case None => Nothing
    case Some(n) =>
      if n > 0 && digits[0] == '0' then Nothing
      else if n >= |rest| || rest[n] != ',' then Nothing
      else Found(rest[..n], rest[n + 1..])
  }

  /** The parser finds (v, rest) exactly when `input` is an accepted encoding of v followed by
      rest; so there is at most one way to read a netstring off the front. */
  lemma NextIff(input: string, v: string, rest: string)
    ensures Next(input) == Found(v, rest) <==>
            |rest| <= |input| && input[|input| - |rest|..] == rest && Encodes(input[..|input| - |rest|], v)
  {
    if Next(input) == Found(v, rest) {
      NextSplits(input, v, rest);
    }
    if |rest| <= |input| && input[|input| - |rest|..] == rest && Encodes(input[..|input| - |rest|], v) {
      var e := input[..|input| - |rest|];
      assert input == e + rest;
      NextFindsEncoding(e, v, rest);
    }
  }

  lemma NextSplits(input: string, v: string, rest: string)
    requires Next(input) == Found(v, rest)
    ensures |rest| < |input| && input[|input| - |rest|..] == rest
    ensures Encodes(input[..|input| - |rest|], v)
  {
    var colon := IndexOf(input, ':');
    var digits, after := input[..colon], input[colon + 1..];
    assert after == v + "," + rest;
    assert input == digits + ":" + after;
    Parts(digits, v, rest, input);
  }

  /** Where the parts of an encoding stand, and what follows it. */
  lemma Parts(digits: string, v: string, rest: string, input: string)
    requires input == digits + ":" + (v + "," + rest)
    ensures |rest| < |input| && input[|input| - |rest|..] == rest
    ensures var e := input[..|input| - |rest|];
            |e| == |digits| + |v| + 2 && e[|digits|..] == ":" + v + "," && e[..|digits|] == digits
  {
    assert input == digits + (":" + v + ",") + rest;
  }

  lemma NextFindsEncoding(e: string, v: string, rest: string)
    requires Encodes(e, v)
    ensures Next(e + rest) == Found(v, rest)
  {
    var input := e + rest;
    var digits := e[..|e| - |v| - 2];
    assert e == digits + (":" + v + ",");
    assert input == digits + ":" + (v + "," + rest);
    assert input[..|digits|] == digits;
    assert ':' !in digits;
    IndexOfUnique(input, ':', |digits|);
    var after := input[|digits| + 1..];
    assert after == v + "," + rest;
    assert after[..|v|] == v && after[|v| + 1..] == rest;
  }

  /** Parsing inverts encoding, whatever follows. */
  lemma NextInvertsEncode(v: string, rest: string)
    requires |v| <= SIZE_MAX
    ensures Next(Encode(v) + rest) == Found(v, rest)
  {
    EncodeIsAccepted(v);
    NextFindsEncoding(Encode(v), v, rest);
  }

  /** `Next` fails exactly where no prefix of the input is a netstring. */
  lemma NextFailsIff(input: string)
    ensures Next(input).Nothing? <==> forall k, v :: 0 <= k <= |input| ==> !Encodes(input[..k], v)
  {
    if Next(input).Nothing? {
      forall k, v | 0 <= k <= |input| && Encodes(input[..k], v)
        ensures false
      {
        assert input == input[..k] + input[k..];
        NextFindsEncoding(input[..k], v, input[k..]);
      }
    } else {
      NextSplits(input, Next(input).value, Next(input).rest);
    }
  }

  /** `ParseNetstring`: the null view is `None`; `remaining` is the in/out argument afterwards.
      Sizes are 64-bit, so the additions and indices are checked against wrap-around. */
  method ParseNetstring(input: string) returns (value: Option<string>, remaining: string)
    requires |input| <= SIZE_MAX
    ensures value.None? ==> remaining == input && Next(input) == Nothing
    ensures value.Some? ==> |remaining| < |input| && Next(input) == Found(value.value, remaining)
  {
    remaining := input;
    var colon := IndexOf(input, ':');
    if colon == |input| {
      return None, input;
    }
    var sizeText, rest := input[..colon], input[colon + 1..];
    var parsed := Decimal.ParseSize(sizeText);
    if parsed.None? {
      return None, input;
    }
    var valueSize := parsed.value as size_t;
    if valueSize > 0 && sizeText[0] == '0' {
      return None, input;
    }
    if valueSize >= |rest| as size_t || rest[valueSize] != ',' {
      return None, input;
    }
    remaining := rest[valueSize + 1..];
    value := Some(rest[..valueSize]);
  }
}
