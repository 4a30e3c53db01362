/**
 The port keys a link trap is looked up by: `trailingDigits` and `portCandidates` of
 fwDCS/internal/store/timescale.go, lines 810-850.
 */
module Ports {

  // --- Port keys ---------------------------------------------------------------------------------

  predicate IsDigit(c: char)
  {
    '0' <= c <= '9'
  }

  lemma DigitsAre(c: char)
    ensures IsDigit(c) <==> c in "0123456789"
  {
    assert "0123456789" == ['0', '1', '2', '3', '4', '5', '6', '7', '8', '9'];
  }

  /** Where the run of digits at the end of a name starts. */
  function DigitsStart(s: string): (i: nat)
    ensures i <= |s|
  {
    if s != [] && IsDigit(s[|s| - 1]) then DigitsStart(s[..|s| - 1]) else |s|
  }

  function TrailingDigits(s: string): string
  {
    s[DigitsStart(s)..]
  }

  predicate EndsInDigit(s: string)
  {
    s != [] && IsDigit(s[|s| - 1])
  }

  /** The longest suffix of digits: what follows `prefix` when that does not end in a digit. */
  lemma {:induction false} TrailingDigitsIff(prefix: string, digits: string)
    requires forall i :: 0 <= i < |digits| ==> IsDigit(digits[i])
    ensures TrailingDigits(prefix + digits) == digits <==> !EndsInDigit(prefix)
    decreases |digits|
  {
    var s := prefix + digits;
    if digits == [] {
      assert s == prefix;
      assert DigitsStart(s) == |s| <==> !EndsInDigit(prefix) by { StartIsShort(s); }
    } else {
      var shorter := digits[..|digits| - 1];
      assert s[..|s| - 1] == prefix + shorter;
      TrailingDigitsIff(prefix, shorter);
      assert DigitsStart(s) == DigitsStart(prefix + shorter);
      assert s[|prefix|..] == digits && (prefix + shorter)[|prefix|..] == shorter;
    }
  }

  lemma StartIsShort(s: string)
    ensures DigitsStart(s) == |s| <==> !EndsInDigit(s)
  {
  }

  function Digit(d: nat): char
    requires d < 10
  {
    '0' + d as char
  }

  function Itoa(n: nat): (s: string)
    ensures |s| > 0 && forall i :: 0 <= i < |s| ==> IsDigit(s[i])
  {
    if n < 10 then [Digit(n)] else Itoa(n / 10) + [Digit(n % 10)]
  }

  /** The number a decimal numeral stands for. */
  function Value(s: string): nat
    requires forall i :: 0 <= i < |s| ==> IsDigit(s[i])
  {
    if s == [] then 0
    else
      var d := s[|s| - 1];
      assert IsDigit(d);
      Value(s[..|s| - 1]) * 10 + (d - '0') as int
  }

  lemma {:induction false} ItoaValue(n: nat)
    ensures Value(Itoa(n)) == n
  {
    if n >= 10 {
      ItoaValue(n / 10);
      assert Itoa(n)[..|Itoa(n)| - 1] == Itoa(n / 10);
    } else {
      assert Itoa(n)[..0] == [];
    }
  }

  lemma ItoaInjective(m: nat, n: nat)
    ensures Itoa(m) == Itoa(n) <==> m == n
  {
    ItoaValue(m);
    ItoaValue(n);
  }

  method FindTrailingDigits(s: string) returns (digits: string)
    ensures digits == TrailingDigits(s)
  {
    var i := |s|;
    assert s[..|s|] == s;
    while i > 0 && '0' <= s[i - 1] <= '9'
      invariant 0 <= i <= |s| && DigitsStart(s) == DigitsStart(s[..i])
    {
      assert s[..i][..i - 1] == s[..i - 1];
      i := i - 1;
    }
    digits := s[i..];
  }

  /** The keys a trap is looked up by, in order. */
  function Candidates(ifIndex: int, ifName: string): seq<string>
  {
    var digits := TrailingDigits(ifName);
    (if digits == "" then [] else [digits])
    + (if ifIndex >= 1 && Itoa(ifIndex - 1) != digits then [Itoa(ifIndex - 1)] else [])
  }

  method PortCandidates(ifIndex: int, ifName: string) returns (keys: seq<string>)
    ensures keys == Candidates(ifIndex, ifName)
  {
    keys := [];
    var seen: set<string> := {};
    var digits := FindTrailingDigits(ifName);
    keys, seen := AddKey(keys, seen, digits);
    if ifIndex >= 1 {
      keys, seen := AddKey(keys, seen, Itoa(ifIndex - 1));
    }
  }

  method AddKey(keys: seq<string>, seen: set<string>, s: string) returns (keys': seq<string>, seen': set<string>)
    ensures keys' == if s == "" || s in seen then keys else keys + [s]
    ensures seen' == if s == "" then seen else seen + {s}
  {
    keys', seen' := keys, seen;
    if s != "" && s !in seen {
      seen' := seen + {s};
      keys' := keys + [s];
    }
  }

  /** Numerals have no leading zero. */
  lemma {:induction false} ItoaCanonical(n: nat)
    ensures Itoa(n)[0] == '0' <==> n == 0
    ensures n == 0 ==> Itoa(n) == "0"
  {
    if n >= 10 { ItoaCanonical(n / 10); }
  }

  /** The name's number comes first, then ifIndex-1, unless that is the name's number again. */
  lemma KeysInOrder(ifIndex: int, ifName: string)
    ensures var keys, digits := Candidates(ifIndex, ifName), TrailingDigits(ifName);
            && (digits != "" ==> keys != [] && keys[0] == digits)
            && (ifIndex >= 1 ==> Itoa(ifIndex - 1) in keys)
            && (ifIndex >= 1 && digits != "" && Itoa(ifIndex - 1) != digits ==> keys == [digits, Itoa(ifIndex - 1)])
            && (ifIndex < 1 ==> keys == if digits == "" then [] else [digits])
  {
    hide Itoa, TrailingDigits;
  }

  /** ifIndex p+1 yields p as the only key exactly when the name has no number or ends in that one. */
  lemma OnlyKeyIff(p: nat, ifName: string)
    ensures Candidates(p + 1, ifName) == [Itoa(p)] <==> TrailingDigits(ifName) in {"", Itoa(p)}
  {
  }

  /** A name that is a prefix without a final digit followed by p gives p. */
  lemma NameGivesPort(p: nat, prefix: string)
    requires !EndsInDigit(prefix)
    ensures Candidates(p + 1, prefix + Itoa(p)) == [Itoa(p)] && Candidates(p + 1, "") == [Itoa(p)]
  {
    TrailingDigitsIff(prefix, Itoa(p));
    OnlyKeyIff(p, prefix + Itoa(p));
    OnlyKeyIff(p, "");
    assert TrailingDigits("") == "";
    hide Itoa, TrailingDigits, Candidates;
  }

  /** The raw ifIndex is a key exactly when the name itself ends in it. */
  lemma RawIndexIsKeyIff(p: nat, ifName: string)
    ensures Itoa(p + 1) in Candidates(p + 1, ifName) <==> TrailingDigits(ifName) == Itoa(p + 1)
  {
    ItoaInjective(p, p + 1);
    hide Itoa, TrailingDigits;
  }
}
