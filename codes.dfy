/**
 * Package codes the promo handlers generate:
 * `${prefix}-${timestamp}-${suffix}` upper-cased, where the suffix is
 * `Math.random().toString(36).substr(2, 5)`. The clock reading and the
 * random digits are parameters.
 */
module Codes {
  import opened Text

  const AdminPrefix := "ADMIN"
  const FreePrefix := "FREE"
  const SuffixLength := 5

  /** The characters `toString(36)` writes after "0." for a number in [0, 1). */
  predicate Base36(s: string) {
    forall i :: 0 <= i < |s| ==> IsDigit(s[i]) || IsLowerLetter(s[i])
  }

  /** `substr(2, 5)`: the first five of the random number's base-36 digits, or all of them if fewer. */
  function Suffix(randomDigits: string): (r: string)
    ensures |r| <= SuffixLength && r <= randomDigits
    ensures |randomDigits| >= SuffixLength ==> |r| == SuffixLength
    ensures |randomDigits| <= SuffixLength ==> r == randomDigits
  {
    if |randomDigits| <= SuffixLength then randomDigits else randomDigits[..SuffixLength]
  }

  /** The code before upper-casing. */
  function RawCode(prefix: string, timestamp: nat, randomDigits: string): string {
    prefix + "-" + NatToDecimal(timestamp) + "-" + Suffix(randomDigits)
  }

  /** The generated code: starts with the prefix and a dash, and holds no lower-case letter. */
  function GenerateCode(prefix: string, timestamp: nat, randomDigits: string): (code: string)
    ensures |code| == |prefix| + |NatToDecimal(timestamp)| + |Suffix(randomDigits)| + 2
    ensures code[..|prefix| + 1] == ToUpper(prefix) + "-"
    ensures (forall i :: 0 <= i < |prefix| ==> !IsLowerLetter(prefix[i])) ==> code[..|prefix| + 1] == prefix + "-"
    ensures forall i :: 0 <= i < |code| ==> !IsLowerLetter(code[i])
  {
    var raw := RawCode(prefix, timestamp, randomDigits);
    var code := ToUpper(raw);
    assert raw[|prefix|] == '-';
    assert code[..|prefix| + 1] == ToUpper(prefix) + "-" by {
      forall i | 0 <= i < |prefix| + 1
        ensures code[i] == (ToUpper(prefix) + "-")[i]
      {
        if i < |prefix| {
          assert raw[i] == prefix[i];
        }
      }
    }
    code
  }

  /** A character of the part after the prefix: a digit, a dash, or a lower-case base-36 digit. */
  predicate Plain(c: char) {
    IsDigit(c) || IsLowerLetter(c) || c == '-'
  }

  lemma UpperCharInjectiveOnPlain(a: char, b: char)
    requires Plain(a) && Plain(b) && UpperChar(a) == UpperChar(b)
    ensures a == b
  {
  }

  /** In a digit string followed by a dash, the dash is the first one. */
  lemma DashFollowsDigits(d: string, s: string)
    requires AllDigits(d)
    ensures (d + "-" + s)[|d|] == '-'
    ensures forall i :: 0 <= i < |d| ==> (d + "-" + s)[i] != '-'
  {
  }

  /** Two digit strings each followed by a dash split a string the same way. */
  lemma {:induction false} SplitAtDash(d1: string, s1: string, d2: string, s2: string)
    requires AllDigits(d1) && AllDigits(d2)
    requires d1 + "-" + s1 == d2 + "-" + s2
    ensures d1 == d2 && s1 == s2
  {
    var w := d1 + "-" + s1;
    if |d1| != |d2| {
      DashFollowsDigits(d1, s1);
      DashFollowsDigits(d2, s2);
      assert false;
    }
    assert d1 == w[..|d1|] == d2;
    assert s1 == w[|d1| + 1..] == s2;
  }

  /** The part of a raw code after the prefix and its dash. */
  function Tail(timestamp: nat, randomDigits: string): string {
    NatToDecimal(timestamp) + "-" + Suffix(randomDigits)
  }

  lemma TailIsPlain(timestamp: nat, randomDigits: string)
    requires Base36(randomDigits)
    ensures forall i :: 0 <= i < |Tail(timestamp, randomDigits)| ==> Plain(Tail(timestamp, randomDigits)[i])
  {
  }

  /** Two strings with a common head that agree once upper-cased, and whose tails are plain, have equal tails. */
  lemma UpperAgreesOnPlainTails(head: string, tail1: string, tail2: string)
    requires ToUpper(head + tail1) == ToUpper(head + tail2)
    requires forall i :: 0 <= i < |tail1| ==> Plain(tail1[i])
    requires forall i :: 0 <= i < |tail2| ==> Plain(tail2[i])
    ensures tail1 == tail2
  {
    var u1, u2 := ToUpper(head + tail1), ToUpper(head + tail2);
    forall i | 0 <= i < |tail1|
      ensures tail1[i] == tail2[i]
    {
      assert u1[|head| + i] == UpperChar(tail1[i]);
      assert u2[|head| + i] == UpperChar(tail2[i]);
      UpperCharInjectiveOnPlain(tail1[i], tail2[i]);
    }
  }

  /**
   * A generated code determines the timestamp and the random suffix it was
   * made from: two calls yield the same code only if they read the same
   * clock value and drew the same five base-36 digits.
   */
  lemma {:induction false} CodeDeterminesTimestampAndSuffix(prefix: string, t1: nat, d1: string, t2: nat, d2: string)
    requires Base36(d1) && Base36(d2)
    requires GenerateCode(prefix, t1, d1) == GenerateCode(prefix, t2, d2)
    ensures t1 == t2 && Suffix(d1) == Suffix(d2)
  {
    var head := prefix + "-";
    assert RawCode(prefix, t1, d1) == head + Tail(t1, d1);
    assert RawCode(prefix, t2, d2) == head + Tail(t2, d2);
    TailIsPlain(t1, d1);
    TailIsPlain(t2, d2);
    UpperAgreesOnPlainTails(head, Tail(t1, d1), Tail(t2, d2));
    SplitAtDash(NatToDecimal(t1), Suffix(d1), NatToDecimal(t2), Suffix(d2));
    NatToDecimalInjective(t1, t2);
  }

  /** A code the admin issuer generates never equals one the public promo issuer generates. */
  lemma AdminAndFreeCodesDiffer(t1: nat, d1: string, t2: nat, d2: string)
    ensures GenerateCode(AdminPrefix, t1, d1) != GenerateCode(FreePrefix, t2, d2)
  {
  }
}
