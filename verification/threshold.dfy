/** The threshold prompt's acceptance rule (VRGL.py, lines 94-102): empty
    input means 80, anything else must be a whole number from 0 to 100;
    every other answer makes the prompt ask again. */
module Threshold {
  import opened Options
  import opened Decimal

  const DefaultThreshold: nat := 80
  const MaxThreshold: nat := 100

  /** The threshold one answer yields, or `None` when the prompt repeats. */
  function ThresholdInput(raw: string): (r: Option<int>)
    ensures raw == "" ==> r == Some(DefaultThreshold)
    ensures r.Some? ==> 0 <= r.value <= MaxThreshold
    ensures raw != "" && !AllDigits(raw) ==> r == None
  {
    var text := if raw == "" then "80" else raw;
    assert NatToString(DefaultThreshold) == "80";
    ParseNatToString(DefaultThreshold);
    match ParseNat(text)
    case None => None
    case Some(v) => if v <= MaxThreshold then Some(v) else None
  }

  /** A typed number is accepted exactly when it lies in 0..100, and then
      it is the threshold. */
  lemma TypedNumberAccepted(n: nat)
    ensures ThresholdInput(NatToString(n)) == (if n <= MaxThreshold then Some(n) else None)
  {
    ParseNatToString(n);
  }

  /** Leading zeros are accepted and ignored: "080" is read as 80. */
  lemma LeadingZerosAccepted(n: nat, zeros: nat)
    ensures ThresholdInput(Zeros(zeros) + NatToString(n)) == ThresholdInput(NatToString(n))
  {
    ZerosParse(NatToString(n), zeros);
  }

  /** A run of `count` zero digits. */
  function Zeros(count: nat): (z: string)
    ensures |z| == count && AllDigits(z)
  {
    if count == 0 then "" else "0" + Zeros(count - 1)
  }

  lemma AppendDigits(a: string, b: string)
    requires AllDigits(a) && AllDigits(b)
    ensures AllDigits(a + b)
  {
    assert forall k :: |a| <= k < |a + b| ==> (a + b)[k] == b[k - |a|];
  }

  lemma {:induction false} ZerosParse(digits: string, zeros: nat)
    requires |digits| > 0 && AllDigits(digits)
    ensures AllDigits(Zeros(zeros) + digits)
    ensures DigitsValue(Zeros(zeros) + digits) == DigitsValue(digits)
  {
    AppendDigits(Zeros(zeros), digits);
    if zeros > 0 {
      var rest := Zeros(zeros - 1) + digits;
      assert Zeros(zeros) + digits == "0" + rest;
      ZerosParse(digits, zeros - 1);
      LeadingZeroIgnored(rest);
    } else {
      assert Zeros(zeros) + digits == digits;
    }
  }

}
