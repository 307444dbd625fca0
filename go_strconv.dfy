/**
 * The decimal readers of Go's `strconv` the toolchain calls: `Atoi`, which fails outside the
 * 64-bit range, and `ParseInt(s, 10, 64)`, which clamps to it.
 */
module GoStrconv {
  import opened Wrappers
  import opened Decimal

  const INT64_MIN: int := -0x8000_0000_0000_0000
  const INT64_MAX: int := 0x7fff_ffff_ffff_ffff

  /** One optional sign, then at least one decimal digit, and nothing else; its value. */
  function SignedDecimal(s: string): (r: Option<int>)
    ensures r.Some? ==> |s| > 0
  {
    var signed := |s| > 0 && (s[0] == '-' || s[0] == '+');
    var digits := if signed then s[1..] else s;
    if |digits| == 0 || !AllDigits(digits) then None
    else Some(if signed && s[0] == '-' then -(DigitsValue(digits) as int) else DigitsValue(digits))
  }

  /** `strconv.Atoi` on a 64-bit platform: the value when the syntax is right and it fits. */
  function Atoi(s: string): (r: Option<int>)
    ensures r.Some? ==> INT64_MIN <= r.value <= INT64_MAX
  {
    var v := SignedDecimal(s);
    if v.Some? && INT64_MIN <= v.value <= INT64_MAX then v else None
  }

  /** `strconv.ParseInt(s, 10, 64)`: the value and whether an error was reported. */
  datatype Parsed = Parsed(value: int, failed: bool)

  function ParseInt(s: string): (r: Parsed)
    ensures INT64_MIN <= r.value <= INT64_MAX
    ensures !r.failed <==> Atoi(s).Some?
    ensures !r.failed ==> r.value == Atoi(s).value
  {
    match SignedDecimal(s)
    case None => Parsed(0, true)               // a syntax error yields 0
    case Some(v) =>
      if v > INT64_MAX then Parsed(INT64_MAX, true)  // a range error yields the nearest bound
      else if v < INT64_MIN then Parsed(INT64_MIN, true)
      else Parsed(v, false)
  }

  /** Every 64-bit value reads back from its decimal spelling. */
  lemma AtoiOfIntToString(x: int)
    requires INT64_MIN <= x <= INT64_MAX
    ensures Atoi(IntToString(x)) == Some(x)
  {
    var s := IntToString(x);
    if x < 0 {
      var n: nat := -x;
      assert s == "-" + NatToString(n);
      assert s[1..] == NatToString(n);
      DigitsValueOfNatToString(n);
    } else {
      assert s == NatToString(x);
      assert IsDigit(s[0]);
      DigitsValueOfNatToString(x);
    }
  }
}
