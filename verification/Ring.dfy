/** Serial number arithmetic: the 32-bit ring of sections 3.1 and 3.2 of RFC 1982,
    as used by serial_is_newer and mysql_role_dns_converged_serial. */
module Ring {
  import opened Wrappers

  const MODULUS: nat := 0x1_0000_0000
  const HALF_RANGE: nat := 0x8000_0000

  /** (to - from) % SERIAL_MODULUS. */
  function Distance(from: int, to: int): (d: nat)
    ensures d < MODULUS
  {
    (to - from) % MODULUS
  }

  /** serial_is_newer. */
  predicate SerialIsNewer(current: int, candidate: int) {
    0 < Distance(current, candidate) < HALF_RANGE
  }

  /** mysql_role_dns_converged_serial on two serials. */
  function ConvergedSerial(first: int, second: int, recordsNeedUpdate: bool): Result<int> {
    if !(0 <= first < MODULUS) then Err(SerialOutOfRange)
    else if !(0 <= second < MODULUS) then Err(SerialOutOfRange)
    else if first == second then
      Ok(if recordsNeedUpdate then (first + 1) % MODULUS else first)
    else if Distance(first, second) == HALF_RANGE then
      Err(SerialOrderAmbiguous)
    else
      var newest := if Distance(first, second) < HALF_RANGE then second else first;
      Ok((newest + 1) % MODULUS)
  }

  // ----- properties -----

  /** "s1 is less than s2", the comparison of section 3.2 of RFC 1982. */
  ghost predicate Rfc1982Less(s1: int, s2: int) {
    s1 != s2 && ((s1 < s2 && s2 - s1 < HALF_RANGE) || (s1 > s2 && s1 - s2 > HALF_RANGE))
  }

  /** The way round the ring that is the shorter of the two. */
  function Gap(a: int, b: int): nat {
    if Distance(a, b) <= Distance(b, a) then Distance(a, b) else Distance(b, a)
  }

  lemma NewerIsRfc1982(current: int, candidate: int)
    requires 0 <= current < MODULUS && 0 <= candidate < MODULUS
    ensures SerialIsNewer(current, candidate) <==> Rfc1982Less(current, candidate)
  {
    var d := candidate - current;
    assert d >= 0 ==> d % MODULUS == d;
    assert d < 0 ==> d % MODULUS == d + MODULUS;
  }

  lemma DistanceBetween(a: int, b: int)
    requires 0 <= a < MODULUS && 0 <= b < MODULUS
    ensures Distance(a, b) == if b >= a then b - a else b - a + MODULUS
  {
  }

  /** The choice does not depend on which server is listed first. */
  lemma ChoiceIsSymmetric(first: int, second: int, needed: bool)
    ensures ConvergedSerial(first, second, needed).Ok? <==> ConvergedSerial(second, first, needed).Ok?
    ensures ConvergedSerial(first, second, needed).Ok? ==>
              ConvergedSerial(first, second, needed) == ConvergedSerial(second, first, needed)
  {
    hide Distance;
    if 0 <= first < MODULUS && 0 <= second < MODULUS {
      DistanceBetween(first, second);
      DistanceBetween(second, first);
    }
  }

  /** One server accepts a target when it is its own serial or a newer one. */
  predicate Accepts(current: int, target: int) {
    target == current || SerialIsNewer(current, target)
  }

  /** Section 3.2 of RFC 1982 leaves the order open exactly at half range, and
      the chosen target passes both servers' own check at every gap but
      2^31 - 1, where the older server refuses it, and 2^31, where there is no
      target at all. */
  lemma ChoiceIsAcceptedOffTheBoundary(first: int, second: int, needed: bool)
    requires 0 <= first < MODULUS && 0 <= second < MODULUS
    ensures ConvergedSerial(first, second, needed).Ok? <==> Gap(first, second) != HALF_RANGE
    ensures var target := ConvergedSerial(first, second, needed);
            (target.Ok? && Accepts(first, target.value) && Accepts(second, target.value))
            <==> Gap(first, second) < HALF_RANGE - 1
    ensures var target := ConvergedSerial(first, second, needed);
            target.Ok? && (needed || first != second) && Gap(first, second) != HALF_RANGE - 1 ==>
              Rfc1982Less(first, target.value) && Rfc1982Less(second, target.value)
    ensures Gap(first, second) == HALF_RANGE - 1 ==>
              var target := ConvergedSerial(first, second, needed).value;
              var older := if SerialIsNewer(first, second) then first else second;
              !Accepts(older, target) && !Rfc1982Less(older, target)
  {
    hide Distance;
    DistanceBetween(first, second);
    DistanceBetween(second, first);
    var target := ConvergedSerial(first, second, needed);
    if target.Ok? {
      DistanceBetween(first, target.value);
      DistanceBetween(second, target.value);
      NewerIsRfc1982(first, target.value);
      NewerIsRfc1982(second, target.value);
    }
  }
}
