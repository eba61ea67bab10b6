/**
 * parseExpiry (package_func.go): `<int><unit>` with the unit S, M, H or D in
 * either case, turned into the absolute timestamp now + n * unit-seconds.
 * The clock is the parameter `now`.
 */
module Expiry {
  import opened Wrappers
  import opened Strconv

  datatype ExpiryError = InvalidNumber | InvalidUnit

  /** ASCII upper-casing, all that matters for a one-byte unit. */
  function ToUpper(c: char): (u: char)
    ensures 'a' <= c <= 'z' ==> u as int == c as int - 32
    ensures !('a' <= c <= 'z') ==> u == c
  {
    if 'a' <= c <= 'z' then (c as int - 32) as char else c
  }

  /** Seconds per unit for the upper-cased unit letters S, M, H and D. */
  function UnitSeconds(u: char): (r: Option<int>)
    ensures r.Some? <==> u in "SMHD"
    ensures u == 'S' ==> r == Some(1)
    ensures u == 'M' ==> r == Some(60)
    ensures u == 'H' ==> r == Some(60 * 60)
    ensures u == 'D' ==> r == Some(60 * 60 * 24)
  {
    match u
    case 'S' => Some(1)
    case 'M' => Some(60)
    case 'H' => Some(60 * 60)
    case 'D' => Some(60 * 60 * 24)
    case _ => None
  }

  /**
   * The last character is the unit and the rest the number. Go slices the
   * last BYTE off, so a non-ASCII last character leaves part of its UTF-8
   * encoding in the number, which then fails to parse: that case is a
   * number error, like every other unparsable number, and is reported
   * before the unit is looked at.
   */
  function ParseExpiry(expiry: string, now: int): (r: Result<int, ExpiryError>)
    requires |expiry| > 0
    ensures var unit, n := expiry[|expiry| - 1], Atoi(expiry[..|expiry| - 1]);
      && ((unit as int >= 0x80 || n.None?) ==> r == Err(InvalidNumber))
      && (r.Ok? <==> unit as int < 0x80 && n.Some? && ToUpper(unit) in "SMHD")
      && (r.Ok? ==> r.value == now + n.value * UnitSeconds(ToUpper(unit)).value)
      && (r.Err? && unit as int < 0x80 && n.Some? ==> r.error == InvalidUnit)
  {
    var unit := expiry[|expiry| - 1];
    var duration := expiry[..|expiry| - 1];
    if unit as int >= 0x80 then Err(InvalidNumber)
    else match Atoi(duration)
      case None => Err(InvalidNumber)
      case Some(n) =>
        match UnitSeconds(ToUpper(unit))
        case None => Err(InvalidUnit)
        case Some(secs) => Ok(now + n * secs)
  }

  /** Seconds of each accepted unit letter, lower or upper case. */
  function Seconds(unit: char): (secs: int)
    requires unit in "sSmMhHdD"
    ensures unit in "sS" ==> secs == 1
    ensures unit in "mM" ==> secs == 60
    ensures unit in "hH" ==> secs == 3600
    ensures unit in "dD" ==> secs == 86400
  {
    UnitSeconds(ToUpper(unit)).value
  }

  /**
   * Round trip: the expiry written as Itoa(n) followed by a unit letter
   * parses back to now + n seconds-per-unit, whichever case the letter is.
   */
  lemma ParseExpiryOfFormatted(n: int, unit: char, now: int)
    requires MinInt64 <= n <= MaxInt64
    requires unit in "sSmMhHdD"
    ensures ParseExpiry(Itoa(n) + [unit], now) == Ok(now + n * Seconds(unit))
  {
    var s := Itoa(n) + [unit];
    assert s[|s| - 1] == unit && s[..|s| - 1] == Itoa(n);
    AtoiItoa(n);
    var u := ToUpper(unit);
    assert u in "SMHD" && unit as int < 0x80;
    assert UnitSeconds(u) == Some(Seconds(unit));
  }

  /** A unit outside S/M/H/D is rejected even when the number is fine. */
  lemma ParseExpiryBadUnit(n: int, unit: char, now: int)
    requires MinInt64 <= n <= MaxInt64
    requires unit as int < 0x80 && unit !in "sSmMhHdD"
    ensures ParseExpiry(Itoa(n) + [unit], now) == Err(InvalidUnit)
  {
    var s := Itoa(n) + [unit];
    assert s[..|s| - 1] == Itoa(n);
    AtoiItoa(n);
  }
}
