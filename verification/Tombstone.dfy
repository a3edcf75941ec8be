/**
 The text a consumed refresh token leaves behind: its family id, a colon and the
 Redis second of the rotation.  Values without a stamp are older than the stamp
 and parse to the family alone.
 */
module Tombstone {
  import opened Wrappers

  datatype Parsed = Parsed(family: string, rotatedAt: Option<nat>)

  predicate IsDigit(c: char) {
    '0' <= c <= '9'
  }

  predicate AllDigits(s: string) {
    forall i :: 0 <= i < |s| ==> IsDigit(s[i])
  }

  function Decimal(n: nat): (s: string)
    ensures s != [] && AllDigits(s)
  {
    var last := ['0' + (n % 10) as char];
    if n < 10 then last else Decimal(n / 10) + last
  }

  function ToNat(s: string): nat
    requires AllDigits(s)
  {
    if s == [] then 0
    else 10 * ToNat(s[..|s| - 1]) + (s[|s| - 1] as int - '0' as int)
  }

  function Print(family: string, rotatedAt: nat): string {
    family + ":" + Decimal(rotatedAt)
  }

  /** The pattern `^(.-):(%d+)$` can match with its colon at position `i`. */
  predicate StampStartsAt(text: string, i: nat) {
    i + 1 < |text| && text[i] == ':' && AllDigits(text[i + 1..])
  }

  /** The shortest prefix wins, so the scan goes from left to right. */
  function ParseFrom(text: string, i: nat): Parsed
    requires i <= |text|
    decreases |text| - i
  {
    if i == |text| then Parsed(text, None)
    else if StampStartsAt(text, i) then Parsed(text[..i], Some(ToNat(text[i + 1..])))
    else ParseFrom(text, i + 1)
  }

  function Parse(text: string): Parsed {
    ParseFrom(text, 0)
  }

  lemma {:induction false} ToNatOfDecimal(n: nat)
    ensures ToNat(Decimal(n)) == n
  {
    if n >= 10 {
      ToNatOfDecimal(n / 10);
      assert Decimal(n)[..|Decimal(n)| - 1] == Decimal(n / 10);
    }
  }

  lemma {:induction false} ParseFromFindsNone(text: string, i: nat)
    requires i <= |text| && forall j :: 0 <= j < |text| ==> text[j] != ':'
    ensures ParseFrom(text, i) == Parsed(text, None)
    decreases |text| - i
  {
    if i < |text| {
      ParseFromFindsNone(text, i + 1);
    }
  }

  /** A bare family id has no stamp. */
  lemma Unstamped(family: string)
    requires forall j :: 0 <= j < |family| ==> family[j] != ':'
    ensures Parse(family) == Parsed(family, None)
  {
    ParseFromFindsNone(family, 0);
  }

  lemma {:induction false} ParseFromSkips(family: string, rotatedAt: nat, i: nat)
    requires i <= |family|
    ensures ParseFrom(Print(family, rotatedAt), i) == Parsed(family, Some(rotatedAt))
    decreases |family| - i
  {
    var text := Print(family, rotatedAt);
    if i == |family| {
      assert text[i + 1..] == Decimal(rotatedAt);
      assert text[..i] == family;
      ToNatOfDecimal(rotatedAt);
    } else {
      assert text[i + 1..][|family| - i - 1] == ':';
      ParseFromSkips(family, rotatedAt, i + 1);
    }
  }

  /** Whatever characters the family id holds, colons included, both parts come back. */
  lemma RoundTrip(family: string, rotatedAt: nat)
    ensures Parse(Print(family, rotatedAt)) == Parsed(family, Some(rotatedAt))
  {
    ParseFromSkips(family, rotatedAt, 0);
  }
}
