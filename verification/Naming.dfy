// Names of the generated config entries: "service-hex" for routers, "service-hex-index" for the
// virtual services that are split (internal/adapters/consul/http.go).

module Naming {
  function DigitChar(d: nat): char
    requires d < 16
  {
    if d < 10 then ('0' as int + d) as char else ('a' as int + d - 10) as char
  }

  /** The number written in hexadecimal or in decimal, as strconv writes it. */
  function Digits(n: nat, hex: bool): (s: string)
    ensures s != "" && '-' !in s
    decreases n
  {
    var quotient, digit := if hex then n / 16 else n / 10, if hex then n % 16 else n % 10;
    if quotient == 0 then [DigitChar(digit)] else Digits(quotient, hex) + [DigitChar(digit)]
  }

  lemma {:induction false} DigitsInjective(m: nat, n: nat, hex: bool)
    requires Digits(m, hex) == Digits(n, hex)
    ensures m == n
    decreases m
  {
    var a, b := Digits(m, hex), Digits(n, hex);
    var p, q := if hex then m / 16 else m / 10, if hex then n / 16 else n / 10;
    assert a[|a| - 1] == b[|b| - 1];
    if p != 0 && q != 0 {
      assert a[..|a| - 1] == Digits(p, hex) && b[..|b| - 1] == Digits(q, hex);
      DigitsInjective(p, q, hex);
    }
  }

  /** The number that s denotes in the given base, digit by digit from the left. */
  ghost function Denotes(s: string, base: nat): int {
    if s == "" then 0 else Denotes(s[..|s| - 1], base) * base + DigitValue(s[|s| - 1])
  }

  ghost function DigitValue(c: char): int {
    if '0' <= c <= '9' then c as int - '0' as int else if 'a' <= c <= 'f' then c as int - 'a' as int + 10 else -1
  }

  /** s writes n in the base, in lower case and without leading zeros. */
  ghost predicate Writes(s: string, n: nat, base: nat) {
    && s != "" && Denotes(s, base) == n && (s[0] == '0' ==> s == "0")
    && forall i | 0 <= i < |s| :: 0 <= DigitValue(s[i]) < base
  }

  lemma {:induction false} DigitsWrite(n: nat, hex: bool)
    ensures Writes(Digits(n, hex), n, if hex then 16 else 10)
    decreases n
  {
    var base := if hex then 16 else 10;
    var quotient, digit := n / base, n % base;
    var s := Digits(n, hex);
    assert n == quotient * base + digit;
    assert DigitValue(DigitChar(digit)) == digit;
    if quotient == 0 {
      assert s == [DigitChar(digit)] && s[..0] == "";
    } else {
      DigitsWrite(quotient, hex);
      assert s[..|s| - 1] == Digits(quotient, hex);
      assert "0"[..0] == "" && Denotes("0", base) == 0;
    }
  }

  /** The name of the router for a host; crc is the checksum of the host. */
  function RouterName(service: string, crc: string -> nat, host: string): string {
    service + "-" + Digits(crc(host), true)
  }

  function VirtualName(router: string, idx: nat): string {
    router + "-" + Digits(idx, false)
  }

  lemma {:induction false} LastDash(a: string, x: string)
    requires '-' !in x
    ensures var s := a + "-" + x; s[|a|] == '-' && forall i | |a| < i < |s| :: s[i] != '-'
  {
    var s := a + "-" + x;
    forall i | |a| < i < |s|
      ensures s[i] != '-'
    {
      assert s[i] == x[i - |a| - 1];
    }
  }

  /** Without a '-' in either last part, a name splits at its last '-' in one way only. */
  lemma {:induction false} LastPartUnique(a: string, x: string, b: string, y: string)
    requires a + "-" + x == b + "-" + y && '-' !in x && '-' !in y
    ensures a == b && x == y
  {
    var s := a + "-" + x;
    LastDash(a, x);
    LastDash(b, y);
    assert |a| == |b|;
    assert a == s[..|a|] == b;
    assert x == s[|a| + 1..] == y;
  }

  /** Within a gateway no router shares its name with a virtual service. */
  lemma {:induction false} RouterIsNeverVirtual(service: string, crc: string -> nat, host: string, other: string,
                                                idx: nat)
    ensures RouterName(service, crc, host) != VirtualName(RouterName(service, crc, other), idx)
  {
    LastDash(service, Digits(crc(host), true));
    LastDash(RouterName(service, crc, other), Digits(idx, false));
    assert |service| < |RouterName(service, crc, other)|;
  }

  /** Virtual services of one gateway are told apart by their router and index. */
  lemma {:induction false} VirtualNameUnique(a: string, i: nat, b: string, j: nat)
    requires VirtualName(a, i) == VirtualName(b, j)
    ensures a == b && i == j
  {
    LastPartUnique(a, Digits(i, false), b, Digits(j, false));
    DigitsInjective(i, j, false);
  }

  /** Routers of one gateway are told apart by their host's checksum. */
  lemma {:induction false} RouterNameUnique(service: string, crc: string -> nat, host: string, other: string)
    requires RouterName(service, crc, host) == RouterName(service, crc, other)
    ensures crc(host) == crc(other)
  {
    LastPartUnique(service, Digits(crc(host), true), service, Digits(crc(other), true));
    DigitsInjective(crc(host), crc(other), true);
  }

  /** Routers are named after the gateway's service and the checksum in hexadecimal, virtual services by number. */
  lemma {:induction false} NamesAreWritten(service: string, crc: string -> nat, host: string, idx: nat)
    returns (hex: string, decimal: string)
    ensures RouterName(service, crc, host) == service + "-" + hex && Writes(hex, crc(host), 16)
    ensures forall router: string :: VirtualName(router, idx) == router + "-" + decimal
    ensures Writes(decimal, idx, 10)
  {
    hex, decimal := Digits(crc(host), true), Digits(idx, false);
    DigitsWrite(crc(host), true);
    DigitsWrite(idx, false);
  }
}
