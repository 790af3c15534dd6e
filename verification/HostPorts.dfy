/** net.JoinHostPort and strconv.Itoa, as used for the string of an endpoint. */
module HostPorts {

  const DIGITS := "0123456789"

  function Itoa(n: nat): (r: string)
    ensures r != "" && ':' !in r
  {
    if n < 10 then [DIGITS[n]] else Itoa(n / 10) + [DIGITS[n % 10]]
  }

  lemma {:induction false} ItoaInjective(m: nat, n: nat)
    requires Itoa(m) == Itoa(n)
    ensures m == n
    decreases m
  {
    LastDigit(m);
    LastDigit(n);
    if m < 10 || n < 10 {
    } else {
      ItoaInjective(m / 10, n / 10);
    }
  }

  lemma LastDigit(n: nat)
    ensures Itoa(n)[|Itoa(n)| - 1] == DIGITS[n % 10]
    ensures |Itoa(n)| == 1 <==> n < 10
    ensures n >= 10 ==> Itoa(n / 10) == Itoa(n)[..|Itoa(n)| - 1]
  {
  }

  function Host(ip: string): string {
    if ':' in ip then "[" + ip + "]" else ip
  }

  function JoinHostPort(ip: string, port: nat): string {
    Host(ip) + ":" + Itoa(port)
  }

  lemma HostShape(ip: string)
    ensures ':' in ip <==> ':' in Host(ip)
    ensures ':' in ip ==> ip == Host(ip)[1..|Host(ip)| - 1]
  {
    if ':' in ip {
      var i :| 0 <= i < |ip| && ip[i] == ':';
      assert Host(ip)[i + 1] == ':';
    }
  }

  lemma LastColon(h: string, p: string)
    requires ':' !in p
    ensures (h + ":" + p)[|h|] == ':' && forall i | |h| < i < |h + ":" + p| :: (h + ":" + p)[i] != ':'
    ensures h == (h + ":" + p)[..|h|] && p == (h + ":" + p)[|h| + 1..]
  {
  }

  /** The string of an endpoint determines its address and its port. */
  lemma JoinHostPortInjective(ip: string, port: nat, ip': string, port': nat)
    ensures JoinHostPort(ip, port) == JoinHostPort(ip', port') <==> ip == ip' && port == port'
  {
    if JoinHostPort(ip, port) == JoinHostPort(ip', port') {
      LastColon(Host(ip), Itoa(port));
      LastColon(Host(ip'), Itoa(port'));
      HostShape(ip);
      HostShape(ip');
      ItoaInjective(port, port');
    }
  }

  // ---------- what the string says ----------

  /** The value of a string of decimal digits. */
  function Decimal(s: string): int {
    if s == "" then 0 else 10 * Decimal(s[..|s| - 1]) + (s[|s| - 1] as int - '0' as int)
  }

  lemma {:induction false} ItoaDecimal(n: nat)
    ensures Decimal(Itoa(n)) == n && forall i | 0 <= i < |Itoa(n)| :: '0' <= Itoa(n)[i] <= '9'
    ensures n > 0 ==> Itoa(n)[0] != '0'
  {
    var r := Itoa(n);
    assert forall d | 0 <= d < 10 :: '0' <= DIGITS[d] <= '9' && DIGITS[d] as int - '0' as int == d;
    if n < 10 {
      assert r[..0] == "";
    } else {
      ItoaDecimal(n / 10);
      LastDigit(n);
      assert r[..|r| - 1] == Itoa(n / 10);
    }
  }

  /** The address, in brackets if it has a colon, then a colon and the port in decimal. */
  lemma JoinHostPortShows(ip: string, port: nat)
    ensures var s, host := JoinHostPort(ip, port), if ':' in ip then "[" + ip + "]" else ip;
      && host + ":" <= s && Decimal(s[|host| + 1..]) == port
      && (forall i | |host| < i < |s| :: '0' <= s[i] <= '9') && (port > 0 ==> s[|host| + 1] != '0')
  {
    var s, host := JoinHostPort(ip, port), if ':' in ip then "[" + ip + "]" else ip;
    ItoaDecimal(port);
    assert s[|host| + 1..] == Itoa(port);
    forall i | |host| < i < |s| ensures s[i] == Itoa(port)[i - |host| - 1] {
    }
  }
}
