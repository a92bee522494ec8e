/**
 * The string forms folonet-server/main.go builds: `fmt.Sprintf("%s:%d", host,
 * port)` for endpoints and `net.IP.String()` for IPv4 addresses.
 */
module GoFormat {
  function Digit(d: nat): (c: char)
    requires d < 10
    ensures '0' <= c <= '9'
  {
    ('0' as int + d) as char
  }

  predicate AllDigits(s: string) {
    forall i :: 0 <= i < |s| ==> '0' <= s[i] <= '9'
  }

  /** `%d` of a non-negative number: its decimal digits, most significant first. */
  function DecimalString(n: nat): (s: string)
    ensures |s| >= 1 && AllDigits(s)
    decreases n
  {
    if n < 10 then [Digit(n)] else DecimalString(n / 10) + [Digit(n % 10)]
  }

  /** Reads decimal digits back (the partner of `DecimalString`). */
  function ParseDecimal(s: string): nat
    requires AllDigits(s)
  {
    if s == [] then 0 else ParseDecimal(s[..|s| - 1]) * 10 + (s[|s| - 1] as int - '0' as int)
  }

  lemma {:induction false} DecimalRoundTrip(n: nat)
    ensures ParseDecimal(DecimalString(n)) == n
    decreases n
  {
    if n >= 10 {
      DecimalRoundTrip(n / 10);
      var s := DecimalString(n);
      assert s[..|s| - 1] == DecimalString(n / 10);
    }
  }

  /** `%d` of any number. */
  function IntString(i: int): (s: string)
    ensures |s| >= 1
    ensures i >= 0 ==> AllDigits(s)
    ensures i < 0 ==> s[0] == '-' && AllDigits(s[1..])
  {
    if i < 0 then "-" + DecimalString(-i) else DecimalString(i)
  }

  /** `fmt.Sprintf("%s:%d", host, port)`. */
  function HostPort(host: string, port: int): (s: string)
    ensures |s| > |host| && s[..|host|] == host && s[|host|] == ':'
    ensures port >= 0 ==> s[|host| + 1..] == DecimalString(port)
  {
    host + ":" + IntString(port)
  }

  /** The port of an endpoint string read back. */
  lemma HostPortRoundTrip(host: string, port: nat)
    ensures HostPort(host, port)[|host| + 1..] == DecimalString(port)
    ensures ParseDecimal(HostPort(host, port)[|host| + 1..]) == port
  {
    DecimalRoundTrip(port);
  }

  /** Endpoints on one host differ exactly when their ports do. */
  lemma HostPortInjective(host: string, p: nat, q: nat)
    ensures HostPort(host, p) == HostPort(host, q) <==> p == q
  {
    if HostPort(host, p) == HostPort(host, q) {
      HostPortRoundTrip(host, p);
      HostPortRoundTrip(host, q);
    }
  }

  /** The decimal forms of the bytes, joined by dots. */
  function DottedJoin(b: seq<bv8>): (s: string)
    requires |b| >= 1
    ensures |s| >= 2 * |b| - 1
    decreases |b|
  {
    if |b| == 1 then DecimalString(b[0] as nat)
    else DecimalString(b[0] as nat) + "." + DottedJoin(b[1..])
  }

  /** `net.IP.String()` of a 4-byte address: dotted decimal. */
  function DottedQuad(b: seq<bv8>): (s: string)
    requires |b| == 4
    ensures |s| >= 7 && s != ""
  {
    DottedJoin(b)
  }

  /** The characters before the first dot (all of them when there is none). */
  function UpToDot(s: string): string {
    if s == [] || s[0] == '.' then [] else [s[0]] + UpToDot(s[1..])
  }

  /** A run of digits followed by a dot is read back up to that dot. */
  lemma {:induction false} UpToDotOfDigits(a: string, r: string)
    requires AllDigits(a)
    ensures UpToDot(a + "." + r) == a
    decreases |a|
  {
    if a != [] {
      assert (a + "." + r)[1..] == a[1..] + "." + r;
      UpToDotOfDigits(a[1..], r);
    }
  }

  /** Two decimals, each followed by a dot, that agree: the numbers agree and so do the rests. */
  lemma DecimalThenDot(m: nat, n: nat, r1: string, r2: string)
    requires DecimalString(m) + "." + r1 == DecimalString(n) + "." + r2
    ensures m == n && r1 == r2
  {
    UpToDotOfDigits(DecimalString(m), r1);
    UpToDotOfDigits(DecimalString(n), r2);
    DecimalRoundTrip(m);
    DecimalRoundTrip(n);
    var k := |DecimalString(m)| + 1;
    assert (DecimalString(m) + "." + r1)[k..] == r1;
    assert (DecimalString(n) + "." + r2)[k..] == r2;
  }

  /** A byte is determined by its value. */
  lemma ByteOfNat(x: bv8, y: bv8)
    requires x as nat == y as nat
    ensures x == y
  {
    assert (x as nat) as bv8 == x;
    assert (y as nat) as bv8 == y;
  }

  /** Equal joins of equally many bytes come from equal bytes. */
  lemma {:induction false} DottedJoinInjective(b: seq<bv8>, c: seq<bv8>)
    requires |b| == |c| >= 1
    ensures DottedJoin(b) == DottedJoin(c) <==> b == c
    decreases |b|
  {
    if DottedJoin(b) == DottedJoin(c) {
      if |b| == 1 {
        DecimalRoundTrip(b[0] as nat);
        DecimalRoundTrip(c[0] as nat);
        ByteOfNat(b[0], c[0]);
        assert b == [b[0]] && c == [c[0]];
      } else {
        DecimalThenDot(b[0] as nat, c[0] as nat, DottedJoin(b[1..]), DottedJoin(c[1..]));
        ByteOfNat(b[0], c[0]);
        DottedJoinInjective(b[1..], c[1..]);
        assert b == [b[0]] + b[1..] && c == [c[0]] + c[1..];
      }
    }
  }

  /** Distinct addresses have distinct strings, so `ip.String()` is a key for its address. */
  lemma DottedQuadInjective(b: seq<bv8>, c: seq<bv8>)
    requires |b| == 4 && |c| == 4
    ensures DottedQuad(b) == DottedQuad(c) <==> b == c
  {
    DottedJoinInjective(b, c);
  }
}
