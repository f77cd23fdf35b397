/** The target address of an HTTP/3 request: `format!("{}:{}", host, port)`
    parsed as a `std::net::SocketAddr`. The textual IPv4 form is parsed here as
    the standard library's parser does, with a cursor into one string; the
    bracketed IPv6 form is handed to an oracle. */
module NetAddr {
  import opened Wrappers

  /** The port `Url::port().unwrap_or(443)` falls back to. */
  const DefaultPort := 443
  const MaxPort := 65535
  /** `AddrParseError`'s message for a socket address. */
  const AddrParseErrorText := "invalid socket address syntax"

  datatype SocketAddr = V4(octets: seq<nat>, port: nat) | V6(text: string, port: nat)

  predicate IsDigit(c: char)
  {
    '0' <= c <= '9'
  }

  predicate AllDigits(s: string)
  {
    forall i | 0 <= i < |s| :: IsDigit(s[i])
  }

  function DigitValue(c: char): (d: nat)
    requires IsDigit(c)
    ensures d < 10
  {
    (c as int) - ('0' as int)
  }

  function DigitChar(d: nat): (c: char)
    requires d < 10
    ensures IsDigit(c) && DigitValue(c) == d
  {
    (('0' as int) + d) as char
  }

  /** `format!("{}", n)` for an unsigned integer: decimal digits, no sign and
      no leading zero. */
  function Decimal(n: nat): (s: string)
    ensures 1 <= |s|
    decreases n
  {
    if n < 10 then [DigitChar(n)] else Decimal(n / 10) + [DigitChar(n % 10)]
  }

  /** The decimal text is all digits and starts with `0` only for zero. */
  lemma {:induction false} DecimalDigits(n: nat)
    ensures AllDigits(Decimal(n))
    ensures Decimal(n)[0] == '0' <==> n == 0
    decreases n
  {
    if n >= 10 {
      DecimalDigits(n / 10);
      var t := Decimal(n / 10);
      assert Decimal(n) == t + [DigitChar(n % 10)];
      assert Decimal(n)[0] == t[0];
    }
  }

  /** The number the digits `s[i..j]` denote (only ever asked of a run of
      digits). */
  function ValueOf(s: string, i: nat, j: nat): nat
    requires i <= j <= |s|
    decreases j - i
  {
    if j == i then 0
    else ValueOf(s, i, j - 1) * 10 + (if IsDigit(s[j - 1]) then DigitValue(s[j - 1]) else 0)
  }

  /** Reading back the decimal text of a number gives that number. */
  lemma {:induction false} DecimalRoundTrip(n: nat)
    ensures ValueOf(Decimal(n), 0, |Decimal(n)|) == n
    decreases n
  {
    var s := Decimal(n);
    if n >= 10 {
      var t := Decimal(n / 10);
      assert s == t + [DigitChar(n % 10)];
      DecimalRoundTrip(n / 10);
      ValueOfPrefix(s, t);
    }
  }

  /** The digits of a prefix denote the same number inside the longer string. */
  lemma {:induction false} ValueOfPrefix(s: string, t: string)
    requires |t| <= |s| && s[..|t|] == t
    ensures ValueOf(s, 0, |t|) == ValueOf(t, 0, |t|)
    decreases |t|
  {
    if |t| > 0 {
      assert s[..|t| - 1] == t[..|t| - 1];
      assert s[|t| - 1] == t[|t| - 1];
      ValueOfPrefix(s, t[..|t| - 1]);
      ValueOfPrefix(t, t[..|t| - 1]);
    }
  }

  /** The decimal text of a number below 1000 has at most three digits. */
  lemma DecimalShort(n: nat)
    requires n < 1000
    ensures |Decimal(n)| <= 3
  {
    if n >= 10 {
      assert |Decimal(n)| == |Decimal(n / 10)| + 1;
      if n / 10 >= 10 {
        assert |Decimal(n / 10)| == |Decimal(n / 10 / 10)| + 1;
      }
    }
  }

  /** The number of digits of `s` from position `i` on. */
  function DigitRun(s: string, i: nat): (n: nat)
    requires i <= |s|
    ensures i + n <= |s|
    ensures i + n < |s| ==> !IsDigit(s[i + n])
    decreases |s| - i
  {
    if i < |s| && IsDigit(s[i]) then 1 + DigitRun(s, i + 1) else 0
  }

  /** `Parser::read_number` in base 10 from position `i`: it reads the whole
      run of digits and fails when there is none, when there are more than
      `maxDigits`, when a leading zero is not allowed and the run has more than
      one digit, or when the value exceeds `limit` (the width of the integer
      type). It answers the value and the position after it. */
  function ReadNumber(s: string, i: nat, maxDigits: Option<nat>, allowZeroPrefix: bool, limit: nat): (r: Option<(nat, nat)>)
    requires i <= |s|
    ensures r.Some? ==> i < r.value.1 <= |s| && r.value.0 <= limit
  {
    var n := DigitRun(s, i);
    if n == 0 then None
    else if maxDigits.Some? && n > maxDigits.value then None
    else if !allowZeroPrefix && s[i] == '0' && n > 1 then None
    else if ValueOf(s, i, i + n) > limit then None
    else Some((ValueOf(s, i, i + n), i + n))
  }

  /** `count` octets from position `i`, separated by dots, each read as a `u8`
      of at most three digits with no leading zero; answers the octets and the
      position after them. */
  function ReadOctets(s: string, i: nat, count: nat): (r: Option<(seq<nat>, nat)>)
    requires i <= |s|
    ensures r.Some? ==> i <= r.value.1 <= |s|
    decreases count
  {
    if count == 0 then Some(([], i))
    else
      match ReadNumber(s, i, Some(3), false, 255)
      case None => None
      case Some((v, j)) =>
        if count == 1 then Some(([v], j))
        else if j < |s| && s[j] == '.' then
          match ReadOctets(s, j + 1, count - 1)
          case None => None
          case Some((vs, e)) => Some(([v] + vs, e))
        else None
  }

  /** Octets read are as many as asked for, each within a `u8`. */
  lemma {:induction false} ReadOctetsRange(s: string, i: nat, count: nat)
    requires i <= |s| && ReadOctets(s, i, count).Some?
    ensures |ReadOctets(s, i, count).value.0| == count && InOctetRange(ReadOctets(s, i, count).value.0)
    decreases count
  {
    if count >= 2 {
      var j := ReadNumber(s, i, Some(3), false, 255).value.1;
      ReadOctetsRange(s, j + 1, count - 1);
    }
  }

  /** `SocketAddrV4::from_str`: four octets, a colon and a `u16` port (leading
      zeros allowed), with nothing left over. */
  function ParseV4(s: string): (r: Option<SocketAddr>)
    ensures r.Some? ==> r.value.V4? && IsIpv4(r.value.octets) && r.value.port <= MaxPort
  {
    match ReadOctets(s, 0, 4)
    case None => None
    case Some((ip, j)) =>
      ReadOctetsRange(s, 0, 4);
      if j < |s| && s[j] == ':' then
        match ReadNumber(s, j + 1, None, true, MaxPort)
        case None => None
        case Some((p, e)) => if e == |s| then Some(V4(ip, p)) else None
      else None
  }

  /** `SocketAddr::from_str`: the IPv4 form first, then the IPv6 form, which
      always starts with `[`. Any other text is rejected with the one message
      of `AddrParseError`. */
  function ParseSocketAddr(s: string, v6: string -> Option<(string, nat)>): (r: Result<SocketAddr, string>)
    ensures r.Err? ==> r.error == AddrParseErrorText
    ensures r.Ok? && r.value.V4? ==> IsIpv4(r.value.octets) && r.value.port <= MaxPort
    ensures r.Ok? && r.value.V6? ==> |s| > 0 && s[0] == '['
  {
    match ParseV4(s)
    case Some(a) => Ok(a)
    case None =>
      if |s| > 0 && s[0] == '[' && v6(s).Some? then Ok(V6(v6(s).value.0, v6(s).value.1))
      else Err(AddrParseErrorText)
  }

  /** The HTTP/3 task's address derivation: the host text (empty when the URL
      has none), the explicit port or 443, formatted `host:port` and parsed.
      Only an IPv4 address or a bracketed host can come out of it. */
  function TargetAddress(host: Option<string>, port: Option<nat>, v6: string -> Option<(string, nat)>): (r: Result<SocketAddr, string>)
    ensures r.Err? ==> r.error == AddrParseErrorText
    ensures r.Ok? && r.value.V4? ==> IsIpv4(r.value.octets) && r.value.port <= MaxPort
    ensures r.Ok? && r.value.V6? ==> host.Some? && |host.value| > 0 && host.value[0] == '['
  {
    var h := if host.Some? then host.value else "";
    var p := if port.Some? then port.value else DefaultPort;
    assert (h + ":" + Decimal(p))[0] == (if |h| > 0 then h[0] else ':');
    ParseSocketAddr(h + ":" + Decimal(p), v6)
  }

  /** The usual text of an IPv4 address: decimal octets joined by dots. */
  function Dotted(ip: seq<nat>): (s: string)
    requires |ip| >= 1
    ensures |s| >= 1
    decreases |ip|
  {
    if |ip| == 1 then Decimal(ip[0]) else Decimal(ip[0]) + "." + Dotted(ip[1..])
  }

  predicate InOctetRange(ip: seq<nat>)
  {
    forall i | 0 <= i < |ip| :: ip[i] <= 255
  }

  predicate IsIpv4(ip: seq<nat>)
  {
    |ip| == 4 && InOctetRange(ip)
  }

  /** `s` holds `t` from position `i` on. */
  predicate At(s: string, i: nat, t: string)
  {
    i + |t| <= |s| && s[i..i + |t|] == t
  }

  /** Position `e` of `s` ends a run of digits. */
  predicate EndsRun(s: string, e: nat)
  {
    e <= |s| && (e == |s| || !IsDigit(s[e]))
  }

  /** A run of digits written at `i` and followed by a non-digit is read whole. */
  lemma {:induction false} DigitRunAt(s: string, i: nat, d: string)
    requires At(s, i, d) && AllDigits(d) && EndsRun(s, i + |d|)
    ensures DigitRun(s, i) == |d|
    decreases |d|
  {
    if |d| > 0 {
      assert s[i] == d[0];
      assert s[i + 1..i + 1 + |d[1..]|] == d[1..];
      DigitRunAt(s, i + 1, d[1..]);
    }
  }

  /** Digits written at `i` denote the same number as on their own. */
  lemma {:induction false} ValueAt(s: string, i: nat, d: string, m: nat)
    requires At(s, i, d) && m <= |d|
    ensures ValueOf(s, i, i + m) == ValueOf(d, 0, m)
    decreases m
  {
    if m > 0 {
      ValueAt(s, i, d, m - 1);
      assert s[i + m - 1] == d[m - 1];
    }
  }

  /** The decimal text of `v` written at `i`, followed by a non-digit, is a
      whole digit run denoting `v`. */
  lemma DecimalReadsAs(s: string, i: nat, v: nat)
    requires At(s, i, Decimal(v)) && EndsRun(s, i + |Decimal(v)|)
    ensures DigitRun(s, i) == |Decimal(v)| && ValueOf(s, i, i + |Decimal(v)|) == v
  {
    var d := Decimal(v);
    DecimalDigits(v);
    DigitRunAt(s, i, d);
    ValueAt(s, i, d, |d|);
    DecimalRoundTrip(v);
  }

  /** `read_number` reads back the decimal text of any number it accepts. */
  lemma ReadDecimalAt(s: string, i: nat, v: nat, maxDigits: Option<nat>, allowZeroPrefix: bool, limit: nat)
    requires At(s, i, Decimal(v)) && EndsRun(s, i + |Decimal(v)|)
    requires v <= limit
    requires maxDigits.Some? ==> |Decimal(v)| <= maxDigits.value
    ensures ReadNumber(s, i, maxDigits, allowZeroPrefix, limit) == Some((v, i + |Decimal(v)|))
  {
    DecimalReadsAs(s, i, v);
    DecimalDigits(v);
    assert s[i] == Decimal(v)[0];
  }

  /** One octet and a dot, then the remaining octets. */
  lemma ReadOctetsStep(s: string, i: nat, count: nat, v: nat, j: nat, vs: seq<nat>, e: nat)
    requires i <= |s| && count >= 2
    requires ReadNumber(s, i, Some(3), false, 255) == Some((v, j))
    requires j < |s| && s[j] == '.'
    requires ReadOctets(s, j + 1, count - 1) == Some((vs, e))
    ensures ReadOctets(s, i, count) == Some(([v] + vs, e))
  {
  }

  /** Kept apart from `ReadNextOctet`: sequence extensionality in its
      context is costly for the solver. */
  lemma SplitFirst(ip: seq<nat>)
    requires |ip| >= 1
    ensures [ip[0]] + ip[1..] == ip
  {
  }

  /** Text written at `i` as `a`, a separator `c` and `b` holds each piece
      at its place. */
  lemma SeparatedAt(s: string, i: nat, a: string, c: char, b: string)
    requires At(s, i, a + [c] + b)
    ensures At(s, i, a) && s[i + |a|] == c && At(s, i + |a| + 1, b)
  {
    var whole := a + [c] + b;
    assert s[i..i + |a|] == whole[..|a|];
    assert s[i + |a|] == whole[|a|];
    assert s[i + |a| + 1..i + |a| + 1 + |b|] == whole[|a| + 1..];
  }

  /** The text of two or more octets is the first, a dot and the rest. */
  lemma DottedUnfold(ip: seq<nat>)
    requires |ip| >= 2
    ensures Dotted(ip) == Decimal(ip[0]) + ['.'] + Dotted(ip[1..])
  {
  }

  /** The text of an address of two or more octets written at `i` is the
      first octet, a dot and the text of the rest. */
  lemma DottedSplit(s: string, i: nat, ip: seq<nat>)
    requires |ip| >= 2 && At(s, i, Dotted(ip))
    ensures At(s, i, Decimal(ip[0]))
    ensures i + |Decimal(ip[0])| < |s| && s[i + |Decimal(ip[0])|] == '.'
    ensures At(s, i + |Decimal(ip[0])| + 1, Dotted(ip[1..]))
    ensures |Dotted(ip)| == |Decimal(ip[0])| + 1 + |Dotted(ip[1..])|
  {
    var a, b := Decimal(ip[0]), Dotted(ip[1..]);
    DottedUnfold(ip);
    SeparatedAt(s, i, a, '.', b);
  }

  /** The octets `ip` are written at `i` in decimal, separated by single dots,
      and the text ends at `e`. */
  predicate DottedAt(s: string, i: nat, ip: seq<nat>, e: nat)
    decreases |ip|
  {
    |ip| >= 1 && At(s, i, Decimal(ip[0])) &&
    if |ip| == 1 then e == i + |Decimal(ip[0])|
    else
      var j := i + |Decimal(ip[0])|;
      j < |s| && s[j] == '.' && DottedAt(s, j + 1, ip[1..], e)
  }

  /** The text of an address written at `i` lays out its octets there. */
  lemma {:induction false} DottedLayout(s: string, i: nat, ip: seq<nat>)
    requires |ip| >= 1 && At(s, i, Dotted(ip))
    ensures DottedAt(s, i, ip, i + |Dotted(ip)|)
    decreases |ip|
  {
    if |ip| >= 2 {
      DottedSplit(s, i, ip);
      DottedLayout(s, i + |Decimal(ip[0])| + 1, ip[1..]);
    }
  }

  /** The last octet laid out at `i`, followed by neither a digit nor a dot,
      is read back alone. */
  lemma ReadLastOctet(s: string, i: nat, ip: seq<nat>, e: nat)
    requires |ip| == 1 && ip[0] <= 255
    requires DottedAt(s, i, ip, e) && EndsRun(s, e)
    ensures ReadOctets(s, i, 1) == Some((ip, e))
  {
    DecimalShort(ip[0]);
    ReadDecimalAt(s, i, ip[0], Some(3), false, 255);
    assert [ip[0]] == ip;
  }

  /** The first of two or more octets laid out at `i` is read back, and a
      dot follows it. */
  lemma FirstOctetRead(s: string, i: nat, ip: seq<nat>, e: nat)
    requires |ip| >= 2 && ip[0] <= 255 && DottedAt(s, i, ip, e)
    ensures ReadNumber(s, i, Some(3), false, 255) == Some((ip[0], i + |Decimal(ip[0])|))
    ensures i + |Decimal(ip[0])| < |s| && s[i + |Decimal(ip[0])|] == '.'
  {
    DecimalShort(ip[0]);
    ReadDecimalAt(s, i, ip[0], Some(3), false, 255);
  }

  /** The first octet laid out at `i` and a dot, then the rest read back,
      read back as the whole address. */
  lemma ReadNextOctet(s: string, i: nat, ip: seq<nat>, e: nat)
    requires |ip| >= 2 && ip[0] <= 255 && DottedAt(s, i, ip, e)
    requires ReadOctets(s, i + |Decimal(ip[0])| + 1, |ip| - 1) == Some((ip[1..], e))
    ensures ReadOctets(s, i, |ip|) == Some((ip, e))
  {
    FirstOctetRead(s, i, ip, e);
    SplitFirst(ip);
    ReadOctetsStep(s, i, |ip|, ip[0], i + |Decimal(ip[0])|, ip[1..], e);
  }

  /** Octets laid out at `i`, followed by neither a digit nor a dot, read back
      as those octets. */
  lemma {:induction false} ReadOctetsAt(s: string, i: nat, ip: seq<nat>, e: nat)
    requires forall k | 0 <= k < |ip| :: ip[k] <= 255
    requires DottedAt(s, i, ip, e) && EndsRun(s, e) && (e < |s| ==> s[e] != '.')
    ensures ReadOctets(s, i, |ip|) == Some((ip, e))
    decreases |ip|
  {
    if |ip| == 1 {
      ReadLastOctet(s, i, ip, e);
    } else {
      ReadOctetsAt(s, i + |Decimal(ip[0])| + 1, ip[1..], e);
      ReadNextOctet(s, i, ip, e);
    }
  }

  /** Where the pieces of `host:port` sit in its text. */
  lemma HostPortLayout(h: string, d: string)
    ensures At(h + ":" + d, 0, h)
    ensures (h + ":" + d)[|h|] == ':'
    ensures At(h + ":" + d, |h| + 1, d) && |h + ":" + d| == |h| + 1 + |d|
  {
    var s := h + ":" + d;
    assert s[0..|s|] == s;
    SeparatedAt(s, 0, h, ':', d);
  }

  /** Four octets read up to a colon, then a port read to the end, make an
      IPv4 socket address. */
  lemma ParseV4Parts(s: string, ip: seq<nat>, n: nat, p: nat)
    requires ReadOctets(s, 0, 4) == Some((ip, n))
    requires n < |s| && s[n] == ':'
    requires ReadNumber(s, n + 1, None, true, MaxPort) == Some((p, |s|))
    ensures ParseV4(s) == Some(V4(ip, p))
  {
  }

  /** Octets laid out up to a colon and a port written from after it to the
      end parse as that socket address. */
  lemma ParseV4Of(s: string, ip: seq<nat>, n: nat, p: nat)
    requires IsIpv4(ip) && p <= MaxPort
    requires DottedAt(s, 0, ip, n) && n < |s| && s[n] == ':'
    requires At(s, n + 1, Decimal(p)) && |s| == n + 1 + |Decimal(p)|
    ensures ParseV4(s) == Some(V4(ip, p))
  {
    ReadOctetsAt(s, 0, ip, n);
    ReadDecimalAt(s, n + 1, p, None, true, MaxPort);
    ParseV4Parts(s, ip, n, p);
  }

  /** The text of an IPv4 address, a colon and a port parses back to them. */
  lemma ParseV4RoundTrip(ip: seq<nat>, p: nat)
    requires IsIpv4(ip) && p <= MaxPort
    ensures ParseV4(Dotted(ip) + ":" + Decimal(p)) == Some(V4(ip, p))
  {
    var h := Dotted(ip);
    HostPortLayout(h, Decimal(p));
    DottedLayout(h + ":" + Decimal(p), 0, ip);
    ParseV4Of(h + ":" + Decimal(p), ip, |h|, p);
  }

  /** The address of a host written as an IPv4 address is that address, on
      the given port or on 443. */
  lemma TargetAddressOfIpv4(ip: seq<nat>, port: Option<nat>, v6: string -> Option<(string, nat)>)
    requires IsIpv4(ip)
    requires port.Some? ==> port.value <= MaxPort
    ensures TargetAddress(Some(Dotted(ip)), port, v6) ==
      Ok(V4(ip, if port.Some? then port.value else DefaultPort))
  {
    ParseV4RoundTrip(ip, if port.Some? then port.value else DefaultPort);
  }

  /** Every position of a digit run holds a digit. */
  lemma {:induction false} DigitRunDigits(s: string, i: nat)
    requires i <= |s|
    ensures AllDigits(s[i..i + DigitRun(s, i)])
    decreases |s| - i
  {
    if DigitRun(s, i) > 0 {
      DigitRunDigits(s, i + 1);
      assert s[i..i + DigitRun(s, i)] == [s[i]] + s[i + 1..i + 1 + DigitRun(s, i + 1)];
    }
  }

  /** Digits with no leading zero (or a lone digit) are the decimal text of
      the number they denote: `{}` is the only way to write it so. */
  lemma {:induction false} DecimalOfDigits(d: string)
    requires 1 <= |d| && AllDigits(d) && (d[0] != '0' || |d| == 1)
    ensures Decimal(ValueOf(d, 0, |d|)) == d
    decreases |d|
  {
    var c := d[|d| - 1];
    assert DigitChar(DigitValue(c)) == c;
    if |d| == 1 {
      assert d == [c];
    } else {
      var t := d[..|d| - 1];
      assert t[0] == d[0];
      DecimalOfDigits(t);
      var u := ValueOf(t, 0, |t|);
      DecimalDigits(u);
      ValueOfPrefix(d, t);
      var v := ValueOf(d, 0, |d|);
      assert v == u * 10 + DigitValue(c);
      assert v / 10 == u && v % 10 == DigitValue(c);
      assert d == t + [c];
    }
  }

  /** An octet `read_number` accepts is written in plain decimal. */
  lemma ReadOctetText(s: string, i: nat, v: nat, j: nat)
    requires i <= |s| && ReadNumber(s, i, Some(3), false, 255) == Some((v, j))
    ensures s[i..j] == Decimal(v)
  {
    DigitRunDigits(s, i);
    ValueAt(s, i, s[i..j], j - i);
    DecimalOfDigits(s[i..j]);
  }

  /** Text `s[i..e]` split around position `j`. */
  lemma SliceAround(s: string, i: nat, j: nat, e: nat)
    requires i <= j < e <= |s|
    ensures s[i..e] == s[i..j] + [s[j]] + s[j + 1..e]
  {
  }

  /** Two or more octets read: the first, a dot, then the rest. */
  lemma ReadOctetsUnfold(s: string, i: nat, count: nat, ip: seq<nat>, e: nat)
    requires i <= |s| && count >= 2 && ReadOctets(s, i, count) == Some((ip, e))
    ensures ReadNumber(s, i, Some(3), false, 255).Some? && |ip| >= 1
    ensures var (v, j) := ReadNumber(s, i, Some(3), false, 255).value;
      j < |s| && s[j] == '.' && v == ip[0] && ReadOctets(s, j + 1, count - 1) == Some((ip[1..], e))
  {
  }

  /** An octet's text, a dot and the text of more octets are the text of all
      of them. */
  lemma DottedCons(s: string, i: nat, j: nat, e: nat, ip: seq<nat>)
    requires i <= j < e <= |s| && |ip| >= 2
    requires s[i..j] == Decimal(ip[0]) && s[j] == '.' && s[j + 1..e] == Dotted(ip[1..])
    ensures s[i..e] == Dotted(ip)
  {
    SliceAround(s, i, j, e);
  }

  /** What `ReadOctets` accepts is exactly the dotted text of the octets it
      answers: the converse of `ReadOctetsAt`. */
  lemma {:induction false} ReadOctetsText(s: string, i: nat, count: nat, ip: seq<nat>, e: nat)
    requires i <= |s| && count >= 1 && ReadOctets(s, i, count) == Some((ip, e))
    ensures |ip| == count && s[i..e] == Dotted(ip)
    decreases count
  {
    if count == 1 {
      var (v, j) := ReadNumber(s, i, Some(3), false, 255).value;
      ReadOctetText(s, i, v, j);
      assert ip == [v];
    } else {
      ReadOctetsUnfold(s, i, count, ip, e);
      var j := ReadNumber(s, i, Some(3), false, 255).value.1;
      ReadOctetText(s, i, ip[0], j);
      ReadOctetsText(s, j + 1, count - 1, ip[1..], e);
      DottedCons(s, i, j, e, ip);
    }
  }

  /** Positions `i` on hold digits up to the end of `s`. */
  predicate DigitsFrom(s: string, i: nat)
  {
    forall k | i <= k < |s| :: IsDigit(s[k])
  }

  /** Digits written at `i` up to the end. */
  lemma DigitsToEnd(s: string, i: nat, d: string)
    requires At(s, i, d) && AllDigits(d) && |s| == i + |d|
    ensures DigitsFrom(s, i)
  {
    forall k | i <= k < |s| ensures IsDigit(s[k]) {
      assert s[k] == d[k - i];
    }
  }

  /** Two colons each followed only by digits up to the end are the same. */
  lemma LastColon(s: string, n: nat, m: nat)
    requires n < |s| && m < |s| && s[n] == ':' && s[m] == ':'
    requires DigitsFrom(s, n + 1) && DigitsFrom(s, m + 1)
    ensures n == m
  {
  }

  /** What a successful `ParseV4` read: the octets up to a colon, then a
      port up to the end. */
  lemma ParseV4Unfold(s: string)
    requires ParseV4(s).Some?
    ensures ReadOctets(s, 0, 4).Some?
    ensures var (ip, n) := ReadOctets(s, 0, 4).value;
      n < |s| && s[n] == ':' && ip == ParseV4(s).value.octets &&
      ReadNumber(s, n + 1, None, true, MaxPort) == Some((ParseV4(s).value.port, |s|))
  {
  }

  /** A port read up to the end where the decimal text of `p` is written
      is `p`. */
  lemma PortRead(s: string, i: nat, q: nat, p: nat)
    requires i <= |s| && ReadNumber(s, i, None, true, MaxPort) == Some((q, |s|))
    requires At(s, i, Decimal(p)) && |s| == i + |Decimal(p)|
    ensures q == p
  {
    DecimalReadsAs(s, i, p);
    ReadNumberValue(s, i, None, true, MaxPort);
  }

  /** A colon after which a number is read up to the end is the last colon,
      the one before the decimal text of `p`. */
  lemma ColonBeforePort(s: string, n: nat, q: nat, m: nat, p: nat)
    requires n < |s| && s[n] == ':' && ReadNumber(s, n + 1, None, true, MaxPort) == Some((q, |s|))
    requires m < |s| && s[m] == ':' && At(s, m + 1, Decimal(p)) && |s| == m + 1 + |Decimal(p)|
    ensures n == m
  {
    ReadNumberValue(s, n + 1, None, true, MaxPort);
    DigitRunDigits(s, n + 1);
    DigitsToEnd(s, n + 1, s[n + 1..n + 1 + DigitRun(s, n + 1)]);
    DecimalDigits(p);
    DigitsToEnd(s, m + 1, Decimal(p));
    LastColon(s, n, m);
  }

  /** Octets read up to a colon, then a port read to the end, in a text that
      ends in a colon and the decimal text of `p`: the colon is that one, the
      octets are written before it and the port read is `p`. */
  lemma ReadHostPort(s: string, count: nat, ip: seq<nat>, n: nat, q: nat, m: nat, p: nat)
    requires count >= 1 && ReadOctets(s, 0, count) == Some((ip, n)) && n < |s| && s[n] == ':'
    requires ReadNumber(s, n + 1, None, true, MaxPort) == Some((q, |s|))
    requires m < |s| && s[m] == ':' && At(s, m + 1, Decimal(p)) && |s| == m + 1 + |Decimal(p)|
    ensures |ip| == count && s[..m] == Dotted(ip) && q == p
  {
    ColonBeforePort(s, n, q, m, p);
    ReadOctetsText(s, 0, count, ip, n);
    PortRead(s, m + 1, q, p);
  }

  /** What `read_number` answers is the value of the whole digit run and the
      position after it. */
  lemma ReadNumberValue(s: string, i: nat, maxDigits: Option<nat>, allowZeroPrefix: bool, limit: nat)
    requires i <= |s| && ReadNumber(s, i, maxDigits, allowZeroPrefix, limit).Some?
    ensures ReadNumber(s, i, maxDigits, allowZeroPrefix, limit) ==
      Some((ValueOf(s, i, i + DigitRun(s, i)), i + DigitRun(s, i)))
  {
  }

  /** Text that ends in a colon and the decimal text of `p` and parses as an
      IPv4 socket address holds the dotted octets before that colon, and its
      port is `p`. */
  lemma ParseV4Text(s: string, m: nat, p: nat)
    requires m < |s| && s[m] == ':' && At(s, m + 1, Decimal(p)) && |s| == m + 1 + |Decimal(p)|
    requires ParseV4(s).Some?
    ensures s[..m] == Dotted(ParseV4(s).value.octets) && ParseV4(s).value.port == p
  {
    ParseV4Unfold(s);
    var (ip, n) := ReadOctets(s, 0, 4).value;
    ReadHostPort(s, 4, ip, n, ParseV4(s).value.port, m, p);
  }

  /** Where `host:port` parses as an IPv4 socket address, the host is the
      dotted text of the octets and the port is the one formatted. */
  lemma ParseHostPort(h: string, p: nat)
    requires ParseV4(h + ":" + Decimal(p)).Some?
    ensures var a := ParseV4(h + ":" + Decimal(p)).value;
      h == Dotted(a.octets) && a.port == p
  {
    var s := h + ":" + Decimal(p);
    HostPortLayout(h, Decimal(p));
    ParseV4Text(s, |h|, p);
    assert s[..|h|] == h;
  }

  /** A host that can be formatted into a parsable socket address: the text
      of an IPv4 address, or a bracketed IPv6 form. */
  ghost predicate IsIpHost(h: string)
  {
    (exists ip :: IsIpv4(ip) && h == Dotted(ip)) || (|h| > 0 && h[0] == '[')
  }

  /** Only an IP host yields an address: a URL without a host, or whose host
      is anything else (a domain name such as `example.com` or `163.com`, or
      `1.2.3.4.5`), fails with the address parser's error. An IPv4 address comes from the host's text
      and the port from the URL or 443; the converse of `TargetAddressOfIpv4`. */
  lemma TargetAddressNeedsIpHost(host: Option<string>, port: Option<nat>, v6: string -> Option<(string, nat)>)
    ensures TargetAddress(host, port, v6).Ok? ==> host.Some? && IsIpHost(host.value)
    ensures host.None? || !IsIpHost(host.value) ==> TargetAddress(host, port, v6) == Err(AddrParseErrorText)
    ensures var r := TargetAddress(host, port, v6);
      r.Ok? && r.value.V4? ==>
        host == Some(Dotted(r.value.octets)) && r.value.port == (if port.Some? then port.value else DefaultPort)
  {
    var h := if host.Some? then host.value else "";
    var p := if port.Some? then port.value else DefaultPort;
    if ParseV4(h + ":" + Decimal(p)).Some? {
      ParseHostPort(h, p);
      var a := ParseV4(h + ":" + Decimal(p)).value;
      assert IsIpv4(a.octets) && h == Dotted(a.octets);
    }
  }

  /** A leading digit run followed by anything but a dot and a digit: the
      first octet is not followed by a second one. */
  lemma NoSecondOctet(s: string, k: nat)
    requires DigitRun(s, 0) == k < |s|
    requires s[k] != '.' || (k + 1 < |s| && !IsDigit(s[k + 1]))
    ensures ParseV4(s).None?
  {
    if k + 1 < |s| {
      assert DigitRun(s, k + 1) == 0 || s[k] != '.';
    }
  }

  /** A host that starts with digits but is no IPv4 address text, because
      its leading digits are followed by something other than a dot and a
      digit (`163.com`, `1password.com`), is rejected. */
  lemma DigitLedHostRejected(h: string, port: Option<nat>, v6: string -> Option<(string, nat)>)
    requires |h| > 0 && IsDigit(h[0]) && DigitRun(h, 0) < |h|
    requires var k := DigitRun(h, 0);
      h[k] != '.' || (k + 1 < |h| && !IsDigit(h[k + 1]))
    ensures TargetAddress(Some(h), port, v6) == Err(AddrParseErrorText)
  {
    var p := if port.Some? then port.value else DefaultPort;
    var s := h + ":" + Decimal(p);
    HostPortLayout(h, Decimal(p));
    LeadingRunKept(s, h);
    NoSecondOctet(s, DigitRun(h, 0));
    assert s[0] == h[0];
  }

  /** Text that starts with `h` starts with the same digit run, followed by
      the same characters inside `h`. */
  lemma LeadingRunKept(s: string, h: string)
    requires At(s, 0, h) && DigitRun(h, 0) < |h|
    ensures var k := DigitRun(h, 0);
      DigitRun(s, 0) == k && s[k] == h[k] && (k + 1 < |h| ==> s[k + 1] == h[k + 1])
  {
    var k := DigitRun(h, 0);
    DigitRunDigits(h, 0);
    assert s[..k] == h[..k];
    DigitRunAt(s, 0, h[..k]);
  }

  /** `163.com` is such a host. */
  lemma DigitLedDomainRejected(v6: string -> Option<(string, nat)>)
    ensures TargetAddress(Some("163.com"), None, v6) == Err(AddrParseErrorText)
  {
    var h := "163.com";
    assert h[3] == '.' && h[4] == 'c';
    assert DigitRun(h, 3) == 0;
    assert DigitRun(h, 0) == 3;
    DigitLedHostRejected(h, None, v6);
  }
}
