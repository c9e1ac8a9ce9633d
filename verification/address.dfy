/**
 Address parsing: the listen overloads of easyrpc/server/server.hpp and connect of
 easyrpc/client/client.hpp, on top of string_util::split.
 */
module Address {
  import opened StringUtil

  datatype Result<+T> = Ok(value: T) | InvalidArgument | OutOfRange

  const COLON: string := ":"

  // ---- the library functions that parsing uses ----

  /** ::tolower in the C locale. */
  function ToLowerChar(c: char): char {
    if 'A' <= c <= 'Z' then c - 'A' + 'a' else c
  }

  function ToLower(s: string): string {
    if s == "" then "" else [ToLowerChar(s[0])] + ToLower(s[1..])
  }

  /** equals_ignore_case, 62-65 of easyrpc/base/string_util.hpp. */
  predicate EqualsIgnoreCase(a: string, b: string) { ToLower(a) == ToLower(b) }

  predicate IsSpace(c: char) { c == ' ' || '\t' <= c <= '\r' }

  predicate IsDigit(c: char) { '0' <= c <= '9' }

  /** Leading digits as a number, from the value read so far. */
  function Digits(s: string, value: nat): nat {
    if s == "" || !IsDigit(s[0]) then value else Digits(s[1..], 10 * value + (s[0] - '0') as nat)
  }

  function SkipSpaces(s: string): string {
    if s != "" && IsSpace(s[0]) then SkipSpaces(s[1..]) else s
  }

  /** std::stoi: spaces, an optional sign, digits; anything after the digits is ignored. */
  function StoI(s: string): Result<int> {
    var t := SkipSpaces(s);
    var negative := t != "" && t[0] == '-';
    var u := if t != "" && (t[0] == '-' || t[0] == '+') then t[1..] else t;
    if u == "" || !IsDigit(u[0]) then InvalidArgument
    else
      var magnitude: int := Digits(u, 0);
      var n: int := if negative then 0 - magnitude else magnitude;
      if -0x8000_0000 <= n < 0x8000_0000 then Ok(n) else OutOfRange
  }

  /** std::to_string of a natural number. */
  function Decimal(n: nat): (s: string)
    ensures s != "" && forall i :: 0 <= i < |s| ==> IsDigit(s[i])
  {
    var digit := ['0' + (n % 10) as char];
    if n < 10 then digit else Decimal(n / 10) + digit
  }

  // ---- specification ----

  datatype Endpoint = Endpoint(ip: string, port: nat)

  /** listen(ip, port) with a port given as text, 49-52: the cast to unsigned short wraps. */
  function ListenOn(ip: string, port: string): Result<Endpoint> {
    match StoI(port)
    case Ok(n) => Ok(Endpoint(ip, n % 65536))
    case InvalidArgument => InvalidArgument
    case OutOfRange => OutOfRange
  }

  /** 29-38: what listen makes of the pieces of an address with a colon. */
  function ListenTo(token: seq<string>): Result<Endpoint> {
    if |token| != 2 then InvalidArgument
    else if EqualsIgnoreCase(token[0], "localhost") then ListenOn("127.0.0.1", token[1])
    else ListenOn(token[0], token[1])
  }

  /** listen(address), 25-42: the test for a colon sees the whole string, split only the C string. */
  function Listen(address: string): Result<Endpoint> {
    if ':' in address then ListenTo(Tokens(UpToNul(address), COLON)) else ListenOn("0.0.0.0", address)
  }

  // ---- round trip ----

  lemma {:induction false} DigitsAppend(s: string, c: char, value: nat)
    requires (forall i :: 0 <= i < |s| ==> IsDigit(s[i])) && IsDigit(c)
    ensures Digits(s + [c], value) == 10 * Digits(s, value) + (c - '0') as nat
  {
    if s == "" {
      assert s + [c] == [c] && [c][1..] == "";
    } else {
      assert (s + [c])[1..] == s[1..] + [c];
      DigitsAppend(s[1..], c, 10 * value + (s[0] - '0') as nat);
    }
  }

  lemma {:induction false} DigitsOfDecimal(n: nat)
    ensures Digits(Decimal(n), 0) == n
  {
    var c := '0' + (n % 10) as char;
    assert (c - '0') as nat == n % 10;
    if n < 10 {
      assert [c][1..] == "";
    } else {
      DigitsOfDecimal(n / 10);
      DigitsAppend(Decimal(n / 10), c, 0);
    }
  }

  lemma StoIOfDecimal(n: nat)
    requires n < 0x8000_0000
    ensures StoI(Decimal(n)) == Ok(n)
  {
    DigitsOfDecimal(n);
    assert IsDigit(Decimal(n)[0]);
  }

  /** The tokens of host:port for a host without a colon. */
  lemma TokensOfAddress(host: string, port: string)
    requires Free(host, COLON) && Free(port, COLON) && port != ""
    ensures Tokens(host + ":" + port, COLON) == if host == "" then [port] else [host, port]
  {
    assert ":" + port == COLON + port && Delims(COLON, COLON);
    TokensSkip(COLON, port, COLON);
    TokensTake(port, "", COLON);
    assert port + "" == port;
    assert Tokens(":" + port, COLON) == [port];
    if host != "" {
      TokensTake(host, ":" + port, COLON);
      assert host + ":" + port == host + (":" + port);
    } else {
      assert host + ":" + port == ":" + port;
    }
  }

  /** What listening on host:port stores for a host without colon and NUL. */
  lemma ListenPlainHost(host: string, port: string, n: nat)
    requires ':' !in host && NUL !in host && NUL !in port
    requires Free(port, COLON) && port != "" && n < 65536 && StoI(port) == Ok(n)
    ensures Listen(host + ":" + port) ==
            if host == "" then InvalidArgument
            else Ok(Endpoint(if EqualsIgnoreCase(host, "localhost") then "127.0.0.1" else host, n))
  {
    TokensOfAddress(host, port);
    assert (host + ":" + port)[|host|] == ':';
    ListenWithoutNul(host + ":" + port);
    PortStored(host, port, n);
    PortStored("127.0.0.1", port, n);
  }

  lemma ListenWithoutNul(address: string)
    requires ':' in address && NUL !in address
    ensures Listen(address) == ListenTo(Tokens(address, COLON))
  {
  }

  lemma PortStored(ip: string, port: string, n: nat)
    requires n < 65536 && StoI(port) == Ok(n)
    ensures ListenOn(ip, port) == Ok(Endpoint(ip, n))
  {
  }

  lemma DecimalPort(port: nat)
    requires port < 65536
    ensures Free(Decimal(port), COLON) && NUL !in Decimal(port) && Decimal(port) != "" && StoI(Decimal(port)) == Ok(port)
  {
    StoIOfDecimal(port);
    assert !IsDigit(NUL);
  }

  /**
   Listening on host:port stores exactly that host and port if and only if the host is nonempty,
   has no colon and no NUL, and is not "localhost" ignoring case.
   */
  lemma ListenRoundTripIff(host: string, port: nat)
    requires port < 65536
    ensures Listen(host + ":" + Decimal(port)) == Ok(Endpoint(host, port)) <==>
            host != "" && ':' !in host && NUL !in host && !EqualsIgnoreCase(host, "localhost")
  {
    DecimalPort(port);
    if ':' in host || NUL in host {
      StrangeHost(host, Decimal(port));
    } else {
      ListenPlainHost(host, Decimal(port), port);
      NumericIsNotLocalhost();
    }
  }

  lemma StrangeHost(host: string, port: string)
    requires ':' in host || NUL in host
    ensures Listen(host + ":" + port).Ok? ==> Listen(host + ":" + port).value.ip != host
  {
    var address := host + ":" + port;
    assert address[|host|] == ':';
    if Listen(address).Ok? {
      StoredHostIsFree(address);
    }
  }

  lemma {:induction false} ToLowerKeeps(s: string, c: char)
    requires c in s && ToLowerChar(c) == c
    ensures c in ToLower(s)
  {
    if s[0] != c {
      ToLowerKeeps(s[1..], c);
      assert ToLower(s)[1..] == ToLower(s[1..]);
    }
  }

  lemma LocalhostIsPlain(host: string)
    requires EqualsIgnoreCase(host, "localhost")
    ensures host != "" && ':' !in host && NUL !in host
  {
    LocalhostLetters();
    PlainIgnoringCase(host, "localhost");
  }

  predicate PlainLower(name: string) {
    name != "" && ':' !in name && NUL !in name && forall i :: 0 <= i < |name| ==> !('A' <= name[i] <= 'Z')
  }

  lemma LocalhostLetters()
    ensures PlainLower("localhost")
  {
  }

  lemma PlainIgnoringCase(host: string, name: string)
    requires EqualsIgnoreCase(host, name) && PlainLower(name)
    ensures host != "" && ':' !in host && NUL !in host
  {
    LowerIsKept(name);
    if ':' in host {
      ToLowerKeeps(host, ':');
    }
    if NUL in host {
      ToLowerKeeps(host, NUL);
    }
  }

  lemma {:induction false} LowerIsKept(s: string)
    requires forall i :: 0 <= i < |s| ==> !('A' <= s[i] <= 'Z')
    ensures ToLower(s) == s
  {
    if s != "" {
      LowerIsKept(s[1..]);
    }
  }

  lemma NumericIsNotLocalhost()
    ensures !EqualsIgnoreCase("127.0.0.1", "localhost")
  {
    assert ToLower("127.0.0.1")[0] == '1';
    assert ToLower("localhost")[0] == 'l';
  }

  /** Whatever an accepted address with a colon stores as host has neither colon nor NUL. */
  lemma StoredHostIsFree(address: string)
    requires ':' in address && Listen(address).Ok?
    ensures ':' !in Listen(address).value.ip && NUL !in Listen(address).value.ip
  {
    TokensAreFree(UpToNul(address), COLON);
    TokensAreWithin(UpToNul(address), COLON, NUL);
    FreeOfColon(Tokens(UpToNul(address), COLON)[0]);
    HostStored(Tokens(UpToNul(address), COLON));
  }

  lemma HostStored(token: seq<string>)
    requires ListenTo(token).Ok? && ':' !in token[0] && NUL !in token[0]
    ensures ':' !in ListenTo(token).value.ip && NUL !in ListenTo(token).value.ip
  {
    StoredIp(token[0], token[1]);
    StoredIp("127.0.0.1", token[1]);
    LoopbackIsPlain();
  }

  lemma LoopbackIsPlain()
    ensures ':' !in "127.0.0.1" && NUL !in "127.0.0.1"
  {
  }

  lemma FreeOfColon(s: string)
    requires Free(s, COLON)
    ensures ':' !in s
  {
    assert forall i :: 0 <= i < |s| && s[i] == ':' ==> s[i] in COLON;
  }

  lemma StoredIp(ip: string, port: string)
    ensures ListenOn(ip, port).Ok? ==> ListenOn(ip, port).value.ip == ip
  {
  }

  lemma TokensAreFree(s: string, delims: string)
    ensures forall i :: 0 <= i < |Tokens(s, delims)| ==> Free(Tokens(s, delims)[i], delims)
  {
    var gaps := TokensCut(s, delims);
  }

  lemma {:induction false} TokensAreWithin(s: string, delims: string, c: char)
    requires c !in s
    ensures forall i :: 0 <= i < |Tokens(s, delims)| ==> c !in Tokens(s, delims)[i]
    decreases |s|
  {
    if s != "" {
      TokensAreWithin(s[if s[0] in delims then 1 else Run(s, delims)..], delims, c);
    }
  }

  predicate Digital(s: string) { s != "" && forall i :: 0 <= i < |s| ==> '0' <= s[i] <= '9' }

  predicate Blank(s: string) { forall i :: 0 <= i < |s| ==> s[i] in " \t\n\U{0B}\U{0C}\r" }

  lemma {:induction false} SkipBlank(blank: string, s: string)
    requires Blank(blank) && (s != "" ==> !IsSpace(s[0]))
    ensures SkipSpaces(blank + s) == s
  {
    if blank == "" {
      assert blank + s == s;
    } else {
      assert blank[0] in " \t\n\U{0B}\U{0C}\r";
      assert (blank + s)[1..] == blank[1..] + s;
      SkipBlank(blank[1..], s);
    }
  }

  lemma {:induction false} DigitsStop(digits: string, rest: string, value: nat)
    requires (forall i :: 0 <= i < |digits| ==> IsDigit(digits[i])) && (rest != "" ==> !IsDigit(rest[0]))
    ensures Digits(digits + rest, value) == Digits(digits, value)
  {
    if digits == "" {
      assert digits + rest == rest;
    } else {
      assert (digits + rest)[1..] == digits[1..] + rest;
      DigitsStop(digits[1..], rest, 10 * value + (digits[0] - '0') as nat);
    }
  }

  /** Blanks in front make no difference. */
  lemma StoISkips(blank: string, text: string)
    requires Blank(blank) && (text != "" ==> !IsSpace(text[0]))
    ensures StoI(blank + text) == StoI(text)
  {
    SkipBlank(blank, text);
    SkipBlank("", text);
    assert "" + text == text;
  }

  lemma StoIOfSigned(sign: string, digits: string, rest: string)
    requires sign in {"", "+", "-"} && Digital(digits)
    requires rest != "" ==> !('0' <= rest[0] <= '9')
    ensures var value := if sign == "-" then 0 - Digits(digits, 0) else Digits(digits, 0);
            StoI(sign + digits + rest) == if -2147483648 <= value <= 2147483647 then Ok(value) else OutOfRange
  {
    var text := sign + digits + rest;
    assert text[0] == if sign == "" then digits[0] else sign[0];
    assert text[|sign|..] == digits + rest && text[0..] == text;
    DigitsStop(digits, rest, 0);
  }

  /**
   std::stoi on every text that holds a number: blanks, at most one sign, digits, and anything that does
   not go on with a digit.  The number is returned exactly within the range of int.
   */
  lemma StoIOfNumber(blank: string, sign: string, digits: string, rest: string)
    requires Blank(blank) && sign in {"", "+", "-"} && Digital(digits)
    requires rest != "" ==> !('0' <= rest[0] <= '9')
    ensures var value := if sign == "-" then 0 - Digits(digits, 0) else Digits(digits, 0);
            StoI(blank + (sign + digits + rest)) ==
            if -2147483648 <= value <= 2147483647 then Ok(value) else OutOfRange
  {
    var text := sign + digits + rest;
    assert text[0] == if sign == "" then digits[0] else sign[0];
    StoISkips(blank, text);
    StoIOfSigned(sign, digits, rest);
  }

  /** And a text in which no digit follows the blanks and the sign is refused. */
  lemma StoIOfNothing(blank: string, sign: string, rest: string)
    requires Blank(blank) && sign in {"", "+", "-"}
    requires rest != "" ==> !('0' <= rest[0] <= '9')
    requires sign == "" && rest != "" ==> rest[0] !in " \t\n\U{0B}\U{0C}\r+-"
    ensures StoI(blank + (sign + rest)) == InvalidArgument
  {
    var text := sign + rest;
    if text != "" {
      assert text[0] == if sign == "" then rest[0] else sign[0];
    }
    StoISkips(blank, text);
    assert text[|sign|..] == rest && text[0..] == text;
  }

  /** The number that stands for a port given as text is taken modulo 2^16, as the cast does; -1 is 65535. */
  lemma PortWraps(n: nat)
    ensures ListenOn("", Decimal(n)) == if n < 0x8000_0000 then Ok(Endpoint("", n % 65536)) else OutOfRange
    ensures 0 < n <= 65536 ==> ListenOn("", "-" + Decimal(n)) == Ok(Endpoint("", 65536 - n))
  {
    DigitsOfDecimal(n);
    StoIOfSigned("", Decimal(n), "");
    StoIOfSigned("-", Decimal(n), "");
    assert "" + Decimal(n) + "" == Decimal(n) && "-" + Decimal(n) + "" == "-" + Decimal(n);
  }

  /** Two strings are equal ignoring case exactly if they are so letter by letter. */
  lemma {:induction false} EqualsIgnoreCaseIff(a: string, b: string)
    ensures EqualsIgnoreCase(a, b) <==>
            |a| == |b| && forall i :: 0 <= i < |a| ==> SameLetter(a[i], b[i])
  {
    if a != "" && b != "" {
      EqualsIgnoreCaseIff(a[1..], b[1..]);
      assert forall i :: 0 < i < |a| ==> a[i] == a[1..][i - 1];
      assert forall i :: 0 < i < |b| ==> b[i] == b[1..][i - 1];
      assert ToLower(a)[0] == ToLowerChar(a[0]) && ToLower(b)[0] == ToLowerChar(b[0]);
      assert ToLower(a)[1..] == ToLower(a[1..]) && ToLower(b)[1..] == ToLower(b[1..]);
      assert |a| == |b| ==> ((forall i :: 0 <= i < |a| ==> SameLetter(a[i], b[i])) <==>
        SameLetter(a[0], b[0]) && forall i :: 0 <= i < |a[1..]| ==> SameLetter(a[1..][i], b[1..][i]));
      ConsEqual(ToLowerChar(a[0]), ToLower(a[1..]), ToLowerChar(b[0]), ToLower(b[1..]));
    }
  }

  lemma ConsEqual(c: char, s: string, d: char, t: string)
    ensures [c] + s == [d] + t <==> c == d && s == t
  {
    assert ([c] + s)[1..] == s && ([d] + t)[1..] == t;
    assert ([c] + s)[0] == c && ([d] + t)[0] == d;
  }

  /** The same character, or the two cases of one letter of the alphabet. */
  predicate SameLetter(c: char, d: char) {
    c == d || ('A' <= c <= 'Z' && d as int == c as int + 32) || ('A' <= d <= 'Z' && c as int == d as int + 32)
  }

  /**
   An address with a colon is accepted if and only if it has exactly two nonempty pieces and the second
   starts with a number; then the first or the loopback address is stored, with that port modulo 2^16.
   */
  lemma ListenAcceptsIff(address: string)
    requires ':' in address
    ensures var token := Tokens(UpToNul(address), ":");
            && (Listen(address).Ok? <==> |token| == 2 && StoI(token[1]).Ok?)
            && (Listen(address).Ok? ==>
                  && Listen(address).value.port == StoI(token[1]).value % 65536
                  && Listen(address).value.ip in {token[0], "127.0.0.1"})
            && (|token| != 2 ==> Listen(address) == InvalidArgument)
  {
    PiecesAccepted(Tokens(UpToNul(address), ":"));
  }

  lemma PiecesAccepted(token: seq<string>)
    ensures ListenTo(token).Ok? <==> |token| == 2 && StoI(token[1]).Ok?
    ensures ListenTo(token).Ok? ==>
              ListenTo(token).value in {Endpoint(token[0], StoI(token[1]).value % 65536),
                                        Endpoint("127.0.0.1", StoI(token[1]).value % 65536)}
    ensures |token| != 2 ==> ListenTo(token) == InvalidArgument
  {
  }

  /** Three pieces are one too many, for the server and for the client. */
  lemma ThreePieces(host: string, port: string, rest: string)
    requires host != "" && port != "" && rest != ""
    requires ':' !in host + port + rest && NUL !in host + port + rest
    ensures var address := host + (":" + (port + ":" + rest));
            Listen(address) == InvalidArgument && ConnectTo(address) == InvalidArgument
  {
    var address := host + (":" + (port + ":" + rest));
    PiecesAreFree(host, port, rest);
    TokensOfAddress(port, rest);
    TokensSkip(COLON, port + ":" + rest, COLON);
    TokensTake(host, ":" + (port + ":" + rest), COLON);
    assert Tokens(address, COLON) == [host, port, rest];
    assert address[|host|] == ':';
    NoNul(host, port, rest);
  }

  lemma PiecesAreFree(host: string, port: string, rest: string)
    requires ':' !in host + port + rest
    ensures Free(host, COLON) && Free(port, COLON) && Free(rest, COLON)
  {
    assert forall i :: 0 <= i < |host| ==> host[i] in host + port + rest;
    assert forall i :: 0 <= i < |port| ==> port[i] in host + port + rest;
    assert forall i :: 0 <= i < |rest| ==> rest[i] in host + port + rest;
  }

  lemma NoNul(host: string, port: string, rest: string)
    requires NUL !in host + port + rest
    ensures var address := host + (":" + (port + ":" + rest)); UpToNul(address) == address
  {
    assert forall c :: c in host || c in port || c in rest ==> c in host + port + rest;
  }

  /** "localhost" in any case stores the loopback address, and a port alone stores the any-address. */
  lemma ListenSpecialCases(host: string, port: nat)
    requires port < 65536 && EqualsIgnoreCase(host, "localhost")
    ensures Listen(host + ":" + Decimal(port)) == Ok(Endpoint("127.0.0.1", port))
    ensures Listen(Decimal(port)) == Ok(Endpoint("0.0.0.0", port))
  {
    DecimalPort(port);
    LocalhostIsPlain(host);
    ListenPlainHost(host, Decimal(port), port);
    ListenPortOnly(Decimal(port), port);
  }

  lemma ListenPortOnly(port: string, n: nat)
    requires Free(port, COLON) && n < 65536 && StoI(port) == Ok(n)
    ensures Listen(port) == Ok(Endpoint("0.0.0.0", n))
  {
    assert forall i :: 0 <= i < |port| ==> port[i] != ':';
    PortStored("0.0.0.0", port, n);
  }

  /** client::connect(address), 23-31 of easyrpc/client/client.hpp: host and port go to the resolver as they are. */
  function ConnectTo(address: string): Result<(string, string)> {
    var token := Tokens(UpToNul(address), COLON);
    if |token| != 2 then InvalidArgument else Ok((token[0], token[1]))
  }

  /** Connecting to host:port resolves exactly that host and port if and only if both are nonempty, without colon and NUL. */
  lemma ConnectRoundTripIff(host: string, port: string)
    ensures ConnectTo(host + ":" + port) == Ok((host, port)) <==>
            host != "" && ':' !in host && NUL !in host && port != "" && ':' !in port && NUL !in port
  {
    var address := host + ":" + port;
    if host != "" && ':' !in host && NUL !in host && port != "" && ':' !in port && NUL !in port {
      assert UpToNul(address) == address;
      TokensOfAddress(host, port);
    } else if ConnectTo(address).Ok? {
      var gaps := TokensCut(UpToNul(address), COLON);
      TokensAreWithin(UpToNul(address), COLON, NUL);
      FreeOfColon(Tokens(UpToNul(address), COLON)[0]);
      FreeOfColon(Tokens(UpToNul(address), COLON)[1]);
    }
  }

  // ---- the classes ----

  lemma {:induction false} CStringOfText(text: string, from: nat)
    requires from <= |text|
    ensures CString(text + [NUL], from) == UpToNul(text[from..])
    decreases |text| - from
  {
    if from < |text| && text[from] != NUL {
      CStringOfText(text, from + 1);
      assert text[from..][1..] == text[from + 1..];
    }
  }

  class ServerAddress {
    var ip: string
    var port: nat

    constructor ()
      ensures ip == "0.0.0.0" && port == 50051
    {
      ip, port := "0.0.0.0", 50051;
    }

    /** 49-59. */
    method ListenIpPort(ip: string, portText: string) returns (ok: bool)
      modifies this
      ensures match ListenOn(ip, portText)
              case Ok(e) => ok && this.ip == e.ip && this.port == e.port
              case _ => !ok && this.ip == old(this.ip) && this.port == old(this.port)
    {
      var n := StoI(portText);
      if n.Ok? {
        this.ip, this.port := ip, n.value % 65536;
        ok := true;
      } else {
        ok := false;
      }
    }

    /** 25-42 on the string's own buffer, which split cuts in place; false stands for the exception. */
    method ListenAddress(buffer: array<char>, ghost address: string) returns (ok: bool)
      requires buffer[..] == address + [NUL]
      modifies this, buffer
      ensures OnlyDelimitersCut(old(buffer[..]), buffer[..], COLON)
      ensures match Listen(address)
              case Ok(e) => ok && ip == e.ip && port == e.port
              case _ => !ok && ip == old(ip) && port == old(port)
    {
      var text := buffer[..buffer.Length - 1];
      assert text == address;
      if ':' in text {
        CStringOfText(address, 0);
        assert address[0..] == address;
        var token := Split(buffer, COLON);
        if |token| != 2 {
          return false;
        }
        if EqualsIgnoreCase(token[0], "localhost") {
          ok := ListenIpPort("127.0.0.1", token[1]);
        } else {
          ok := ListenIpPort(token[0], token[1]);
        }
      } else {
        ok := ListenIpPort("0.0.0.0", text);
      }
    }
  }
}
