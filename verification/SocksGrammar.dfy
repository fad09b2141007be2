/** What a SOCKS proxy URL means: the six forms listed in src/mqtt/client_shared.cc as a grammar, a splitter
    for it, and the printer that inverts the parser. */
module SocksGrammar {
  import opened Text
  import opened UrlDecode

  const PREFIX := "socks5h://"
  const DEFAULT_PORT := 1080

  datatype Proxy = Proxy(username: Option<string>, password: Option<string>, host: string, port: int)

  /** The pieces of the text behind the prefix, still encoded; an empty port is a ':' with nothing behind it. */
  datatype Parts = Parts(username: Option<string>, password: Option<string>, host: string, port: Option<string>)

  // The grammar: a rendering of the pieces, and what each piece may hold

  /** A name: a user or a host. */
  ghost predicate Name(s: string) {
    s != "" && ':' !in s && '@' !in s
  }

  /** What follows the first ':' before an '@' or the end: it may hold further ':' but not open with one. */
  ghost predicate Tail(s: string) {
    s != "" && s[0] != ':' && '@' !in s
  }

  ghost predicate WellFormed(p: Parts) {
    && Name(p.host)
    && (p.username.Some? ==> Name(p.username.value))
    && (p.password.Some? ==> p.username.Some? && Tail(p.password.value))
    && (p.port.Some? ==> if p.username.Some? then ':' !in p.port.value && '@' !in p.port.value
                         else Tail(p.port.value))
  }

  function After(c: char, s: Option<string>): string {
    if s.Some? then [c] + s.value else ""
  }

  function Credentials(username: string, password: Option<string>): string {
    username + After(':', password)
  }

  function Render(p: Parts): string {
    (if p.username.Some? then Credentials(p.username.value, p.password) + "@" else "")
    + (p.host + After(':', p.port))
  }

  // The splitter

  /** name or name ':' tail; used for user and password, and for host and port when there is no '@'. */
  function SplitFirst(s: string): Option<(string, Option<string>)> {
    var k := IndexOf(s, ':');
    if k == 0 then None
    else if k == |s| then Some((s, None))
    else
      var rest := s[k + 1..];
      if rest == "" || rest[0] == ':' then None else Some((s[..k], Some(rest)))
  }

  /** host or host ':' port behind an '@': at most one ':', nothing needed behind it. */
  function SplitHost(s: string): Option<(string, Option<string>)> {
    var k := IndexOf(s, ':');
    if k == 0 then None
    else if k == |s| then Some((s, None))
    else if ':' in s[k + 1..] then None
    else Some((s[..k], Some(s[k + 1..])))
  }

  function Split(s: string): Option<Parts> {
    var a := IndexOf(s, '@');
    if a == |s| then
      match SplitFirst(s)
      case None => None
      case Some((host, port)) => Some(Parts(None, None, host, port))
    else if '@' in s[a + 1..] then None
    else
      match (SplitFirst(s[..a]), SplitHost(s[a + 1..]))
      case (Some((username, password)), Some((host, port))) =>
        Some(Parts(Some(username), password, host, port))
      case _ => None
  }

  lemma PrefixLacks(s: string, c: char, k: nat)
    requires k <= |s| && c !in s
    ensures c !in s[..k]
  {
  }

  lemma SuffixLacks(s: string, c: char, k: nat)
    requires k <= |s| && c !in s
    ensures c !in s[k..]
  {
  }

  lemma SplitAtColon(s: string, k: nat)
    requires k < |s| && s[k] == ':'
    ensures s == s[..k] + After(':', Some(s[k + 1..]))
  {
  }

  /** Both splitters cut at the first ':'; the cut gives the pieces back. */
  lemma CutAtColon(s: string)
    requires '@' !in s
    ensures var k := IndexOf(s, ':');
            && '@' !in s[..k]
            && (k == |s| ==> s[..k] == s && s == s[..k] + After(':', None))
            && (k < |s| ==> '@' !in s[k + 1..] && s == s[..k] + After(':', Some(s[k + 1..])))
  {
    var k := IndexOf(s, ':');
    PrefixLacks(s, '@', k);
    if k < |s| {
      SplitAtColon(s, k);
      SuffixLacks(s, '@', k + 1);
    } else {
      assert s[..k] == s && s + "" == s;
    }
  }

  /** The pieces give the cut back. */
  lemma CutOfPieces(s: string, name: string, tail: Option<string>)
    requires ':' !in name && s == name + After(':', tail)
    ensures IndexOf(s, ':') == |name| && s[..|name|] == name
    ensures if tail.None? then |name| == |s| else |name| < |s| && s[|name| + 1..] == tail.value
  {
    assert s[..|name|] == name;
    IndexOfUnique(s, ':', |name|);
  }

  lemma SplitFirstIff(s: string, name: string, tail: Option<string>)
    requires '@' !in s
    ensures SplitFirst(s) == Some((name, tail))
       <==> Name(name) && (tail.Some? ==> Tail(tail.value)) && s == name + After(':', tail)
  {
    if ':' !in name && s == name + After(':', tail) {
      CutOfPieces(s, name, tail);
    }
    CutAtColon(s);
  }

  lemma SplitHostIff(s: string, host: string, port: Option<string>)
    requires '@' !in s
    ensures SplitHost(s) == Some((host, port))
       <==> Name(host) && (port.Some? ==> ':' !in port.value && '@' !in port.value)
            && s == host + After(':', port)
  {
    if ':' !in host && s == host + After(':', port) {
      CutOfPieces(s, host, port);
    }
    CutAtColon(s);
  }

  /** The splitter finds p exactly when p is a well-formed reading of s; so a text has at most one reading. */
  lemma SplitIffGrammar(s: string, p: Parts)
    ensures Split(s) == Some(p) <==> WellFormed(p) && Render(p) == s
  {
    if WellFormed(p) && Render(p) == s {
      GrammarSplits(s, p);
    }
    if Split(s) == Some(p) {
      SplitRenders(s, p);
    }
  }

  lemma GrammarSplits(s: string, p: Parts)
    requires WellFormed(p) && Render(p) == s
    ensures Split(s) == Some(p)
  {
    var tail := p.host + After(':', p.port);
    assert '@' !in tail;
    if p.username.Some? {
      var creds := Credentials(p.username.value, p.password);
      assert '@' !in creds;
      assert s == creds + "@" + tail;
      assert s[..|creds|] == creds && s[|creds| + 1..] == tail;
      IndexOfUnique(s, '@', |creds|);
      SplitFirstIff(creds, p.username.value, p.password);
      SplitHostIff(tail, p.host, p.port);
    } else {
      assert s == tail;
      IndexOfUnique(s, '@', |s|);
      SplitFirstIff(s, p.host, p.port);
    }
  }

  lemma CutAtSign(s: string, a: nat)
    requires a < |s| && s[a] == '@'
    ensures s == s[..a] + "@" + s[a + 1..]
  {
  }

  lemma SplitRenders(s: string, p: Parts)
    requires Split(s) == Some(p)
    ensures WellFormed(p) && Render(p) == s
  {
    var a := IndexOf(s, '@');
    var tail := p.host + After(':', p.port);
    if a == |s| {
      assert s[..a] == s;
      SplitFirstIff(s, p.host, p.port);
      assert Render(p) == "" + tail == tail;
    } else {
      var creds := s[..a];
      SplitFirstIff(creds, p.username.value, p.password);
      SplitHostIff(s[a + 1..], p.host, p.port);
      CutAtSign(s, a);
    }
  }

  // From pieces to a proxy

  function DecodeOption(s: Option<string>, at: char): Option<Option<string>> {
    if s.None? then Some(None)
    else
      var p := Decode(s.value, at);
      if p.Complete() then Some(Some(p.done)) else None
  }

  /** An absent or empty port is the default; any other must be read by atoi as 1..65535. */
  function PortOf(port: Option<string>): Option<int> {
    if port.None? || port.value == "" then Some(DEFAULT_PORT)
    else
      var n := Atoi(port.value);
      if 1 <= n <= 65535 then Some(n) else None
  }

  function Interpret(p: Parts, at: char): Option<Proxy> {
    match (DecodeOption(p.username, at), DecodeOption(p.password, at), PortOf(p.port))
    case (Some(username), Some(password), Some(port)) => Some(Proxy(username, password, p.host, port))
    case _ => None
  }

  function ParseText(s: string, at: char): Option<Proxy> {
    match Split(s)
    case None => None
    case Some(p) => Interpret(p, at)
  }

  /** What the parser should answer for a whole URL. */
  function Parse(url: string, at: char): Option<Proxy> {
    if PREFIX <= url then ParseText(url[|PREFIX|..], at) else None
  }

  /** A URL is accepted exactly when some well-formed reading of it decodes and has a valid port. */
  lemma ParseIffGrammar(url: string, at: char, proxy: Proxy)
    ensures Parse(url, at) == Some(proxy)
       <==> exists p :: WellFormed(p) && url == PREFIX + Render(p) && Interpret(p, at) == Some(proxy)
  {
    if Parse(url, at) == Some(proxy) {
      var s := url[|PREFIX|..];
      var p := Split(s).value;
      SplitIffGrammar(s, p);
      assert url == PREFIX + Render(p);
    }
    forall p | WellFormed(p) && url == PREFIX + Render(p) && Interpret(p, at) == Some(proxy)
      ensures Parse(url, at) == Some(proxy)
    {
      assert url[|PREFIX|..] == Render(p);
      SplitIffGrammar(Render(p), p);
    }
  }

  /** What a well-formed reading is worth: the credentials decoded, the host as it is, and port 1080 unless another
      is given, which must be read as 1..65535. */
  lemma ReadingIsWorth(p: Parts, at: char)
    requires WellFormed(p)
    ensures var user, password := DecodeOption(p.username, at), DecodeOption(p.password, at);
            var port := if p.port.None? || p.port == Some("") then 1080 else Atoi(p.port.value);
            Parse("socks5h://" + Render(p), at)
            == if user.Some? && password.Some? && 1 <= port <= 65535
               then Some(Proxy(user.value, password.value, p.host, port)) else None
  {
    assert ("socks5h://" + Render(p))[|PREFIX|..] == Render(p);
    SplitIffGrammar(Render(p), p);
  }

  // Printing

  /** The proxies a URL can express: a password needs a user, names are not empty, the host holds no separator. */
  ghost predicate Expressible(x: Proxy) {
    && (x.username.Some? ==> x.username.value != "")
    && (x.password.Some? ==> x.username.Some? && x.password.value != "")
    && Name(x.host) && 1 <= x.port <= 65535
  }

  function EncodeOption(s: Option<string>): Option<string> {
    if s.None? then None else Some(Encode(s.value))
  }

  function PrintParts(x: Proxy): Parts
    requires x.port >= 0
  {
    Parts(EncodeOption(x.username), EncodeOption(x.password), x.host, Some(Decimal(x.port)))
  }

  function Print(x: Proxy): string
    requires x.port >= 0
  {
    PREFIX + Render(PrintParts(x))
  }

  lemma PrintWellFormed(x: Proxy)
    requires Expressible(x)
    ensures WellFormed(PrintParts(x))
  {
    if x.username.Some? {
      EncodeHidesSeparators(x.username.value);
    }
    if x.password.Some? {
      EncodeHidesSeparators(x.password.value);
    }
    var d := Decimal(x.port);
    assert forall c :: c in d ==> IsDigit(c);
    assert ':' !in d && '@' !in d;
  }

  lemma PrintThenParse(x: Proxy, at: char)
    requires Expressible(x)
    ensures Parse(Print(x), at) == Interpret(PrintParts(x), at)
    ensures PortOf(PrintParts(x).port) == Some(x.port)
  {
    PrintWellFormed(x);
    SplitIffGrammar(Render(PrintParts(x)), PrintParts(x));
    assert Print(x)[|PREFIX|..] == Render(PrintParts(x));
    AtoiOfDecimal(x.port, "");
    assert Decimal(x.port) + "" == Decimal(x.port);
  }

  lemma DecimalTail(n: nat, rest: string)
    requires '@' !in rest
    ensures Tail(Decimal(n) + (":" + rest)) && Atoi(Decimal(n) + (":" + rest)) == n
  {
    var d, tail := Decimal(n), ":" + rest;
    AtoiOfDecimal(n, tail);
    assert IsDigit(d[0]) && (d + tail)[0] == d[0];
    assert forall k :: 0 <= k < |d| ==> IsDigit(d[k]);
    assert '@' !in tail;
  }

  /** A host and a port text without credentials are read back as they are. */
  lemma HostAndPort(host: string, text: string, at: char)
    requires Name(host) && Tail(text)
    ensures Parse(PREFIX + (host + (":" + text)), at)
         == if PortOf(Some(text)).None? then None else Some(Proxy(None, None, host, PortOf(Some(text)).value))
  {
    var p := Parts(None, None, host, Some(text));
    var s := host + (":" + text);
    assert Render(p) == s;
    SplitIffGrammar(s, p);
    assert (PREFIX + s)[|PREFIX|..] == s;
  }

  /** Without credentials, text behind a second ':' is accepted and ignored. */
  lemma TextBehindPortIgnored(host: string, port: nat, rest: string, at: char)
    requires Name(host) && 1 <= port <= 65535 && '@' !in rest
    ensures Parse(PREFIX + (host + (":" + (Decimal(port) + (":" + rest)))), at) == Some(Proxy(None, None, host, port))
  {
    DecimalTail(port, rest);
    HostAndPort(host, Decimal(port) + (":" + rest), at);
  }

  ghost predicate HasAt(s: Option<string>) {
    s.Some? && '@' in s.value
  }

  function ReplaceAtOption(s: Option<string>, c: char): Option<string> {
    if s.None? then None else Some(ReplaceAt(s.value, c))
  }

  lemma ReplaceAtOptionIsIdentity(s: Option<string>, c: char)
    ensures ReplaceAtOption(s, c) == s <==> c == '@' || !HasAt(s)
  {
    if s.Some? {
      RoundTrips(s.value, c);
      DecodeEncode(s.value, c);
    }
  }

  /** Parsing a printed proxy gives it back with the byte stored for %40 in place of every '@'. */
  lemma PrintParse(x: Proxy, at: char)
    requires Expressible(x)
    ensures Parse(Print(x), at) == Some(x.(username := ReplaceAtOption(x.username, at),
                                           password := ReplaceAtOption(x.password, at)))
  {
    PrintThenParse(x, at);
    if x.username.Some? {
      DecodeEncode(x.username.value, at);
    }
    if x.password.Some? {
      DecodeEncode(x.password.value, at);
    }
  }

  /** Printing a proxy and parsing the URL gives the proxy back exactly when %40 is decoded to '@' or no
      credential holds an '@'. */
  lemma PrintParseRoundTrip(x: Proxy, at: char)
    requires Expressible(x)
    ensures Parse(Print(x), at) == Some(x)
       <==> at == '@' || (!HasAt(x.username) && !HasAt(x.password))
  {
    PrintParse(x, at);
    ReplaceAtOptionIsIdentity(x.username, at);
    ReplaceAtOptionIsIdentity(x.password, at);
  }

  /** As written, the code gives back "a:b" for the user name "a@b". */
  lemma AtIsLost()
    ensures var x := Proxy(Some("a@b"), None, "h", 1080);
            Expressible(x) && Parse(Print(x), ':') == Some(x.(username := Some("a:b")))
  {
    PrintParse(Proxy(Some("a@b"), None, "h", 1080), ':');
    assert ReplaceAt("a@b", ':') == "a:b";
  }

  lemma DecodeOptionText(s: Option<string>, at: char)
    requires DecodeOption(s, at).Some?
    requires s.Some? ==> s.value != "" && '@' !in s.value
    ensures var d := DecodeOption(s, at).value;
            d.Some? == s.Some? && (d.Some? ==> d.value != "") && (at != '@' ==> !HasAt(d))
  {
    if s.Some? {
      DecodedText(s.value, at);
    }
  }

  /** Everything the parser returns can be printed; with ':' stored for %40 it never returns an '@' at all,
      however the URL is written. */
  lemma ParsedIsExpressible(url: string, at: char)
    requires Parse(url, at).Some?
    ensures Expressible(Parse(url, at).value)
    ensures at != '@' ==> !HasAt(Parse(url, at).value.username) && !HasAt(Parse(url, at).value.password)
  {
    var s := url[|PREFIX|..];
    var p := Split(s).value;
    SplitIffGrammar(s, p);
    DecodeOptionText(p.username, at);
    DecodeOptionText(p.password, at);
  }

  /** Reprinting what was parsed is stable, for the byte in the comment and for the byte in the code. */
  lemma ParsePrintParse(url: string, at: char)
    requires Parse(url, at).Some?
    ensures Parse(Print(Parse(url, at).value), at) == Parse(url, at)
  {
    ParsedIsExpressible(url, at);
    PrintParseRoundTrip(Parse(url, at).value, at);
  }

}
