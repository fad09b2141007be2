/** mosquitto__parse_socks_url of src/mqtt/client_shared.cc: one pass over the URL with owned C strings. */
module SocksParser {
  import opened Text
  import opened UrlDecode
  import opened SocksGrammar
  import opened SocksScanner

  /** The allocator's ledger: Free may only be given a live block, so none is freed twice. */
  class Heap {
    ghost var live: set<array<char>>

    constructor ()
      ensures live == {}
    {
      live := {};
    }

    method Malloc(n: nat) returns (p: array<char>)
      modifies this
      ensures fresh(p) && p.Length == n
      ensures live == old(live) + {p}
    {
      p := new char[n];
      live := live + {p};
    }

    method Free(p: array<char>)
      requires p in live
      modifies this
      ensures live == old(live) - {p}
    {
      live := live - {p};
    }
  }

  /** The SOCKS fields of struct mosq_config. */
  class SocksConfig {
    var host: array?<char>
    var port: int
    var username: array?<char>
    var password: array?<char>
  }

  /** The parser's five pointers. */
  datatype Pieces = Pieces(usernameOrHost: array?<char>, username: array?<char>, password: array?<char>,
                           host: array?<char>, port: array?<char>)

  const NOTHING := Pieces(null, null, null, null, null)

  ghost function One(p: array?<char>): set<array<char>> {
    if p == null then {} else {p}
  }

  ghost function Owned(ps: Pieces): set<array<char>> {
    One(ps.usernameOrHost) + One(ps.username) + One(ps.password) + One(ps.host) + One(ps.port)
  }

  ghost predicate Distinct(ps: Pieces) {
    && One(ps.usernameOrHost) !! One(ps.username) !! One(ps.password) !! One(ps.host) !! One(ps.port)
  }

  ghost predicate IsString(p: array?<char>)
    reads p
  {
    p != null ==> '\0' in p[..]
  }

  /** The string behind a pointer, if there is one. */
  ghost function Held(p: array?<char>): Option<string>
    reads p
  {
    if p == null then None else Some(CStr(p[..]))
  }

  ghost predicate Strings(ps: Pieces)
    reads Owned(ps)
  {
    && IsString(ps.usernameOrHost) && IsString(ps.username) && IsString(ps.password)
    && IsString(ps.host) && IsString(ps.port)
  }

  ghost function View(ps: Pieces): Seen
    reads Owned(ps)
  {
    Seen(Held(ps.usernameOrHost), Held(ps.username), Held(ps.password), Held(ps.host))
  }

  /** Beyond the blocks that were live before the call, exactly the five pointers' blocks are live, one each;
      v is what four of them hold. */
  ghost predicate Ledger(heap: Heap, base: set<array<char>>, ps: Pieces, v: Seen)
    reads heap, Owned(ps)
  {
    heap.live == base + Owned(ps) && base !! Owned(ps) && Distinct(ps) && Strings(ps) && View(ps) == v
  }

  /** A new block with a copy of a segment and a terminator. */
  method CopySegment(heap: Heap, str: string, start: nat, len: nat) returns (p: array<char>)
    requires start + len <= |str| && '\0' !in str
    modifies heap
    ensures fresh(p) && heap.live == old(heap.live) + {p}
    ensures '\0' in p[..] && CStr(p[..]) == str[start..start + len]
  {
    p := heap.Malloc(len + 1);
    forall k | 0 <= k < len {
      p[k] := str[start + k];
    }
    p[len] := '\0';
    assert p[..len] == str[start..start + len];
    assert p[..][len] == '\0';
    CStrIs(p[..], len);
  }

  method FreeIfSet(heap: Heap, p: array?<char>)
    requires p != null ==> p in heap.live
    modifies heap
    ensures heap.live == old(heap.live) - One(p)
  {
    if p != null {
      heap.Free(p);
    }
  }

  /** The code behind the label cleanup. */
  method Cleanup(heap: Heap, ps: Pieces, ghost base: set<array<char>>)
    requires heap.live == base + Owned(ps) && base !! Owned(ps) && Distinct(ps)
    modifies heap
    ensures heap.live == base
  {
    FreeIfSet(heap, ps.usernameOrHost);
    FreeIfSet(heap, ps.username);
    FreeIfSet(heap, ps.password);
    FreeIfSet(heap, ps.host);
    FreeIfSet(heap, ps.port);
  }

  /** A new block p beside the ledger, holding t. */
  ghost predicate Spare(heap: Heap, base: set<array<char>>, ps: Pieces, v: Seen, p: array<char>, t: string)
    reads heap, Owned(ps), p
  {
    && heap.live == base + Owned(ps) + {p} && base !! Owned(ps) && p !in base + Owned(ps)
    && Distinct(ps) && Strings(ps) && View(ps) == v && IsString(p) && CStr(p[..]) == t
  }

  lemma SpareAsHost(heap: Heap, base: set<array<char>>, ps: Pieces, v: Seen, p: array<char>, t: string)
    requires Spare(heap, base, ps, v, p, t) && ps.host == null
    ensures Ledger(heap, base, ps.(host := p), v.(host := Some(t)))
    ensures Owned(ps.(host := p)) == Owned(ps) + {p}
  {
  }

  lemma SpareAsFirst(heap: Heap, base: set<array<char>>, ps: Pieces, v: Seen, p: array<char>, t: string)
    requires Spare(heap, base, ps, v, p, t) && ps.usernameOrHost == null
    ensures Ledger(heap, base, ps.(usernameOrHost := p), v.(usernameOrHost := Some(t)))
    ensures Owned(ps.(usernameOrHost := p)) == Owned(ps) + {p}
  {
  }

  /** A segment copied while the pointers keep what they hold. */
  method TakeSegment(heap: Heap, str: string, start: nat, i: nat, ps: Pieces,
                     ghost base: set<array<char>>, ghost v: Seen)
    returns (p: array<char>)
    requires '\0' !in str && start <= i <= |str| && Ledger(heap, base, ps, v)
    modifies heap
    ensures fresh(p) && Spare(heap, base, ps, v, p, str[start..i])
  {
    p := CopySegment(heap, str, start, i - start);
  }

  /** Until its role is known the first segment is the only string, and an '@' settles the user. */
  ghost predicate OneRole(v: Seen, haveAuth: bool) {
    && (haveAuth ==> v.usernameOrHost.None? && v.username.Some?)
    && (!haveAuth ==> v.username.None? && v.password.None? && v.host.None?)
  }

  lemma StepKeepsOneRole(str: string, i: nat, st: State)
    requires st.start <= i < |str| && OneRole(st.seen, st.haveAuth) && Step(str, i, st).Some?
    ensures var st' := Step(str, i, st).value; OneRole(st'.seen, st'.haveAuth)
  {
  }

  method OnColon(heap: Heap, str: string, i: nat, start: nat, haveAuth: bool, ps: Pieces,
                 ghost base: set<array<char>>, ghost v: Seen)
    returns (ok: bool, start': nat, ps': Pieces, ghost v': Seen)
    requires '\0' !in str && start <= i < |str| && str[i] == ':'
    requires Ledger(heap, base, ps, v) && ps.port == null
    modifies heap
    ensures Ledger(heap, base, ps', v') && ps'.port == null && fresh(Owned(ps') - Owned(ps))
    ensures Step(str, i, State(start, haveAuth, v)) == if ok then Some(State(start', haveAuth, v')) else None
  {
    ok, start', ps', v' := false, start, ps, v;
    if i == start {
      return;
    }
    if haveAuth {
      if ps.host != null {
        return;
      }
      var host := TakeSegment(heap, str, start, i, ps, base, v);
      SpareAsHost(heap, base, ps, v, host, str[start..i]);
      start', ps', v' := i + 1, ps.(host := host), v.(host := Some(str[start..i]));
    } else if ps.usernameOrHost == null {
      var name := TakeSegment(heap, str, start, i, ps, base, v);
      SpareAsFirst(heap, base, ps, v, name, str[start..i]);
      start', ps', v' := i + 1, ps.(usernameOrHost := name), v.(usernameOrHost := Some(str[start..i]));
    }
    ok := true;
  }

  method OnAt(heap: Heap, str: string, i: nat, start: nat, haveAuth: bool, ps: Pieces,
              ghost base: set<array<char>>, ghost v: Seen)
    returns (ok: bool, start': nat, ps': Pieces, ghost v': Seen)
    requires '\0' !in str && start <= i < |str| && str[i] == '@'
    requires Ledger(heap, base, ps, v) && ps.port == null
    requires ps.usernameOrHost != null ==> ps.username == null && ps.password == null
    modifies heap
    ensures Ledger(heap, base, ps', v') && ps'.port == null && fresh(Owned(ps') - Owned(ps))
    ensures Step(str, i, State(start, haveAuth, v)) == if ok then Some(State(start', true, v')) else None
  {
    ok, start', ps', v' := false, start, ps, v;
    if i == start {
      return;
    }
    if ps.usernameOrHost != null {
      var password := TakeSegment(heap, str, start, i, ps, base, v);
      start', ps' := i + 1, ps.(username := ps.usernameOrHost, usernameOrHost := null, password := password);
      v' := v.(usernameOrHost := None, username := v.usernameOrHost, password := Some(str[start..i]));
    } else {
      if ps.username != null {
        return;
      }
      var username := TakeSegment(heap, str, start, i, ps, base, v);
      start', ps', v' := i + 1, ps.(username := username), v.(username := Some(str[start..i]));
    }
    ok := true;
  }

  /** The loop body. */
  method OnCharacter(heap: Heap, str: string, i: nat, start: nat, haveAuth: bool, ps: Pieces,
                     ghost base: set<array<char>>, ghost v: Seen)
    returns (ok: bool, start': nat, haveAuth': bool, ps': Pieces, ghost v': Seen)
    requires '\0' !in str && start <= i < |str|
    requires Ledger(heap, base, ps, v) && ps.port == null && OneRole(v, haveAuth)
    modifies heap
    ensures Ledger(heap, base, ps', v') && ps'.port == null && (ok ==> OneRole(v', haveAuth'))
    ensures fresh(Owned(ps') - Owned(ps))
    ensures Step(str, i, State(start, haveAuth, v)) == if ok then Some(State(start', haveAuth', v')) else None
  {
    haveAuth' := haveAuth;
    if str[i] == ':' {
      ok, start', ps', v' := OnColon(heap, str, i, start, haveAuth, ps, base, v);
    } else if str[i] == '@' {
      ok, start', ps', v' := OnAt(heap, str, i, start, haveAuth, ps, base, v);
      haveAuth' := haveAuth || ok;
    } else {
      ok, start', ps', v' := true, start, ps, v;
    }
    if ok {
      StepKeepsOneRole(str, i, State(start, haveAuth, v));
    }
  }

  /** The loop over the text; ok turns false where the source jumps to cleanup. */
  method Scan(heap: Heap, str: string) returns (ok: bool, start: nat, ps: Pieces, ghost v: Seen)
    requires '\0' !in str
    modifies heap
    ensures Ledger(heap, old(heap.live), ps, v) && ps.port == null && fresh(Owned(ps))
    ensures ok ==> ScanFrom(str, 0, INITIAL).Some?
    ensures match ScanFrom(str, 0, INITIAL)
            case None => !ok
            case Some(end) => ok && start == end.start && v == end.seen && OneRole(v, end.haveAuth)
  {
    var haveAuth := false;
    ok, start, ps, v := true, 0, NOTHING, INITIAL.seen;
    var i: nat := 0;
    while ok && i < |str|
      invariant i <= |str| && (ok ==> start <= i)
      invariant Ledger(heap, old(heap.live), ps, v) && ps.port == null && fresh(Owned(ps))
      invariant ok ==> OneRole(v, haveAuth)
      invariant ScanFrom(str, 0, INITIAL) == if ok then ScanFrom(str, i, State(start, haveAuth, v)) else None
      decreases |str| - i
    {
      ok, start, haveAuth, ps, v := OnCharacter(heap, str, i, start, haveAuth, ps, old(heap.live), v);
      i := i + 1;
    }
  }

  /** The pieces in the end: what the four pointers that are left hold. */
  ghost predicate HoldsParts(heap: Heap, base: set<array<char>>, ps: Pieces, r: Option<Parts>)
    reads heap, Owned(ps)
  {
    && heap.live == base + Owned(ps) && base !! Owned(ps) && Distinct(ps) && Strings(ps)
    && (ps.host != null <==> r.Some?)
    && (r.Some? ==>
          && ps.usernameOrHost == null
          && r.value == Parts(Held(ps.username), Held(ps.password), Held(ps.host).value, Held(ps.port)))
  }

  /** What is left of the text behind the last separator becomes the host or the port. */
  method DealWithRemainder(heap: Heap, str: string, start: nat, ps: Pieces, ghost base: set<array<char>>, ghost v: Seen)
    returns (ps': Pieces)
    requires '\0' !in str && start <= |str|
    requires Ledger(heap, base, ps, v) && ps.port == null
    requires ps.usernameOrHost != null ==> ps.host == null && ps.username == null && ps.password == null
    modifies heap
    ensures HoldsParts(heap, base, ps', Remainder(str, start, v)) && fresh(Owned(ps') - Owned(ps))
  {
    ps' := ps;
    if |str| > start {
      assert str[start..start + (|str| - start)] == str[start..];
      var rest := CopySegment(heap, str, start, |str| - start);
      if ps.host != null {
        ps' := ps.(port := rest);
      } else if ps.usernameOrHost != null {
        ps' := ps.(host := ps.usernameOrHost, usernameOrHost := null, port := rest);
      } else {
        ps' := ps.(host := rest);
      }
    }
  }

  /** What a successful call stores: three strings of their own and a port. */
  ghost predicate Stores(cfg: SocksConfig, x: Proxy)
    reads cfg, cfg.username, cfg.password, cfg.host
  {
    && cfg.host != null
    && IsString(cfg.username) && IsString(cfg.password) && IsString(cfg.host)
    && x == Proxy(Held(cfg.username), Held(cfg.password), Held(cfg.host).value, cfg.port)
  }

  ghost function Stored(cfg: SocksConfig): set<array<char>>
    reads cfg
  {
    One(cfg.username) + One(cfg.password) + One(cfg.host)
  }

  /** Decoding a pointer's string, null or not. */
  method DecodePiece(p: array?<char>, at: char) returns (ok: bool)
    requires IsString(p) && at != '\0'
    modifies One(p)
    ensures IsString(p)
    ensures ok <==> DecodeOption(old(Held(p)), at).Some?
    ensures ok ==> Some(Held(p)) == DecodeOption(old(Held(p)), at)
  {
    var rc := UrlDecode.UrlDecode(p, at);
    ok := rc == 0;
    assert forall d: string :: d + "" == d;
  }

  /** Both credentials, decoded in place. */
  method DecodeCredentials(ps: Pieces, at: char) returns (ok: bool)
    requires Strings(ps) && Distinct(ps) && at != '\0'
    modifies One(ps.username) + One(ps.password)
    ensures Strings(ps) && Held(ps.host) == old(Held(ps.host)) && Held(ps.port) == old(Held(ps.port))
    ensures ok <==> DecodeOption(old(Held(ps.username)), at).Some? && DecodeOption(old(Held(ps.password)), at).Some?
    ensures ok ==>
              && Some(Held(ps.username)) == DecodeOption(old(Held(ps.username)), at)
              && Some(Held(ps.password)) == DecodeOption(old(Held(ps.password)), at)
  {
    ok := DecodePiece(ps.username, at);
    if ok {
      ok := DecodePiece(ps.password, at);
    }
  }

  method ReadPort(p: array?<char>) returns (n: int)
    requires IsString(p) && (p != null ==> Held(p) != Some(""))
    ensures PortOf(Held(p)) == if 1 <= n <= 65535 then Some(n) else None
  {
    n := if p != null then Atoi(CStr(p[..])) else DEFAULT_PORT;
  }

  /** The port's text is freed; the configuration takes the other three strings. */
  method HandOver(heap: Heap, cfg: SocksConfig, ps: Pieces, port: int, ghost base: set<array<char>>)
    requires heap.live == base + Owned(ps) && base !! Owned(ps) && Distinct(ps) && ps.usernameOrHost == null
    modifies heap, cfg
    ensures heap.live == base + Stored(cfg) && Stored(cfg) <= Owned(ps)
    ensures One(cfg.username) !! One(cfg.password) !! One(cfg.host)
    ensures cfg.username == ps.username && cfg.password == ps.password && cfg.host == ps.host && cfg.port == port
  {
    FreeIfSet(heap, ps.port);
    cfg.username, cfg.password, cfg.host, cfg.port := ps.username, ps.password, ps.host, port;
  }

  /** From the complete pieces on: decode the credentials, check the port, hand the strings over. */
  method Deliver(heap: Heap, cfg: SocksConfig, ps: Pieces, at: char, ghost base: set<array<char>>, ghost r: Parts)
    returns (rc: int)
    requires at != '\0' && HoldsParts(heap, base, ps, Some(r)) && r.port != Some("")
    modifies heap, cfg, Owned(ps)
    ensures rc == if Interpret(r, at).Some? then 0 else 1
    ensures rc == 1 ==> heap.live == base && unchanged(cfg)
    ensures rc == 0 ==> Stores(cfg, Interpret(r, at).value) && heap.live == base + Stored(cfg)
    ensures rc == 0 ==> One(cfg.username) !! One(cfg.password) !! One(cfg.host) && Stored(cfg) <= Owned(ps)
  {
    rc := 1;
    var ok := DecodeCredentials(ps, at);
    if !ok {
      Cleanup(heap, ps, base);
      return;
    }
    var port := ReadPort(ps.port);
    if port < 1 || port > 65535 {
      Cleanup(heap, ps, base);
      return;
    }
    HandOver(heap, cfg, ps, port, base);
    rc := 0;
  }

  /** Scan and remainder: the pieces, or nothing left behind. */
  method Collect(heap: Heap, str: string) returns (ok: bool, ps: Pieces)
    requires '\0' !in str
    modifies heap
    ensures ok == Collected(str).Some?
    ensures ok ==> HoldsParts(heap, old(heap.live), ps, Collected(str)) && fresh(Owned(ps))
    ensures !ok ==> heap.live == old(heap.live)
  {
    ghost var base := heap.live;
    var start;
    ghost var v;
    ok, start, ps, v := Scan(heap, str);
    if !ok {
      Cleanup(heap, ps, base);
      return;
    }
    ps := DealWithRemainder(heap, str, start, ps, base, v);
    ok := ps.host != null;
    if !ok {
      Cleanup(heap, ps, base);
    }
  }

  /** The whole parser. It answers as the grammar does. On failure every block it allocated is free again and the
      configuration is untouched; on success the blocks it leaves live are the three it stored, none shared. */
  method ParseSocksUrl(heap: Heap, cfg: SocksConfig, url: string, at: char) returns (rc: int)
    requires '\0' !in url && at != '\0'
    modifies heap, cfg
    ensures rc == if Parse(url, at).Some? then 0 else 1
    ensures rc == 1 ==> heap.live == old(heap.live) && unchanged(cfg)
    ensures rc == 0 ==> Stores(cfg, Parse(url, at).value)
    ensures rc == 0 ==> heap.live == old(heap.live) + Stored(cfg) && fresh(Stored(cfg))
    ensures rc == 0 ==> One(cfg.username) !! One(cfg.password) !! One(cfg.host)
  {
    if !(PREFIX <= url) {
      return 1;
    }
    var str := url[|PREFIX|..];
    ScannerRefinesGrammar(str, at);
    var ok, ps := Collect(heap, str);
    if !ok {
      return 1;
    }
    rc := Deliver(heap, cfg, ps, at, old(heap.live), Collected(str).value);
  }
}
