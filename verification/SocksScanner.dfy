/** What the one-pass scanner of src/mqtt/client_shared.cc has settled after each character, and why that decides
    how the text splits. */
module SocksScanner {
  import opened Text
  import opened SocksGrammar

  /** The contents of the scanner's four owned strings; None is a null pointer. */
  datatype Seen = Seen(usernameOrHost: Option<string>, username: Option<string>,
                       password: Option<string>, host: Option<string>)

  /** The scanner's state; start is where the open segment begins. */
  datatype State = State(start: nat, haveAuth: bool, seen: Seen)

  const INITIAL := State(0, false, Seen(None, None, None, None))

  /** One character of the scan; None is the jump to cleanup. */
  function Step(s: string, i: nat, st: State): (r: Option<State>)
    requires st.start <= i < |s|
    ensures r.Some? ==> r.value.start <= i + 1
  {
    var v := st.seen;
    if s[i] == ':' then
      if i == st.start then None
      else if st.haveAuth then
        if v.host.Some? then None
        else Some(State(i + 1, true, v.(host := Some(s[st.start..i]))))
      else if v.usernameOrHost.None? then
        Some(State(i + 1, false, v.(usernameOrHost := Some(s[st.start..i]))))
      else Some(st)
    else if s[i] == '@' then
      if i == st.start then None
      else if v.usernameOrHost.Some? then
        Some(State(i + 1, true, v.(username := v.usernameOrHost, usernameOrHost := None,
                                   password := Some(s[st.start..i]))))
      else if v.username.Some? then None
      else Some(State(i + 1, true, v.(username := Some(s[st.start..i]))))
    else Some(st)
  }

  /** The scan from position i to the end. */
  function ScanFrom(s: string, i: nat, st: State): (r: Option<State>)
    requires st.start <= i <= |s|
    ensures r.Some? ==> r.value.start <= |s|
    decreases |s| - i
  {
    if i == |s| then Some(st)
    else
      match Step(s, i, st)
      case None => None
      case Some(st') => ScanFrom(s, i + 1, st')
  }

  /** What the state means after the first i characters. */
  ghost predicate Scanned(s: string, i: nat, start: nat, haveAuth: bool, v: Seen) {
    && start <= i <= |s|
    && if haveAuth then BehindAt(s, i, start, v) else BeforeAt(s, i, start, v)
  }

  /** No '@' yet: at most the text before the first ':' is set aside, its role still open. */
  ghost predicate BeforeAt(s: string, i: nat, start: nat, v: Seen)
    requires start <= i <= |s|
  {
    && IndexOf(s, '@') >= i && v.username.None? && v.password.None? && v.host.None?
    && match v.usernameOrHost
       case None => start == 0 && IndexOf(s, ':') >= i
       case Some(name) =>
         start >= 2 && IndexOf(s, ':') == start - 1 && name == s[..start - 1] && (start < i ==> s[start] != ':')
  }

  /** One '@' seen: the credentials are settled, and a ':' can only end the host. */
  ghost predicate BehindAt(s: string, i: nat, start: nat, v: Seen)
    requires start <= i <= |s|
  {
    var a := IndexOf(s, '@');
    && a < start && Credentials(s[..a], v)
    && InHost(s[a + 1..], i - (a + 1), start - (a + 1), v.host)
  }

  ghost predicate Credentials(creds: string, v: Seen) {
    v.usernameOrHost.None? && v.username.Some? && SplitFirst(creds) == Some((v.username.value, v.password))
  }

  /** The same behind the '@', with positions counted from there. */
  ghost predicate InHost(h: string, i: nat, start: nat, host: Option<string>)
    requires start <= i <= |h|
  {
    && IndexOf(h, '@') >= i
    && match host
       case None => start == 0 && IndexOf(h, ':') >= i
       case Some(name) =>
         start >= 2 && IndexOf(h, ':') == start - 1 && name == h[..start - 1] && IndexOf(h[start..], ':') >= i - start
  }

  lemma PassOver(s: string, i: nat, start: nat, haveAuth: bool, v: Seen)
    requires Scanned(s, i, start, haveAuth, v) && i < |s| && s[i] != ':' && s[i] != '@'
    ensures Scanned(s, i + 1, start, haveAuth, v)
  {
    if haveAuth {
      PassOverBehindAt(s, i, start, v);
    } else {
      PassOverBeforeAt(s, i, start, v);
    }
  }

  lemma PassOverBeforeAt(s: string, i: nat, start: nat, v: Seen)
    requires start <= i < |s| && BeforeAt(s, i, start, v) && s[i] != ':' && s[i] != '@'
    ensures BeforeAt(s, i + 1, start, v)
  {
    assert IndexOf(s, '@') != i && IndexOf(s, ':') != i;
  }

  lemma PassOverBehindAt(s: string, i: nat, start: nat, v: Seen)
    requires start <= i < |s| && BehindAt(s, i, start, v) && s[i] != ':' && s[i] != '@'
    ensures BehindAt(s, i + 1, start, v)
  {
    var b := IndexOf(s, '@') + 1;
    assert s[b..][i - b] == s[i];
    PassOverInHost(s[b..], i - b, start - b, v.host);
    assert i - b + 1 == i + 1 - b;
  }

  lemma PassOverInHost(h: string, i: nat, start: nat, host: Option<string>)
    requires start <= i < |h| && h[i] != ':' && h[i] != '@' && InHost(h, i, start, host)
    ensures InHost(h, i + 1, start, host)
  {
    assert h[start..][i - start] == h[i];
  }

  /** A further ':' behind the first belongs to the password or the port. */
  lemma LaterColon(s: string, i: nat, start: nat, v: Seen)
    requires Scanned(s, i, start, false, v) && start < i < |s| && s[i] == ':' && v.usernameOrHost.Some?
    ensures Scanned(s, i + 1, start, false, v)
  {
  }

  lemma FirstColon(s: string, i: nat, start: nat, v: Seen)
    requires Scanned(s, i, start, false, v) && start < i < |s| && s[i] == ':' && v.usernameOrHost.None?
    ensures Scanned(s, i + 1, i + 1, false, v.(usernameOrHost := Some(s[start..i])))
  {
    FirstOf(s, ':', i);
  }

  /** The first place to hold c is where it is found. */
  lemma FirstOf(s: string, c: char, i: nat)
    requires i < |s| && s[i] == c && IndexOf(s, c) >= i
    ensures IndexOf(s, c) == i
  {
    var k := IndexOf(s, c);
    assert forall j :: 0 <= j < k ==> s[j] in s[..k];
  }

  lemma HostColon(s: string, i: nat, start: nat, v: Seen)
    requires Scanned(s, i, start, true, v) && start < i < |s| && s[i] == ':' && v.host.None?
    ensures Scanned(s, i + 1, i + 1, true, v.(host := Some(s[start..i])))
  {
    var a := IndexOf(s, '@');
    var h, k := s[a + 1..], i - (a + 1);
    assert h[k] == ':' && h[..k] == s[start..i];
    ColonInHost(h, k);
  }

  lemma ColonInHost(h: string, k: nat)
    requires 0 < k < |h| && h[k] == ':' && InHost(h, k, 0, None)
    ensures InHost(h, k + 1, k + 1, Some(h[..k]))
  {
    FirstOf(h, ':', k);
    assert IndexOf(h, '@') != k;
  }

  lemma AtEndsPassword(s: string, i: nat, start: nat, v: Seen)
    requires Scanned(s, i, start, false, v) && start < i < |s| && s[i] == '@' && v.usernameOrHost.Some?
    ensures Scanned(s, i + 1, i + 1, true,
                    v.(usernameOrHost := None, username := v.usernameOrHost, password := Some(s[start..i])))
  {
    FirstOf(s, '@', i);
    var creds, k := s[..i], start - 1;
    assert creds[..k] == s[..k] && creds[k + 1..] == s[start..i];
    IndexOfUnique(creds, ':', k);
  }

  lemma AtEndsUser(s: string, i: nat, start: nat, v: Seen)
    requires Scanned(s, i, start, false, v) && start < i < |s| && s[i] == '@' && v.usernameOrHost.None?
    ensures Scanned(s, i + 1, i + 1, true, v.(username := Some(s[start..i])))
  {
    FirstOf(s, '@', i);
    var creds := s[..i];
    var k := IndexOf(s, ':');
    assert creds[..i] == creds && creds == s[..k][..i];
    IndexOfUnique(creds, ':', i);
  }

  // The refusals

  /** A second '@' ends every reading. */
  lemma SecondAt(s: string, i: nat, start: nat, v: Seen)
    requires Scanned(s, i, start, true, v) && i < |s| && s[i] == '@'
    ensures Split(s).None?
  {
    var a := IndexOf(s, '@');
    assert s[a + 1..][i - (a + 1)] == '@';
  }

  /** So does a second ':' behind the '@'. */
  lemma SecondHostColon(s: string, i: nat, start: nat, v: Seen)
    requires Scanned(s, i, start, true, v) && i < |s| && s[i] == ':' && v.host.Some?
    ensures Split(s).None?
  {
    var a := IndexOf(s, '@');
    var h, k := s[a + 1..], start - 1 - (a + 1);
    assert h[k + 1..][i - start] == ':';
  }

  /** So does a separator that ends an empty segment. */
  lemma EmptySegment(s: string, start: nat, haveAuth: bool, v: Seen)
    requires Scanned(s, start, start, haveAuth, v) && start < |s| && (s[start] == ':' || s[start] == '@')
    ensures Split(s).None?
  {
    var a := IndexOf(s, '@');
    if haveAuth {
      if s[start] == '@' {
        SecondAt(s, start, start, v);
      } else if v.host.Some? {
        SecondHostColon(s, start, start, v);
      } else {
        FirstOf(s[a + 1..], ':', 0);
      }
    } else if v.usernameOrHost.Some? {
      EmptyAfterColon(s, start);
    } else if s[0] == '@' {
      FirstOf(s, '@', 0);
      assert s[..0] == "";
    } else {
      FirstOf(s, ':', 0);
      FirstOf(s[..a], ':', 0);
    }
  }

  lemma EmptyAfterColon(s: string, start: nat)
    requires 2 <= start < |s| && IndexOf(s, '@') >= start && IndexOf(s, ':') == start - 1
    requires s[start] == ':' || s[start] == '@'
    ensures Split(s).None?
  {
    var a, k := IndexOf(s, '@'), start - 1;
    var creds := s[..a];
    assert creds[..k] == s[..k];
    IndexOfUnique(creds, ':', k);
    if s[start] == '@' {
      FirstOf(s, '@', start);
      assert creds[k + 1..] == "";
    }
  }

  // The remainder

  /** The pieces once the text behind start is dealt with; None when there is no host. */
  function Remainder(s: string, start: nat, v: Seen): Option<Parts>
    requires start <= |s|
  {
    if start == |s| then
      if v.host.None? then None else Some(Parts(v.username, v.password, v.host.value, None))
    else if v.host.Some? then Some(Parts(v.username, v.password, v.host.value, Some(s[start..])))
    else if v.usernameOrHost.Some? then
      Some(Parts(v.username, v.password, v.usernameOrHost.value, Some(s[start..])))
    else Some(Parts(v.username, v.password, s[start..], None))
  }

  /** An absent port and an empty one mean the same. */
  ghost predicate SameReading(p: Option<Parts>, q: Option<Parts>) {
    p == q || (q.Some? && q.value.port.None? && p == Some(q.value.(port := Some(""))))
  }

  lemma AllBeforeAt(s: string, start: nat, v: Seen)
    requires start <= |s| && BeforeAt(s, |s|, start, v)
    ensures Split(s) == Remainder(s, start, v)
  {
    assert start == 0 ==> s[start..] == s;
  }

  lemma AllBehindAt(s: string, start: nat, v: Seen)
    requires start <= |s| && BehindAt(s, |s|, start, v)
    ensures SameReading(Split(s), Remainder(s, start, v))
  {
    var a := IndexOf(s, '@');
    var h, k := s[a + 1..], start - (a + 1);
    assert h[k..] == s[start..];
    assert start == |s| ==> s[start..] == "";
    assert '@' !in h by {
      assert h[..|h|] == h;
    }
    assert ':' !in h[k..] by {
      assert h[k..][..|h| - k] == h[k..];
    }
  }

  /** At the end of the text, what the scanner holds is the splitter's answer. */
  lemma ScannedAll(s: string, start: nat, haveAuth: bool, v: Seen, at: char)
    requires Scanned(s, |s|, start, haveAuth, v)
    ensures ParseText(s, at) == Meaning(Remainder(s, start, v), at)
  {
    if haveAuth {
      AllBehindAt(s, start, v);
    } else {
      AllBeforeAt(s, start, v);
    }
  }

  function Meaning(r: Option<Parts>, at: char): Option<Proxy> {
    if r.None? then None else Interpret(r.value, at)
  }

  /** A refused text has no reading, and a state met after i characters means what it should. */
  ghost predicate Explained(s: string, i: nat, r: Option<State>) {
    match r
    case None => Split(s).None?
    case Some(st) => Scanned(s, i, st.start, st.haveAuth, st.seen)
  }

  /** One step keeps the state's meaning, and gives up only where there is no reading. */
  lemma StepScanned(s: string, i: nat, st: State)
    requires Scanned(s, i, st.start, st.haveAuth, st.seen) && i < |s|
    ensures Explained(s, i + 1, Step(s, i, st))
  {
    var v := st.seen;
    if s[i] != ':' && s[i] != '@' {
      PassOver(s, i, st.start, st.haveAuth, v);
    } else if i == st.start {
      EmptySegment(s, i, st.haveAuth, v);
    } else if s[i] == ':' {
      StepColon(s, i, st);
    } else {
      StepAt(s, i, st);
    }
  }

  lemma StepColon(s: string, i: nat, st: State)
    requires Scanned(s, i, st.start, st.haveAuth, st.seen) && st.start < i < |s| && s[i] == ':'
    ensures Explained(s, i + 1, Step(s, i, st))
  {
    var v := st.seen;
    if st.haveAuth {
      if v.host.Some? {
        SecondHostColon(s, i, st.start, v);
      } else {
        HostColon(s, i, st.start, v);
      }
    } else if v.usernameOrHost.None? {
      FirstColon(s, i, st.start, v);
    } else {
      LaterColon(s, i, st.start, v);
    }
  }

  lemma StepAt(s: string, i: nat, st: State)
    requires Scanned(s, i, st.start, st.haveAuth, st.seen) && st.start < i < |s| && s[i] == '@'
    ensures Explained(s, i + 1, Step(s, i, st))
  {
    var v := st.seen;
    if st.haveAuth {
      SecondAt(s, i, st.start, v);
    } else if v.usernameOrHost.Some? {
      AtEndsPassword(s, i, st.start, v);
    } else {
      AtEndsUser(s, i, st.start, v);
    }
  }

  lemma {:induction false} ScanFromScanned(s: string, i: nat, st: State)
    requires Scanned(s, i, st.start, st.haveAuth, st.seen)
    ensures Explained(s, |s|, ScanFrom(s, i, st))
    decreases |s| - i
  {
    if i == |s| {
    } else {
      StepScanned(s, i, st);
      var r := Step(s, i, st);
      if r.Some? {
        ScanFromScanned(s, i + 1, r.value);
      }
    }
  }

  /** What the scanner and the code behind its loop make of a text. */
  function Collected(s: string): Option<Parts> {
    match ScanFrom(s, 0, INITIAL)
    case None => None
    case Some(end) => Remainder(s, end.start, end.seen)
  }

  /** The one-pass scanner reads every text as the grammar does. */
  lemma ScannerRefinesGrammar(s: string, at: char)
    ensures Meaning(Collected(s), at) == ParseText(s, at)
  {
    ScanFromScanned(s, 0, INITIAL);
    var r := ScanFrom(s, 0, INITIAL);
    if r.Some? {
      ScannedAll(s, r.value.start, r.value.haveAuth, r.value.seen, at);
    }
  }
}
