/** The connect check of src/mqtt/auth_plugin.cc over the two tables it reads and rewrites. */
module Sessions {
  import opened Text
  import opened Uid

  datatype Session = Session(uid: int, token: string, device: string, expired: int)

  datatype Status = Status(uid: int, device: string, status: int, play: int, ip: string)

  /** A message on the connect topic. */
  datatype Online = Online(uid: int, token: string, device: string)

  datatype Db = Db(sessions: seq<Session>, statuses: seq<Status>, online: seq<Online>)

  /** How the calls into the connection pool and the server turn out during one check, and what they are told. */
  datatype World = World(selectPops: bool, selectRuns: bool, updatePops: bool, resetRuns: bool, ipRuns: bool,
                         expireRuns: bool, ip: string, now: int)
  {
    /** Whether the statement that expires sessions is carried out. */
    predicate Expires() {
      updatePops && expireRuns
    }
  }

  datatype Verdict = Success | Auth

  /** A C string that may be a null pointer. */
  type CString = Option<string>

  // Statements as table operations

  predicate Live(r: Session) {
    r.expired == 0
  }

  function CountLive(rows: seq<Session>, uid: int, token: string): nat {
    if rows == [] then 0
    else (if rows[0].uid == uid && rows[0].token == token && Live(rows[0]) then 1 else 0)
         + CountLive(rows[1..], uid, token)
  }

  /** Expires the user's sessions that carry another token or another device. */
  function ExpireRow(r: Session, uid: int, token: string, device: string, now: int): Session {
    if r.uid == uid && (r.token != token || r.device != device) then r.(expired := now) else r
  }

  function Expire(rows: seq<Session>, uid: int, token: string, device: string, now: int): (out: seq<Session>)
    ensures |out| == |rows|
    ensures forall k :: 0 <= k < |rows| ==> out[k] == ExpireRow(rows[k], uid, token, device, now)
  {
    if rows == [] then []
    else [ExpireRow(rows[0], uid, token, device, now)] + Expire(rows[1..], uid, token, device, now)
  }

  /** Takes the user's other devices off line. */
  function ResetRow(r: Status, uid: int, device: string): Status {
    if r.uid == uid && r.device != device then r.(status := 0, play := 0) else r
  }

  /** Notes the address of the user's device. */
  function LocateRow(r: Status, uid: int, device: string, ip: string): Status {
    if r.uid == uid && r.device == device then r.(ip := ip) else r
  }

  function Reset(rows: seq<Status>, uid: int, device: string): (out: seq<Status>)
    ensures |out| == |rows|
    ensures forall k :: 0 <= k < |rows| ==> out[k] == ResetRow(rows[k], uid, device)
  {
    if rows == [] then [] else [ResetRow(rows[0], uid, device)] + Reset(rows[1..], uid, device)
  }

  function Locate(rows: seq<Status>, uid: int, device: string, ip: string): (out: seq<Status>)
    ensures |out| == |rows|
    ensures forall k :: 0 <= k < |rows| ==> out[k] == LocateRow(rows[k], uid, device, ip)
  {
    if rows == [] then [] else [LocateRow(rows[0], uid, device, ip)] + Locate(rows[1..], uid, device, ip)
  }

  // The functions of the plugin on values

  /** check_token: 0 when an unexpired row of the user carries the token. */
  predicate TokenAccepted(db: Db, uid: int, token: string, w: World) {
    w.selectPops && w.selectRuns && CountLive(db.sessions, uid, token) > 0
  }

  /** update_client_status: three statements, each of which may fail on its own. */
  function UpdateStatus(db: Db, uid: int, token: string, device: string, w: World): Db {
    if device == "" || !w.updatePops then db
    else
      var s1 := if w.resetRuns then Reset(db.statuses, uid, device) else db.statuses;
      var s2 := if w.ipRuns then Locate(s1, uid, device, w.ip) else s1;
      db.(statuses := s2,
          sessions := if w.expireRuns then Expire(db.sessions, uid, token, device, w.now) else db.sessions)
  }

  const ANON_UID_BASE := 9223372000000000000

  predicate StartsWith(s: string, prefix: string) {
    prefix <= s
  }

  /** The fixed accounts, tried when the user name is not a number. */
  function FixedAccount(username: string, password: string): Verdict {
    if username == "codein" && password == "codein.tv" then Success
    else if StartsWith(username, "codein_os_") then
      if StartsWith(username, "codein_os_js") then (if password == "js.codein.tv" then Success else Auth)
      else if password == "os.cOdein.tv" then Success
      else Auth
    else Auth
  }

  /** Whether a user name and password take the branch that asks the session table. */
  predicate OnTokenPath(username: string, password: string) {
    UidOf(username) != -1 && !(UidOf(username) >= ANON_UID_BASE && password == "codein.tv")
  }

  /** mosquitto_auth_connect_check. */
  function Connect(db: Db, username: CString, password: CString, clientid: CString, w: World): (Verdict, Db) {
    if username.None? || password.None? || clientid.None? then (Auth, db)
    else
      var u, p, c := username.value, password.value, clientid.value;
      var uid := UidOf(u);
      if uid == -1 then (FixedAccount(u, p), db)
      else if uid >= ANON_UID_BASE && p == "codein.tv" then
        (Success, db.(online := db.online + [Online(uid, p, c)]))
      else if TokenAccepted(db, uid, p, w) then
        var db' := UpdateStatus(db, uid, p, c, w);
        (Success, db'.(online := db'.online + [Online(uid, p, c)]))
      else (Auth, db)
  }

  // The plugin itself

  class AuthPlugin {
    var sessions: seq<Session>
    var statuses: seq<Status>
    var online: seq<Online>
    /** Connections taken from the pool and not given back. */
    var borrowed: int

    function View(): Db
      reads this
    {
      Db(sessions, statuses, online)
    }

    method Pop(pops: bool)
      modifies this`borrowed
      ensures borrowed == if pops then old(borrowed) + 1 else old(borrowed)
    {
      if pops {
        borrowed := borrowed + 1;
      }
    }

    method Push()
      modifies this`borrowed
      ensures borrowed == old(borrowed) - 1
    {
      borrowed := borrowed - 1;
    }

    method CheckToken(uid: int, token: string, w: World) returns (rc: int)
      modifies this`borrowed
      ensures borrowed == old(borrowed)
      ensures rc == if TokenAccepted(View(), uid, token, w) then 0 else -1
    {
      Pop(w.selectPops);
      if !w.selectPops {
        return -1;
      }
      if !w.selectRuns {
        Push();
        return -1;
      }
      var count := CountLive(sessions, uid, token);
      Push();
      return if count > 0 then 0 else -1;
    }

    method UpdateClientStatus(uid: int, token: string, clientid: string, w: World)
      modifies this
      ensures borrowed == old(borrowed)
      ensures View() == UpdateStatus(old(View()), uid, token, clientid, w)
    {
      if clientid == "" {
        return;
      }
      Pop(w.updatePops);
      if !w.updatePops {
        return;
      }
      if w.resetRuns {
        statuses := Reset(statuses, uid, clientid);
      }
      if w.ipRuns {
        statuses := Locate(statuses, uid, clientid, w.ip);
      }
      if w.expireRuns {
        sessions := Expire(sessions, uid, token, clientid, w.now);
      }
      Push();
    }

    method OnClientOnline(uid: int, token: string, clientid: string)
      modifies this`online
      ensures online == old(online) + [Online(uid, token, clientid)]
    {
      online := online + [Online(uid, token, clientid)];
    }

    /** The check itself; on every path the pool gets back what was taken. */
    method ConnectCheck(username: CString, password: CString, clientid: CString, w: World) returns (v: Verdict)
      modifies this
      ensures borrowed == old(borrowed)
      ensures (v, View()) == Connect(old(View()), username, password, clientid, w)
    {
      if username.None? || password.None? || clientid.None? {
        return Auth;
      }
      var u, p, c := username.value, password.value, clientid.value;
      var uid := GetUid(u);
      if uid == -1 {
        if u == "codein" && p == "codein.tv" {
          return Success;
        }
        if StartsWith(u, "codein_os_") {
          if StartsWith(u, "codein_os_js") {
            return if p == "js.codein.tv" then Success else Auth;
          }
          if p == "os.cOdein.tv" {
            return Success;
          }
        }
        return Auth;
      }
      if uid >= ANON_UID_BASE && p == "codein.tv" {
        OnClientOnline(uid, p, c);
        return Success;
      }
      var rc := CheckToken(uid, p, w);
      if rc == 0 {
        UpdateClientStatus(uid, p, c, w);
        OnClientOnline(uid, p, c);
        return Success;
      }
      return Auth;
    }
  }

  // One check

  /** Without user name, password or client name there is no entry. */
  lemma NullRefused(db: Db, username: CString, password: CString, clientid: CString, w: World)
    requires username == None || password == None || clientid == None
    ensures Connect(db, username, password, clientid, w) == (Auth, db)
  {
  }

  /** Which names that are no numbers are let in, on which passwords; the tables stay as they are. */
  lemma AccountVerdict(db: Db, user: string, password: string, device: string, w: World)
    requires UidOf(user) == -1
    ensures var (v, db') := Connect(db, Some(user), Some(password), Some(device), w);
            && db' == db
            && (v == Success <==>
                  || (user == "codein" && password == "codein.tv")
                  || ("codein_os_js" <= user && password == "js.codein.tv")
                  || ("codein_os_" <= user && !("codein_os_js" <= user) && password == "os.cOdein.tv"))
  {
    if "codein_os_js" <= user {
      assert "codein_os_" == "codein_os_js"[..10] == user[..10];
    }
  }

  /** Numbers from the anonymous range are let in on the common password, and only announced. */
  lemma AnonymousVerdict(db: Db, user: string, password: string, device: string, w: World)
    requires UidOf(user) >= 9223372000000000000 && password == "codein.tv"
    ensures Connect(db, Some(user), Some(password), Some(device), w)
         == (Success, db.(online := db.online + [Online(UidOf(user), "codein.tv", device)]))
  {
  }

  /** All others are let in exactly on an unexpired row with their token, if the table could be read. */
  lemma TokenVerdict(db: Db, user: string, token: string, device: string, w: World)
    requires UidOf(user) != -1 && !(UidOf(user) >= 9223372000000000000 && token == "codein.tv")
    ensures Connect(db, Some(user), Some(token), Some(device), w).0 == Success
       <==> && w.selectPops && w.selectRuns
            && exists k :: 0 <= k < |db.sessions| && db.sessions[k].uid == UidOf(user)
                           && db.sessions[k].token == token && db.sessions[k].expired == 0
  {
    CountLiveIff(db.sessions, UidOf(user), token);
  }

  /** What such a success leaves: one announcement; of a named client that could be noted down, in every row of the
      user with another token or device the current time, expired before or not, the other devices off line and
      idle, and the device's address. */
  lemma TokenEffect(db: Db, user: string, token: string, device: string, w: World)
    requires UidOf(user) != -1 && !(UidOf(user) >= 9223372000000000000 && token == "codein.tv")
    requires Connect(db, Some(user), Some(token), Some(device), w).0 == Success
    ensures var uid, db' := UidOf(user), Connect(db, Some(user), Some(token), Some(device), w).1;
            var noted := device != "" && w.updatePops;
            && db'.online == db.online + [Online(uid, token, device)]
            && |db'.sessions| == |db.sessions| && |db'.statuses| == |db.statuses|
            && (forall k :: 0 <= k < |db.sessions| ==>
                  var r := db.sessions[k];
                  var other := r.token != token || r.device != device;
                  db'.sessions[k] == if noted && w.expireRuns && r.uid == uid && other
                                     then Session(uid, r.token, r.device, w.now) else r)
            && (forall k :: 0 <= k < |db.statuses| ==>
                  var r := db.statuses[k];
                  db'.statuses[k] == if noted && w.resetRuns && r.uid == uid && r.device != device
                                     then Status(uid, r.device, 0, 0, r.ip)
                                     else if noted && w.ipRuns && r.uid == uid && r.device == device
                                     then Status(uid, device, r.status, r.play, w.ip) else r)
  {
  }

  /** The user's live sessions all carry one of the allowed pairs of token and device. */
  ghost predicate LiveWithin(db: Db, uid: int, allowed: set<(string, string)>) {
    forall k :: 0 <= k < |db.sessions| && db.sessions[k].uid == uid && Live(db.sessions[k]) ==>
      (db.sessions[k].token, db.sessions[k].device) in allowed
  }

  lemma {:induction false} CountLiveIff(rows: seq<Session>, uid: int, token: string)
    ensures CountLive(rows, uid, token) > 0
       <==> exists k :: 0 <= k < |rows| && rows[k].uid == uid && rows[k].token == token && Live(rows[k])
  {
    if rows == [] {
    } else {
      CountLiveIff(rows[1..], uid, token);
      if k :| 0 <= k < |rows| && rows[k].uid == uid && rows[k].token == token && Live(rows[k]) {
        assert k == 0 || rows[1..][k - 1] == rows[k];
      }
    }
  }

  /** A successful check on the token path by a named client whose expiry runs leaves the user at most the session
      it came with: this token on this device. */
  lemma WinnerTakesAll(db: Db, username: string, token: string, device: string, w: World)
    requires OnTokenPath(username, token) && device != "" && w.Expires() && w.now != 0
    requires Connect(db, Some(username), Some(token), Some(device), w).0 == Success
    ensures LiveWithin(Connect(db, Some(username), Some(token), Some(device), w).1, UidOf(username), {(token, device)})
  {
  }

  /** What any check leaves alone: other users' rows, the keys of all rows, and that what has expired stays so. */
  lemma CheckIsLocal(db: Db, username: CString, password: CString, clientid: CString, w: World)
    ensures var db' := Connect(db, username, password, clientid, w).1;
            && |db'.sessions| == |db.sessions| && |db'.statuses| == |db.statuses|
            && (forall k :: 0 <= k < |db.sessions| ==>
                  && db'.sessions[k].(expired := 0) == db.sessions[k].(expired := 0)
                  && (w.now != 0 && Live(db'.sessions[k]) ==> Live(db.sessions[k]))
                  && (username.None? || db.sessions[k].uid != UidOf(username.value) ==>
                        db'.sessions[k] == db.sessions[k]))
            && (forall k :: 0 <= k < |db.statuses| ==>
                  && db'.statuses[k].uid == db.statuses[k].uid && db'.statuses[k].device == db.statuses[k].device
                  && (username.None? || db.statuses[k].uid != UidOf(username.value) ==>
                        db'.statuses[k] == db.statuses[k]))
  {
  }

  /** A refused check changes nothing at all. */
  lemma RefusalChangesNothing(db: Db, username: CString, password: CString, clientid: CString, w: World)
    requires Connect(db, username, password, clientid, w).0 == Auth
    ensures Connect(db, username, password, clientid, w).1 == db
  {
  }

  /** After a success whose reset runs, every other device of the user is off line and idle. */
  lemma OtherDevicesReset(db: Db, username: string, token: string, device: string, w: World, k: nat)
    requires OnTokenPath(username, token) && device != "" && w.updatePops && w.resetRuns
    requires Connect(db, Some(username), Some(token), Some(device), w).0 == Success
    requires k < |db.statuses| && db.statuses[k].uid == UidOf(username)
    ensures var r, r' := db.statuses[k], Connect(db, Some(username), Some(token), Some(device), w).1.statuses[k];
            if r.device != device then r' == r.(status := 0, play := 0)
            else r' == r.(ip := if w.ipRuns then w.ip else r.ip)
  {
  }

  /** The same credentials are good for another check exactly when a live session of that very device was there:
      a token presented from a new device passes once and expires itself. */
  lemma ReconnectIff(db: Db, username: string, token: string, device: string, w: World)
    requires OnTokenPath(username, token) && device != "" && w.Expires() && w.now != 0
    requires Connect(db, Some(username), Some(token), Some(device), w).0 == Success
    ensures TokenAccepted(Connect(db, Some(username), Some(token), Some(device), w).1, UidOf(username), token, w)
       <==> Session(UidOf(username), token, device, 0) in db.sessions
  {
    var uid := UidOf(username);
    var db' := Connect(db, Some(username), Some(token), Some(device), w).1;
    CountLiveIff(db'.sessions, uid, token);
    if Session(uid, token, device, 0) in db.sessions {
      var k :| 0 <= k < |db.sessions| && db.sessions[k] == Session(uid, token, device, 0);
      assert db'.sessions[k] == db.sessions[k];
    }
    if k :| 0 <= k < |db'.sessions| && db'.sessions[k].uid == uid && db'.sessions[k].token == token
            && Live(db'.sessions[k]) {
      assert db.sessions[k] == Session(uid, token, device, 0);
    }
  }

  // Runs

  datatype Event =
    | Checked(username: CString, password: CString, clientid: CString, world: World)
    | Inserted(row: Session)

  function Apply(db: Db, e: Event): Db {
    match e
    case Checked(u, p, c, w) => Connect(db, u, p, c, w).1
    case Inserted(row) => db.(sessions := db.sessions + [row])
  }

  function Run(db: Db, es: seq<Event>): Db
    decreases |es|
  {
    if es == [] then db else Run(Apply(db, es[0]), es[1..])
  }

  /** The clock never shows the moment that stands for "not expired". */
  ghost predicate Clocked(es: seq<Event>) {
    forall k :: 0 <= k < |es| && es[k].Checked? ==> es[k].world.now != 0
  }

  /** The pairs of token and device of the live sessions inserted for a user. */
  function Granted(es: seq<Event>, uid: int): set<(string, string)> {
    if es == [] then {}
    else (if es[0].Inserted? && es[0].row.uid == uid && Live(es[0].row)
          then {(es[0].row.token, es[0].row.device)} else {})
         + Granted(es[1..], uid)
  }

  lemma ApplyLiveWithin(db: Db, e: Event, uid: int, allowed: set<(string, string)>)
    requires LiveWithin(db, uid, allowed) && (e.Checked? ==> e.world.now != 0)
    ensures LiveWithin(Apply(db, e), uid, allowed + Granted([e], uid))
  {
    if e.Checked? {
      CheckIsLocal(db, e.username, e.password, e.clientid, e.world);
      forall k | 0 <= k < |db.sessions| && Apply(db, e).sessions[k].uid == uid && Live(Apply(db, e).sessions[k])
        ensures (Apply(db, e).sessions[k].token, Apply(db, e).sessions[k].device) in allowed
      {
        assert Apply(db, e).sessions[k].(expired := 0) == db.sessions[k].(expired := 0);
        assert Live(db.sessions[k]);
      }
    }
  }

  /** Over every run a user's live sessions stay within those allowed at the start and those granted since. */
  lemma {:induction false} RunLiveWithin(db: Db, es: seq<Event>, uid: int, allowed: set<(string, string)>)
    requires LiveWithin(db, uid, allowed) && Clocked(es)
    ensures LiveWithin(Run(db, es), uid, allowed + Granted(es, uid))
    decreases |es|
  {
    if es == [] {
      assert allowed + Granted(es, uid) == allowed;
    } else {
      ApplyLiveWithin(db, es[0], uid, allowed);
      RunLiveWithin(Apply(db, es[0]), es[1..], uid, allowed + Granted([es[0]], uid));
      assert allowed + Granted([es[0]], uid) + Granted(es[1..], uid) == allowed + Granted(es, uid);
    }
  }

  /** One live session: while no session is granted, the user keeps at most the one it last came in with. */
  lemma OneLiveSession(db: Db, username: string, token: string, device: string, w: World, es: seq<Event>)
    requires OnTokenPath(username, token) && device != "" && w.Expires() && w.now != 0 && Clocked(es)
    requires Connect(db, Some(username), Some(token), Some(device), w).0 == Success
    requires Granted(es, UidOf(username)) == {}
    ensures LiveWithin(Run(Connect(db, Some(username), Some(token), Some(device), w).1, es), UidOf(username),
                       {(token, device)})
  {
    WinnerTakesAll(db, username, token, device, w);
    RunLiveWithin(Connect(db, Some(username), Some(token), Some(device), w).1, es, UidOf(username), {(token, device)});
    assert {(token, device)} + {} == {(token, device)};
  }

  /** A user with no live session for a token is refused it, from every device and whatever the server does. */
  lemma RefusedWithoutSession(db: Db, username: string, token: string, clientid: CString, w: World,
                              allowed: set<(string, string)>)
    requires OnTokenPath(username, token) && LiveWithin(db, UidOf(username), allowed)
    requires forall a :: a in allowed ==> a.0 != token
    ensures Connect(db, Some(username), Some(token), clientid, w) == (Auth, db)
  {
    CountLiveIff(db.sessions, UidOf(username), token);
  }

  /** Superseded sessions stay dead. Once a user has come in with one token, every other token is refused, over
      every run of checks and insertions and with any failures in between, until a live session for it is
      inserted. */
  lemma SupersededStaysDead(db: Db, username: string, token: string, device: string, w: World,
                            es: seq<Event>, username': string, token': string, clientid': CString, w': World)
    requires OnTokenPath(username, token) && device != "" && w.Expires() && w.now != 0 && Clocked(es)
    requires Connect(db, Some(username), Some(token), Some(device), w).0 == Success
    requires UidOf(username') == UidOf(username) && OnTokenPath(username', token') && token' != token
    requires forall a :: a in Granted(es, UidOf(username)) ==> a.0 != token'
    ensures var db' := Run(Connect(db, Some(username), Some(token), Some(device), w).1, es);
            Connect(db', Some(username'), Some(token'), clientid', w') == (Auth, db')
  {
    var db1 := Connect(db, Some(username), Some(token), Some(device), w).1;
    WinnerTakesAll(db, username, token, device, w);
    RunLiveWithin(db1, es, UidOf(username), {(token, device)});
    RefusedWithoutSession(Run(db1, es), username', token', clientid', w',
                          {(token, device)} + Granted(es, UidOf(username)));
  }

  /** Exactly when a success supersedes another live session: the client has a name, a connection was to be had
      and the expiry ran. */
  lemma SupersedesIff(db: Db, username: string, token: string, device: string, w: World, k: nat)
    requires OnTokenPath(username, token) && w.now != 0
    requires Connect(db, Some(username), Some(token), Some(device), w).0 == Success
    requires k < |db.sessions| && db.sessions[k].uid == UidOf(username) && Live(db.sessions[k])
    requires db.sessions[k].token != token || db.sessions[k].device != device
    ensures !Live(Connect(db, Some(username), Some(token), Some(device), w).1.sessions[k])
       <==> device != "" && w.Expires()
  {
  }

  /** A token presented from a device without a live session of its own locks the user out: no credential on the
      token path is good any more, over every run that grants the user nothing. */
  lemma NewDeviceLocksOut(db: Db, username: string, token: string, device: string, w: World,
                          es: seq<Event>, username': string, token': string, clientid': CString, w': World)
    requires OnTokenPath(username, token) && device != "" && w.Expires() && w.now != 0 && Clocked(es)
    requires Connect(db, Some(username), Some(token), Some(device), w).0 == Success
    requires Session(UidOf(username), token, device, 0) !in db.sessions && Granted(es, UidOf(username)) == {}
    requires UidOf(username') == UidOf(username) && OnTokenPath(username', token')
    ensures var db' := Run(Connect(db, Some(username), Some(token), Some(device), w).1, es);
            Connect(db', Some(username'), Some(token'), clientid', w') == (Auth, db')
  {
    var uid, db1 := UidOf(username), Connect(db, Some(username), Some(token), Some(device), w).1;
    assert LiveWithin(db1, uid, {}) by {
      NothingLeft(db, username, token, device, w);
    }
    RunLiveWithin(db1, es, uid, {});
    assert {} + Granted(es, uid) == {};
    RefusedWithoutSession(Run(db1, es), username', token', clientid', w', {});
  }

  lemma NothingLeft(db: Db, username: string, token: string, device: string, w: World)
    requires OnTokenPath(username, token) && device != "" && w.Expires() && w.now != 0
    requires Connect(db, Some(username), Some(token), Some(device), w).0 == Success
    requires Session(UidOf(username), token, device, 0) !in db.sessions
    ensures LiveWithin(Connect(db, Some(username), Some(token), Some(device), w).1, UidOf(username), {})
  {
    var uid, db1 := UidOf(username), Connect(db, Some(username), Some(token), Some(device), w).1;
    forall k | 0 <= k < |db1.sessions| && db1.sessions[k].uid == uid
      ensures !Live(db1.sessions[k])
    {
      assert db.sessions[k] in db.sessions;
      assert db1.sessions[k] == ExpireRow(db.sessions[k], uid, token, device, w.now);
    }
  }

  /** For example: user 5 has a live session with token "t" on device d1. The token is accepted from d2, and from
      then on neither from d2 nor from d1. */
  lemma NewDeviceExample()
    ensures var db := Db([Session(5, "t", "d1", 0)], [], []);
            var w := World(true, true, true, true, true, true, "::1", 1);
            var (first, db1) := Connect(db, Some("5"), Some("t"), Some("d2"), w);
            && first == Success
            && Connect(db1, Some("5"), Some("t"), Some("d2"), w) == (Auth, db1)
            && Connect(db1, Some("5"), Some("t"), Some("d1"), w) == (Auth, db1)
  {
    assert Decimal(5) == "5";
    UidOfDecimal(5);
    OneSession("5", "t", "d1", "d2", World(true, true, true, true, true, true, "::1", 1));
  }

  lemma OneSession(user: string, token: string, known: string, other: string, w: World)
    requires UidOf(user) == 5 && known != other && other != ""
    requires w.selectPops && w.selectRuns && w.Expires() && w.now != 0
    ensures var db := Db([Session(5, token, known, 0)], [], []);
            var (first, db1) := Connect(db, Some(user), Some(token), Some(other), w);
            && first == Success
            && Connect(db1, Some(user), Some(token), Some(other), w) == (Auth, db1)
            && Connect(db1, Some(user), Some(token), Some(known), w) == (Auth, db1)
  {
    var db := Db([Session(5, token, known, 0)], [], []);
    CountLiveIff(db.sessions, 5, token);
    assert db.sessions[0] == Session(5, token, known, 0);
    NewDeviceLocksOut(db, user, token, other, w, [], user, token, Some(other), w);
    NewDeviceLocksOut(db, user, token, other, w, [], user, token, Some(known), w);
  }
}
