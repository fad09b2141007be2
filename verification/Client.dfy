/** struct mosq_config and the code that fills it in: client_config_line_proc and client_config_load of
    src/mqtt/client_shared.cc. */
module Client {
  import opened Text
  import opened Options
  import opened Startup

  class MosqConfig {
    var link: Link
    var pub: Publishing
    var sub: Subscribing
    var will: Will

    function View(): Config
      reads this
    {
      Config(link, pub, sub, will)
    }

    /** init_config. */
    method Init()
      modifies this
      ensures View() == INITIAL && Consistent(View())
    {
      link := Link(None, None, V31, 60, None, 1883, 0, None, None, false, false, 20, None, None);
      pub := Publishing(false, NoMode, None, None, 0);
      sub := Subscribing(true, [], 0, false, [], 0, false, true, 0);
      will := Will(None, None, 0, 0, false);
    }

    static predicate IsNumber(o: Opt) {
      o == Port || o == Keepalive || o == Qos || o == MaxInflight
    }

    /** The numbers both kinds of client use; value is None at the last word. A refused number stays stored. */
    method NumberOption(o: Opt, value: Option<string>, role: Role) returns (rc: int)
      requires IsNumber(o)
      modifies this`link
      ensures var ok, v := value.Some?, TextOf(o, value);
              && link == (if ok then StoreLink(o, v, role, old(link)) else old(link))
              && rc == if ok && InRange(o, v) then 0 else 1
    {
      if value.None? {
        return 1;
      }
      match o {
        case Port =>
          link := link.(port := Atoi(value.value));
          return if link.port < 1 || link.port > 65535 then 1 else 0;
        case Keepalive =>
          link := link.(keepalive := Atoi(value.value));
          return if link.keepalive > 65535 then 1 else 0;
        case MaxInflight => link := link.(maxInflight := Unsigned(Atoi(value.value)));
        case Qos =>
          link := link.(qos := Atoi(value.value));
          return if link.qos < 0 || link.qos > 2 then 1 else 0;
      }
      return 0;
    }

    /** The other options both kinds of client know, and the words neither knows. */
    method LinkOption(o: Opt, value: Option<string>, role: Role, checks: Checks) returns (rc: int)
      requires !PubOnly(o) && !SubOnly(o) && !WillOnly(o) && o != Topic && o != PubTopic
      modifies this`link
      ensures var ok, v := o != Unknown && o != Help && Compatible(o, old(View())) && Takable(o, value, role, checks),
                           TextOf(o, value);
              && link == (if ok then StoreLink(o, v, role, old(link)) else old(link))
              && rc == if o == Help then 2 else if ok && InRange(o, v) then 0 else 1
    {
      if IsNumber(o) {
        rc := NumberOption(o, value, role);
        return;
      }
      if TakesValue(o) && value.None? && o != Id && o != IdPrefix {
        return 1;
      }
      match o {
        case BindAddress => link := link.(bindAddress := value);
        case Debug => link := link.(debug := true);
        case Help => return 2;
        case Host => link := link.(host := value);
        case Id =>
          if link.idPrefix.Some? || value.None? {
            return 1;
          }
          link := link.(id := value);
        case IdPrefix =>
          if link.id.Some? || value.None? {
            return 1;
          }
          link := link.(idPrefix := value);
        case ProtocolVersion =>
          if value.value == "mqttv31" {
            link := link.(protocolVersion := V31);
          } else if value.value == "mqttv311" {
            link := link.(protocolVersion := V311);
          } else {
            return 1;
          }
        case Quiet => link := link.(quiet := true);
        case Username => link := link.(username := value);
        case Password => link := link.(password := value);
        case Unknown => return 1;
      }
      return 0;
    }

    /** The two options that name topics. */
    method TopicOption(o: Opt, value: Option<string>, role: Role, checks: Checks) returns (rc: int)
      requires o == Topic || o == PubTopic
      modifies this`link, this`sub
      ensures var ok, v := Takable(o, value, role, checks), TextOf(o, value);
              && link == (if ok then StoreLink(o, v, role, old(link)) else old(link))
              && sub == (if ok then StoreSub(o, v, role, old(sub)) else old(sub))
              && rc == if ok then 0 else 1
    {
      if value.None? {
        return 1;
      }
      var v := value.value;
      if o == Topic && role == Sub {
        if !checks.subTopic(v) {
          return 1;
        }
        sub := sub.(topicCount := sub.topicCount + 1);
        sub := sub.(topics := sub.topics + [v]);
      } else {
        if !checks.pubTopic(v) {
          return 1;
        }
        link := link.(topic := Some(v));
      }
      return 0;
    }

    /** The options of a publisher; what to publish is chosen once. */
    method PubOption(o: Opt, value: Option<string>, role: Role) returns (rc: int)
      requires PubOnly(o)
      modifies this`pub
      ensures var ok := role == Pub && (o == Retain || old(pub).mode == NoMode) && (TakesValue(o) ==> value.Some?);
              && pub == (if ok then StorePub(o, TextOf(o, value), old(pub)) else old(pub))
              && rc == if ok then 0 else 1
    {
      if role == Sub {
        return 1;
      }
      if o == Retain {
        pub := pub.(retain := true);
        return 0;
      }
      if pub.mode != NoMode {
        return 1;
      }
      match o {
        case File =>
          if value.None? {
            return 1;
          }
          pub := pub.(mode := FileMode);
          pub := pub.(fileInput := value);
        case StdinLine => pub := pub.(mode := StdinLineMode);
        case Message =>
          if value.None? {
            return 1;
          }
          pub := pub.(message := value);
          pub := pub.(msgLen := |value.value|);
          pub := pub.(mode := CmdMode);
        case NullMessage => pub := pub.(mode := NullMode);
        case StdinFile => pub := pub.(mode := StdinFileMode);
      }
      return 0;
    }

    /** The options of a subscriber; a refused count stays stored. */
    method SubOption(o: Opt, value: Option<string>, role: Role, checks: Checks) returns (rc: int)
      requires SubOnly(o)
      modifies this`sub
      ensures var ok, v := role == Sub && Takable(o, value, role, checks), TextOf(o, value);
              && sub == (if ok then StoreSub(o, v, role, old(sub)) else old(sub))
              && rc == if ok && InRange(o, v) then 0 else 1
    {
      if role == Pub {
        return 1;
      }
      if TakesValue(o) && value.None? {
        return 1;
      }
      match o {
        case Count =>
          sub := sub.(msgCount := Atoi(value.value));
          return if sub.msgCount < 1 then 1 else 0;
        case FilterOut =>
          if !checks.subTopic(value.value) {
            return 1;
          }
          sub := sub.(filterOutCount := sub.filterOutCount + 1);
          sub := sub.(filterOuts := sub.filterOuts + [value.value]);
          return 0;
        case DisableCleanSession => sub := sub.(cleanSession := false);
        case NoEol => sub := sub.(eol := false);
        case NoRetain => sub := sub.(noRetain := true);
        case Verbose => sub := sub.(verbose := true);
      }
      return 0;
    }

    /** The options of the client's will; a refused number stays stored. */
    method WillOption(o: Opt, value: Option<string>, role: Role, checks: Checks) returns (rc: int)
      requires WillOnly(o)
      modifies this`will
      ensures var ok, v := Takable(o, value, role, checks), TextOf(o, value);
              && will == (if ok then StoreWill(o, v, old(will)) else old(will))
              && rc == if ok && InRange(o, v) then 0 else 1
    {
      if o == WillRetain {
        will := will.(retain := true);
        return 0;
      }
      if value.None? {
        return 1;
      }
      var v := value.value;
      match o {
        case WillPayload =>
          will := will.(payload := value);
          will := will.(payloadLen := |v|);
        case WillQos =>
          will := will.(qos := Atoi(v));
          return if will.qos < 0 || will.qos > 2 then 1 else 0;
        case WillTopic =>
          if !checks.pubTopic(v) {
            return 1;
          }
          will := will.(topic := value);
      }
      return 0;
    }

    /** One turn of the option loop. */
    method OneOption(o: Opt, value: Option<string>, role: Role, checks: Checks) returns (rc: int)
      modifies this
      ensures Outcome(rc, View()) == Step(old(View()), role, o, value, checks)
    {
      ghost var c := View();
      if PubOnly(o) {
        StepOfPub(c, role, o, value, checks);
        rc := PubOption(o, value, role);
      } else if SubOnly(o) {
        StepOfSub(c, role, o, value, checks);
        rc := SubOption(o, value, role, checks);
      } else if WillOnly(o) {
        StepOfWill(c, role, o, value, checks);
        rc := WillOption(o, value, role, checks);
      } else if o == Topic || o == PubTopic {
        StepOfTopic(c, role, o, value, checks);
        rc := TopicOption(o, value, role, checks);
      } else {
        StepOfLink(c, role, o, value, checks);
        rc := LinkOption(o, value, role, checks);
      }
    }

    /** The loop body on the word at position i; next is where it leaves off. */
    method Turn(role: Role, argv: seq<string>, i: nat, checks: Checks) returns (rc: int, next: nat)
      requires i < |argv|
      modifies this
      ensures i < next <= |argv|
      ensures Run(old(View()), role, Read(argv)[i..], checks)
           == if rc == 0 then Run(View(), role, Read(argv)[next..], checks) else Outcome(rc, View())
      ensures old(Consistent(View())) && rc == 0 ==> Consistent(View())
    {
      ghost var c, rest := View(), Read(argv)[i..];
      var o, last := OptOf(argv[i]), i == |argv| - 1;
      var value := if TakesValue(o) && !last then Some(argv[i + 1]) else None;
      assert rest[0].names == o && Argument(rest) == value;
      rc := OneOption(o, value, role, checks);
      next := if TakesValue(o) && !last then i + 2 else i + 1;
      assert rest[Width(rest)..] == Read(argv)[next..];
      if rc == 0 && Consistent(c) {
        StepConsistent(c, role, o, value, checks);
      }
    }

    /** client_config_line_proc; argv[0] is the program's name, or the empty slot in front of a file's words. */
    method LineProc(role: Role, argv: seq<string>, checks: Checks) returns (rc: int)
      modifies this
      ensures Outcome(rc, View()) == Run(old(View()), role, Words(argv), checks)
      ensures old(Consistent(View())) && rc == 0 ==> Consistent(View())
    {
      if argv == [] {
        return 0;
      }
      var i: nat := 1;
      rc := 0;
      while rc == 0 && i < |argv|
        invariant 1 <= i <= |argv|
        invariant Run(old(View()), role, Words(argv), checks)
               == if rc == 0 then Run(View(), role, Read(argv)[i..], checks) else Outcome(rc, View())
        invariant old(Consistent(View())) && rc == 0 ==> Consistent(View())
        decreases |argv| - i
      {
        rc, i := Turn(role, argv, i, checks);
      }
    }

    /** One line of the configuration file; a line without words is passed over. */
    method LineOfFile(role: Role, line: seq<string>, checks: Checks) returns (rc: int)
      modifies this
      ensures Outcome(rc, View()) == Run(old(View()), role, Read(line), checks)
    {
      if line == [] {
        return 0;
      }
      WordsBehindSlot("", line);
      rc := LineProc(role, [""] + line, checks);
    }

    /** The loop over the configuration file. */
    method LoadFile(role: Role, lines: seq<seq<string>>, checks: Checks) returns (rc: int)
      modifies this
      ensures Outcome(rc, View()) == RunLines(old(View()), role, lines, checks)
    {
      rc := 0;
      var k := 0;
      while rc == 0 && k < |lines|
        invariant 0 <= k <= |lines|
        invariant RunLines(old(View()), role, lines, checks)
               == if rc == 0 then RunLines(View(), role, lines[k..], checks) else Outcome(rc, View())
        decreases |lines| - k
      {
        RunLine(View(), role, lines, k, checks);
        rc := LineOfFile(role, lines[k], checks);
        k := k + 1;
      }
    }

    /** client_config_load on the words of the configuration file, one entry a line, and the real arguments. */
    method Load(role: Role, lines: seq<seq<string>>, argv: seq<string>, rand: int, checks: Checks) returns (rc: int)
      requires 0 <= rand
      modifies this
      ensures Outcome(rc, View()) == Startup.Load(role, lines, argv, rand, checks)
    {
      Init();
      rc := LoadFile(role, lines, checks);
      if rc != 0 {
        return;
      }
      rc := LineProc(role, argv, checks);
      if rc != 0 {
        return;
      }
      rc := Complete(role, rand);
    }

    /** The checks and defaults behind the two passes over the words. */
    method Complete(role: Role, rand: int) returns (rc: int)
      requires 0 <= rand
      modifies this
      ensures Outcome(rc, View()) == Finish(old(View()), role, rand)
    {
      if will.payload.Some? && will.topic.None? {
        return 1;
      }
      if will.retain && will.topic.None? {
        return 1;
      }
      FillIdentity(rand);
      if role == Sub {
        if !sub.cleanSession && (link.idPrefix.Some? || link.id.None?) {
          return 1;
        }
        FillTopics();
      }
      return 0;
    }

    method FillIdentity(rand: int)
      requires 0 <= rand
      modifies this
      ensures View() == old(View()).(link := WithIdentity(old(link), rand))
    {
      if link.host.None? {
        link := link.(host := Some("localhost"));
      }
      if link.username.None? {
        link := link.(username := Some(Decimal(AnonUid(rand))));
      }
      if link.password.None? {
        link := link.(password := Some("codein.tv"));
      }
    }

    method FillTopics()
      requires link.username.Some?
      modifies this
      ensures View() == WithTopics(old(View()))
    {
      if sub.topicCount == 0 {
        sub := sub.(topicCount := 1);
        sub := sub.(topics := ["codein/live/" + link.username.value]);
        if link.topic.None? {
          link := link.(topic := Some("codein/live"));
        }
      }
      if link.topic.None? && sub.topics != [] {
        link := link.(topic := Some(sub.topics[0]));
      }
    }
  }
}
