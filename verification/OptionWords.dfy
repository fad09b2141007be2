/** What the words of src/mqtt/client_shared.cc:253-653 do, each spelled out. */
module OptionWords {
  import opened Text
  import opened Options

  /** What comes of the words behind an option: they are read from the record it leaves, unless it was refused. */
  function Onward(role: Role, rest: seq<string>, checks: Checks, r: Outcome): Outcome {
    if r.Accepted() then Run(r.config, role, Read(rest), checks) else r
  }

  lemma Pair(c: Config, role: Role, w: string, o: Opt, v: string, rest: seq<string>, checks: Checks)
    requires OptOf(w) == o && TakesValue(o)
    ensures Run(c, role, Read([w, v] + rest), checks) == Onward(role, rest, checks, Step(c, role, o, Some(v), checks))
    ensures Run(c, role, Read([w]), checks) == Outcome(1, c)
  {
    var words := Read([w, v] + rest);
    assert Argument(words) == Some(v) && words[2..] == Read(rest);
    assert Argument(Read([w])) == None;
  }

  lemma Single(c: Config, role: Role, w: string, o: Opt, rest: seq<string>, checks: Checks)
    requires OptOf(w) == o && !TakesValue(o)
    ensures Run(c, role, Read([w] + rest), checks) == Onward(role, rest, checks, Step(c, role, o, None, checks))
  {
    var words := Read([w] + rest);
    assert Argument(words) == None && words[1..] == Read(rest);
  }

  // Plain strings

  lemma HostWord(c: Config, role: Role, w: string, v: string, rest: seq<string>, checks: Checks)
    requires w == "-h" || w == "--host"
    ensures Run(c, role, Read([w, v] + rest), checks) == Onward(role, rest, checks,
              Outcome(0, c.(link := c.link.(host := Some(v)))))
    ensures Run(c, role, Read([w]), checks) == Outcome(1, c)
  {
    assert OptOf(w) == Host;
    StepOfLink(c, role, Host, Some(v), checks);
    Pair(c, role, w, Host, v, rest, checks);
  }

  lemma BindAddressWord(c: Config, role: Role, w: string, v: string, rest: seq<string>, checks: Checks)
    requires w == "-A"
    ensures Run(c, role, Read([w, v] + rest), checks) == Onward(role, rest, checks,
              Outcome(0, c.(link := c.link.(bindAddress := Some(v)))))
    ensures Run(c, role, Read([w]), checks) == Outcome(1, c)
  {
    assert OptOf(w) == BindAddress;
    StepOfLink(c, role, BindAddress, Some(v), checks);
    Pair(c, role, w, BindAddress, v, rest, checks);
  }

  lemma UsernameWord(c: Config, role: Role, w: string, v: string, rest: seq<string>, checks: Checks)
    requires w == "-u" || w == "--username"
    ensures Run(c, role, Read([w, v] + rest), checks) == Onward(role, rest, checks,
              Outcome(0, c.(link := c.link.(username := Some(v)))))
    ensures Run(c, role, Read([w]), checks) == Outcome(1, c)
  {
    assert OptOf(w) == Username;
    StepOfLink(c, role, Username, Some(v), checks);
    Pair(c, role, w, Username, v, rest, checks);
  }

  lemma PasswordWord(c: Config, role: Role, w: string, v: string, rest: seq<string>, checks: Checks)
    requires w == "-P" || w == "--pw"
    ensures Run(c, role, Read([w, v] + rest), checks) == Onward(role, rest, checks,
              Outcome(0, c.(link := c.link.(password := Some(v)))))
    ensures Run(c, role, Read([w]), checks) == Outcome(1, c)
  {
    assert OptOf(w) == Password;
    StepOfLink(c, role, Password, Some(v), checks);
    Pair(c, role, w, Password, v, rest, checks);
  }

  // Id and id prefix exclude each other

  lemma IdWord(c: Config, role: Role, w: string, v: string, rest: seq<string>, checks: Checks)
    requires w == "-i" || w == "--id"
    ensures Run(c, role, Read([w, v] + rest), checks) == Onward(role, rest, checks,
              if c.link.idPrefix.Some? then Outcome(1, c) else Outcome(0, c.(link := c.link.(id := Some(v)))))
    ensures Run(c, role, Read([w]), checks) == Outcome(1, c)
  {
    assert OptOf(w) == Id;
    StepOfLink(c, role, Id, Some(v), checks);
    Pair(c, role, w, Id, v, rest, checks);
  }

  lemma IdPrefixWord(c: Config, role: Role, w: string, v: string, rest: seq<string>, checks: Checks)
    requires w == "-I" || w == "--id-prefix"
    ensures Run(c, role, Read([w, v] + rest), checks) == Onward(role, rest, checks,
              if c.link.id.Some? then Outcome(1, c) else Outcome(0, c.(link := c.link.(idPrefix := Some(v)))))
    ensures Run(c, role, Read([w]), checks) == Outcome(1, c)
  {
    assert OptOf(w) == IdPrefix;
    StepOfLink(c, role, IdPrefix, Some(v), checks);
    Pair(c, role, w, IdPrefix, v, rest, checks);
  }

  // Numbers, stored before they are checked: a refused one stays in the record

  lemma PortWord(c: Config, role: Role, w: string, v: string, rest: seq<string>, checks: Checks)
    requires w == "-p" || w == "--port"
    ensures Run(c, role, Read([w, v] + rest), checks) == Onward(role, rest, checks,
              Outcome(if 1 <= Atoi(v) <= 65535 then 0 else 1, c.(link := c.link.(port := Atoi(v)))))
    ensures Run(c, role, Read([w]), checks) == Outcome(1, c)
  {
    assert OptOf(w) == Port;
    StepOfLink(c, role, Port, Some(v), checks);
    Pair(c, role, w, Port, v, rest, checks);
  }

  lemma KeepaliveWord(c: Config, role: Role, w: string, v: string, rest: seq<string>, checks: Checks)
    requires w == "-k" || w == "--keepalive"
    ensures Run(c, role, Read([w, v] + rest), checks) == Onward(role, rest, checks,
              Outcome(if Atoi(v) <= 65535 then 0 else 1, c.(link := c.link.(keepalive := Atoi(v)))))
    ensures Run(c, role, Read([w]), checks) == Outcome(1, c)
  {
    assert OptOf(w) == Keepalive by {
      assert |w| == 2 || |w| == 11;
    }
    StepOfLink(c, role, Keepalive, Some(v), checks);
    Pair(c, role, w, Keepalive, v, rest, checks);
  }

  lemma MaxInflightWord(c: Config, role: Role, w: string, v: string, rest: seq<string>, checks: Checks)
    requires w == "-M"
    ensures Run(c, role, Read([w, v] + rest), checks) == Onward(role, rest, checks,
              Outcome(0, c.(link := c.link.(maxInflight := Atoi(v) % 0x1_0000_0000))))
    ensures Run(c, role, Read([w]), checks) == Outcome(1, c)
  {
    assert OptOf(w) == MaxInflight;
    StepOfLink(c, role, MaxInflight, Some(v), checks);
    Pair(c, role, w, MaxInflight, v, rest, checks);
  }

  // The quality of service, and the protocol by its name

  lemma QosWord(c: Config, role: Role, w: string, v: string, rest: seq<string>, checks: Checks)
    requires w == "-q" || w == "--qos"
    ensures Run(c, role, Read([w, v] + rest), checks) == Onward(role, rest, checks,
              Outcome(if 0 <= Atoi(v) <= 2 then 0 else 1, c.(link := c.link.(qos := Atoi(v)))))
    ensures Run(c, role, Read([w]), checks) == Outcome(1, c)
  {
    assert OptOf(w) == Qos;
    StepOfLink(c, role, Qos, Some(v), checks);
    Pair(c, role, w, Qos, v, rest, checks);
  }

  lemma ProtocolVersionWord(c: Config, role: Role, w: string, v: string, rest: seq<string>, checks: Checks)
    requires w == "-V" || w == "--protocol-version"
    ensures Run(c, role, Read([w, v] + rest), checks) == Onward(role, rest, checks,
              if v == "mqttv31" then Outcome(0, c.(link := c.link.(protocolVersion := V31)))
              else if v == "mqttv311" then Outcome(0, c.(link := c.link.(protocolVersion := V311)))
              else Outcome(1, c))
    ensures Run(c, role, Read([w]), checks) == Outcome(1, c)
  {
    assert OptOf(w) == ProtocolVersion;
    StepOfLink(c, role, ProtocolVersion, Some(v), checks);
    Pair(c, role, w, ProtocolVersion, v, rest, checks);
  }

  // Switches of both clients

  lemma DebugWord(c: Config, role: Role, w: string, rest: seq<string>, checks: Checks)
    requires w == "-d" || w == "--debug"
    ensures Run(c, role, Read([w] + rest), checks) == Onward(role, rest, checks,
              Outcome(0, c.(link := c.link.(debug := true))))
  {
    assert OptOf(w) == Debug;
    StepOfLink(c, role, Debug, None, checks);
    Single(c, role, w, Debug, rest, checks);
  }

  lemma QuietWord(c: Config, role: Role, w: string, rest: seq<string>, checks: Checks)
    requires w == "--quiet"
    ensures Run(c, role, Read([w] + rest), checks) == Onward(role, rest, checks,
              Outcome(0, c.(link := c.link.(quiet := true))))
  {
    assert OptOf(w) == Quiet;
    StepOfLink(c, role, Quiet, None, checks);
    Single(c, role, w, Quiet, rest, checks);
  }

  lemma WillRetainWord(c: Config, role: Role, w: string, rest: seq<string>, checks: Checks)
    requires w == "--will-retain"
    ensures Run(c, role, Read([w] + rest), checks) == Onward(role, rest, checks,
              Outcome(0, c.(will := c.will.(retain := true))))
  {
    assert OptOf(w) == WillRetain;
    StepOfWill(c, role, WillRetain, None, checks);
    Single(c, role, w, WillRetain, rest, checks);
  }

  lemma HelpWord(c: Config, role: Role, w: string, rest: seq<string>, checks: Checks)
    requires w == "--help"
    ensures Run(c, role, Read([w] + rest), checks) == Onward(role, rest, checks, Outcome(2, c))
  {
    assert OptOf(w) == Help;
    StepOfLink(c, role, Help, None, checks);
    Single(c, role, w, Help, rest, checks);
  }

  // A subscriber collects topics; a publisher keeps the last one

  lemma TopicStep(c: Config, role: Role, v: string, checks: Checks)
    ensures Step(c, role, Topic, Some(v), checks)
         == if role == Pub then
              if checks.pubTopic(v) then Outcome(0, c.(link := c.link.(topic := Some(v)))) else Outcome(1, c)
            else if checks.subTopic(v) then
              Outcome(0, c.(sub := c.sub.(topics := c.sub.topics + [v], topicCount := c.sub.topicCount + 1)))
            else Outcome(1, c)
  {
  }

  lemma TopicWord(c: Config, role: Role, w: string, v: string, rest: seq<string>, checks: Checks)
    requires w == "-t" || w == "--topic"
    ensures Run(c, role, Read([w, v] + rest), checks) == Onward(role, rest, checks,
              if role == Pub then
                if checks.pubTopic(v) then Outcome(0, c.(link := c.link.(topic := Some(v)))) else Outcome(1, c)
              else if checks.subTopic(v) then
                Outcome(0, c.(sub := c.sub.(topics := c.sub.topics + [v], topicCount := c.sub.topicCount + 1)))
              else Outcome(1, c))
    ensures Run(c, role, Read([w]), checks) == Outcome(1, c)
  {
    assert OptOf(w) == Topic;
    TopicStep(c, role, v, checks);
    Pair(c, role, w, Topic, v, rest, checks);
  }

  lemma PubTopicWord(c: Config, role: Role, w: string, v: string, rest: seq<string>, checks: Checks)
    requires w == "-b" || w == "--pub-topic"
    ensures Run(c, role, Read([w, v] + rest), checks) == Onward(role, rest, checks,
              if checks.pubTopic(v) then Outcome(0, c.(link := c.link.(topic := Some(v)))) else Outcome(1, c))
    ensures Run(c, role, Read([w]), checks) == Outcome(1, c)
  {
    assert OptOf(w) == PubTopic;
    StepOfTopic(c, role, PubTopic, Some(v), checks);
    Pair(c, role, w, PubTopic, v, rest, checks);
  }

  // What to publish is chosen once, here with its content

  lemma FileWord(c: Config, role: Role, w: string, v: string, rest: seq<string>, checks: Checks)
    requires w == "-f" || w == "--file"
    ensures Run(c, role, Read([w, v] + rest), checks) == Onward(role, rest, checks,
              if role == Sub || c.pub.mode != NoMode then Outcome(1, c)
              else Outcome(0, c.(pub := c.pub.(mode := FileMode, fileInput := Some(v)))))
    ensures Run(c, role, Read([w]), checks) == Outcome(1, c)
  {
    assert OptOf(w) == File;
    StepOfPub(c, role, File, Some(v), checks);
    Pair(c, role, w, File, v, rest, checks);
  }

  lemma MessageWord(c: Config, role: Role, w: string, v: string, rest: seq<string>, checks: Checks)
    requires w == "-m" || w == "--message"
    ensures Run(c, role, Read([w, v] + rest), checks) == Onward(role, rest, checks,
              if role == Sub || c.pub.mode != NoMode then Outcome(1, c)
              else Outcome(0, c.(pub := c.pub.(mode := CmdMode, message := Some(v), msgLen := |v|))))
    ensures Run(c, role, Read([w]), checks) == Outcome(1, c)
  {
    assert OptOf(w) == Message;
    StepOfPub(c, role, Message, Some(v), checks);
    Pair(c, role, w, Message, v, rest, checks);
  }

  // And here without

  lemma StdinLineWord(c: Config, role: Role, w: string, rest: seq<string>, checks: Checks)
    requires w == "-l" || w == "--stdin-line"
    ensures Run(c, role, Read([w] + rest), checks) == Onward(role, rest, checks,
              if role == Sub || c.pub.mode != NoMode then Outcome(1, c)
              else Outcome(0, c.(pub := c.pub.(mode := StdinLineMode))))
  {
    assert OptOf(w) == StdinLine;
    StepOfPub(c, role, StdinLine, None, checks);
    Single(c, role, w, StdinLine, rest, checks);
  }

  lemma NullMessageWord(c: Config, role: Role, w: string, rest: seq<string>, checks: Checks)
    requires w == "-n" || w == "--null-message"
    ensures Run(c, role, Read([w] + rest), checks) == Onward(role, rest, checks,
              if role == Sub || c.pub.mode != NoMode then Outcome(1, c)
              else Outcome(0, c.(pub := c.pub.(mode := NullMode))))
  {
    assert OptOf(w) == NullMessage;
    StepOfPub(c, role, NullMessage, None, checks);
    Single(c, role, w, NullMessage, rest, checks);
  }

  lemma StdinFileWord(c: Config, role: Role, w: string, rest: seq<string>, checks: Checks)
    requires w == "-s" || w == "--stdin-file"
    ensures Run(c, role, Read([w] + rest), checks) == Onward(role, rest, checks,
              if role == Sub || c.pub.mode != NoMode then Outcome(1, c)
              else Outcome(0, c.(pub := c.pub.(mode := StdinFileMode))))
  {
    assert OptOf(w) == StdinFile by {
      assert |w| == 2 || |w| == 12;
    }
    StepOfPub(c, role, StdinFile, None, checks);
    Single(c, role, w, StdinFile, rest, checks);
  }

  lemma RetainWord(c: Config, role: Role, w: string, rest: seq<string>, checks: Checks)
    requires w == "-r" || w == "--retain"
    ensures Run(c, role, Read([w] + rest), checks) == Onward(role, rest, checks,
              if role == Sub then Outcome(1, c) else Outcome(0, c.(pub := c.pub.(retain := true))))
  {
    assert OptOf(w) == Retain;
    StepOfPub(c, role, Retain, None, checks);
    Single(c, role, w, Retain, rest, checks);
  }

  // What a subscriber receives

  lemma CountWord(c: Config, role: Role, w: string, v: string, rest: seq<string>, checks: Checks)
    requires w == "-C"
    ensures Run(c, role, Read([w, v] + rest), checks) == Onward(role, rest, checks,
              if role == Pub then Outcome(1, c)
              else Outcome(if Atoi(v) >= 1 then 0 else 1, c.(sub := c.sub.(msgCount := Atoi(v)))))
    ensures Run(c, role, Read([w]), checks) == Outcome(1, c)
  {
    assert OptOf(w) == Count;
    StepOfSub(c, role, Count, Some(v), checks);
    Pair(c, role, w, Count, v, rest, checks);
  }

  lemma FilterOutStep(c: Config, role: Role, v: string, checks: Checks)
    ensures Step(c, role, FilterOut, Some(v), checks)
         == if role == Pub || !checks.subTopic(v) then Outcome(1, c)
            else Outcome(0, c.(sub := c.sub.(filterOuts := c.sub.filterOuts + [v],
                                          filterOutCount := c.sub.filterOutCount + 1)))
  {
  }

  lemma FilterOutWord(c: Config, role: Role, w: string, v: string, rest: seq<string>, checks: Checks)
    requires w == "-T" || w == "--filter-out"
    ensures Run(c, role, Read([w, v] + rest), checks) == Onward(role, rest, checks,
              if role == Pub || !checks.subTopic(v) then Outcome(1, c)
              else Outcome(0, c.(sub := c.sub.(filterOuts := c.sub.filterOuts + [v],
                                            filterOutCount := c.sub.filterOutCount + 1))))
    ensures Run(c, role, Read([w]), checks) == Outcome(1, c)
  {
    assert OptOf(w) == FilterOut;
    FilterOutStep(c, role, v, checks);
    Pair(c, role, w, FilterOut, v, rest, checks);
  }

  // A subscriber's switches

  lemma DisableCleanSessionWord(c: Config, role: Role, w: string, rest: seq<string>, checks: Checks)
    requires w == "-c" || w == "--disable-clean-session"
    ensures Run(c, role, Read([w] + rest), checks) == Onward(role, rest, checks,
              if role == Pub then Outcome(1, c) else Outcome(0, c.(sub := c.sub.(cleanSession := false))))
  {
    assert OptOf(w) == DisableCleanSession;
    StepOfSub(c, role, DisableCleanSession, None, checks);
    Single(c, role, w, DisableCleanSession, rest, checks);
  }

  lemma NoEolWord(c: Config, role: Role, w: string, rest: seq<string>, checks: Checks)
    requires w == "-N"
    ensures Run(c, role, Read([w] + rest), checks) == Onward(role, rest, checks,
              if role == Pub then Outcome(1, c) else Outcome(0, c.(sub := c.sub.(eol := false))))
  {
    assert OptOf(w) == NoEol;
    StepOfSub(c, role, NoEol, None, checks);
    Single(c, role, w, NoEol, rest, checks);
  }

  lemma NoRetainWord(c: Config, role: Role, w: string, rest: seq<string>, checks: Checks)
    requires w == "-R"
    ensures Run(c, role, Read([w] + rest), checks) == Onward(role, rest, checks,
              if role == Pub then Outcome(1, c) else Outcome(0, c.(sub := c.sub.(noRetain := true))))
  {
    assert OptOf(w) == NoRetain;
    StepOfSub(c, role, NoRetain, None, checks);
    Single(c, role, w, NoRetain, rest, checks);
  }

  lemma VerboseWord(c: Config, role: Role, w: string, rest: seq<string>, checks: Checks)
    requires w == "-v" || w == "--verbose"
    ensures Run(c, role, Read([w] + rest), checks) == Onward(role, rest, checks,
              if role == Pub then Outcome(1, c) else Outcome(0, c.(sub := c.sub.(verbose := true))))
  {
    assert OptOf(w) == Verbose;
    StepOfSub(c, role, Verbose, None, checks);
    Single(c, role, w, Verbose, rest, checks);
  }

  // The client's will

  lemma WillPayloadWord(c: Config, role: Role, w: string, v: string, rest: seq<string>, checks: Checks)
    requires w == "--will-payload"
    ensures Run(c, role, Read([w, v] + rest), checks) == Onward(role, rest, checks,
              Outcome(0, c.(will := c.will.(payload := Some(v), payloadLen := |v|))))
    ensures Run(c, role, Read([w]), checks) == Outcome(1, c)
  {
    assert OptOf(w) == WillPayload;
    StepOfWill(c, role, WillPayload, Some(v), checks);
    Pair(c, role, w, WillPayload, v, rest, checks);
  }

  lemma WillQosWord(c: Config, role: Role, w: string, v: string, rest: seq<string>, checks: Checks)
    requires w == "--will-qos"
    ensures Run(c, role, Read([w, v] + rest), checks) == Onward(role, rest, checks,
              Outcome(if 0 <= Atoi(v) <= 2 then 0 else 1, c.(will := c.will.(qos := Atoi(v)))))
    ensures Run(c, role, Read([w]), checks) == Outcome(1, c)
  {
    assert OptOf(w) == WillQos;
    StepOfWill(c, role, WillQos, Some(v), checks);
    Pair(c, role, w, WillQos, v, rest, checks);
  }

  lemma WillTopicWord(c: Config, role: Role, w: string, v: string, rest: seq<string>, checks: Checks)
    requires w == "--will-topic"
    ensures Run(c, role, Read([w, v] + rest), checks) == Onward(role, rest, checks,
              if checks.pubTopic(v) then Outcome(0, c.(will := c.will.(topic := Some(v)))) else Outcome(1, c))
    ensures Run(c, role, Read([w]), checks) == Outcome(1, c)
  {
    assert OptOf(w) == WillTopic;
    StepOfWill(c, role, WillTopic, Some(v), checks);
    Pair(c, role, w, WillTopic, v, rest, checks);
  }

  /** Every other word is refused, whatever stands behind it. */
  lemma OtherWord(c: Config, role: Role, w: string, rest: seq<string>, checks: Checks)
    requires w !in {"-h", "--host", "-A", "-u", "--username", "-P", "--pw", "-i", "--id", "-I",
                     "--id-prefix", "-p", "--port", "-k", "--keepalive", "-M", "-q", "--qos", "-V",
                     "--protocol-version", "-d", "--debug", "--quiet", "--will-retain", "--help", "-t",
                     "--topic", "-b", "--pub-topic", "-f", "--file", "-m", "--message", "-l",
                     "--stdin-line", "-n", "--null-message", "-s", "--stdin-file", "-r", "--retain", "-C",
                     "-T", "--filter-out", "-c", "--disable-clean-session", "-N", "-R", "-v", "--verbose",
                     "--will-payload", "--will-qos", "--will-topic"}
    ensures Run(c, role, Read([w] + rest), checks) == Outcome(1, c)
  {
    if |w| == 2 {
      assert w == [w[0], w[1]];
    }
    assert OptOf(w) == Unknown;
    Single(c, role, w, Unknown, rest, checks);
  }
}
