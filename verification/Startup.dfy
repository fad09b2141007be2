/** What client_config_load of src/mqtt/client_shared.cc makes of a configuration file and an argument vector. */
module Startup {
  import opened Text
  import opened Options

  const ANON_UID_BASE := 9223372000000000000

  /** The generated user id: a random number's low 60 bits above the base of the anonymous range. */
  function AnonUid(rand: int): nat
    requires 0 <= rand
  {
    rand % 0x1000_0000_0000_0000 + ANON_UID_BASE
  }

  /** The configuration file, line by line; the first refusal ends it. */
  function RunLines(c: Config, role: Role, lines: seq<seq<string>>, checks: Checks): Outcome
    decreases |lines|
  {
    if lines == [] then Outcome(0, c)
    else
      var r := Run(c, role, Read(lines[0]), checks);
      if !r.Accepted() then r else RunLines(r.config, role, lines[1..], checks)
  }

  lemma RunLine(c: Config, role: Role, lines: seq<seq<string>>, k: nat, checks: Checks)
    requires k < |lines|
    ensures var r := Run(c, role, Read(lines[k]), checks);
            RunLines(c, role, lines[k..], checks)
            == if !r.Accepted() then r else RunLines(r.config, role, lines[k + 1..], checks)
  {
    assert lines[k..][0] == lines[k] && lines[k..][1..] == lines[k + 1..];
  }

  function WithIdentity(l: Link, rand: int): Link
    requires 0 <= rand
  {
    l.(host := if l.host.None? then Some("localhost") else l.host,
       username := if l.username.None? then Some(Decimal(AnonUid(rand))) else l.username,
       password := if l.password.None? then Some("codein.tv") else l.password)
  }

  /** A subscriber's topics and its topic to publish on; topicless subscribers follow their own user. */
  function WithTopics(c: Config): Config {
    var topics := if c.sub.topicCount == 0 then ["codein/live/" + c.link.username.GetOr("")] else c.sub.topics;
    var topic := if c.link.topic.Some? then c.link.topic
                 else if c.sub.topicCount == 0 then Some("codein/live")
                 else if topics == [] then None else Some(topics[0]);
    c.(link := c.link.(topic := topic),
       sub := c.sub.(topics := topics, topicCount := if c.sub.topicCount == 0 then 1 else c.sub.topicCount))
  }

  /** The checks and defaults once all words are processed. */
  function Finish(c: Config, role: Role, rand: int): Outcome
    requires 0 <= rand
  {
    if (c.will.payload.Some? || c.will.retain) && c.will.topic.None? then Outcome(1, c)
    else
      var d := c.(link := WithIdentity(c.link, rand));
      if role == Pub then Outcome(0, d)
      else if !d.sub.cleanSession && (d.link.idPrefix.Some? || d.link.id.None?) then Outcome(1, d)
      else Outcome(0, WithTopics(d))
  }

  function Load(role: Role, lines: seq<seq<string>>, argv: seq<string>, rand: int, checks: Checks): Outcome
    requires 0 <= rand
  {
    var file := RunLines(INITIAL, role, lines, checks);
    if !file.Accepted() then file
    else
      var all := Run(file.config, role, Words(argv), checks);
      if !all.Accepted() then all else Finish(all.config, role, rand)
  }

  lemma WordsBehindSlot(slot: string, line: seq<string>)
    ensures Words([slot] + line) == Read(line)
  {
  }

  // One pass

  /** The words of all lines in a row. */
  function Flatten(lines: seq<seq<string>>): seq<Word> {
    if lines == [] then [] else Read(lines[0]) + Flatten(lines[1..])
  }

  function AllWords(lines: seq<seq<string>>, argv: seq<string>): seq<Word> {
    Flatten(lines) + Words(argv)
  }

  predicate WholeLines(lines: seq<seq<string>>) {
    forall k :: 0 <= k < |lines| ==> Whole(Read(lines[k]))
  }

  /** On whole lines, accepted or refused, the file works as one list of words. */
  lemma {:induction false} LinesAreOnePass(c: Config, role: Role, lines: seq<seq<string>>, checks: Checks)
    requires WholeLines(lines)
    ensures Run(c, role, Flatten(lines), checks) == RunLines(c, role, lines, checks)
    ensures Whole(Flatten(lines))
    decreases |lines|
  {
    if lines == [] {
    } else {
      var r := Run(c, role, Read(lines[0]), checks);
      LinesAreOnePass(r.config, role, lines[1..], checks);
      ConcatenationLaw(c, role, Read(lines[0]), Flatten(lines[1..]), checks);
      WholeConcat(Read(lines[0]), Flatten(lines[1..]));
    }
  }

  lemma {:induction false} WholeConcat(a: seq<Word>, b: seq<Word>)
    requires Whole(a) && Whole(b)
    ensures Whole(a + b)
    decreases |a|
  {
    if a == [] {
      assert a + b == b;
    } else {
      FrontAlone(a, b);
      WholeConcat(a[Width(a)..], b);
    }
  }

  lemma {:induction false} AcceptedLinesAreWhole(c: Config, role: Role, lines: seq<seq<string>>, checks: Checks)
    requires RunLines(c, role, lines, checks).Accepted()
    ensures WholeLines(lines)
    decreases |lines|
  {
    if lines == [] {
    } else {
      AcceptedIsWhole(c, role, Read(lines[0]), checks);
      AcceptedLinesAreWhole(Run(c, role, Read(lines[0]), checks).config, role, lines[1..], checks);
      WholeLinesCons(lines);
    }
  }

  lemma WholeLinesCons(lines: seq<seq<string>>)
    requires lines != [] && Whole(Read(lines[0])) && WholeLines(lines[1..])
    ensures WholeLines(lines)
  {
    forall k | 0 <= k < |lines|
      ensures Whole(Read(lines[k]))
    {
      assert k > 0 ==> lines[k] == lines[1..][k - 1];
    }
  }

  /** A file of whole lines works as if its words stood in front of the arguments, refusals included. */
  lemma WholeLoadIsOnePass(role: Role, lines: seq<seq<string>>, argv: seq<string>, rand: int, checks: Checks)
    requires 0 <= rand && WholeLines(lines)
    ensures var r := Run(INITIAL, role, AllWords(lines, argv), checks);
            Load(role, lines, argv, rand, checks) == if r.Accepted() then Finish(r.config, role, rand) else r
  {
    LinesAreOnePass(INITIAL, role, lines, checks);
    ConcatenationLaw(INITIAL, role, Flatten(lines), Words(argv), checks);
  }

  /** So does a file whose lines are all accepted. */
  lemma LoadIsOnePass(role: Role, lines: seq<seq<string>>, argv: seq<string>, rand: int, checks: Checks)
    requires 0 <= rand && RunLines(INITIAL, role, lines, checks).Accepted()
    ensures var r := Run(INITIAL, role, AllWords(lines, argv), checks);
            Load(role, lines, argv, rand, checks) == if r.Accepted() then Finish(r.config, role, rand) else r
  {
    AcceptedLinesAreWhole(INITIAL, role, lines, checks);
    WholeLoadIsOnePass(role, lines, argv, rand, checks);
  }

  /** The settings in file and arguments, values told apart from options, no matter what they do. */
  function Settings(lines: seq<seq<string>>, argv: seq<string>): seq<Item> {
    Items(AllWords(lines, argv))
  }

  /** What the final checks ask of the settings: a will needs its topic, a kept session an id. */
  predicate Complete(role: Role, items: seq<Item>) {
    && (Has(items, WillPayload) || Has(items, WillRetain) ==> Has(items, WillTopic))
    && (role == Sub && Has(items, DisableCleanSession) ==> Has(items, Id) && !Has(items, IdPrefix))
  }

  lemma FinishVerdict(role: Role, items: seq<Item>, rand: int)
    requires 0 <= rand
    ensures Finish(Reading(INITIAL, role, items), role, rand).Accepted() <==> Complete(role, items)
  {
  }

  /** The exact verdict on a load: every line and the arguments are whole, and all settings together are acceptable
      and complete. Where only the last is missing the result code is 1. */
  lemma LoadVerdict(role: Role, lines: seq<seq<string>>, argv: seq<string>, rand: int, checks: Checks)
    requires 0 <= rand
    ensures var whole := WholeLines(lines) && Whole(Words(argv))
                         && Acceptable(INITIAL, role, Settings(lines, argv), checks);
            var r := Load(role, lines, argv, rand, checks);
            && (r.Accepted() <==> whole && Complete(role, Settings(lines, argv)))
            && (whole && !Complete(role, Settings(lines, argv)) ==> r.rc == 1)
  {
    if Load(role, lines, argv, rand, checks).Accepted() {
      AcceptedLinesAreWhole(INITIAL, role, lines, checks);
      AcceptedIsWhole(RunLines(INITIAL, role, lines, checks).config, role, Words(argv), checks);
    }
    if WholeLines(lines) && Whole(Words(argv)) {
      var words := AllWords(lines, argv);
      WholeLoadIsOnePass(role, lines, argv, rand, checks);
      LinesAreOnePass(INITIAL, role, lines, checks);
      WholeConcat(Flatten(lines), Words(argv));
      RunVerdict(INITIAL, role, words, checks);
      if Run(INITIAL, role, words, checks).Accepted() {
        SettingsDecide(INITIAL, role, words, checks);
        FinishVerdict(role, Items(words), rand);
      }
    }
  }

  // The record a successful load leaves, field by field

  lemma LoadFinishes(role: Role, lines: seq<seq<string>>, argv: seq<string>, rand: int, checks: Checks)
    requires 0 <= rand && Load(role, lines, argv, rand, checks).Accepted()
    ensures Load(role, lines, argv, rand, checks)
         == Finish(Reading(INITIAL, role, Settings(lines, argv)), role, rand)
  {
    LoadIsOnePass(role, lines, argv, rand, checks);
    SettingsDecide(INITIAL, role, AllWords(lines, argv), checks);
  }

  /** Host, user, password, topics and topic apart, nothing changes behind the words. */
  lemma FinishKeeps(c: Config, role: Role, rand: int)
    requires 0 <= rand && Finish(c, role, rand).Accepted()
    ensures var d := Finish(c, role, rand).config;
            && d.pub == c.pub && d.will == c.will
            && d.link.(topic := c.link.topic, host := c.link.host, username := c.link.username,
                       password := c.link.password) == c.link
            && d.sub.(topics := c.sub.topics, topicCount := c.sub.topicCount) == c.sub
            && (role == Pub ==> d.link.topic == c.link.topic && d.sub == c.sub)
  {
  }

  lemma LoadKeeps(role: Role, lines: seq<seq<string>>, argv: seq<string>, rand: int, checks: Checks)
    requires 0 <= rand && Load(role, lines, argv, rand, checks).Accepted()
    ensures var items, d := Settings(lines, argv), Load(role, lines, argv, rand, checks).config;
            var link, u := ReadLink(INITIAL.link, role, items), ReadSub(INITIAL.sub, role, items);
            && d.pub == ReadPub(INITIAL.pub, items) && d.will == ReadWill(INITIAL.will, items)
            && d.link.(topic := link.topic, host := link.host, username := link.username,
                       password := link.password) == link
            && d.sub.(topics := u.topics, topicCount := u.topicCount) == u
            && (role == Pub ==> d.link.topic == link.topic && d.sub == u)
  {
    LoadFinishes(role, lines, argv, rand, checks);
    FinishKeeps(Reading(INITIAL, role, Settings(lines, argv)), role, rand);
  }

  lemma LoadNames(role: Role, lines: seq<seq<string>>, argv: seq<string>, rand: int, checks: Checks)
    requires 0 <= rand && Load(role, lines, argv, rand, checks).Accepted()
    ensures var l, items := Load(role, lines, argv, rand, checks).config.link, Settings(lines, argv);
            && l.host == Last(items, Host, Some("localhost"))
            && l.username == Last(items, Username, Some(Decimal(AnonUid(rand))))
            && l.password == Last(items, Password, Some("codein.tv"))
  {
    LoadFinishes(role, lines, argv, rand, checks);
  }

  lemma LimitOf(items: seq<Item>)
    ensures (if Has(items, MaxInflight) then Unsigned(Number(items, MaxInflight, 0)) else 20)
         == Number(items, MaxInflight, 20) % 0x1_0000_0000
  {
  }

  lemma VersionGiven(v: Option<string>)
    ensures (if v.Some? then VersionOf(v.value) else V31) == if v.GetOr("mqttv31") == "mqttv31" then V31 else V311
  {
  }

  /** Host, user and password: the last one given, else the default. */
  lemma LoadedIdentity(role: Role, lines: seq<seq<string>>, argv: seq<string>, rand: int, checks: Checks)
    requires 0 <= rand && Load(role, lines, argv, rand, checks).Accepted()
    ensures var l, items := Load(role, lines, argv, rand, checks).config.link, Settings(lines, argv);
            && l.host == Last(items, Host, Some("localhost"))
            && l.username == Last(items, Username, Some(Decimal(rand % 0x1000_0000_0000_0000 + 9223372000000000000)))
            && l.password == Last(items, Password, Some("codein.tv"))
  {
    LoadNames(role, lines, argv, rand, checks);
  }

  /** The other fields of the connection, but for the topic: what was given last, else the initial value. */
  lemma LoadedLink(role: Role, lines: seq<seq<string>>, argv: seq<string>, rand: int, checks: Checks)
    requires 0 <= rand && Load(role, lines, argv, rand, checks).Accepted()
    ensures var l, items := Load(role, lines, argv, rand, checks).config.link, Settings(lines, argv);
            && l.id == Given(items, Id) && l.idPrefix == Given(items, IdPrefix)
            && l.bindAddress == Given(items, BindAddress)
            && l.protocolVersion == (if Given(items, ProtocolVersion).GetOr("mqttv31") == "mqttv31" then V31 else V311)
            && l.port == Number(items, Port, 1883) && l.keepalive == Number(items, Keepalive, 60)
            && l.qos == Number(items, Qos, 0) && l.maxInflight == Number(items, MaxInflight, 20) % 0x1_0000_0000
            && l.debug == Has(items, Debug) && l.quiet == Has(items, Quiet)
  {
    LoadKeeps(role, lines, argv, rand, checks);
    LimitOf(Settings(lines, argv));
    VersionGiven(Given(Settings(lines, argv), ProtocolVersion));
  }

  /** A subscriber's topics: all -t values in order, or the user's own live topic; what it publishes on is the last -b
      value, else the first -t value, else the common live topic. */
  lemma LoadedTopics(lines: seq<seq<string>>, argv: seq<string>, rand: int, checks: Checks)
    requires 0 <= rand && Load(Sub, lines, argv, rand, checks).Accepted()
    ensures var c, items := Load(Sub, lines, argv, rand, checks).config, Settings(lines, argv);
            var given := Values(items, Topic);
            && c.link.username.Some?
            && c.sub.topicCount == |c.sub.topics|
            && c.sub.topics == (if given == [] then ["codein/live/" + c.link.username.value] else given)
            && c.link.topic == Last(items, PubTopic, Some(if given == [] then "codein/live" else given[0]))
  {
    var items := Settings(lines, argv);
    LoadFinishes(Sub, lines, argv, rand, checks);
    SubscriberTopic(items);
    assert [] + Values(items, Topic) == Values(items, Topic);
    FinishTopics(Reading(INITIAL, Sub, items), rand);
  }

  lemma FinishTopics(c: Config, rand: int)
    requires 0 <= rand && Finish(c, Sub, rand).Accepted() && c.sub.topicCount == |c.sub.topics|
    ensures var d, given := Finish(c, Sub, rand).config, c.sub.topics;
            && d.link.username.Some? && d.sub.topicCount == |d.sub.topics|
            && d.sub.topics == (if given == [] then ["codein/live/" + d.link.username.value] else given)
            && d.link.topic == Or(c.link.topic, Some(if given == [] then "codein/live" else given[0]))
  {
  }

  /** A publisher's topic is the last of its -t and -b values; it subscribes to nothing. */
  lemma LoadedPublishTopic(lines: seq<seq<string>>, argv: seq<string>, rand: int, checks: Checks)
    requires 0 <= rand && Load(Pub, lines, argv, rand, checks).Accepted()
    ensures var c := Load(Pub, lines, argv, rand, checks).config;
            && c.link.topic == GivenTopic(Settings(lines, argv), Pub)
            && c.sub == Subscribing(true, [], 0, false, [], 0, false, true, 0)
  {
    var items := Settings(lines, argv);
    LoadKeeps(Pub, lines, argv, rand, checks);
    LoadIsOnePass(Pub, lines, argv, rand, checks);
    RolesKeepApart(INITIAL, Pub, AllWords(lines, argv), checks);
  }

  /** What a subscriber receives, and how it shows it. */
  lemma LoadedSubscriber(lines: seq<seq<string>>, argv: seq<string>, rand: int, checks: Checks)
    requires 0 <= rand && Load(Sub, lines, argv, rand, checks).Accepted()
    ensures var u, items := Load(Sub, lines, argv, rand, checks).config.sub, Settings(lines, argv);
            && u.cleanSession == !Has(items, DisableCleanSession) && u.eol == !Has(items, NoEol)
            && u.noRetain == Has(items, NoRetain) && u.verbose == Has(items, Verbose)
            && u.msgCount == Number(items, Count, 0)
            && u.filterOuts == Values(items, FilterOut) && u.filterOutCount == |u.filterOuts|
  {
    LoadKeeps(Sub, lines, argv, rand, checks);
    SubscriberRead(Settings(lines, argv));
  }

  lemma SubscriberRead(items: seq<Item>)
    ensures var u := ReadSub(INITIAL.sub, Sub, items);
            && u.cleanSession == !Has(items, DisableCleanSession) && u.eol == !Has(items, NoEol)
            && u.noRetain == Has(items, NoRetain) && u.verbose == Has(items, Verbose)
            && u.msgCount == Number(items, Count, 0)
            && u.filterOuts == Values(items, FilterOut) && u.filterOutCount == |u.filterOuts|
  {
    assert [] + Values(items, FilterOut) == Values(items, FilterOut);
  }

  /** Over file and arguments together at most one message is chosen to publish, which fixes mode, file and message. */
  lemma LoadedMode(role: Role, lines: seq<seq<string>>, argv: seq<string>, rand: int, checks: Checks)
    requires 0 <= rand && Load(role, lines, argv, rand, checks).Accepted()
    ensures var p, items := Load(role, lines, argv, rand, checks).config.pub, Settings(lines, argv);
            && |Modes(items)| <= 1 && p.retain == Has(items, Retain)
            && p.mode == (if Has(items, File) then FileMode else if Has(items, StdinLine) then StdinLineMode
                          else if Has(items, Message) then CmdMode else if Has(items, NullMessage) then NullMode
                          else if Has(items, StdinFile) then StdinFileMode else NoMode)
            && p.fileInput == Given(items, File) && p.message == Given(items, Message)
            && p.msgLen == (if Has(items, Message) then |Given(items, Message).value| else 0)
            && (role == Sub ==> Modes(items) == [] && p == Publishing(false, NoMode, None, None, 0))
  {
    var items, words := Settings(lines, argv), AllWords(lines, argv);
    LoadKeeps(role, lines, argv, rand, checks);
    LoadIsOnePass(role, lines, argv, rand, checks);
    OneMode(INITIAL, role, words, checks);
    RolesKeepApart(INITIAL, role, words, checks);
    if role == Sub {
      RunVerdict(INITIAL, role, words, checks);
      NoModes(items);
    }
    ModeOfOne(items);
  }

  lemma ModeOfOne(items: seq<Item>)
    requires |Modes(items)| <= 1
    ensures ReadPub(INITIAL.pub, items).mode
         == (if Has(items, File) then FileMode else if Has(items, StdinLine) then StdinLineMode
             else if Has(items, Message) then CmdMode else if Has(items, NullMessage) then NullMode
             else if Has(items, StdinFile) then StdinFileMode else NoMode)
  {
    GivenModeIsLastMode(items);
    OnlyMode(items, File);
    OnlyMode(items, StdinLine);
    OnlyMode(items, Message);
    OnlyMode(items, NullMessage);
    OnlyMode(items, StdinFile);
    ModesAreModes(items);
    assert GivenMode(items) == if Modes(items) == [] then None else Some(Modes(items)[0]);
  }

  lemma {:induction false} ModesAreModes(items: seq<Item>)
    ensures forall k :: 0 <= k < |Modes(items)| ==> IsMode(Modes(items)[k].opt)
  {
    if items == [] {
    } else {
      ModesAreModes(items[1..]);
    }
  }

  lemma {:induction false} NoModes(items: seq<Item>)
    requires forall k :: 0 <= k < |items| ==> !IsMode(items[k].opt)
    ensures Modes(items) == []
  {
    if items == [] {
    } else {
      NoModes(items[1..]);
    }
  }

  /** The will is what was given of it. */
  lemma LoadedWill(role: Role, lines: seq<seq<string>>, argv: seq<string>, rand: int, checks: Checks)
    requires 0 <= rand && Load(role, lines, argv, rand, checks).Accepted()
    ensures var will, items := Load(role, lines, argv, rand, checks).config.will, Settings(lines, argv);
            && will.topic == Given(items, WillTopic) && will.payload == Given(items, WillPayload)
            && will.payloadLen == (if Has(items, WillPayload) then |Given(items, WillPayload).value| else 0)
            && will.qos == Number(items, WillQos, 0) && will.retain == Has(items, WillRetain)
  {
    LoadKeeps(role, lines, argv, rand, checks);
  }

  // What a successful load guarantees

  ghost predicate Ready(c: Config, role: Role) {
    && Consistent(c)
    && c.link.host.Some? && c.link.username.Some? && c.link.password.Some?
    && (c.will.payload.Some? || c.will.retain ==> c.will.topic.Some?)
    && (role == Sub ==>
          && (!c.sub.cleanSession ==> c.link.id.Some? && c.link.idPrefix.None?)
          && c.sub.topicCount >= 1 && c.link.topic.Some?)
  }

  /** Every successful load, whatever the file and the arguments, leaves a configuration ready for use. */
  lemma LoadedIsReady(role: Role, lines: seq<seq<string>>, argv: seq<string>, rand: int, checks: Checks)
    requires 0 <= rand && Load(role, lines, argv, rand, checks).Accepted()
    ensures Ready(Load(role, lines, argv, rand, checks).config, role)
  {
    LoadIsOnePass(role, lines, argv, rand, checks);
    RunConsistent(INITIAL, role, AllWords(lines, argv), checks);
    FinishReady(Run(INITIAL, role, AllWords(lines, argv), checks).config, role, rand);
  }

  lemma FinishReady(c: Config, role: Role, rand: int)
    requires 0 <= rand && Consistent(c) && Finish(c, role, rand).Accepted()
    ensures Ready(Finish(c, role, rand).config, role)
  {
  }
}
