/** The command-line and configuration-file options of src/mqtt/client_shared.cc, as the makefile builds them. */
module Options {
  import opened Text

  datatype Role = Pub | Sub

  /** The branches of the option chain; Unknown is the last one. */
  datatype Opt =
    | Port | BindAddress | Count | Debug | File | Help | Host | Id | IdPrefix | Keepalive | StdinLine | Message
    | MaxInflight | NullMessage | ProtocolVersion | Qos | Quiet | Retain | StdinFile | Topic | PubTopic | FilterOut
    | Username | Password | WillPayload | WillQos | WillRetain | WillTopic | DisableCleanSession | NoEol | NoRetain
    | Verbose | Unknown

  datatype Protocol = V31 | V311

  datatype PubMode = NoMode | CmdMode | StdinLineMode | StdinFileMode | FileMode | NullMode

  /** mosquitto's own checks on topics, which are not part of this model. */
  datatype Checks = Checks(pubTopic: string -> bool, subTopic: string -> bool)

  /** A snapshot of struct mosq_config, its fields grouped by who sets them; None is a null pointer. */
  datatype Config = Config(link: Link, pub: Publishing, sub: Subscribing, will: Will)

  /** Fields both kinds of client use. */
  datatype Link = Link(
    id: Option<string>, idPrefix: Option<string>, protocolVersion: Protocol, keepalive: int,
    host: Option<string>, port: int, qos: int, topic: Option<string>, bindAddress: Option<string>,
    debug: bool, quiet: bool, maxInflight: int, username: Option<string>, password: Option<string>)

  /** Fields only a publisher's options set. */
  datatype Publishing = Publishing(
    retain: bool, mode: PubMode, fileInput: Option<string>, message: Option<string>, msgLen: int)

  /** Fields only a subscriber's options set. */
  datatype Subscribing = Subscribing(
    cleanSession: bool, topics: seq<string>, topicCount: int, noRetain: bool,
    filterOuts: seq<string>, filterOutCount: int, verbose: bool, eol: bool, msgCount: int)

  datatype Will = Will(topic: Option<string>, payload: Option<string>, payloadLen: int, qos: int, retain: bool)

  /** The option a word names. The words the option chain compares with all differ, so here they are grouped by
      length. */
  function OptOf(w: string): Opt {
    if |w| == 2 && w[0] == '-' then ShortOpt(w[1]) else LongOpt(w)
  }

  function ShortOpt(c: char): Opt {
    match c
    case 'p' => Port
    case 'A' => BindAddress
    case 'C' => Count
    case 'd' => Debug
    case 'f' => File
    case 'h' => Host
    case 'i' => Id
    case 'I' => IdPrefix
    case 'k' => Keepalive
    case 'l' => StdinLine
    case 'm' => Message
    case 'M' => MaxInflight
    case 'n' => NullMessage
    case 'V' => ProtocolVersion
    case 'q' => Qos
    case 'r' => Retain
    case 's' => StdinFile
    case 't' => Topic
    case 'b' => PubTopic
    case 'T' => FilterOut
    case 'u' => Username
    case 'P' => Password
    case 'c' => DisableCleanSession
    case 'N' => NoEol
    case 'R' => NoRetain
    case 'v' => Verbose
    case _ => Unknown
  }

  function LongOpt(w: string): Opt {
    match |w|
    case 4 => if w == "--id" then Id else if w == "--pw" then Password else Unknown
    case 5 => if w == "--qos" then Qos else Unknown
    case 6 =>
      if w == "--port" then Port
      else if w == "--file" then File
      else if w == "--help" then Help
      else if w == "--host" then Host
      else Unknown
    case 7 =>
      if w == "--debug" then Debug
      else if w == "--quiet" then Quiet
      else if w == "--topic" then Topic
      else Unknown
    case 8 => if w == "--retain" then Retain else Unknown
    case 9 => if w == "--message" then Message else if w == "--verbose" then Verbose else Unknown
    case 10 => if w == "--username" then Username else if w == "--will-qos" then WillQos else Unknown
    case 11 =>
      if w == "--id-prefix" then IdPrefix
      else if w == "--keepalive" then Keepalive
      else if w == "--pub-topic" then PubTopic
      else Unknown
    case 12 =>
      if w == "--stdin-line" then StdinLine
      else if w == "--stdin-file" then StdinFile
      else if w == "--filter-out" then FilterOut
      else if w == "--will-topic" then WillTopic
      else Unknown
    case 13 => if w == "--will-retain" then WillRetain else Unknown
    case 14 =>
      if w == "--null-message" then NullMessage
      else if w == "--will-payload" then WillPayload
      else Unknown
    case 18 => if w == "--protocol-version" then ProtocolVersion else Unknown
    case 23 => if w == "--disable-clean-session" then DisableCleanSession else Unknown
    case _ => Unknown
  }

  /** A word of the command line together with the option it would name. */
  datatype Word = Word(text: string, names: Opt)

  function Read(args: seq<string>): (words: seq<Word>)
    ensures |words| == |args|
    ensures forall i :: 0 <= i < |args| ==> words[i] == Word(args[i], OptOf(args[i]))
  {
    seq(|args|, i requires 0 <= i < |args| => Word(args[i], OptOf(args[i])))
  }

  /** The words of an argument vector, whose first entry the option loop skips. */
  function Words(argv: seq<string>): (words: seq<Word>) {
    if argv == [] then [] else Read(argv)[1..]
  }

  // The options as a table

  /** The options that consume the next word. */
  predicate TakesValue(o: Opt) {
    && o != Debug && o != Help && o != StdinLine && o != NullMessage && o != Quiet && o != Retain && o != StdinFile
    && o != WillRetain && o != DisableCleanSession && o != NoEol && o != NoRetain && o != Verbose && o != Unknown
  }

  /** The options that choose what to publish. */
  predicate IsMode(o: Opt) {
    o == File || o == StdinLine || o == Message || o == NullMessage || o == StdinFile
  }

  predicate SubOnly(o: Opt) {
    o == Count || o == FilterOut || o == DisableCleanSession || o == NoEol || o == NoRetain || o == Verbose
  }

  predicate PubOnly(o: Opt) {
    IsMode(o) || o == Retain
  }

  /** The options a client of this role knows. */
  predicate Known(o: Opt, role: Role) {
    o != Unknown && (SubOnly(o) ==> role == Sub) && (PubOnly(o) ==> role == Pub)
  }

  /** The options that exclude each other. */
  predicate Compatible(o: Opt, c: Config) {
    && (IsMode(o) ==> c.pub.mode == NoMode)
    && (o == Id ==> c.link.idPrefix.None?)
    && (o == IdPrefix ==> c.link.id.None?)
  }

  /** Values checked before they are stored. */
  predicate Accepts(o: Opt, v: string, role: Role, checks: Checks) {
    && (o == ProtocolVersion ==> v == "mqttv31" || v == "mqttv311")
    && (o == PubTopic || o == WillTopic || (o == Topic && role == Pub) ==> checks.pubTopic(v))
    && (o == FilterOut || (o == Topic && role == Sub) ==> checks.subTopic(v))
  }

  /** Numbers checked after they are stored. */
  predicate InRange(o: Opt, v: string) {
    && (o == Port ==> 1 <= Atoi(v) <= 65535)
    && (o == Count ==> Atoi(v) >= 1)
    && (o == Keepalive ==> Atoi(v) <= 65535)
    && (o == Qos || o == WillQos ==> 0 <= Atoi(v) <= 2)
  }

  /** An unsigned int made of an int. */
  function Unsigned(n: int): int {
    n % 0x1_0000_0000
  }

  function VersionOf(v: string): Protocol {
    if v == "mqttv31" then V31 else V311
  }

  function ModeOf(o: Opt): PubMode {
    if o == File then FileMode
    else if o == StdinLine then StdinLineMode
    else if o == Message then CmdMode
    else if o == NullMessage then NullMode
    else if o == StdinFile then StdinFileMode
    else NoMode
  }

  /** The options that name the topic to publish on. */
  predicate NamesTopic(o: Opt, role: Role) {
    o == PubTopic || (o == Topic && role == Pub)
  }

  // What a stored option changes, field by field

  function StoreLink(o: Opt, v: string, role: Role, l: Link): Link {
    Link(id := if o == Id then Some(v) else l.id,
         idPrefix := if o == IdPrefix then Some(v) else l.idPrefix,
         protocolVersion := if o == ProtocolVersion then VersionOf(v) else l.protocolVersion,
         keepalive := if o == Keepalive then Atoi(v) else l.keepalive,
         host := if o == Host then Some(v) else l.host,
         port := if o == Port then Atoi(v) else l.port,
         qos := if o == Qos then Atoi(v) else l.qos,
         topic := if NamesTopic(o, role) then Some(v) else l.topic,
         bindAddress := if o == BindAddress then Some(v) else l.bindAddress,
         debug := l.debug || o == Debug,
         quiet := l.quiet || o == Quiet,
         maxInflight := if o == MaxInflight then Unsigned(Atoi(v)) else l.maxInflight,
         username := if o == Username then Some(v) else l.username,
         password := if o == Password then Some(v) else l.password)
  }

  function StorePub(o: Opt, v: string, p: Publishing): Publishing {
    Publishing(retain := p.retain || o == Retain,
               mode := if IsMode(o) then ModeOf(o) else p.mode,
               fileInput := if o == File then Some(v) else p.fileInput,
               message := if o == Message then Some(v) else p.message,
               msgLen := if o == Message then |v| else p.msgLen)
  }

  function StoreSub(o: Opt, v: string, role: Role, u: Subscribing): Subscribing {
    Subscribing(cleanSession := u.cleanSession && o != DisableCleanSession,
                topics := if o == Topic && role == Sub then u.topics + [v] else u.topics,
                topicCount := if o == Topic && role == Sub then u.topicCount + 1 else u.topicCount,
                noRetain := u.noRetain || o == NoRetain,
                filterOuts := if o == FilterOut then u.filterOuts + [v] else u.filterOuts,
                filterOutCount := if o == FilterOut then u.filterOutCount + 1 else u.filterOutCount,
                verbose := u.verbose || o == Verbose,
                eol := u.eol && o != NoEol,
                msgCount := if o == Count then Atoi(v) else u.msgCount)
  }

  function StoreWill(o: Opt, v: string, w: Will): Will {
    Will(topic := if o == WillTopic then Some(v) else w.topic,
         payload := if o == WillPayload then Some(v) else w.payload,
         payloadLen := if o == WillPayload then |v| else w.payloadLen,
         qos := if o == WillQos then Atoi(v) else w.qos,
         retain := w.retain || o == WillRetain)
  }

  function Store(o: Opt, v: string, role: Role, c: Config): Config {
    Config(StoreLink(o, v, role, c.link), StorePub(o, v, c.pub), StoreSub(o, v, role, c.sub), StoreWill(o, v, c.will))
  }

  /** The result code and the configuration left behind; a refused number stays stored. */
  datatype Outcome = Outcome(rc: int, config: Config) {
    predicate Accepted() {
      rc == 0
    }
  }

  /** The value an option comes with; options without one carry the empty text. */
  function TextOf(o: Opt, value: Option<string>): string {
    if TakesValue(o) then value.GetOr("") else ""
  }

  /** An option has the value it wants, and the value passes the checks made before storing. */
  predicate Takable(o: Opt, value: Option<string>, role: Role, checks: Checks) {
    (TakesValue(o) ==> value.Some?) && Accepts(o, TextOf(o, value), role, checks)
  }

  /** One option, with the word behind it if there is one. */
  function Step(c: Config, role: Role, o: Opt, value: Option<string>, checks: Checks): Outcome {
    if o == Help then Outcome(2, c)
    else if !Known(o, role) || !Compatible(o, c) || !Takable(o, value, role, checks) then Outcome(1, c)
    else Outcome(if InRange(o, TextOf(o, value)) then 0 else 1, Store(o, TextOf(o, value), role, c))
  }

  // The same, option group by option group

  predicate WillOnly(o: Opt) {
    o == WillPayload || o == WillQos || o == WillRetain || o == WillTopic
  }

  lemma StoreOfPub(o: Opt, v: string, role: Role, c: Config)
    requires PubOnly(o)
    ensures Store(o, v, role, c) == c.(pub := StorePub(o, v, c.pub))
  {
  }

  lemma StepOfPub(c: Config, role: Role, o: Opt, value: Option<string>, checks: Checks)
    requires PubOnly(o)
    ensures var ok := role == Pub && (o == Retain || c.pub.mode == NoMode) && (TakesValue(o) ==> value.Some?);
            Step(c, role, o, value, checks) ==
            Outcome(if ok then 0 else 1, if ok then c.(pub := StorePub(o, TextOf(o, value), c.pub)) else c)
  {
    StoreOfPub(o, TextOf(o, value), role, c);
  }

  lemma StoreOfSub(o: Opt, v: string, role: Role, c: Config)
    requires SubOnly(o)
    ensures Store(o, v, role, c) == c.(sub := StoreSub(o, v, role, c.sub))
  {
  }

  lemma StoreOfWill(o: Opt, v: string, role: Role, c: Config)
    requires WillOnly(o)
    ensures Store(o, v, role, c) == c.(will := StoreWill(o, v, c.will))
  {
  }

  lemma StepOfSub(c: Config, role: Role, o: Opt, value: Option<string>, checks: Checks)
    requires SubOnly(o)
    ensures var ok, v := role == Sub && Takable(o, value, role, checks), TextOf(o, value);
            Step(c, role, o, value, checks) ==
            Outcome(if ok && InRange(o, v) then 0 else 1, if ok then c.(sub := StoreSub(o, v, role, c.sub)) else c)
  {
    StoreOfSub(o, TextOf(o, value), role, c);
  }

  lemma StepOfWill(c: Config, role: Role, o: Opt, value: Option<string>, checks: Checks)
    requires WillOnly(o)
    ensures var ok, v := Takable(o, value, role, checks), TextOf(o, value);
            Step(c, role, o, value, checks) ==
            Outcome(if ok && InRange(o, v) then 0 else 1, if ok then c.(will := StoreWill(o, v, c.will)) else c)
  {
    StoreOfWill(o, TextOf(o, value), role, c);
  }

  lemma StepOfTopic(c: Config, role: Role, o: Opt, value: Option<string>, checks: Checks)
    requires o == Topic || o == PubTopic
    ensures var ok, v := Takable(o, value, role, checks), TextOf(o, value);
            Step(c, role, o, value, checks) ==
            Outcome(if ok then 0 else 1,
                    if ok then c.(link := StoreLink(o, v, role, c.link), sub := StoreSub(o, v, role, c.sub)) else c)
  {
  }

  lemma StepOfLink(c: Config, role: Role, o: Opt, value: Option<string>, checks: Checks)
    requires !PubOnly(o) && !SubOnly(o) && !WillOnly(o) && o != Topic && o != PubTopic
    ensures var ok, v := Known(o, role) && o != Help && Compatible(o, c) && Takable(o, value, role, checks),
                         TextOf(o, value);
            Step(c, role, o, value, checks) ==
            Outcome(if o == Help then 2 else if ok && InRange(o, v) then 0 else 1,
                    if ok then c.(link := StoreLink(o, v, role, c.link)) else c)
  {
  }

  /** The word the option in front takes as its value, if it takes one and there is one. */
  function Argument(words: seq<Word>): Option<string>
    requires words != []
  {
    if Width(words) == 2 then Some(words[1].text) else None
  }

  /** How many words the option in front takes up. */
  function Width(words: seq<Word>): (n: nat)
    requires words != []
    ensures 1 <= n <= |words|
  {
    if TakesValue(words[0].names) && |words| >= 2 then 2 else 1
  }

  /** A whole list of words. */
  function Run(c: Config, role: Role, words: seq<Word>, checks: Checks): Outcome
    decreases |words|
  {
    if words == [] then Outcome(0, c)
    else
      var r := Step(c, role, words[0].names, Argument(words), checks);
      if !r.Accepted() then r
      else Run(r.config, role, words[Width(words)..], checks)
  }

  /** init_config. */
  const INITIAL := Config(
    Link(None, None, V31, 60, None, 1883, 0, None, None, false, false, 20, None, None),
    Publishing(false, NoMode, None, None, 0),
    Subscribing(true, [], 0, false, [], 0, false, true, 0),
    Will(None, None, 0, 0, false))

  // Laws of Run

  /** Words accepted first leave exactly the state from which the others are processed, result code included. */
  lemma {:induction false} RunConcat(c: Config, role: Role, a: seq<Word>, b: seq<Word>, checks: Checks)
    requires Run(c, role, a, checks).Accepted()
    ensures Run(c, role, a + b, checks) == Run(Run(c, role, a, checks).config, role, b, checks)
    decreases |a|
  {
    if a == [] {
      assert a + b == b;
    } else {
      FrontAlone(a, b);
      RunConcat(Step(c, role, a[0].names, Argument(a), checks).config, role, a[Width(a)..], b, checks);
    }
  }

  /** Every option that wants a value has a word to take. */
  predicate Whole(words: seq<Word>)
    decreases |words|
  {
    words == [] || ((TakesValue(words[0].names) ==> |words| >= 2) && Whole(words[Width(words)..]))
  }

  /** The option in front of a whole list does not see what is appended. */
  lemma FrontAlone(a: seq<Word>, b: seq<Word>)
    requires a != [] && (TakesValue(a[0].names) ==> |a| >= 2)
    ensures (a + b)[0] == a[0] && Width(a + b) == Width(a) && Argument(a + b) == Argument(a)
    ensures (a + b)[Width(a)..] == a[Width(a)..] + b
  {
  }

  /** A refusal is final: what follows cannot change the result code or the record. */
  lemma {:induction false} RefusalIsFinal(c: Config, role: Role, a: seq<Word>, b: seq<Word>, checks: Checks)
    requires Whole(a) && !Run(c, role, a, checks).Accepted()
    ensures Run(c, role, a + b, checks) == Run(c, role, a, checks)
    decreases |a|
  {
    FrontAlone(a, b);
    var r := Step(c, role, a[0].names, Argument(a), checks);
    if r.Accepted() {
      RefusalIsFinal(r.config, role, a[Width(a)..], b, checks);
    }
  }

  /** Accepted words never end in an option that still wants its value. */
  lemma {:induction false} AcceptedIsWhole(c: Config, role: Role, words: seq<Word>, checks: Checks)
    requires Run(c, role, words, checks).Accepted()
    ensures Whole(words)
    decreases |words|
  {
    if words == [] {
    } else {
      var r := Step(c, role, words[0].names, Argument(words), checks);
      AcceptedIsWhole(r.config, role, words[Width(words)..], checks);
    }
  }

  /** For whole lists the law of concatenation has no exception: either the first list is refused, and that is the
      answer, or the second starts from what the first left. */
  lemma ConcatenationLaw(c: Config, role: Role, a: seq<Word>, b: seq<Word>, checks: Checks)
    requires Whole(a)
    ensures var r := Run(c, role, a, checks);
            Run(c, role, a + b, checks) == if r.Accepted() then Run(r.config, role, b, checks) else r
  {
    if Run(c, role, a, checks).Accepted() {
      RunConcat(c, role, a, b, checks);
    } else {
      RefusalIsFinal(c, role, a, b, checks);
    }
  }

  ghost predicate LinkConsistent(l: Link) {
    && 1 <= l.port <= 65535 && 0 <= l.qos <= 2 && l.keepalive <= 65535 && 0 <= l.maxInflight < 0x1_0000_0000
    && (l.id.None? || l.idPrefix.None?)
  }

  ghost predicate PubConsistent(p: Publishing) {
    && (p.message.Some? <==> p.mode == CmdMode)
    && (p.message.Some? ==> p.msgLen == |p.message.value|)
    && (p.fileInput.Some? <==> p.mode == FileMode)
  }

  ghost predicate SubConsistent(u: Subscribing) {
    u.msgCount >= 0 && u.topicCount == |u.topics| && u.filterOutCount == |u.filterOuts|
  }

  ghost predicate WillConsistent(w: Will) {
    0 <= w.qos <= 2 && (w.payload.Some? ==> w.payloadLen == |w.payload.value|)
  }

  /** What holds of a configuration whenever the next option is looked at. */
  ghost predicate Consistent(c: Config) {
    LinkConsistent(c.link) && PubConsistent(c.pub) && SubConsistent(c.sub) && WillConsistent(c.will)
  }

  lemma StorePubConsistent(o: Opt, v: string, p: Publishing)
    requires PubConsistent(p) && (IsMode(o) ==> p.mode == NoMode)
    ensures PubConsistent(StorePub(o, v, p))
  {
  }

  lemma StepConsistent(c: Config, role: Role, o: Opt, value: Option<string>, checks: Checks)
    requires Consistent(c) && Step(c, role, o, value, checks).Accepted()
    ensures Consistent(Step(c, role, o, value, checks).config)
  {
    var d := Step(c, role, o, value, checks).config;
    assert PubConsistent(d.pub) by {
      StorePubConsistent(o, TextOf(o, value), c.pub);
    }
    assert LinkConsistent(d.link);
    assert WillConsistent(d.will);
  }

  lemma {:induction false} RunConsistent(c: Config, role: Role, words: seq<Word>, checks: Checks)
    requires Consistent(c) && Run(c, role, words, checks).Accepted()
    ensures Consistent(Run(c, role, words, checks).config)
    decreases |words|
  {
    if words == [] {
    } else {
      StepConsistent(c, role, words[0].names, Argument(words), checks);
      var r := Step(c, role, words[0].names, Argument(words), checks);
      RunConsistent(r.config, role, words[Width(words)..], checks);
    }
  }

  lemma StepKeepsApart(c: Config, role: Role, o: Opt, value: Option<string>, checks: Checks)
    ensures role == Pub ==> Step(c, role, o, value, checks).config.sub == c.sub
    ensures role == Sub ==> Step(c, role, o, value, checks).config.pub == c.pub
  {
  }

  /** Accepted or not, a publisher's words leave the subscriber's fields alone and the other way round. */
  lemma {:induction false} RolesKeepApart(c: Config, role: Role, words: seq<Word>, checks: Checks)
    ensures role == Pub ==> Run(c, role, words, checks).config.sub == c.sub
    ensures role == Sub ==> Run(c, role, words, checks).config.pub == c.pub
    decreases |words|
  {
    if words == [] {
    } else {
      var r := Step(c, role, words[0].names, Argument(words), checks);
      StepKeepsApart(c, role, words[0].names, Argument(words), checks);
      if r.Accepted() {
        RolesKeepApart(r.config, role, words[Width(words)..], checks);
      }
    }
  }

  // The words read as a list of settings, without any configuration

  datatype Item = Item(opt: Opt, value: string)

  /** The options in option position with their values; a value is never mistaken for an option. */
  function Items(words: seq<Word>): seq<Item> {
    if words == [] then []
    else if Width(words) == 2 then [Item(words[0].names, words[1].text)] + Items(words[2..])
    else [Item(words[0].names, "")] + Items(words[1..])
  }

  /** The values given for one option, in order. */
  function Values(items: seq<Item>, o: Opt): seq<string> {
    if items == [] then []
    else (if items[0].opt == o then [items[0].value] else []) + Values(items[1..], o)
  }

  /** The options that choose what to publish, in order. */
  function Modes(items: seq<Item>): seq<Item> {
    if items == [] then []
    else (if IsMode(items[0].opt) then [items[0]] else []) + Modes(items[1..])
  }

  /** The values given for the topic to publish on, in order. */
  function TopicValues(items: seq<Item>, role: Role): seq<string> {
    if items == [] then []
    else (if NamesTopic(items[0].opt, role) then [items[0].value] else []) + TopicValues(items[1..], role)
  }

  function LastOf<T>(xs: seq<T>): Option<T> {
    if xs == [] then None else Some(xs[|xs| - 1])
  }

  function Or<T>(x: Option<T>, y: Option<T>): Option<T> {
    if x.Some? then x else y
  }

  lemma LastOfConcat<T>(xs: seq<T>, ys: seq<T>)
    ensures LastOf(xs + ys) == Or(LastOf(ys), LastOf(xs))
  {
  }

  /** The value given last for an option. */
  function Given(items: seq<Item>, o: Opt): Option<string> {
    if items == [] then None
    else Or(Given(items[1..], o), if items[0].opt == o then Some(items[0].value) else None)
  }

  predicate Has(items: seq<Item>, o: Opt) {
    Given(items, o).Some?
  }

  lemma {:induction false} GivenIsLastValue(items: seq<Item>, o: Opt)
    ensures Given(items, o) == LastOf(Values(items, o))
  {
    if items == [] {
    } else {
      GivenIsLastValue(items[1..], o);
      LastOfConcat(if items[0].opt == o then [items[0].value] else [], Values(items[1..], o));
    }
  }

  /** The value given last for the topic to publish on. */
  function GivenTopic(items: seq<Item>, role: Role): Option<string> {
    if items == [] then None
    else Or(GivenTopic(items[1..], role), if NamesTopic(items[0].opt, role) then Some(items[0].value) else None)
  }

  lemma {:induction false} GivenTopicIsLastValue(items: seq<Item>, role: Role)
    ensures GivenTopic(items, role) == LastOf(TopicValues(items, role))
  {
    if items == [] {
    } else {
      GivenTopicIsLastValue(items[1..], role);
      LastOfConcat(if NamesTopic(items[0].opt, role) then [items[0].value] else [], TopicValues(items[1..], role));
    }
  }

  /** The last choice of what to publish. */
  function GivenMode(items: seq<Item>): Option<Item> {
    if items == [] then None
    else Or(GivenMode(items[1..]), if IsMode(items[0].opt) then Some(items[0]) else None)
  }

  lemma {:induction false} GivenModeIsLastMode(items: seq<Item>)
    ensures GivenMode(items) == LastOf(Modes(items))
  {
    if items == [] {
    } else {
      GivenModeIsLastMode(items[1..]);
      LastOfConcat(if IsMode(items[0].opt) then [items[0]] else [], Modes(items[1..]));
    }
  }

  /** The last value given for an option, or a default. */
  function Last(items: seq<Item>, o: Opt, default: Option<string>): Option<string> {
    Or(Given(items, o), default)
  }

  function Number(items: seq<Item>, o: Opt, default: int): int {
    if Has(items, o) then Atoi(Given(items, o).value) else default
  }

  function Length(items: seq<Item>, o: Opt, default: int): int {
    if Has(items, o) then |Given(items, o).value| else default
  }

  // The record that settings spell out

  function ReadLink(l: Link, role: Role, items: seq<Item>): Link {
    Link(id := Last(items, Id, l.id),
         idPrefix := Last(items, IdPrefix, l.idPrefix),
         protocolVersion := if Has(items, ProtocolVersion) then VersionOf(Given(items, ProtocolVersion).value)
                            else l.protocolVersion,
         keepalive := Number(items, Keepalive, l.keepalive),
         host := Last(items, Host, l.host),
         port := Number(items, Port, l.port),
         qos := Number(items, Qos, l.qos),
         topic := Or(GivenTopic(items, role), l.topic),
         bindAddress := Last(items, BindAddress, l.bindAddress),
         debug := l.debug || Has(items, Debug),
         quiet := l.quiet || Has(items, Quiet),
         maxInflight := if Has(items, MaxInflight) then Unsigned(Number(items, MaxInflight, 0)) else l.maxInflight,
         username := Last(items, Username, l.username),
         password := Last(items, Password, l.password))
  }

  function ReadPub(p: Publishing, items: seq<Item>): Publishing {
    Publishing(retain := p.retain || Has(items, Retain),
               mode := if GivenMode(items).Some? then ModeOf(GivenMode(items).value.opt) else p.mode,
               fileInput := Last(items, File, p.fileInput),
               message := Last(items, Message, p.message),
               msgLen := Length(items, Message, p.msgLen))
  }

  /** The topics a client of this role subscribes to. */
  function Topics(items: seq<Item>, role: Role): seq<string> {
    if role == Sub then Values(items, Topic) else []
  }

  function ReadSub(u: Subscribing, role: Role, items: seq<Item>): Subscribing {
    Subscribing(cleanSession := u.cleanSession && !Has(items, DisableCleanSession),
                topics := u.topics + Topics(items, role),
                topicCount := u.topicCount + |Topics(items, role)|,
                noRetain := u.noRetain || Has(items, NoRetain),
                filterOuts := u.filterOuts + Values(items, FilterOut),
                filterOutCount := u.filterOutCount + |Values(items, FilterOut)|,
                verbose := u.verbose || Has(items, Verbose),
                eol := u.eol && !Has(items, NoEol),
                msgCount := Number(items, Count, u.msgCount))
  }

  function ReadWill(w: Will, items: seq<Item>): Will {
    Will(topic := Last(items, WillTopic, w.topic),
         payload := Last(items, WillPayload, w.payload),
         payloadLen := Length(items, WillPayload, w.payloadLen),
         qos := Number(items, WillQos, w.qos),
         retain := w.retain || Has(items, WillRetain))
  }

  /** Every field by itself: the last value given, the values given in order, or whether the option was given. */
  function Reading(c: Config, role: Role, items: seq<Item>): Config {
    Config(ReadLink(c.link, role, items), ReadPub(c.pub, items), ReadSub(c.sub, role, items), ReadWill(c.will, items))
  }

  /** The settings stored one after the other. */
  function StoreAll(c: Config, role: Role, items: seq<Item>): Config
    decreases |items|
  {
    if items == [] then c else StoreAll(Store(items[0].opt, items[0].value, role, c), role, items[1..])
  }

  lemma LastHead(items: seq<Item>, o: Opt, default: Option<string>)
    requires items != []
    ensures Last(items, o, default) == Last(items[1..], o, if items[0].opt == o then Some(items[0].value) else default)
  {
  }

  lemma NumberHead(items: seq<Item>, o: Opt, default: int)
    requires items != []
    ensures Number(items, o, default)
         == Number(items[1..], o, if items[0].opt == o then Atoi(items[0].value) else default)
  {
  }

  lemma HasHead(items: seq<Item>, o: Opt)
    requires items != []
    ensures Has(items, o) <==> items[0].opt == o || Has(items[1..], o)
  {
  }

  lemma ReadLinkHead(l: Link, role: Role, items: seq<Item>)
    requires items != []
    ensures ReadLink(l, role, items) == ReadLink(StoreLink(items[0].opt, items[0].value, role, l), role, items[1..])
  {
    var a, b := ReadLink(l, role, items), ReadLink(StoreLink(items[0].opt, items[0].value, role, l), role, items[1..]);
    assert a.id == b.id && a.idPrefix == b.idPrefix by {
      LastHead(items, Id, l.id);
      LastHead(items, IdPrefix, l.idPrefix);
    }
    assert a.keepalive == b.keepalive && a.port == b.port && a.qos == b.qos by {
      NumberHead(items, Keepalive, l.keepalive);
      NumberHead(items, Port, l.port);
      NumberHead(items, Qos, l.qos);
    }
    assert a.host == b.host && a.bindAddress == b.bindAddress by {
      LastHead(items, Host, l.host);
      LastHead(items, BindAddress, l.bindAddress);
    }
    assert a.debug == b.debug && a.quiet == b.quiet by {
      HasHead(items, Debug);
      HasHead(items, Quiet);
    }
    assert a.username == b.username && a.password == b.password by {
      LastHead(items, Username, l.username);
      LastHead(items, Password, l.password);
    }
    assert a.protocolVersion == b.protocolVersion;
    assert a.maxInflight == b.maxInflight;
    assert a.topic == b.topic;
  }

  lemma ReadPubHead(p: Publishing, items: seq<Item>)
    requires items != []
    ensures ReadPub(p, items) == ReadPub(StorePub(items[0].opt, items[0].value, p), items[1..])
  {
  }

  lemma ReadSubTopics(u: Subscribing, role: Role, items: seq<Item>)
    requires items != []
    ensures var w := StoreSub(items[0].opt, items[0].value, role, u);
            && u.topics + Topics(items, role) == w.topics + Topics(items[1..], role)
            && u.topicCount + |Topics(items, role)| == w.topicCount + |Topics(items[1..], role)|
  {
    ValuesHead(items, Topic, u.topics);
  }

  lemma ReadSubFilters(u: Subscribing, role: Role, items: seq<Item>)
    requires items != []
    ensures var w := StoreSub(items[0].opt, items[0].value, role, u);
            && u.filterOuts + Values(items, FilterOut) == w.filterOuts + Values(items[1..], FilterOut)
            && u.filterOutCount + |Values(items, FilterOut)| == w.filterOutCount + |Values(items[1..], FilterOut)|
  {
    ValuesHead(items, FilterOut, u.filterOuts);
  }

  lemma ReadSubSwitches(u: Subscribing, role: Role, items: seq<Item>)
    requires items != []
    ensures var w := StoreSub(items[0].opt, items[0].value, role, u);
            var a, b := ReadSub(u, role, items), ReadSub(w, role, items[1..]);
            && a.cleanSession == b.cleanSession && a.eol == b.eol && a.noRetain == b.noRetain
            && a.verbose == b.verbose && a.msgCount == b.msgCount
  {
    HasHead(items, DisableCleanSession);
    HasHead(items, NoEol);
    HasHead(items, NoRetain);
    HasHead(items, Verbose);
    NumberHead(items, Count, u.msgCount);
  }

  lemma ReadSubHead(u: Subscribing, role: Role, items: seq<Item>)
    requires items != []
    ensures ReadSub(u, role, items) == ReadSub(StoreSub(items[0].opt, items[0].value, role, u), role, items[1..])
  {
    ReadSubTopics(u, role, items);
    ReadSubFilters(u, role, items);
    ReadSubSwitches(u, role, items);
  }

  lemma ValuesHead(items: seq<Item>, o: Opt, before: seq<string>)
    requires items != []
    ensures before + Values(items, o)
         == (if items[0].opt == o then before + [items[0].value] else before) + Values(items[1..], o)
    ensures |Values(items, o)| == (if items[0].opt == o then 1 else 0) + |Values(items[1..], o)|
  {
    var rest := Values(items[1..], o);
    if items[0].opt == o {
      assert before + ([items[0].value] + rest) == (before + [items[0].value]) + rest;
    } else {
      assert [] + rest == rest;
    }
  }

  lemma ReadWillHead(w: Will, items: seq<Item>)
    requires items != []
    ensures ReadWill(w, items) == ReadWill(StoreWill(items[0].opt, items[0].value, w), items[1..])
  {
  }

  /** Storing settings one by one gives the record they spell out, so their order matters only within a field. */
  lemma {:induction false} StoreAllReads(c: Config, role: Role, items: seq<Item>)
    ensures StoreAll(c, role, items) == Reading(c, role, items)
    decreases |items|
  {
    if items == [] {
      assert c.sub.topics + [] == c.sub.topics && c.sub.filterOuts + [] == c.sub.filterOuts;
    } else {
      var o, v := items[0].opt, items[0].value;
      StoreAllReads(Store(o, v, role, c), role, items[1..]);
      ReadLinkHead(c.link, role, items);
      ReadPubHead(c.pub, items);
      ReadSubHead(c.sub, role, items);
      ReadWillHead(c.will, items);
    }
  }

  // The verdict

  /** A setting a client of this role takes, whatever else was set. */
  predicate Welcome(i: Item, role: Role, checks: Checks) {
    i.opt != Help && Known(i.opt, role) && Accepts(i.opt, i.value, role, checks) && InRange(i.opt, i.value)
  }

  /** Settings that can be made together, starting from c: each is welcome, at most one chooses what to publish, and
      an id and an id prefix exclude each other. */
  predicate Acceptable(c: Config, role: Role, items: seq<Item>, checks: Checks) {
    && AllWelcome(items, role, checks)
    && |Modes(items)| <= (if c.pub.mode == NoMode then 1 else 0)
    && (Has(items, Id) ==> c.link.idPrefix.None? && !Has(items, IdPrefix))
    && (Has(items, IdPrefix) ==> c.link.id.None?)
  }

  predicate AllWelcome(items: seq<Item>, role: Role, checks: Checks) {
    forall k :: 0 <= k < |items| ==> Welcome(items[k], role, checks)
  }

  lemma AllWelcomeHead(items: seq<Item>, role: Role, checks: Checks)
    requires items != []
    ensures AllWelcome(items, role, checks) <==> Welcome(items[0], role, checks) && AllWelcome(items[1..], role, checks)
  {
    assert items == [items[0]] + items[1..];
  }

  lemma AcceptableHead(c: Config, role: Role, items: seq<Item>, checks: Checks)
    requires items != []
    ensures Acceptable(c, role, items, checks)
       <==> Welcome(items[0], role, checks) && Compatible(items[0].opt, c)
            && Acceptable(Store(items[0].opt, items[0].value, role, c), role, items[1..], checks)
  {
    var o, d := items[0].opt, Store(items[0].opt, items[0].value, role, c);
    AllWelcomeHead(items, role, checks);
    HasHead(items, Id);
    HasHead(items, IdPrefix);
    assert d.pub.mode == NoMode <==> !IsMode(o) && c.pub.mode == NoMode;
    assert d.link.id.None? <==> o != Id && c.link.id.None?;
    assert d.link.idPrefix.None? <==> o != IdPrefix && c.link.idPrefix.None?;
  }

  lemma ItemsHead(words: seq<Word>)
    requires words != []
    ensures Items(words) != [] && Items(words)[1..] == Items(words[Width(words)..])
    ensures Items(words)[0] == Item(words[0].names, TextOf(words[0].names, Argument(words)))
    ensures Argument(words).Some? <==> TakesValue(words[0].names) && |words| >= 2
  {
  }

  /** One option is accepted exactly when it has its value, is welcome and clashes with nothing; then it is stored. */
  lemma StepVerdict(c: Config, role: Role, o: Opt, value: Option<string>, checks: Checks)
    ensures var i, r := Item(o, TextOf(o, value)), Step(c, role, o, value, checks);
            && (r.Accepted() <==> (TakesValue(o) ==> value.Some?) && Welcome(i, role, checks) && Compatible(o, c))
            && (r.Accepted() ==> r.config == Store(i.opt, i.value, role, c))
  {
  }

  /** The exact verdict on a list of words, and the record it leaves: accepted are just the whole lists of
      acceptable settings, and what is accepted is stored. */
  lemma {:induction false} RunVerdict(c: Config, role: Role, words: seq<Word>, checks: Checks)
    ensures var r := Run(c, role, words, checks);
            && (r.Accepted() <==> Whole(words) && Acceptable(c, role, Items(words), checks))
            && (r.Accepted() ==> r.config == StoreAll(c, role, Items(words)))
    decreases |words|
  {
    if words == [] {
    } else {
      ItemsHead(words);
      StepVerdict(c, role, words[0].names, Argument(words), checks);
      AcceptableHead(c, role, Items(words), checks);
      var r := Step(c, role, words[0].names, Argument(words), checks);
      if r.Accepted() {
        RunVerdict(r.config, role, words[Width(words)..], checks);
      }
    }
  }

  /** The result code 2 is for --help, reached behind acceptable settings only; every other refusal is 1. */
  lemma {:induction false} HelpVerdict(c: Config, role: Role, words: seq<Word>, checks: Checks)
    ensures Run(c, role, words, checks).rc == 2 <==> HelpReached(c, role, Items(words), checks)
    ensures Run(c, role, words, checks).rc in {0, 1, 2}
    decreases |words|
  {
    if words == [] {
    } else {
      ItemsHead(words);
      StepVerdict(c, role, words[0].names, Argument(words), checks);
      HelpReachedHead(c, role, Items(words), checks);
      var r := Step(c, role, words[0].names, Argument(words), checks);
      if r.Accepted() {
        HelpVerdict(r.config, role, words[Width(words)..], checks);
      }
    }
  }

  ghost predicate HelpReached(c: Config, role: Role, items: seq<Item>, checks: Checks) {
    exists k :: 0 <= k < |items| && items[k].opt == Help && Acceptable(c, role, items[..k], checks)
  }

  lemma HelpReachedHead(c: Config, role: Role, items: seq<Item>, checks: Checks)
    requires items != []
    ensures HelpReached(c, role, items, checks)
       <==> || items[0].opt == Help
            || (&& Welcome(items[0], role, checks) && Compatible(items[0].opt, c)
                && HelpReached(Store(items[0].opt, items[0].value, role, c), role, items[1..], checks))
  {
    if items[0].opt == Help {
      assert Acceptable(c, role, items[..0], checks);
    }
    if k :| 0 < k < |items| && items[k].opt == Help && Acceptable(c, role, items[..k], checks) {
      HelpBehind(c, role, items, k, checks);
    }
    var d := Store(items[0].opt, items[0].value, role, c);
    if Welcome(items[0], role, checks) && Compatible(items[0].opt, c) && HelpReached(d, role, items[1..], checks) {
      var k :| 0 <= k < |items[1..]| && items[1..][k].opt == Help && Acceptable(d, role, items[1..][..k], checks);
      HelpInFront(c, role, items, k, checks);
    }
  }

  lemma HelpBehind(c: Config, role: Role, items: seq<Item>, k: nat, checks: Checks)
    requires 0 < k < |items| && items[k].opt == Help && Acceptable(c, role, items[..k], checks)
    ensures Welcome(items[0], role, checks) && Compatible(items[0].opt, c)
    ensures HelpReached(Store(items[0].opt, items[0].value, role, c), role, items[1..], checks)
  {
    AcceptableFront(c, role, items, k, checks);
    assert items[1..][k - 1].opt == Help;
  }

  lemma HelpInFront(c: Config, role: Role, items: seq<Item>, k: nat, checks: Checks)
    requires 0 <= k < |items| - 1 && items[1..][k].opt == Help
    requires Welcome(items[0], role, checks) && Compatible(items[0].opt, c)
    requires Acceptable(Store(items[0].opt, items[0].value, role, c), role, items[1..][..k], checks)
    ensures HelpReached(c, role, items, checks)
  {
    AcceptableFront(c, role, items, k + 1, checks);
    assert items[k + 1].opt == Help;
  }

  lemma AcceptableFront(c: Config, role: Role, items: seq<Item>, k: nat, checks: Checks)
    requires 0 < k <= |items|
    ensures Acceptable(c, role, items[..k], checks)
       <==> Welcome(items[0], role, checks) && Compatible(items[0].opt, c)
            && Acceptable(Store(items[0].opt, items[0].value, role, c), role, items[1..][..k - 1], checks)
  {
    assert items[..k][1..] == items[1..][..k - 1];
    AcceptableHead(c, role, items[..k], checks);
  }

  /** Accepted words leave exactly the record their settings spell out. */
  lemma SettingsDecide(c: Config, role: Role, words: seq<Word>, checks: Checks)
    requires Run(c, role, words, checks).Accepted()
    ensures Run(c, role, words, checks).config == Reading(c, role, Items(words))
  {
    RunVerdict(c, role, words, checks);
    StoreAllReads(c, role, Items(words));
  }

  // Consequences

  /** With one choice of what to publish, its value is the only one for its option, and others have none. */
  lemma {:induction false} OnlyMode(items: seq<Item>, o: Opt)
    requires |Modes(items)| <= 1 && IsMode(o)
    ensures var ms := Modes(items);
            Given(items, o) == if ms != [] && ms[0].opt == o then Some(ms[0].value) else None
  {
    if items == [] {
    } else {
      assert IsMode(items[0].opt) ==> Modes(items[1..]) == [];
      OnlyMode(items[1..], o);
    }
  }

  ghost predicate ModeDecides(p: Publishing, d: Publishing, ms: seq<Item>) {
    && (ms == [] ==> d.mode == p.mode && d.message == p.message && d.fileInput == p.fileInput)
    && (ms != [] ==>
          && d.mode == ModeOf(ms[0].opt)
          && d.message == (if ms[0].opt == Message then Some(ms[0].value) else p.message)
          && d.fileInput == (if ms[0].opt == File then Some(ms[0].value) else p.fileInput))
  }

  lemma ReadPubOneMode(p: Publishing, items: seq<Item>)
    requires |Modes(items)| <= 1
    ensures ModeDecides(p, ReadPub(p, items), Modes(items))
  {
    GivenModeIsLastMode(items);
    OnlyMode(items, Message);
    OnlyMode(items, File);
  }

  /** Accepted words hold at most one choice of what to publish, none if one was made before, and that choice
      decides the mode, the message and the file. */
  lemma OneMode(c: Config, role: Role, words: seq<Word>, checks: Checks)
    requires Run(c, role, words, checks).Accepted()
    ensures |Modes(Items(words))| <= (if c.pub.mode == NoMode then 1 else 0)
    ensures ModeDecides(c.pub, Run(c, role, words, checks).config.pub, Modes(Items(words)))
  {
    RunVerdict(c, role, words, checks);
    SettingsDecide(c, role, words, checks);
    ReadPubOneMode(c.pub, Items(words));
  }

  /** A subscriber's topics and filters are the -t and -T values in the order given. */
  lemma SubscriptionsInOrder(c: Config, words: seq<Word>, checks: Checks)
    requires Run(c, Sub, words, checks).Accepted()
    ensures var d, items := Run(c, Sub, words, checks).config, Items(words);
            && d.sub.topics == c.sub.topics + Values(items, Topic)
            && d.sub.filterOuts == c.sub.filterOuts + Values(items, FilterOut)
  {
    SettingsDecide(c, Sub, words, checks);
  }

  /** A subscriber publishes only where -b says. */
  lemma {:induction false} SubscriberTopic(items: seq<Item>)
    ensures GivenTopic(items, Sub) == Given(items, PubTopic)
  {
    if items == [] {
    } else {
      SubscriberTopic(items[1..]);
    }
  }

  /** For the plain string options the last value given wins. */
  lemma LastWins(c: Config, role: Role, words: seq<Word>, checks: Checks)
    requires Run(c, role, words, checks).Accepted()
    ensures var l, d, items := c.link, Run(c, role, words, checks).config.link, Items(words);
            && d.host == Last(items, Host, l.host) && d.bindAddress == Last(items, BindAddress, l.bindAddress)
            && d.username == Last(items, Username, l.username) && d.password == Last(items, Password, l.password)
            && d.id == Last(items, Id, l.id) && d.idPrefix == Last(items, IdPrefix, l.idPrefix)
            && (role == Sub ==> d.topic == Last(items, PubTopic, l.topic))
  {
    SettingsDecide(c, role, words, checks);
    SubscriberTopic(Items(words));
  }
}
