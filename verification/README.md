# A Dafny model of the messaging test clients

The project models the hand-written logic of three programs and proves properties of it:

* the MQTT test client's configuration code (`src/mqtt/client_shared.cc`): the SOCKS proxy URL parser with its
  percent-decoder, the option loop, and the load that runs it over a configuration file and the arguments;
* the broker's authentication plugin (`src/mqtt/auth_plugin.cc`): user ids, the session table and the connect check;
* the message frames and driver loops (`src/mqtt/mqttest.cc`, and `Mqtt.kt` and `Robot.kt` under
  `src/robot/src/main/kotlin/hello/`).

`dafny verify dfyconfig.toml` checks everything. Code that changes state in the source is a method over an array, a
class or a loop, proved against a function; what the program promises is proved about that function.

| file | contents |
|---|---|
| `Text.dfy` | C strings, decimal text, `atoi` |
| `UrlDecode.dfy` | the in-place percent-decoder |
| `SocksGrammar.dfy` | proxy URLs as a grammar, their splitter and their printer |
| `SocksScanner.dfy` | the one-pass scanner as a state machine, and why it splits as the grammar does |
| `SocksParser.dfy` | the parser with its five owned pointers and an allocation ledger |
| `Options.dfy` | the options as a table, and laws of processing a list of words |
| `OptionWords.dfy` | what each of the 53 option words does, spelled out, and that all others are refused; the words behind an option are read on exactly if it was accepted |
| `Startup.dfy` | configuration file, arguments, defaults and checks on values |
| `Client.dfy` | the configuration object and the methods that fill it in |
| `Uid.dfy`, `Sessions.dfy` | `get_uid`, and the connect check over the two tables |
| `Identity.dfy` | the client's generated identity against the plugin's check |
| `Frame.dfy` | the ten-byte header, its two writers and two readers |
| `Receiver.dfy` | the receive callback that hangs up after N messages |
| `Robot.dfy` | the robot's time-gated sending loop |

## Where code and intention differ

The model follows the code.

* The comment at `src/mqtt/client_shared.cc:789` says that `%40` decodes to `@`; line 819 stores `:`. The stored byte is
  the parameter `at`. `SocksGrammar.PrintParseRoundTrip` says exactly when a printed proxy comes back: for `at == '@'`
  always, for the code as written exactly when no credential holds an `@`; `SocksGrammar.ParsedIsExpressible` adds that
  the code as written can produce no `@` from any URL, and `SocksGrammar.AtIsLost` gives an input.
* The test at `src/mqtt/auth_plugin.cc:306` compares the digit's offset, not the character, with a space: it lets `P`
  through (`Uid.SKIPPED`), not a space. `Uid.SkipsSpaceIff` says exactly for which names the answer differs from that
  of a loop that passes over spaces, and `Uid.SkippedExample` gives two.
* `src/robot/src/main/kotlin/hello/Mqtt.kt:84` takes the top byte of the id from the type, and `and 0xff.toByte()` masks
  nothing, so negative bytes spread their sign. `Frame.IdsAgreeIff` and `Frame.KindsAgreeIff` say exactly which frames
  the two readers agree on; `Frame.KotlinMisreads` gives a frame misread in the id and one misread in the type.
* A token presented from a new device is accepted at `src/mqtt/auth_plugin.cc:423` and expired by the update at
  lines 374-376 of the same call; `Sessions.ReconnectIff` says exactly when the credentials stay good,
  `Sessions.NewDeviceLocksOut` that otherwise the user is shut out until a session is inserted, and
  `Sessions.NewDeviceExample` gives a table.

## Model

| member | source | states |
|---|---|---|
| `Text.AtoiReads` | src/mqtt/client_shared.cc:258 | of white space, a sign, digits and a rest atoi makes the digits' value with that sign, 0 without digits |
| `Text.AtoiOfDecimal` | src/mqtt/client_shared.cc:957 | a printed number is read back by atoi, which stops at the first character that is no digit |
| `UrlDecode.CloseGap` | src/mqtt/client_shared.cc:807-810 | the shifting loop drops exactly the two characters behind the decoded one and ends the string, writing nothing behind its old end |
| `UrlDecode.DecodeLoop` | src/mqtt/client_shared.cc:798-830 | under a bound that shrinks while the index grows, the buffer ends as the single-pass decoder says, accepted or not; the loop ends |
| `UrlDecode.UrlDecode` | src/mqtt/client_shared.cc:790-831 | same, with the null pointer and the early exit without a percent sign; nothing from the original terminator on is written |
| `UrlDecode.DecodesIffSpelling` | src/mqtt/client_shared.cc:789-831 | a text is decoded to t exactly when it is one of the spellings of t by plain characters and the four escapes |
| `UrlDecode.RoundTrips` | src/mqtt/client_shared.cc:789-831 | escaped text decodes to itself exactly when %40 gives an at sign or there is none, so a decoded percent sign is never decoded again |
| `SocksGrammar.SplitIffGrammar` | src/mqtt/client_shared.cc:851-856 | the splitter returns p exactly when p is a well-formed reading of the text, so no text has two readings |
| `SocksGrammar.ParseIffGrammar` | src/mqtt/client_shared.cc:844-970 | a URL is accepted with a proxy exactly when a well-formed reading of it decodes to that proxy with a port in 1..65535, an empty port meaning 1080 |
| `SocksGrammar.ReadingIsWorth` | src/mqtt/client_shared.cc:944-970 | a well-formed reading behind socks5h:// is worth its decoded credentials, its host and port 1080 unless another from 1..65535 is given; other ports and undecodable credentials are refused |
| `SocksGrammar.PrintParse` | src/mqtt/client_shared.cc:789-970 | parsing a printed proxy returns it with the byte stored for %40 in place of every at sign |
| `SocksGrammar.PrintParseRoundTrip` | src/mqtt/client_shared.cc:789-970 | print then parse is the identity exactly when that byte is an at sign or no credential holds one |
| `SocksGrammar.AtIsLost` | src/mqtt/client_shared.cc:818-819 | the user name a@b comes back as a:b from the code as written |
| `SocksGrammar.ParsedIsExpressible` | src/mqtt/client_shared.cc:844-970 | whatever is parsed can be printed, and the code as written never returns an at sign |
| `SocksGrammar.ParsePrintParse` | src/mqtt/client_shared.cc:844-970 | reprinting a parsed proxy and parsing again returns it, for either byte |
| `SocksGrammar.TextBehindPortIgnored` | src/mqtt/client_shared.cc:926-933 | without credentials, text behind a second colon is accepted and does not change the port |
| `SocksScanner.StepScanned` | src/mqtt/client_shared.cc:859-915 | every step of the scan keeps the meaning of start, have_auth and the four strings, and gives up only where no reading exists |
| `SocksScanner.ScannerRefinesGrammar` | src/mqtt/client_shared.cc:858-948 | the one-pass scan and the handling of the remainder read every text as the grammar does |
| `SocksParser.OnColon` | src/mqtt/client_shared.cc:860-885 | the colon branch takes the specified step, allocating at most the one string it keeps |
| `SocksParser.OnAt` | src/mqtt/client_shared.cc:886-914 | the at-sign branch takes the specified step; the string set aside becomes the user without a copy |
| `SocksParser.Scan` | src/mqtt/client_shared.cc:858-915 | the loop ends in the scanner's state, its pointers owning distinct live blocks and nothing else new being live |
| `SocksParser.Cleanup` | src/mqtt/client_shared.cc:973-979 | every block still owned is freed once, leaving exactly the blocks from before the call |
| `SocksParser.Deliver` | src/mqtt/client_shared.cc:950-972 | credentials are decoded and the port checked; either nothing allocated stays live, or exactly the stored strings do |
| `SocksParser.ParseSocksUrl` | src/mqtt/client_shared.cc:833-980 | returns 0 exactly on URLs of the grammar and stores their parts; on 1 the live blocks and the configuration are as before, on 0 the new live blocks are the three stored, all distinct |
| `OptionWords.PortWord` | src/mqtt/client_shared.cc:253-264 | -p or --port with a value: the port is the number, refused but stored outside 1..65535; alone refused |
| `OptionWords.BindAddressWord` | src/mqtt/client_shared.cc:265-273 | -A with a value: the bind address is the value; alone refused |
| `OptionWords.CountWord` | src/mqtt/client_shared.cc:307-322 | -C with a value: subscribers only: the count, refused but stored below 1; alone refused |
| `OptionWords.DebugWord` | src/mqtt/client_shared.cc:323-324 | -d or --debug: debug is set |
| `OptionWords.FileWord` | src/mqtt/client_shared.cc:325-339 | -f or --file with a value: publishers only, once: file mode with that file; alone refused |
| `OptionWords.HelpWord` | src/mqtt/client_shared.cc:340-341 | --help: result code 2, nothing stored; whatever stands behind it |
| `OptionWords.HostWord` | src/mqtt/client_shared.cc:342-350 | -h or --host with a value: the host is the value; alone refused |
| `OptionWords.IdWord` | src/mqtt/client_shared.cc:354-365 | -i or --id with a value: the id is the value, unless an id prefix is set; alone refused |
| `OptionWords.IdPrefixWord` | src/mqtt/client_shared.cc:366-377 | -I or --id-prefix with a value: the id prefix is the value, unless an id is set; alone refused |
| `OptionWords.KeepaliveWord` | src/mqtt/client_shared.cc:378-390 | -k or --keepalive with a value: the keepalive is the number, refused but stored above 65535; alone refused |
| `OptionWords.StdinLineWord` | src/mqtt/client_shared.cc:400-409 | -l or --stdin-line: publishers only, once: lines of the input |
| `OptionWords.MessageWord` | src/mqtt/client_shared.cc:410-425 | -m or --message with a value: publishers only, once: the message and its length; alone refused |
| `OptionWords.MaxInflightWord` | src/mqtt/client_shared.cc:426-433 | -M with a value: the inflight limit is the number modulo two to the 32; alone refused |
| `OptionWords.NullMessageWord` | src/mqtt/client_shared.cc:434-443 | -n or --null-message: publishers only, once: an empty message |
| `OptionWords.ProtocolVersionWord` | src/mqtt/client_shared.cc:444-459 | -V or --protocol-version with a value: mqttv31 or mqttv311, any other name is refused; alone refused |
| `OptionWords.QosWord` | src/mqtt/client_shared.cc:489-500 | -q or --qos with a value: the quality of service is the number, refused but stored outside 0..2; alone refused |
| `OptionWords.QuietWord` | src/mqtt/client_shared.cc:501-502 | --quiet: quiet is set |
| `OptionWords.RetainWord` | src/mqtt/client_shared.cc:503-507 | -r or --retain: publishers only: retain is set |
| `OptionWords.StdinFileWord` | src/mqtt/client_shared.cc:508-518 | -s or --stdin-file: publishers only, once: the whole input |
| `OptionWords.TopicWord` | src/mqtt/client_shared.cc:522-543 | -t or --topic with a value: checked by role; a publisher keeps it as its topic, a subscriber appends it; alone refused |
| `OptionWords.PubTopicWord` | src/mqtt/client_shared.cc:544-554 | -b or --pub-topic with a value: checked, then the topic to publish on; alone refused |
| `OptionWords.FilterOutWord` | src/mqtt/client_shared.cc:555-572 | -T or --filter-out with a value: subscribers only: checked, then appended to the filters; alone refused |
| `OptionWords.UsernameWord` | src/mqtt/client_shared.cc:582-589 | -u or --username with a value: the user name is the value; alone refused |
| `OptionWords.PasswordWord` | src/mqtt/client_shared.cc:590-597 | -P or --pw with a value: the password is the value; alone refused |
| `OptionWords.WillPayloadWord` | src/mqtt/client_shared.cc:598-606 | --will-payload with a value: the will payload and its length; alone refused |
| `OptionWords.WillQosWord` | src/mqtt/client_shared.cc:607-618 | --will-qos with a value: the will's quality of service, refused but stored outside 0..2; alone refused |
| `OptionWords.WillRetainWord` | src/mqtt/client_shared.cc:619-620 | --will-retain: the will is retained |
| `OptionWords.WillTopicWord` | src/mqtt/client_shared.cc:621-632 | --will-topic with a value: checked, then the will's topic; alone refused |
| `OptionWords.DisableCleanSessionWord` | src/mqtt/client_shared.cc:633-637 | -c or --disable-clean-session: subscribers only: the session is kept |
| `OptionWords.NoEolWord` | src/mqtt/client_shared.cc:638-642 | -N: subscribers only: no line ends |
| `OptionWords.NoRetainWord` | src/mqtt/client_shared.cc:643-647 | -R: subscribers only: no retained messages |
| `OptionWords.VerboseWord` | src/mqtt/client_shared.cc:648-652 | -v or --verbose: subscribers only: verbose is set |
| `OptionWords.OtherWord` | src/mqtt/client_shared.cc:653-662 | every word but the 53 above is refused with result code 1, nothing stored, whatever stands behind it |
| `Options.RunConcat` | src/mqtt/client_shared.cc:252-656 | if the first words are accepted, both lists together give the result code and record of the second list from the state the first left |
| `Options.RefusalIsFinal` | src/mqtt/client_shared.cc:252-663 | if whole first words are refused, no further words change result code or record |
| `Options.ConcatenationLaw` | src/mqtt/client_shared.cc:252-663 | for every whole first list both cases together |
| `Options.AcceptedIsWhole` | src/mqtt/client_shared.cc:254-256 | accepted words never end in an option that still wants its value |
| `Options.RunVerdict` | src/mqtt/client_shared.cc:252-663 | words are accepted exactly when every option has its value, each setting is one the role takes with an admissible value, at most one chooses what to publish and id and prefix exclude each other; they are then stored one by one |
| `Options.HelpVerdict` | src/mqtt/client_shared.cc:340-341 | the result code is 2 exactly when --help stands behind acceptable settings only, else 0 or 1 |
| `Options.RunConsistent` | src/mqtt/client_shared.cc:252-656 | port, qos, keepalive and counts stay in range, id and prefix exclude each other, counts match lists, message and file match the mode, over every accepted list |
| `Options.RolesKeepApart` | src/mqtt/client_shared.cc:307-339 | accepted or not, a publisher's words never change a subscriber's fields nor the reverse |
| `Options.OneMode` | src/mqtt/client_shared.cc:325-339 | accepted words choose what to publish at most once, values not counted, and that choice fixes mode, message and file |
| `Options.SubscriptionsInOrder` | src/mqtt/client_shared.cc:522-571 | a subscriber's topics and filters grow by exactly the -t and -T values in order |
| `Options.LastWins` | src/mqtt/client_shared.cc:265-397 | host, user, password, ids, bind address and a subscriber's publish topic are the last ones given |
| `Options.StoreAllReads` | src/mqtt/client_shared.cc:253-653 | storing settings one after the other gives, in every field of the record by itself, the last value, all values in order, or whether the option was given |
| `Options.SettingsDecide` | src/mqtt/client_shared.cc:253-653 | the whole record left by accepted words is determined by their settings and the starting record: protocol version, publish topic and every number are the last ones given (the inflight limit modulo two to the 32), switches are set exactly when given |
| `Options.GivenIsLastValue` | src/mqtt/client_shared.cc:265-653 | what is called the last value of an option is the end of the list of all values given for it |
| `Options.GivenTopicIsLastValue` | src/mqtt/client_shared.cc:522-554 | for the publish topic it is the last of a publisher's -t and -b values in the order given, of a subscriber's -b values |
| `Options.GivenModeIsLastMode` | src/mqtt/client_shared.cc:325-517 | the choice of what to publish that is read off is the last one made |
| `Client.MosqConfig.Init` | src/mqtt/client_shared.cc:37-46 | the initial configuration, which is consistent |
| `Client.MosqConfig.NumberOption` | src/mqtt/client_shared.cc:253-500 | the common number options in place; a number out of range is refused and stays stored |
| `Client.MosqConfig.LinkOption` | src/mqtt/client_shared.cc:253-597 | in place, each common option does what its table row says, refusals and half-stored numbers included |
| `Client.MosqConfig.TopicOption` | src/mqtt/client_shared.cc:522-554 | -t and -b in place, by role |
| `Client.MosqConfig.PubOption` | src/mqtt/client_shared.cc:325-517 | the publisher's options in place, one message mode at most |
| `Client.MosqConfig.SubOption` | src/mqtt/client_shared.cc:307-652 | the subscriber's options in place |
| `Client.MosqConfig.WillOption` | src/mqtt/client_shared.cc:598-632 | the will's options in place |
| `Client.MosqConfig.LineProc` | src/mqtt/client_shared.cc:248-663 | the loop leaves the result code and record of the specification and keeps the configuration consistent |
| `Client.MosqConfig.LoadFile` | src/mqtt/client_shared.cc:147-170 | the loop over the file's lines stops at the first refusal with its code and record |
| `Client.MosqConfig.Complete` | src/mqtt/client_shared.cc:180-245 | the final checks and defaults in place |
| `Client.MosqConfig.Load` | src/mqtt/client_shared.cc:93-246 | the whole load leaves the result code and record of its specification |
| `Startup.LoadIsOnePass` | src/mqtt/client_shared.cc:147-178 | a file whose lines are all accepted works as one pass over its words followed by the arguments |
| `Startup.WholeLoadIsOnePass` | src/mqtt/client_shared.cc:147-178 | so does any file of whole lines, refusals included |
| `Startup.LoadVerdict` | src/mqtt/client_shared.cc:147-245 | a load succeeds exactly when every line and the arguments are whole, all settings together are acceptable, a will payload or retain comes with a will topic, and a subscriber's kept session with an id and no prefix; where only the will's topic or the id is missing the result code is 1 |
| `Startup.LoadedLink` | src/mqtt/client_shared.cc:37-46 | after every successful load ids, bind address, protocol, port, keepalive, quality of service, inflight limit, debug and quiet are what file and arguments gave last, else none, V31, 1883, 60, 0, 20 and off |
| `Startup.LoadedSubscriber` | src/mqtt/client_shared.cc:37-46 | a subscriber's session, line ends, retain filter, verbosity, count and filters are what was given, else kept clean, on, off, off, 0 and none |
| `Startup.LoadedPublishTopic` | src/mqtt/client_shared.cc:522-554 | a publisher publishes on the last of its -t and -b values and subscribes to nothing |
| `Startup.LoadedWill` | src/mqtt/client_shared.cc:598-632 | the will is what was given of it, its payload with its length |
| `Startup.LoadedIsReady` | src/mqtt/client_shared.cc:176-245 | after every successful load host, user and password are set, will payload or retain implies a will topic, and a subscriber has topics, a publish topic and, for a kept session, an id and no prefix |
| `Startup.LoadedTopics` | src/mqtt/client_shared.cc:222-238 | a subscriber's topics are all -t values, else codein/live/ and its user name, counted rightly; it publishes on the last -b value, else the first -t value, else codein/live |
| `Startup.LoadedIdentity` | src/mqtt/client_shared.cc:208-220 | host, user and password are the last given in file or arguments, else localhost, the random number's low 60 bits plus 9223372000000000000 in decimal, and codein.tv |
| `Startup.LoadedMode` | src/mqtt/client_shared.cc:325-517 | over file and arguments at most one message is chosen to publish, which fixes mode, file, message and its length; a subscriber's publishing fields keep their initial values |
| `Uid.GetUid` | src/mqtt/auth_plugin.cc:295-313 | the accumulating loop, wrapping at every step, returns the wrapped value of the digits, or -1 for the empty string and foreign characters |
| `Uid.UidOfName` | src/mqtt/auth_plugin.cc:295-313 | refused are the empty name and those with a character that is no digit and no P; of the others the digits are read, wrapped to a long |
| `Uid.LongStep` | src/mqtt/auth_plugin.cc:303-304 | wrapping after the product and after the sum is the same as wrapping once |
| `Uid.UidOfDecimal` | src/mqtt/auth_plugin.cc:295-313 | every number below two to the 63 is read back from its decimal text |
| `Uid.NoOverflow` | src/mqtt/auth_plugin.cc:303-304 | for every digit string, no product or sum on the way leaves the range of a long exactly when the number is below two to the 63 |
| `Uid.SkipsSpaceIff` | src/mqtt/auth_plugin.cc:301-310 | the answer is that of a loop passing over spaces exactly on names with a character that is no digit, P or space, with both or neither of P and space, or whose digits wrap around to -1 |
| `Uid.SkippedExample` | src/mqtt/auth_plugin.cc:306 | 1P2 is read as 12 and a 1 and a 2 with a space between are refused; passing over spaces gives the reverse |
| `Sessions.AuthPlugin.CheckToken` | src/mqtt/auth_plugin.cc:263-293 | 0 exactly when the query could be made and a live row carries user and token; the connection is given back on every path |
| `Sessions.AuthPlugin.UpdateClientStatus` | src/mqtt/auth_plugin.cc:337-383 | the three updates, each of which may fail by itself, on both tables; the connection is given back |
| `Sessions.AuthPlugin.ConnectCheck` | src/mqtt/auth_plugin.cc:387-430 | verdict, tables and announcements are those of the specification on every path |
| `Sessions.NullRefused` | src/mqtt/auth_plugin.cc:389-397 | without user name, password or client name nobody is let in |
| `Sessions.AccountVerdict` | src/mqtt/auth_plugin.cc:400-416 | a name that is no number is let in exactly as codein with codein.tv, or on a prefix codein_os_js with js.codein.tv, or on any other codein_os_ with os.cOdein.tv; nothing is written |
| `Sessions.AnonymousVerdict` | src/mqtt/auth_plugin.cc:418-421 | numbers from 9223372000000000000 on are let in with codein.tv and only announced |
| `Sessions.TokenVerdict` | src/mqtt/auth_plugin.cc:423-429 | all others are let in exactly when the query runs and finds a row of user and token with expired 0 |
| `Sessions.TokenEffect` | src/mqtt/auth_plugin.cc:359-376 | such a success leaves one announcement and, row by row, the current time as expiry of the user's rows with another token or device, expired before or not, 0/0 for its other devices and the address for its own, each if its statement ran |
| `Sessions.CountLiveIff` | src/mqtt/auth_plugin.cc:271-292 | the count is positive exactly when some live row carries user and token |
| `Sessions.WinnerTakesAll` | src/mqtt/auth_plugin.cc:374-376 | after a success whose expiry ran, a user's live rows carry only the token and device it came with |
| `Sessions.SupersedesIff` | src/mqtt/auth_plugin.cc:337-383 | a success expires another live row exactly when the client has a name, a connection was to be had and the update ran |
| `Sessions.CheckIsLocal` | src/mqtt/auth_plugin.cc:359-376 | no check touches other users' rows, changes a key, or revives an expired row |
| `Sessions.OtherDevicesReset` | src/mqtt/auth_plugin.cc:359-369 | after a success whose reset ran every other device of the user is 0/0, its own row keeps its state |
| `Sessions.RefusalChangesNothing` | src/mqtt/auth_plugin.cc:429 | a refused check leaves both tables and the announcements as they were |
| `Sessions.ReconnectIff` | src/mqtt/auth_plugin.cc:374-376 | the same credentials are accepted again exactly when a live row of that very device was there |
| `Sessions.NewDeviceLocksOut` | src/mqtt/auth_plugin.cc:374-427 | after a success from a device without a live row of its own, every credential of the user on the token path is refused over every run that inserts no live session for the user |
| `Sessions.NewDeviceExample` | src/mqtt/auth_plugin.cc:374-427 | one live row for d1: its token is accepted from d2, then refused from both |
| `Sessions.RunLiveWithin` | src/mqtt/auth_plugin.cc:337-430 | over every run of checks and insertions a user's live sessions stay within those at the start and those inserted since |
| `Sessions.OneLiveSession` | src/mqtt/auth_plugin.cc:387-430 | until a session is inserted for the user, at most the one last used is live, over every run |
| `Sessions.SupersededStaysDead` | src/mqtt/auth_plugin.cc:263-430 | after a success every other token of the user is refused, over every run and with any failures, until a live session for it is inserted |
| `Identity.GeneratedFits` | src/mqtt/client_shared.cc:212-216 | for every lrand48 value the generated id fits 63 bits, prints within 24 bytes and is read back unchanged by get_uid |
| `Identity.GeneratedIsAdmitted` | src/mqtt/auth_plugin.cc:418-421 | the generated identity with the default password always takes the anonymous branch |
| `Identity.UnnamedClientIsAdmitted` | src/mqtt/client_shared.cc:212-220 | every successful load without -u and -P yields credentials the connect check accepts |
| `Frame.SendMqttMsg` | src/mqtt/mqttest.cc:225-240 | the buffer filled byte by byte is the layout: type and id big-endian, then the body |
| `Frame.SendKotlinMsg` | src/robot/src/main/kotlin/hello/Mqtt.kt:173-191 | the Kotlin writers' assignments and copying loop give the identical bytes for the type's low 16 bits |
| `Frame.LayoutExample` | src/mqtt/mqttest.cc:229-240 | type 0x0102, id 0x030405060708090a and a body 11, 12 are laid out as the bytes 1 to 12 |
| `Frame.DecodeEncode` | src/mqtt/mqttest.cc:48-57 | the C++ reader recovers every 16-bit type, 64-bit id and body |
| `Frame.EncodeDecode` | src/mqtt/mqttest.cc:112-121 | every frame of at least ten bytes is what the writer makes of what is read from it |
| `Frame.KindsAgreeIff` | src/robot/src/main/kotlin/hello/Mqtt.kt:82-83 | the readers agree on the type exactly when both its bytes are below 128 |
| `Frame.IdsAgreeIff` | src/robot/src/main/kotlin/hello/Mqtt.kt:84-91 | the readers agree on the id exactly when no byte behind the top one is negative and the top one equals the type's, or all bytes in front of the last negative one are 255 |
| `Frame.KotlinReadsBackIff` | src/robot/src/main/kotlin/hello/Mqtt.kt:82-91 | the Kotlin reader gets type and id of a frame right exactly under both conditions |
| `Frame.KotlinMisreads` | src/robot/src/main/kotlin/hello/Mqtt.kt:82-91 | id 200 of type 1 is read with its upper 56 bits set, type 200 as a negative type |
| `Receiver.Listener.OnMessage` | src/mqtt/mqttest.cc:195-223 | one call of the callback: filter loop, dump, count and disconnect |
| `Receiver.Listener.OnStream` | src/mqtt/mqttest.cc:195-223 | a stream delivered message by message leaves the listener in the state the two laws below describe |
| `Receiver.NextMessage` | src/mqtt/mqttest.cc:195-223 | one more message is dumped, behind the others, exactly when it is not retained where that is unwanted, no filter matches its topic and the limit leaves room; at the limit the client has hung up once, before it not at all |
| `Receiver.DumpedIff` | src/mqtt/mqttest.cc:206-212 | over every stream just the messages that came in and pass both tests are dumped, and all of them while the limit leaves room |
| `Receiver.FirstSurvivors` | src/mqtt/mqttest.cc:195-223 | with a limit N exactly the first N messages that survive the tests are dumped, the count never exceeds N, and disconnect is called once, exactly when N is reached |
| `Receiver.AllSurvivors` | src/mqtt/mqttest.cc:206-216 | without a limit all survivors are dumped and disconnect is never called |
| `Robot.Run` | src/robot/src/main/kotlin/hello/Robot.kt:199-226 | the loop sends live states and nearby searches when the two gates on the clock open |
| `Robot.IterationsAdvance` | src/robot/src/main/kotlin/hello/Robot.kt:203-225 | late or in time, iterations start at least a second apart |
| `Robot.AtMost` | src/robot/src/main/kotlin/hello/Robot.kt:204-213 | over any time span a gate sends at most one more than periods fit in |
| `Robot.SentWithin` | src/robot/src/main/kotlin/hello/Robot.kt:204-225 | of n iterations at least one in every k sends, a period being k seconds |
| `Robot.SendRates` | src/robot/src/main/kotlin/hello/Robot.kt:199-226 | live states are at least 3000 and nearby searches at least 5000 milliseconds apart, and both bounds on their number hold, for every monotone clock and number of iterations |
| `Robot.FullRun` | src/robot/src/main/kotlin/hello/Robot.kt:202-226 | in 180 iterations at least 60 live states and 36 nearby searches are sent |
| `Robot.SteadyRun` | src/robot/src/main/kotlin/hello/Robot.kt:202-226 | with iterations exactly a second apart it is 60 and 36, so the bounds are met |

## Left out

- Text.Atoi: yields the mathematical value; what atoi does outside the range of an int is undefined (section 7.22.1.2 of ISO C11).
- Uid.GetUid: wraps around on overflow, which is an assumption, since signed overflow is undefined (section 6.5 of ISO C11); `Uid.NoOverflow` says exactly which digit strings meet it.
- SocksParser.Heap.Malloc: never fails; the one allocation whose failure the source handles (src/mqtt/client_shared.cc:935-939) and the unchecked ones are taken to succeed.
- Client.MosqConfig: keeps the fields of struct mosq_config in four records, updated in place, instead of one flat list of fields.
- Client.MosqConfig.Load: starts from the words of each line; finding and reading the file, comments, line ends and strtok are not modelled, nor are fixed-size buffers and ownership of configuration strings.
- Startup.AnonUid: the random number is a parameter; seeding and lrand48 itself are outside the model.
- The options behind WITH_TLS, WITH_TLS_PSK, WITH_SRV and WITH_SOCKS: src/mqtt/makefile defines none of them, so the option loop treats these words as unknown; the SOCKS parser is modelled from its source text by itself.
- mosquitto's topic checks and topic matching: parameters, since the library is not part of this repository.
- Sessions: SQL text, quoting, truncation, null columns and the PostgreSQL result handles; each statement is a table operation that succeeds or fails. The peer address and the clock are inputs, and the expiry time is taken to differ from 0.
- Sessions.AuthPlugin.OnClientOnline: records the announcement; the Kafka producer and its thread are not modelled.
- ACL stubs, plugin start and stop, pre-shared keys: constants or library plumbing.
- Frame: protobuf bodies are byte sequences; topic dispatch and the readers' handling of bodies are not modelled, nor are Udp.kt and UdpNetty.kt.
- Robot.Run: positions, message contents, the progress print and the final idle message are not modelled; login and reconnecting neither.
- client_id_generate, client_opts_set, client_connect, usage text and logging.
