/** The identity a client generates for itself meets the broker's connect check: src/mqtt/client_shared.cc against
    src/mqtt/auth_plugin.cc. */
module Identity {
  import opened Text
  import Options
  import Sessions
  import Startup
  import Uid

  /** lrand48 answers with 31 bits. */
  predicate Lrand48(rand: int) {
    0 <= rand < 0x8000_0000
  }

  /** The generated user id fits a long and its text fits the 24 bytes allocated for it. */
  lemma GeneratedFits(rand: int)
    requires Lrand48(rand)
    ensures Startup.AnonUid(rand) == rand + 9223372000000000000 < 0x8000_0000_0000_0000
    ensures |Decimal(Startup.AnonUid(rand))| + 1 <= 24
    ensures Uid.UidOf(Decimal(Startup.AnonUid(rand))) == Startup.AnonUid(rand)
  {
    var uid := Startup.AnonUid(rand);
    LowBits(rand);
    NineteenDigits();
    DecimalLength(uid, 19);
    Uid.UidOfDecimal(uid);
  }

  lemma NineteenDigits()
    ensures Pow10(19) == 10_000_000_000_000_000_000
  {
    assert Pow10(6) == 1_000_000;
    assert Pow10(12) == 1_000_000_000_000;
    assert Pow10(18) == 1_000_000_000_000_000_000;
  }

  /** Whatever the random number, the generated identity with the default password is let in from every client
      that names itself, without a look at the tables. */
  lemma GeneratedIsAdmitted(rand: int, db: Sessions.Db, clientid: string, w: Sessions.World)
    requires Lrand48(rand)
    ensures var uid := rand + 9223372000000000000;
            Sessions.Connect(db, Some(Decimal(uid)), Some("codein.tv"), Some(clientid), w)
            == (Sessions.Success, db.(online := db.online + [Sessions.Online(uid, "codein.tv", clientid)]))
  {
    GeneratedFits(rand);
  }

  /** So a client started without -u and -P, in file or arguments, always connects. */
  lemma UnnamedClientIsAdmitted(role: Options.Role, lines: seq<seq<string>>, argv: seq<string>, rand: int,
                                checks: Options.Checks, db: Sessions.Db, clientid: string, w: Sessions.World)
    requires Lrand48(rand) && Startup.Load(role, lines, argv, rand, checks).Accepted()
    requires Options.Values(Startup.Settings(lines, argv), Options.Username) == []
    requires Options.Values(Startup.Settings(lines, argv), Options.Password) == []
    ensures var l := Startup.Load(role, lines, argv, rand, checks).config.link;
            Sessions.Connect(db, l.username, l.password, Some(clientid), w).0 == Sessions.Success
  {
    UnnamedIdentity(role, lines, argv, rand, checks);
    GeneratedIsAdmitted(rand, db, clientid, w);
  }

  lemma UnnamedIdentity(role: Options.Role, lines: seq<seq<string>>, argv: seq<string>, rand: int,
                        checks: Options.Checks)
    requires Lrand48(rand) && Startup.Load(role, lines, argv, rand, checks).Accepted()
    requires Options.Values(Startup.Settings(lines, argv), Options.Username) == []
    requires Options.Values(Startup.Settings(lines, argv), Options.Password) == []
    ensures var l := Startup.Load(role, lines, argv, rand, checks).config.link;
            l.username == Some(Decimal(rand + 9223372000000000000)) && l.password == Some("codein.tv")
  {
    var items := Startup.Settings(lines, argv);
    LowBits(rand);
    Startup.LoadedIdentity(role, lines, argv, rand, checks);
    Options.GivenIsLastValue(items, Options.Username);
    Options.GivenIsLastValue(items, Options.Password);
  }

  lemma LowBits(rand: int)
    requires Lrand48(rand)
    ensures rand % 0x1000_0000_0000_0000 == rand
  {
  }
}
