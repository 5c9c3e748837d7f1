/** config/config.js: the environment, a map from variable names to their
    text, resolved into the configuration record with `||` defaults,
    `parseInt` for the numeric settings and string comparisons for the
    flags, followed by the check of the three required credentials. */
module Config {
  import opened Wrappers
  import opened Text

  // ---------------------------------------------------------------------------
  // parseInt(string) with no radix
  // ---------------------------------------------------------------------------

  /** The value of `c` as a digit in the given radix (10 or 16). */
  function DigitIn(c: char, radix: nat): (d: Option<nat>)
    ensures d.Some? ==> d.value < radix
    ensures radix == 10 ==> (d.Some? <==> IsDigit(c))
    ensures radix == 10 && IsDigit(c) ==> d == Some(DigitValue(c))
  {
    if IsDigit(c) && DigitValue(c) < radix then Some(DigitValue(c))
    else if radix == 16 && 'a' <= c <= 'f' then Some(c as int - 'a' as int + 10)
    else if radix == 16 && 'A' <= c <= 'F' then Some(c as int - 'A' as int + 10)
    else None
  }

  /** The length of the longest prefix of `s` made of digits of the radix. */
  function DigitRun(s: string, radix: nat): (n: nat)
    ensures n <= |s|
    ensures forall i :: 0 <= i < n ==> DigitIn(s[i], radix).Some?
    ensures n == |s| || DigitIn(s[n], radix).None?
  {
    if s == [] || DigitIn(s[0], radix).None? then 0
    else
      var n := DigitRun(s[1..], radix);
      assert forall i :: 1 <= i < n + 1 ==> s[i] == s[1..][i - 1];
      1 + n
  }

  predicate AllDigits(s: string, radix: nat) {
    forall i :: 0 <= i < |s| ==> DigitIn(s[i], radix).Some?
  }

  /** The value of a string of digits, most significant first. */
  function Value(s: string, radix: nat): nat
    requires AllDigits(s, radix)
  {
    if s == [] then 0
    else Value(s[..|s| - 1], radix) * radix + DigitIn(s[|s| - 1], radix).value
  }

  /** The body after the sign: `0x`/`0X` selects base 16, anything else is
      read in base 10. */
  function Radix(body: string): nat {
    if |body| >= 2 && body[0] == '0' && (body[1] == 'x' || body[1] == 'X') then 16 else 10
  }

  function Digitstring(body: string): string {
    if Radix(body) == 16 then body[2..] else body
  }

  /** `parseInt(s)`: leading white space is skipped, one sign is taken, then
      the longest run of digits is read; no digit at all is NaN (`None`). */
  function ParseInt(s: string): (r: Option<int>)
    ensures r.Some? <==> DigitRun(Digitstring(Unsigned(TrimStart(s))), Radix(Unsigned(TrimStart(s)))) >= 1
    ensures r.Some? && TrimStart(s) != [] && TrimStart(s)[0] == '-' ==> r.value <= 0
    ensures r.Some? && !(TrimStart(s) != [] && TrimStart(s)[0] == '-') ==> r.value >= 0
  {
    var t := TrimStart(s);
    var body := Unsigned(t);
    var radix := Radix(body);
    var digits := Digitstring(body);
    var n := DigitRun(digits, radix);
    if n == 0 then None
    else
      var v: int := Value(digits[..n], radix);
      Some(if t != [] && t[0] == '-' then -v else v)
  }

  /** The text after an optional leading sign. */
  function Unsigned(t: string): string {
    if t != [] && (t[0] == '-' || t[0] == '+') then t[1..] else t
  }

  /** The decimal text of a number reads back as that number. */
  lemma ParseDecimal(n: nat)
    ensures ParseInt(Decimal(n)) == Some(n)
  {
    ParseDigitString(Decimal(n));
    ValueOfDecimal(n);
  }

  /** A string of decimal digits reads as its value. */
  lemma ParseDigitString(s: string)
    requires |s| >= 1 && forall i :: 0 <= i < |s| ==> IsDigit(s[i])
    ensures AllDigits(s, 10) && ParseInt(s) == Some(Value(s, 10))
  {
    assert IsDigit(s[0]);
    assert !IsJsSpace(s[0]);
    var t := TrimStart(s);
    assert t == s;
    assert Unsigned(t) == s;
    if |s| >= 2 {
      assert IsDigit(s[1]);
    }
    assert Radix(s) == 10;
    assert Digitstring(s) == s;
    RunOfDigits(s);
    assert s[..|s|] == s;
  }

  lemma RunOfDigits(s: string)
    requires forall i :: 0 <= i < |s| ==> IsDigit(s[i])
    ensures DigitRun(s, 10) == |s|
  {
    var n := DigitRun(s, 10);
    assert forall i :: 0 <= i < |s| ==> DigitIn(s[i], 10).Some?;
  }

  lemma {:induction false} ValueOfDecimal(n: nat)
    ensures AllDigits(Decimal(n), 10) && Value(Decimal(n), 10) == n
    decreases n
  {
    var s := Decimal(n);
    if n < 10 {
      assert s[..0] == [];
    } else {
      ValueOfDecimal(n / 10);
      assert s[..|s| - 1] == Decimal(n / 10);
    }
  }

  /** Text after the digits is ignored. */
  lemma TrailingTextIgnored()
    ensures ParseInt("2000ms") == Some(2000)
  {
    var d := Decimal(2000);
    assert d == "2000";
    NumberThenText(2000, "ms");
    assert d + "ms" == "2000ms";
  }

  /** A positive number followed by text that does not start with a digit
      reads as the number. */
  lemma NumberThenText(n: nat, rest: string)
    requires n > 0 && rest != [] && !IsDigit(rest[0])
    ensures ParseInt(Decimal(n) + rest) == Some(n)
  {
    DecimalLead(n);
    ParseDecimal(n);
    TrailingIgnored(Decimal(n), rest);
  }

  lemma {:induction false} DecimalLead(n: nat)
    requires n > 0
    ensures Decimal(n)[0] != '0'
    decreases n
  {
    if n >= 10 {
      DecimalLead(n / 10);
    }
  }

  /** `0x` switches to hexadecimal. */
  lemma HexPrefixRead()
    ensures ParseInt("0x10") == Some(16)
  {
    var digits := "10";
    assert DigitRun(digits, 16) == 2;
    ParseHex(digits);
    assert "0x" + digits == "0x10";
    assert digits[..2] == digits;
    assert Value("1", 16) == 1;
    assert Value(digits, 16) == 16;
  }

  /** After `0x` the longest run of hexadecimal digits is read. */
  lemma ParseHex(digits: string)
    requires DigitRun(digits, 16) >= 1
    ensures ParseInt("0x" + digits) == Some(Value(digits[..DigitRun(digits, 16)], 16))
  {
    var s := "0x" + digits;
    assert s[0] == '0' && s[1] == 'x';
    assert TrimStart(s) == s;
    assert Unsigned(s) == s;
    assert Radix(s) == 16;
    assert Digitstring(s) == digits;
  }

  /** Leading blanks are skipped and a minus sign is kept. */
  lemma SignAfterBlanks()
    ensures ParseInt("  -7") == Some(-7)
  {
    assert TrimStart("  -7") == "-7";
    assert Unsigned("-7") == "7";
    assert DigitRun("7", 10) == 1;
    assert Value("7", 10) == 7;
  }

  /** Text with no leading digit is NaN. */
  lemma NoDigitsIsNaN()
    ensures ParseInt("abc") == None
  {
    assert TrimStart("abc") == "abc";
    assert DigitRun("abc", 10) == 0;
  }

  /** A decimal number followed by a non-digit reads as the number. */
  lemma TrailingIgnored(digits: string, rest: string)
    requires digits != [] && forall i :: 0 <= i < |digits| ==> IsDigit(digits[i])
    requires digits[0] != '0' && rest != [] && !IsDigit(rest[0])
    ensures ParseInt(digits + rest) == ParseInt(digits)
  {
    var s := digits + rest;
    assert !IsJsSpace(s[0]) && !IsJsSpace(digits[0]);
    assert TrimStart(s) == s && TrimStart(digits) == digits;
    assert Unsigned(s) == s && Unsigned(digits) == digits;
    assert Radix(s) == 10 && Radix(digits) == 10;
    RunOfDigits(digits);
    var n := DigitRun(s, 10);
    forall i | 0 <= i < |digits| ensures DigitIn(s[i], 10).Some? {
      assert s[i] == digits[i];
    }
    assert s[|digits|] == rest[0];
    assert DigitIn(s[|digits|], 10).None?;
    assert n == |digits|;
    assert s[..n] == digits == digits[..|digits|];
  }

  // ---------------------------------------------------------------------------
  // Settings
  // ---------------------------------------------------------------------------

  type Env = map<string, string>

  function Lookup(env: Env, name: string): Option<string> {
    if name in env then Some(env[name]) else None
  }

  /** `parseInt(process.env.X) || d`: an absent variable is NaN, and NaN and
      0 both fall back to the default. */
  function IntSetting(v: Option<string>, d: int): int {
    if v.None? then d
    else match ParseInt(v.value)
      case None => d
      case Some(x) => if x == 0 then d else x
  }

  /** The default is taken exactly when the text does not read as a non-zero
      number (or is absent); otherwise the setting is the number read. */
  lemma IntSettingFallsBack(v: Option<string>, d: int)
    ensures var x := if v.Some? then ParseInt(v.value) else None;
      && (x.None? || x == Some(0) ==> IntSetting(v, d) == d)
      && (x.Some? && x.value != 0 ==> IntSetting(v, d) == x.value)
  {
  }

  /** A positive number written in decimal is taken as it is. */
  lemma IntSettingRoundTrip(n: nat, d: int)
    requires n > 0
    ensures IntSetting(Some(Decimal(n)), d) == n
  {
    ParseDecimal(n);
  }

  /** `X !== 'false'`: on unless the text is exactly "false". */
  predicate OnUnlessFalse(v: Option<string>) {
    v != Some("false")
  }

  /** `X === 'true'`: off unless the text is exactly "true". */
  predicate OffUnlessTrue(v: Option<string>) {
    v == Some("true")
  }

  datatype Config = Config(
    discordToken: string,
    discordClientId: string,
    discordChannelId: string,
    minecraftHost: string,
    minecraftPort: int,
    minecraftUsername: string,
    togetherApiKey: string,
    openrouterApiKey: string,
    geminiApiKey: string,
    autoRespawn: bool,
    autoEat: bool,
    commandPrefix: string,
    reconnectDelay: int,
    maxReconnectAttempts: int,
    chatCooldown: int,
    debugMode: bool,
    logLevel: string)

  const DefaultHost := "LifeSteal029.aternos.me"
  const DefaultPort := 48688
  const DefaultUsername := "AIBot_LS029"
  const DefaultPrefix := "!"
  const DefaultReconnectDelay := 15000
  const DefaultMaxReconnectAttempts := 50
  const DefaultChatCooldown := 2000
  const DefaultLogLevel := "info"

  /** The configuration object built from the environment. */
  function Resolve(env: Env): Config {
    Config(
      discordToken := OrElse(Lookup(env, "DISCORD_TOKEN"), ""),
      discordClientId := OrElse(Lookup(env, "DISCORD_CLIENT_ID"), ""),
      discordChannelId := OrElse(Lookup(env, "DISCORD_CHANNEL_ID"), ""),
      minecraftHost := OrElse(Lookup(env, "MINECRAFT_HOST"), DefaultHost),
      minecraftPort := IntSetting(Lookup(env, "MINECRAFT_PORT"), DefaultPort),
      minecraftUsername := OrElse(Lookup(env, "MINECRAFT_USERNAME"), DefaultUsername),
      togetherApiKey := OrElse(Lookup(env, "TOGETHER_API_KEY"), ""),
      openrouterApiKey := OrElse(Lookup(env, "OPENROUTER_API_KEY"), ""),
      geminiApiKey := OrElse(Lookup(env, "GEMINI_API_KEY"), ""),
      autoRespawn := OnUnlessFalse(Lookup(env, "AUTO_RESPAWN")),
      autoEat := OnUnlessFalse(Lookup(env, "AUTO_EAT")),
      commandPrefix := OrElse(Lookup(env, "COMMAND_PREFIX"), DefaultPrefix),
      reconnectDelay := IntSetting(Lookup(env, "RECONNECT_DELAY"), DefaultReconnectDelay),
      maxReconnectAttempts := IntSetting(Lookup(env, "MAX_RECONNECT_ATTEMPTS"), DefaultMaxReconnectAttempts),
      chatCooldown := IntSetting(Lookup(env, "CHAT_COOLDOWN"), DefaultChatCooldown),
      debugMode := OffUnlessTrue(Lookup(env, "DEBUG_MODE")),
      logLevel := OrElse(Lookup(env, "LOG_LEVEL"), DefaultLogLevel))
  }

  /** With none of the variables set, every setting is its default and the
      three credentials are empty. */
  lemma EmptyEnvironmentDefaults()
    ensures var c := Resolve(map[]);
      && c.minecraftPort == 48688 && c.reconnectDelay == 15000 && c.maxReconnectAttempts == 50
      && c.chatCooldown == 2000 && c.minecraftHost == "LifeSteal029.aternos.me"
      && c.minecraftUsername == "AIBot_LS029" && c.commandPrefix == "!" && c.logLevel == "info"
      && c.autoRespawn && c.autoEat && !c.debugMode
      && c.discordToken == "" && c.discordClientId == "" && c.togetherApiKey == ""
  {
  }

  /** `CHAT_COOLDOWN=0` does not switch the cooldown off: it gives 2000. */
  lemma ZeroCooldownIsDefault(env: Env)
    requires "CHAT_COOLDOWN" in env && env["CHAT_COOLDOWN"] == "0"
    ensures Resolve(env).chatCooldown == 2000
  {
    ParseDecimal(0);
    assert Decimal(0) == "0";
  }

  /** Only the exact text "false" turns the respawn and eat flags off; only
      the exact text "true" turns debug mode on. */
  lemma FlagTexts(env: Env)
    ensures Resolve(env).autoRespawn <==> !("AUTO_RESPAWN" in env && env["AUTO_RESPAWN"] == "false")
    ensures Resolve(env).autoEat <==> !("AUTO_EAT" in env && env["AUTO_EAT"] == "false")
    ensures Resolve(env).debugMode <==> "DEBUG_MODE" in env && env["DEBUG_MODE"] == "true"
  {
  }

  // ---------------------------------------------------------------------------
  // Validation
  // ---------------------------------------------------------------------------

  const RequiredFields: seq<string> := ["DISCORD_TOKEN", "DISCORD_CLIENT_ID", "TOGETHER_API_KEY"]

  /** `config[field]` for a required field. */
  function Field(c: Config, name: string): string
    requires name in RequiredFields
  {
    if name == "DISCORD_TOKEN" then c.discordToken
    else if name == "DISCORD_CLIENT_ID" then c.discordClientId
    else c.togetherApiKey
  }

  /** `xs` is `ys` with some elements left out, order kept. */
  predicate SubsequenceOf(xs: seq<string>, ys: seq<string>)
    decreases |ys|
  {
    if xs == [] then true
    else if ys == [] then false
    else if xs[0] == ys[0] then SubsequenceOf(xs[1..], ys[1..])
    else SubsequenceOf(xs, ys[1..])
  }

  /** `names.filter(field => !config[field])`. */
  function MissingFrom(c: Config, names: seq<string>): (m: seq<string>)
    requires forall i :: 0 <= i < |names| ==> names[i] in RequiredFields
    ensures forall x :: x in m <==> x in names && x in RequiredFields && Field(c, x) == ""
    ensures SubsequenceOf(m, names)
  {
    if names == [] then []
    else
      var rest := MissingFrom(c, names[1..]);
      assert forall x :: x in names <==> x == names[0] || x in names[1..];
      if Field(c, names[0]) == "" then [names[0]] + rest else rest
  }

  /** The required fields that are empty, in the order listed. */
  function Missing(c: Config): seq<string> {
    MissingFrom(c, RequiredFields)
  }

  /** Loading the module: the configuration, or the missing names, which make
      the process exit with code 1. */
  function Load(env: Env): (r: Result<Config, seq<string>>)
    ensures r.Success? <==> Missing(Resolve(env)) == []
    ensures r.Success? ==> r.value == Resolve(env)
    ensures r.Failure? ==> r.error == Missing(Resolve(env)) && |r.error| >= 1
  {
    var c := Resolve(env);
    if |Missing(c)| > 0 then Failure(Missing(c)) else Success(c)
  }

  /** The load fails exactly when one of the three credentials is unset or
      empty, and then names every such credential, in order. */
  lemma LoadFailsIffCredentialMissing(env: Env)
    ensures Load(env).Failure? <==>
      (exists name :: name in RequiredFields && OrElse(Lookup(env, name), "") == "")
    ensures Load(env).Failure? ==>
      && SubsequenceOf(Load(env).error, RequiredFields)
      && forall name :: name in RequiredFields ==>
           (name in Load(env).error <==> OrElse(Lookup(env, name), "") == "")
  {
    var c := Resolve(env);
    assert forall name :: name in RequiredFields ==> Field(c, name) == OrElse(Lookup(env, name), "");
    if Missing(c) != [] {
      assert Missing(c)[0] in Missing(c);
    }
  }
}
