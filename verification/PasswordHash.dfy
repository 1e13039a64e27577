/** Argon2id password hashes in PHC string form: what `Hash` prints, `Verify` reads back. */
module PasswordHash {
  import opened Common
  import opened Encoding

  const UINT32: nat := 0x1_0000_0000

  const UINT8: nat := 0x100

  datatype Params = Params(memory: nat, iterations: nat, parallelism: nat, saltLength: nat, keyLength: nat)

  /** The field widths of `Argon2idParams`. */
  predicate InRange(p: Params) {
    p.memory < UINT32 && p.iterations < UINT32 && p.parallelism < UINT8 && p.saltLength < UINT32 && p.keyLength < UINT32
  }

  datatype Phc = Phc(params: Params, salt: seq<Byte>, key: seq<Byte>)

  datatype Error = InvalidHash | InvalidParams | MissingSetting | BadNumber | BadSalt | BadKey

  function Settings(memory: nat, iterations: nat, parallelism: nat): string {
    "m=" + Decimal(memory) + ",t=" + Decimal(iterations) + ",p=" + Decimal(parallelism)
  }

  /** The string that `Hash` returns. */
  function Print(memory: nat, iterations: nat, parallelism: nat, salt: seq<Byte>, key: seq<Byte>): string {
    "$argon2id$v=19$" + Settings(memory, iterations, parallelism) + "$" + EncodeBase64(salt, StdAlphabet)
    + "$" + EncodeBase64(key, StdAlphabet)
  }

  function ParseSetting(raw: string, key: string): Result<nat, Error> {
    var prefix := key + "=";
    if !(prefix <= raw) then Err(MissingSetting)
    else
      match ParseUint(raw[|prefix|..], UINT32 - 1)
      case None => Err(BadNumber)
      case Some(n) => Ok(n)
  }

  function ParsePhc(encoded: string): Result<Phc, Error> {
    var parts := Split(encoded, '$');
    if |parts| != 6 || parts[1] != "argon2id" || parts[2] != "v=19" then Err(InvalidHash)
    else
      var settings := Split(parts[3], ',');
      if |settings| != 3 then Err(InvalidParams)
      else
        var memory, iterations, parallelism :=
          ParseSetting(settings[0], "m"), ParseSetting(settings[1], "t"), ParseSetting(settings[2], "p");
        if memory.Err? then Err(memory.error)
        else if iterations.Err? then Err(iterations.error)
        else if parallelism.Err? then Err(parallelism.error)
        else
          var salt, key := DecodeBase64(parts[4], StdAlphabet), DecodeBase64(parts[5], StdAlphabet);
          if salt.None? then Err(BadSalt)
          else if key.None? then Err(BadKey)
          else Ok(Phc(Params(memory.value, iterations.value, parallelism.value % UINT8,
                             |salt.value| % UINT32, |key.value| % UINT32), salt.value, key.value))
  }

  lemma SettingRoundTrip(n: nat, key: string)
    ensures ParseSetting(key + "=" + Decimal(n), key) == if n < UINT32 then Ok(n) else Err(BadNumber)
  {
    var raw := key + "=" + Decimal(n);
    assert raw[|key + "="|..] == Decimal(n);
    ParseDecimal(n, UINT32 - 1);
  }

  lemma SettingsSplit(memory: nat, iterations: nat, parallelism: nat)
    ensures Split(Settings(memory, iterations, parallelism), ',') ==
      ["m" + "=" + Decimal(memory), "t" + "=" + Decimal(iterations), "p" + "=" + Decimal(parallelism)]
    ensures '$' !in Settings(memory, iterations, parallelism)
  {
    var m, t, p := "m" + "=" + Decimal(memory), "t" + "=" + Decimal(iterations), "p" + "=" + Decimal(parallelism);
    JoinThree(m, t, p, ',');
    assert Settings(memory, iterations, parallelism) == m + "," + t + "," + p by {
      SettingsShape(Decimal(memory), Decimal(iterations), Decimal(parallelism));
    }
    NoSeparators(m, t, p);
    SplitJoin([m, t, p], ',');
  }

  lemma SettingsShape(a: string, b: string, c: string)
    ensures "m=" + a + ",t=" + b + ",p=" + c == "m" + "=" + a + "," + ("t" + "=" + b) + "," + ("p" + "=" + c)
  {
  }

  lemma NoSeparators(m: string, t: string, p: string)
    requires exists a, b, c :: && AllDigits(a) && AllDigits(b) && AllDigits(c)
                               && m == "m" + "=" + a && t == "t" + "=" + b && p == "p" + "=" + c
    ensures ',' !in m && ',' !in t && ',' !in p
    ensures '$' !in m + "," + t + "," + p
  {
  }

  lemma JoinThree(a: string, b: string, c: string, sep: char)
    ensures Join([a, b, c], sep) == a + [sep] + b + [sep] + c
  {
    JoinTwo(b, c, sep);
    JoinMore(a, [b, c], sep);
    assert [a] + [b, c] == [a, b, c];
  }

  lemma JoinTwo(a: string, b: string, sep: char)
    ensures Join([a, b], sep) == a + [sep] + b
  {
    assert [a, b][1..] == [b];
  }

  lemma JoinMore(a: string, rest: seq<string>, sep: char)
    requires rest != []
    ensures Join([a] + rest, sep) == a + [sep] + Join(rest, sep)
  {
    assert ([a] + rest)[1..] == rest;
  }

  /** The six parts of a printed hash. */
  lemma PrintSplit(memory: nat, iterations: nat, parallelism: nat, salt: seq<Byte>, key: seq<Byte>)
    ensures Split(Print(memory, iterations, parallelism, salt, key), '$') ==
      ["", "argon2id", "v=19", Settings(memory, iterations, parallelism), EncodeBase64(salt, StdAlphabet),
       EncodeBase64(key, StdAlphabet)]
  {
    var settings := Settings(memory, iterations, parallelism);
    var s, k := EncodeBase64(salt, StdAlphabet), EncodeBase64(key, StdAlphabet);
    SettingsSplit(memory, iterations, parallelism);
    CharsAreDigits(Sextets(salt), StdAlphabet);
    CharsAreDigits(Sextets(key), StdAlphabet);
    assert CharDigit('$', StdAlphabet).None?;
    PrintIsJoin(settings, s, k);
    SplitJoin(["", "argon2id", "v=19", settings, s, k], '$');
  }

  lemma PrintIsJoin(settings: string, s: string, k: string)
    ensures Join(["", "argon2id", "v=19", settings, s, k], '$') == "$argon2id$v=19$" + settings + "$" + s + "$" + k
  {
    JoinTwo(s, k, '$');
    JoinMore(settings, [s, k], '$');
    var tail := Join([settings] + [s, k], '$');
    assert tail == settings + "$" + s + "$" + k;
    JoinMore("v=19", [settings] + [s, k], '$');
    JoinMore("argon2id", ["v=19"] + ([settings] + [s, k]), '$');
    JoinMore("", ["argon2id"] + (["v=19"] + ([settings] + [s, k])), '$');
    assert "" + ['$'] + ("argon2id" + ['$'] + ("v=19" + ['$'] + tail)) == "$argon2id$v=19$" + tail;
    assert [""] + (["argon2id"] + (["v=19"] + ([settings] + [s, k]))) == ["", "argon2id", "v=19", settings, s, k];
    assert "$argon2id$v=19$" + tail == "$argon2id$v=19$" + settings + "$" + s + "$" + k;
  }

  /** The printed values as the parser's types hold them: 32 bits, but a byte of parallelism. */
  function Fitted(memory: nat, iterations: nat, parallelism: nat, salt: seq<Byte>, key: seq<Byte>): Result<Phc, Error> {
    if memory < UINT32 && iterations < UINT32 && parallelism < UINT32
    then Ok(Phc(Params(memory, iterations, parallelism % UINT8, |salt| % UINT32, |key| % UINT32), salt, key))
    else Err(BadNumber)
  }

  lemma FittedInRange(p: Params, salt: seq<Byte>, key: seq<Byte>)
    requires InRange(p)
    ensures var r := Fitted(p.memory, p.iterations, p.parallelism, salt, key);
      && r.Ok? && r.value.salt == salt && r.value.key == key
      && r.value.params == p.(saltLength := |salt| % UINT32, keyLength := |key| % UINT32)
  {
  }

  /**
   Reading undoes printing: for all memory and iteration counts of 32 bits and all salts and keys, the parser returns
   what was printed; of a parallelism beyond a byte, which the printer's type excludes, it would return the low byte.
   */
  lemma ParsePrint(memory: nat, iterations: nat, parallelism: nat, salt: seq<Byte>, key: seq<Byte>)
    ensures ParsePhc(Print(memory, iterations, parallelism, salt, key))
        == Fitted(memory, iterations, parallelism, salt, key)
  {
    PrintSplit(memory, iterations, parallelism, salt, key);
    SettingsSplit(memory, iterations, parallelism);
    SettingRoundTrip(memory, "m");
    SettingRoundTrip(iterations, "t");
    SettingRoundTrip(parallelism, "p");
    Base64RoundTrip(salt, StdAlphabet);
    Base64RoundTrip(key, StdAlphabet);
  }

  /** What a configured hasher prints is read back as its own parameters. */
  lemma ParseOwnPrint(p: Params, salt: seq<Byte>, key: seq<Byte>)
    requires InRange(p) && |salt| == p.saltLength && |key| == p.keyLength
    ensures ParsePhc(Print(p.memory, p.iterations, p.parallelism, salt, key)) == Ok(Phc(p, salt, key))
  {
    ParsePrint(p.memory, p.iterations, p.parallelism, salt, key);
    FittedInRange(p, salt, key);
    SmallRemainder(|salt|, UINT32);
    SmallRemainder(|key|, UINT32);
  }

  lemma SmallRemainder(n: nat, m: nat)
    requires n < m
    ensures n % m == n
  {
  }

  /** Different hashes print differently. */
  lemma PrintInjective(a: Params, saltA: seq<Byte>, keyA: seq<Byte>, b: Params, saltB: seq<Byte>, keyB: seq<Byte>)
    requires InRange(a) && InRange(b)
    requires Print(a.memory, a.iterations, a.parallelism, saltA, keyA)
        == Print(b.memory, b.iterations, b.parallelism, saltB, keyB)
    ensures a.memory == b.memory && a.iterations == b.iterations && a.parallelism == b.parallelism
    ensures saltA == saltB && keyA == keyB
  {
    ParsePrint(a.memory, a.iterations, a.parallelism, saltA, keyA);
    ParsePrint(b.memory, b.iterations, b.parallelism, saltB, keyB);
    FittedInRange(a, saltA, keyA);
    FittedInRange(b, saltB, keyB);
  }

  /** Argon2id: password, salt, iterations, memory, parallelism and key length to a key. */
  type Kdf = (string, seq<Byte>, nat, nat, nat, nat) -> seq<Byte>

  ghost predicate KeepsLength(kdf: Kdf) {
    forall password, salt, iterations, memory, parallelism, length ::
      |kdf(password, salt, iterations, memory, parallelism, length)| == length
  }

  function DeriveKey(kdf: Kdf, p: Params, password: string, salt: seq<Byte>): seq<Byte> {
    kdf(password, salt, p.iterations, p.memory, p.parallelism, p.keyLength)
  }

  /** `salt` is what the random source yields. */
  function Hash(kdf: Kdf, p: Params, password: string, salt: seq<Byte>): string {
    Print(p.memory, p.iterations, p.parallelism, salt, DeriveKey(kdf, p, password, salt))
  }

  function Verify(kdf: Kdf, password: string, encoded: string): Result<bool, Error> {
    match ParsePhc(encoded)
    case Err(e) => Err(e)
    case Ok(phc) => Ok(DeriveKey(kdf, phc.params, password, phc.salt) == phc.key)
  }

  /** The printed form in full: the key is Argon2id's for the password, the salt and each of the parameters. */
  lemma HashForm(kdf: Kdf, p: Params, password: string, salt: seq<Byte>)
    ensures var key := kdf(password, salt, p.iterations, p.memory, p.parallelism, p.keyLength);
      Hash(kdf, p, password, salt)
      == "$argon2id$v=19$m=" + Decimal(p.memory) + ",t=" + Decimal(p.iterations) + ",p=" + Decimal(p.parallelism)
         + "$" + EncodeBase64(salt, StdAlphabet) + "$" + EncodeBase64(key, StdAlphabet)
  {
    assert "$argon2id$v=19$" + "m=" == "$argon2id$v=19$m=";
  }

  /** What is read as a hash has this form, for the one algorithm and version, and nothing else is. */
  lemma ParsedExactly(encoded: string)
    ensures var parts := Split(encoded, '$');
      ParsePhc(encoded).Ok? <==>
        && |parts| == 6 && parts[1] == "argon2id" && parts[2] == "v=19"
        && var settings := Split(parts[3], ',');
        && |settings| == 3 && SettingFits(settings[0], "m=") && SettingFits(settings[1], "t=")
        && SettingFits(settings[2], "p=")
        && DecodeBase64(parts[4], StdAlphabet).Some? && DecodeBase64(parts[5], StdAlphabet).Some?
  {
  }

  /** A setting is its name and a decimal number of 32 bits. */
  predicate SettingFits(raw: string, name: string) {
    && |raw| > |name| && raw[..|name|] == name
    && AllDigits(raw[|name|..]) && DigitsValue(raw[|name|..]) < 0x1_0000_0000
  }

  /** A stored hash accepts exactly the passwords that derive the same key; so it always accepts its own. */
  lemma VerifyHash(kdf: Kdf, p: Params, password: string, salt: seq<Byte>, candidate: string)
    requires InRange(p) && |salt| == p.saltLength && KeepsLength(kdf)
    ensures Verify(kdf, candidate, Hash(kdf, p, password, salt)) ==
      Ok(kdf(candidate, salt, p.iterations, p.memory, p.parallelism, p.keyLength)
         == kdf(password, salt, p.iterations, p.memory, p.parallelism, p.keyLength))
    ensures Verify(kdf, password, Hash(kdf, p, password, salt)) == Ok(true)
  {
    var key := DeriveKey(kdf, p, password, salt);
    assert |key| == p.keyLength;
    ParseOwnPrint(p, salt, key);
  }
}
