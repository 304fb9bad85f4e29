/**
  The stored form of an agent's API secret: its printer, its parser and the check of a secret against it.

  The key derivation itself is a parameter: any function of the secret, the salt, the costs and the wanted length.
 */
module Argon2Codec {
  import opened Wrappers
  import opened Text
  import Base64

  type Bytes = Base64.Bytes

  const VERSION: int := 19
  const TIME_COST: nat := 3
  const MEMORY_COST: nat := 64 * 1024
  const PARALLELISM: nat := 2
  const HASH_LENGTH: nat := 32
  const TWO_32: nat := 0x1_0000_0000
  const TWO_8: nat := 0x100

  datatype Argon2Hash = Argon2Hash(memory: nat, iterations: nat, parallelism: nat, salt: Bytes, hash: Bytes)

  /** Memory and iterations are 32-bit and parallelism is 8-bit. */
  predicate InRange(h: Argon2Hash) {
    h.memory < TWO_32 && h.iterations < TWO_32 && h.parallelism < TWO_8
  }

  datatype DecodeError =
    | InvalidFormat | NotArgon2id | InvalidVersion | IncompatibleVersion | InvalidParams | InvalidNumber | CorruptBase64

  // ---------------------------------------------------------------------------------------------
  // Printing
  // ---------------------------------------------------------------------------------------------

  function Field(name: string, n: nat, named: bool): string {
    (if named then name else "") + Decimal(n)
  }

  /** The three costs; the printer writes them with their names. */
  function Params(h: Argon2Hash, named: bool): string {
    Field("m=", h.memory, named) + "," + Field("t=", h.iterations, named) + "," + Field("p=", h.parallelism, named)
  }

  function Print(h: Argon2Hash): string {
    "$argon2id$v=" + Itoa(VERSION) + "$" + Params(h, true) + "$" + Base64.Encode(h.salt) + "$" + Base64.Encode(h.hash)
  }

  // ---------------------------------------------------------------------------------------------
  // Parsing
  // ---------------------------------------------------------------------------------------------

  /** The scanner skips white space before a number, but a line feed there is an error. */
  function SkipSpace(s: string): Option<string> {
    if s == "" || !IsSpace(s[0]) then Some(s)
    else if s[0] == '\n' then None
    else SkipSpace(s[1..])
  }

  function LeadingDigits(s: string): (d: string)
    ensures d <= s && AllDigits(d)
  {
    if s != "" && IsDigit(s[0]) then [s[0]] + LeadingDigits(s[1..]) else ""
  }

  /** fmt.Sscanf with the format "v=%d" and a machine integer; whatever follows the number is not looked at. */
  function ScanVersion(s: string): Option<int> {
    if !HasPrefix(s, "v=") then None
    else
      match SkipSpace(s[2..])
      case None => None
      case Some(rest) =>
        var signed := rest != "" && (rest[0] == '+' || rest[0] == '-');
        var digits := LeadingDigits(if signed then rest[1..] else rest);
        Atoi((if signed then rest[..1] else "") + digits)
  }

  function DecodeParams(params: string, salt: string, hash: string): Result<Argon2Hash, DecodeError> {
    var kv := Split(params, ',');
    if |kv| != 3 then Failure(InvalidParams)
    else
      match ParseUint(TrimPrefix(kv[0], "m="), TWO_32)
      case None => Failure(InvalidNumber)
      case Some(m) =>
        match ParseUint(TrimPrefix(kv[1], "t="), TWO_32)
        case None => Failure(InvalidNumber)
        case Some(t) =>
          match ParseUint(TrimPrefix(kv[2], "p="), TWO_8)
          case None => Failure(InvalidNumber)
          case Some(p) =>
            match Base64.Decode(salt)
            case None => Failure(CorruptBase64)
            case Some(s) =>
              match Base64.Decode(hash)
              case None => Failure(CorruptBase64)
              case Some(h) => Success(Argon2Hash(m, t, p, s, h))
  }

  function Decode(encoded: string): Result<Argon2Hash, DecodeError> {
    var parts := Split(encoded, '$');
    if |parts| != 6 then Failure(InvalidFormat)
    else if parts[1] != "argon2id" then Failure(NotArgon2id)
    else
      match ScanVersion(parts[2])
      case None => Failure(InvalidVersion)
      case Some(version) =>
        if version != VERSION then Failure(IncompatibleVersion) else DecodeParams(parts[3], parts[4], parts[5])
  }

  /** The parser as the program runs it: each result is assigned as soon as it is known, and an error ends it. */
  method DecodeArgon2Hash(encoded: string)
    returns (memory: nat, iterations: nat, parallelism: nat, salt: Bytes, hash: Bytes, error: Option<DecodeError>)
    ensures match Decode(encoded)
            case Success(h) => error == None && h == Argon2Hash(memory, iterations, parallelism, salt, hash)
            case Failure(e) => error == Some(e)
  {
    hide Split, ScanVersion, ParseUint, TrimPrefix;
    memory, iterations, parallelism, salt, hash, error := 0, 0, 0, [], [], None;
    var parts := Split(encoded, '$');
    if |parts| != 6 {
      error := Some(InvalidFormat);
      return;
    }
    if parts[1] != "argon2id" {
      error := Some(NotArgon2id);
      return;
    }
    var version := ScanVersion(parts[2]);
    if version.None? {
      error := Some(InvalidVersion);
      return;
    }
    if version.value != VERSION {
      error := Some(IncompatibleVersion);
      return;
    }
    var kv := Split(parts[3], ',');
    if |kv| != 3 {
      error := Some(InvalidParams);
      return;
    }
    var m := ParseUint(TrimPrefix(kv[0], "m="), TWO_32);
    if m.None? {
      error := Some(InvalidNumber);
      return;
    }
    var t := ParseUint(TrimPrefix(kv[1], "t="), TWO_32);
    if t.None? {
      error := Some(InvalidNumber);
      return;
    }
    var p := ParseUint(TrimPrefix(kv[2], "p="), TWO_8);
    if p.None? {
      error := Some(InvalidNumber);
      return;
    }
    memory := m.value;
    iterations := t.value;
    parallelism := p.value;
    var decoded := Base64.Decode(parts[4]);
    if decoded.None? {
      error := Some(CorruptBase64);
      return;
    }
    salt := decoded.value;
    decoded := Base64.Decode(parts[5]);
    if decoded.None? {
      error := Some(CorruptBase64);
      return;
    }
    hash := decoded.value;
  }

  // ---------------------------------------------------------------------------------------------
  // The parser undoes the printer
  // ---------------------------------------------------------------------------------------------

  lemma SplitThree(a: string, b: string, c: string, sep: char)
    requires sep !in a && sep !in b && sep !in c
    ensures Split(a + [sep] + b + [sep] + c, sep) == [a, b, c]
  {
    hide Split, IndexOf;
    assert a + [sep] + b + [sep] + c == a + [sep] + (b + [sep] + c);
    SplitPiece(a, sep, b + [sep] + c);
    SplitPiece(b, sep, c);
    SplitLast(c, sep);
  }

  lemma SplitSix(a: string, b: string, c: string, d: string, e: string, f: string, sep: char)
    requires sep !in a && sep !in b && sep !in c && sep !in d && sep !in e && sep !in f
    ensures Split(a + [sep] + b + [sep] + c + [sep] + d + [sep] + e + [sep] + f, sep) == [a, b, c, d, e, f]
  {
    hide Split, IndexOf;
    var tail := d + [sep] + e + [sep] + f;
    SplitThree(d, e, f, sep);
    SplitPiece(c, sep, tail);
    SplitPiece(b, sep, c + [sep] + tail);
    SplitPiece(a, sep, b + [sep] + (c + [sep] + tail));
    assert a + [sep] + b + [sep] + c + [sep] + d + [sep] + e + [sep] + f
        == a + [sep] + (b + [sep] + (c + [sep] + tail));
  }

  lemma NotADigit(s: string, c: char)
    requires AllDigits(s) && !IsDigit(c)
    ensures c !in s
  {
  }

  lemma NotInAlphabet(s: string, c: char)
    requires Base64.InAlphabet(s) && Base64.SymbolValue(c).None?
    ensures c !in s
  {
  }

  lemma FieldDecodes(name: string, n: nat, named: bool, limit: nat)
    requires n < limit && name in ["m=", "t=", "p="]
    ensures var field := Field(name, n, named);
            ',' !in field && '$' !in field && ParseUint(TrimPrefix(field, name), limit) == Some(n)
  {
    hide ParseUint, Decimal;
    ParsesDecimal(n, limit);
    NotADigit(Decimal(n), ',');
    NotADigit(Decimal(n), '$');
    assert IsDigit(Decimal(n)[0]);
    assert "" + Decimal(n) == Decimal(n);
    assert named ==> Field(name, n, named)[|name|..] == Decimal(n);
  }

  /** Costs are accepted with or without their names. */
  lemma ParamsDecode(h: Argon2Hash, named: bool)
    requires InRange(h)
    ensures '$' !in Params(h, named)
    ensures DecodeParams(Params(h, named), Base64.Encode(h.salt), Base64.Encode(h.hash)) == Success(h)
  {
    hide Split, Field, ParseUint, TrimPrefix, Base64.Encode, Base64.Decode;
    Base64.RoundTrip(h.salt);
    Base64.RoundTrip(h.hash);
    FieldDecodes("m=", h.memory, named, TWO_32);
    FieldDecodes("t=", h.iterations, named, TWO_32);
    FieldDecodes("p=", h.parallelism, named, TWO_8);
    SplitThree(Field("m=", h.memory, named), Field("t=", h.iterations, named), Field("p=", h.parallelism, named), ',');
  }

  /** A text with the parts that the parser looks for; what stands before the first separator does not matter. */
  function Joined(before: string, version: string, params: string, h: Argon2Hash): string {
    before + "$argon2id$" + version + "$" + params + "$" + Base64.Encode(h.salt) + "$" + Base64.Encode(h.hash)
  }

  lemma JoinedSplits(before: string, version: string, params: string, h: Argon2Hash)
    requires '$' !in before && '$' !in version && '$' !in params
    ensures Split(Joined(before, version, params, h), '$')
         == [before, "argon2id", version, params, Base64.Encode(h.salt), Base64.Encode(h.hash)]
  {
    hide Split, Base64.Encode, Base64.SymbolValue;
    var salt, hash := Base64.Encode(h.salt), Base64.Encode(h.hash);
    DollarIsNoSymbol();
    NotInAlphabet(salt, '$');
    NotInAlphabet(hash, '$');
    SplitSix(before, "argon2id", version, params, salt, hash, '$');
    assert Joined(before, version, params, h) ==
      before + ['$'] + "argon2id" + ['$'] + version + ['$'] + params + ['$'] + salt + ['$'] + hash;
  }

  lemma DollarIsNoSymbol()
    ensures Base64.SymbolValue('$').None?
  {
  }

  lemma PrintedVersion()
    ensures Itoa(VERSION) == "19"
  {
  }

  lemma NineteenIsTheVersion()
    ensures DigitsValue("19") == VERSION
  {
  }

  lemma ScansPrintedVersion()
    ensures ScanVersion("v=19") == Some(VERSION)
  {
    NineteenIsTheVersion();
    assert "v=19"[2..] == "19" && SkipSpace("19") == Some("19");
    LeadsWithNineteen();
    hide DigitsValue, LeadingDigits, SkipSpace;
    assert "" + "19" == "19" && "19"[..0] == "";
    assert Atoi("19") == Some(VERSION);
  }

  lemma LeadsWithNineteen()
    ensures LeadingDigits("19") == "19"
  {
    assert "19"[1..] == "9" && "9"[1..] == "";
    assert LeadingDigits("") == "" && LeadingDigits("9") == "9";
  }

  lemma PrintJoins(h: Argon2Hash)
    ensures Print(h) == Joined("", "v=19", Params(h, true), h)
  {
    hide Params, Itoa, Base64.Encode;
    PrintedVersion();
    var tail := "$" + Params(h, true) + "$" + Base64.Encode(h.salt) + "$" + Base64.Encode(h.hash);
    assert Print(h) == "$argon2id$v=" + "19" + tail;
    assert Joined("", "v=19", Params(h, true), h) == "$argon2id$" + "v=19" + tail;
  }

  /** For all costs in range and all salts and hashes, the parser returns exactly what was printed. */
  lemma PrintedDecodes(h: Argon2Hash)
    requires InRange(h)
    ensures Decode(Print(h)) == Success(h)
  {
    hide Split, ScanVersion, DecodeParams, Params, Print, Joined, Base64.Encode;
    ParamsDecode(h, true);
    ScansPrintedVersion();
    PrintJoins(h);
    JoinedSplits("", "v=19", Params(h, true), h);
  }

  /** Different hashes are printed differently. */
  lemma PrintIsInjective(g: Argon2Hash, h: Argon2Hash)
    requires InRange(g) && InRange(h) && Print(g) == Print(h)
    ensures g == h
  {
    PrintedDecodes(g);
    PrintedDecodes(h);
  }

  /** The parser accepts more than the printer writes: anything before the first separator, white space and a sign
      before the version and anything after it, and parameters without names. So printing does not undo parsing. */
  lemma OtherSpellings(h: Argon2Hash, before: string)
    requires InRange(h) && '$' !in before
    ensures var spelling := Joined(before, "v=\t+19;", Params(h, false), h);
            Decode(spelling) == Success(h) && spelling != Print(h)
  {
    hide Split, ScanVersion, DecodeParams, Params, Print, Joined, Base64.Encode;
    ParamsDecode(h, false);
    ScansLooseVersion();
    JoinedSplits(before, "v=\t+19;", Params(h, false), h);
    ParamsDecode(h, true);
    PrintJoins(h);
    JoinedSplits("", "v=19", Params(h, true), h);
  }

  lemma ScansLooseVersion()
    ensures ScanVersion("v=\t+19;") == Some(VERSION)
  {
    hide DigitsValue;
    NineteenIsTheVersion();
    var s := "v=\t+19;";
    assert s[2..] == "\t+19;" && s[2..][1..] == "+19;" && "+19;"[1..] == "19;" && "+19;"[..1] == "+";
    assert LeadingDigits("19;") == "19" by {
      assert "19;"[1..] == "9;" && "9;"[1..] == ";";
    }
    assert "+" + "19" == "+19" && "+19"[1..] == "19";
  }

  // ---------------------------------------------------------------------------------------------
  // When the printer undoes the parser
  // ---------------------------------------------------------------------------------------------

  predicate PlainField(field: string, name: string) {
    HasPrefix(field, name) && PlainDecimal(field[|name|..])
  }

  predicate PlainParams(params: string) {
    var kv := Split(params, ',');
    |kv| == 3 && PlainField(kv[0], "m=") && PlainField(kv[1], "t=") && PlainField(kv[2], "p=")
  }

  /** Nothing before the first separator, the bare version, every cost with its name and without leading zeros, and
      both byte strings in plain base64. */
  predicate Canonical(encoded: string) {
    var parts := Split(encoded, '$');
    && |parts| == 6 && parts[0] == "" && parts[2] == "v=19" && PlainParams(parts[3])
    && Base64.Plain(parts[4]) && Base64.Plain(parts[5])
  }

  lemma FieldBack(name: string, field: string, limit: nat, n: nat)
    requires PlainField(field, name) && ParseUint(TrimPrefix(field, name), limit) == Some(n)
    ensures Field(name, n, true) == field
  {
    PlainIsPrinted(field[|name|..]);
    assert field == name + field[|name|..];
  }

  lemma FieldIsPlain(name: string, n: nat)
    ensures PlainField(Field(name, n, true), name)
  {
    DecimalIsPlain(n);
    assert Field(name, n, true)[|name|..] == Decimal(n);
  }

  lemma JoinsThree(parts: seq<string>, sep: string)
    requires |parts| == 3
    ensures Join(parts, sep) == parts[0] + sep + parts[1] + sep + parts[2]
  {
    assert parts[1..][1..] == [parts[2]];
    assert Join(parts[1..], sep) == parts[1] + sep + parts[2];
  }

  lemma JoinsSix(parts: seq<string>, sep: string)
    requires |parts| == 6
    ensures Join(parts, sep)
         == parts[0] + sep + parts[1] + sep + parts[2] + sep + parts[3] + sep + parts[4] + sep + parts[5]
  {
    JoinsThree(parts[3..], sep);
    var tail := Join(parts[3..], sep);
    assert parts[1..][1..] == parts[2..] && parts[2..][1..] == parts[3..];
    assert Join(parts[2..], sep) == parts[2] + sep + tail;
    assert Join(parts[1..], sep) == parts[1] + sep + (parts[2] + sep + tail);
  }

  /** Costs that are plain are printed back. */
  lemma ParamsBack(params: string, salt: string, hash: string)
    requires PlainParams(params) && DecodeParams(params, salt, hash).Success?
    ensures Params(DecodeParams(params, salt, hash).value, true) == params
  {
    hide Split, Field, ParseUint, TrimPrefix, PlainField, Join;
    var h, kv := DecodeParams(params, salt, hash).value, Split(params, ',');
    FieldBack("m=", kv[0], TWO_32, h.memory);
    FieldBack("t=", kv[1], TWO_32, h.iterations);
    FieldBack("p=", kv[2], TWO_8, h.parallelism);
    JoinSplit(params, ',');
    JoinsThree(kv, ",");
  }

  lemma PrintedParamsArePlain(h: Argon2Hash)
    requires InRange(h)
    ensures PlainParams(Params(h, true))
  {
    hide Split, Field, PlainField;
    FieldIsPlain("m=", h.memory);
    FieldIsPlain("t=", h.iterations);
    FieldIsPlain("p=", h.parallelism);
    FieldDecodes("m=", h.memory, true, TWO_32);
    FieldDecodes("t=", h.iterations, true, TWO_32);
    FieldDecodes("p=", h.parallelism, true, TWO_8);
    SplitThree(Field("m=", h.memory, true), Field("t=", h.iterations, true), Field("p=", h.parallelism, true), ',');
  }

  lemma EncodedIsPlain(b: Bytes)
    ensures Base64.Plain(Base64.Encode(b))
  {
    Base64.RoundTrip(b);
    Base64.CanonicalTexts(Base64.Encode(b));
  }

  lemma DecodedIsInRange(encoded: string)
    requires Decode(encoded).Success?
    ensures InRange(Decode(encoded).value)
  {
    hide Split, ScanVersion, TrimPrefix, Base64.Decode, DigitsValue;
  }

  lemma PrintIsCanonical(h: Argon2Hash)
    requires InRange(h)
    ensures Canonical(Print(h))
  {
    hide Split, Print, Joined, Params, PlainParams, Base64.Plain, Base64.Encode;
    PrintJoins(h);
    ParamsDecode(h, true);
    JoinedSplits("", "v=19", Params(h, true), h);
    PrintedParamsArePlain(h);
    EncodedIsPlain(h.salt);
    EncodedIsPlain(h.hash);
  }

  lemma CanonicalIsPrinted(encoded: string)
    requires Decode(encoded).Success? && Canonical(encoded)
    ensures Print(Decode(encoded).value) == encoded
  {
    hide Split, Print, Params, PlainParams, ScanVersion, Base64.Plain, Base64.Encode, Base64.Decode, DecodeParams, Join;
    var h, parts := Decode(encoded).value, Split(encoded, '$');
    ParamsBack(parts[3], parts[4], parts[5]);
    DecodedBytes(parts[3], parts[4], parts[5]);
    Base64.CanonicalTexts(parts[4]);
    Base64.CanonicalTexts(parts[5]);
    PrintJoins(h);
    JoinSplit(encoded, '$');
    JoinsSix(parts, "$");
    assert encoded == "" + "$" + "argon2id" + "$" + "v=19" + "$" + parts[3] + "$" + parts[4] + "$" + parts[5];
    assert "" + "$" + "argon2id" + "$" == "" + "$argon2id$";
  }

  lemma DecodedBytes(params: string, salt: string, hash: string)
    requires DecodeParams(params, salt, hash).Success?
    ensures var h := DecodeParams(params, salt, hash).value;
            Base64.Decode(salt) == Some(h.salt) && Base64.Decode(hash) == Some(h.hash)
  {
    hide Split, TrimPrefix, ParseUint, Base64.Decode;
  }

  /** For every text that the parser accepts: printing what was parsed gives the text back exactly when the text is
      canonical. */
  lemma PrintsBackIff(encoded: string)
    requires Decode(encoded).Success?
    ensures Print(Decode(encoded).value) == encoded <==> Canonical(encoded)
  {
    hide Decode, Print, Canonical;
    DecodedIsInRange(encoded);
    PrintIsCanonical(Decode(encoded).value);
    if Canonical(encoded) {
      CanonicalIsPrinted(encoded);
    }
  }

  /** A cost is decimal digits for a number that fits, with or without its name. */
  predicate IsCost(field: string, name: string, limit: nat) {
    var digits := if name <= field then field[|name|..] else field;
    digits != "" && AllDigits(digits) && DigitsValue(digits) < limit
  }

  function CostOf(field: string, name: string): nat {
    var digits := if name <= field then field[|name|..] else field;
    if AllDigits(digits) then DigitsValue(digits) else 0
  }

  /** The parser accepts exactly the texts with six fields of which the second is the algorithm's name, the third begins
      with the version, the fourth has the three costs, and the others hold base64; and it takes the values from there. */
  lemma AcceptsIff(encoded: string)
    ensures var parts := Split(encoded, '$');
            Decode(encoded).Success? <==>
              && |parts| == 6 && parts[1] == "argon2id" && ScanVersion(parts[2]) == Some(19)
              && Base64.Decode(parts[4]).Some? && Base64.Decode(parts[5]).Some?
              && var costs := Split(parts[3], ',');
                 && |costs| == 3 && IsCost(costs[0], "m=", 4294967296) && IsCost(costs[1], "t=", 4294967296)
                 && IsCost(costs[2], "p=", 256)
    ensures Decode(encoded).Success? ==>
              var parts, h := Split(encoded, '$'), Decode(encoded).value;
              var costs := Split(parts[3], ',');
              && h.memory == CostOf(costs[0], "m=") && h.iterations == CostOf(costs[1], "t=")
              && h.parallelism == CostOf(costs[2], "p=")
              && Base64.Decode(parts[4]) == Some(h.salt) && Base64.Decode(parts[5]) == Some(h.hash)
  {
    hide Split, ScanVersion, DigitsValue, Base64.Decode;
  }

  // ---------------------------------------------------------------------------------------------
  // Checking a secret
  // ---------------------------------------------------------------------------------------------

  /** secret, salt, iterations, memory, parallelism, length */
  type Kdf = (string, Bytes, nat, nat, nat, nat) -> Bytes

  datatype HashError = SecretIsEmpty

  function HashSecret(kdf: Kdf, secret: string, salt: Bytes): Result<string, HashError> {
    if secret == "" then Failure(SecretIsEmpty)
    else
      Success(Print(Argon2Hash(MEMORY_COST, TIME_COST, PARALLELISM, salt,
                               kdf(secret, salt, TIME_COST, MEMORY_COST, PARALLELISM, HASH_LENGTH))))
  }

  lemma PrintedNumbers()
    ensures Decimal(65536) == "65536" && Decimal(3) == "3" && Decimal(2) == "2" && Itoa(19) == "19"
  {
    assert Decimal(6) == "6" && Decimal(65) == "65" && Decimal(655) == "655" && Decimal(6553) == "6553";
    assert Decimal(1) == "1" && Decimal(19) == "19";
  }

  /** The printed form of a new hash: Argon2id, version 19, 64 MiB, three rounds, two threads, and a key of 32 bytes. */
  lemma PrintedHash(kdf: Kdf, secret: string, salt: Bytes)
    ensures secret == "" ==> HashSecret(kdf, secret, salt).Failure?
    ensures secret != "" ==>
              HashSecret(kdf, secret, salt) ==
              Success("$argon2id$v=19$m=65536,t=3,p=2$" + Base64.Encode(salt) + "$"
                      + Base64.Encode(kdf(secret, salt, 3, 65536, 2, 32)))
  {
    hide Base64.Encode, Decimal, Itoa;
    PrintedNumbers();
    var key := kdf(secret, salt, 3, 65536, 2, 32);
    PrintsCosts(salt, key);
    hide Params;
    var h := Argon2Hash(65536, 3, 2, salt, key);
    assert "$argon2id$v=" + "19" + "$" + "m=65536,t=3,p=2" + "$" == "$argon2id$v=19$m=65536,t=3,p=2$";
    assert Print(h) == "$argon2id$v=19$m=65536,t=3,p=2$" + Base64.Encode(salt) + "$" + Base64.Encode(h.hash);
  }

  lemma PrintsCosts(salt: Bytes, key: Bytes)
    ensures Params(Argon2Hash(65536, 3, 2, salt, key), true) == "m=65536,t=3,p=2"
  {
    hide Decimal;
    PrintedNumbers();
    assert "m=" + "65536" + "," + ("t=" + "3") + "," + ("p=" + "2") == "m=65536,t=3,p=2";
  }

  datatype Verdict = Accepted | Rejected | Panics

  /** The key derivation panics when it is asked for no rounds or no threads; the parser does not rule that out. */
  function VerifySecret(kdf: Kdf, encoded: string, secret: string): Verdict {
    match Decode(encoded)
    case Failure(_) => Rejected
    case Success(h) =>
      if h.iterations == 0 || h.parallelism == 0 then Panics
      else if h.hash == kdf(secret, h.salt, h.iterations, h.memory, h.parallelism, |h.hash|) then Accepted
      else Rejected
  }

  /** A stored hash accepts exactly the secrets from which the salt and the costs derive the same key; so it accepts
      the secret it was made from, and the empty secret has no hash. */
  lemma AcceptsExactlyItsSecret(kdf: Kdf, secret: string, salt: Bytes, attempt: string)
    requires |kdf(secret, salt, 3, 65536, 2, 32)| == 32
    ensures HashSecret(kdf, secret, salt).Failure? <==> secret == ""
    ensures secret != "" ==>
              var encoded := HashSecret(kdf, secret, salt).value;
              && VerifySecret(kdf, encoded, secret) == Accepted
              && VerifySecret(kdf, encoded, attempt) ==
                 if kdf(attempt, salt, 3, 65536, 2, 32)
                    == kdf(secret, salt, 3, 65536, 2, 32) then Accepted else Rejected
  {
    hide Decode, Print;
    PrintedDecodes(Argon2Hash(MEMORY_COST, TIME_COST, PARALLELISM, salt,
                              kdf(secret, salt, TIME_COST, MEMORY_COST, PARALLELISM, HASH_LENGTH)));
  }

  /** A secret is checked with the salt, the costs and the key length that are stored, whatever they are. */
  lemma ChecksWithStoredCosts(kdf: Kdf, h: Argon2Hash, secret: string)
    requires InRange(h) && h.iterations > 0 && h.parallelism > 0
    ensures VerifySecret(kdf, Print(h), secret) ==
            if h.hash == kdf(secret, h.salt, h.iterations, h.memory, h.parallelism, |h.hash|) then Accepted else Rejected
  {
    hide Decode, Print;
    PrintedDecodes(h);
  }

  predicate AllZeros(s: string) {
    forall i :: 0 <= i < |s| ==> s[i] == '0'
  }

  lemma {:induction false} ZeroIffAllZeros(s: string)
    requires AllDigits(s)
    ensures DigitsValue(s) == 0 <==> AllZeros(s)
  {
    if s != "" {
      ZeroIffAllZeros(s[..|s| - 1]);
      assert s == s[..|s| - 1] + [s[|s| - 1]];
    }
  }

  /** The costs, as they are written, have nothing but zeros for its rounds or for its threads. */
  predicate NoRoundsOrThreads(params: string) {
    var kv := Split(params, ',');
    |kv| == 3 && (AllZeros(TrimPrefix(kv[1], "t=")) || AllZeros(TrimPrefix(kv[2], "p=")))
  }

  lemma ZeroCosts(params: string, salt: string, hash: string)
    requires DecodeParams(params, salt, hash).Success?
    ensures var h := DecodeParams(params, salt, hash).value;
            h.iterations == 0 || h.parallelism == 0 <==> NoRoundsOrThreads(params)
  {
    hide Split, TrimPrefix, DigitsValue, AllZeros, Base64.Decode;
    var kv := Split(params, ',');
    ZeroIffAllZeros(TrimPrefix(kv[1], "t="));
    ZeroIffAllZeros(TrimPrefix(kv[2], "p="));
  }

  /** Verifying a secret panics exactly for the stored texts that the parser accepts although their rounds or their
      threads are written with zeros alone, whatever the secret; a printed hash is such a text exactly when it has no
      rounds or no threads. */
  lemma PanicsIff(kdf: Kdf, encoded: string, secret: string, h: Argon2Hash)
    requires InRange(h)
    ensures VerifySecret(kdf, encoded, secret) == Panics
       <==> Decode(encoded).Success? && NoRoundsOrThreads(Split(encoded, '$')[3])
    ensures VerifySecret(kdf, Print(h), secret) == Panics <==> h.iterations == 0 || h.parallelism == 0
  {
    hide Split, ScanVersion, NoRoundsOrThreads, DecodeParams, Print;
    if Decode(encoded).Success? {
      var parts := Split(encoded, '$');
      ZeroCosts(parts[3], parts[4], parts[5]);
    }
    PrintedDecodes(h);
  }

  /** There are such texts: the hash of any salt and key, printed with no rounds. */
  lemma AcceptedTextPanics(kdf: Kdf, salt: Bytes, key: Bytes, secret: string)
    ensures var encoded := Print(Argon2Hash(MEMORY_COST, 0, PARALLELISM, salt, key));
            Decode(encoded).Success? && VerifySecret(kdf, encoded, secret) == Panics
  {
    hide Decode, Print;
    PrintedDecodes(Argon2Hash(MEMORY_COST, 0, PARALLELISM, salt, key));
  }
}
