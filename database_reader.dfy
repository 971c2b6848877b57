/** `DatabaseReader`'s key-unwrapping front end: the length-prefixed field reader, the
    header parser and the secrets unwrapper that checks the password. Each method works
    on a `BinaryReader` and is specified by a function on the stream's bytes and the
    cursor (`FieldAt`, `HeaderAt`, `SecretsAt`); the lemmas are stated on those functions. */
module DatabaseReader {
  import opened Common
  import opened Streams
  import opened Crypto

  const Magic: int := 1285
  const Version: byte := 1
  const OuterIterations: nat := 10000
  const ChecksumIterations: nat := 1000

  const UnexpectedMagic: Error := Format("unexpected magic value")
  const UnexpectedVersion: Error := Format("unexpected sver value")

  datatype Header = Header(
    magic: int,
    version: byte,
    salt: seq<byte>,
    iv: seq<byte>,
    secretSalt: seq<byte>,
    secrets: seq<byte>)

  /** The pair `GetSecrets` returns: the payload key and the payload IV. */
  datatype Keys = Keys(key: seq<byte>, iv: seq<byte>)

  // ---------------------------------------------------------------- field reader

  /** `ReadByteArray` at cursor `pos`: a length byte, then at most that many bytes. */
  function FieldAt(data: seq<byte>, pos: nat): (s: Step<seq<byte>>)
    requires pos <= |data|
    ensures s.next <= |data|
    ensures s.result.Err? <==> pos == |data|
    ensures s.result.Err? ==> s.result.error == EndOfStream && s.next == |data|
    ensures s.result.Ok? ==>
      var count := Min(data[pos] as int, |data| - pos - 1);
      && s.result.value == data[pos + 1..pos + 1 + count]
      && s.next == pos + 1 + count
      && |s.result.value| <= 255
  {
    var length := ByteAt(data, pos);
    match length.result
    case Err(e) => Step(Err(e), length.next)
    case Ok(n) =>
      var (bytes, next) := BytesAt(data, length.next, n as int);
      Step(Ok(bytes), next)
  }

  method ReadByteArray(reader: BinaryReader) returns (r: Result<seq<byte>>)
    requires reader.Valid()
    modifies reader`pos
    ensures reader.Valid() && Step(r, reader.pos) == FieldAt(reader.data, old(reader.pos))
  {
    var length :- reader.ReadByte();
    var bytes := reader.ReadBytes(length as int);
    r := Ok(bytes);
  }

  // ---------------------------------------------------------------- header parser

  /** `ReadHeader` at cursor `pos`: magic, version, then salt, iv, secretSalt and secrets. */
  function HeaderAt(data: seq<byte>, pos: nat): (s: Step<Header>)
    requires pos <= |data|
    ensures pos <= s.next <= |data|
    ensures s.result.Ok? ==>
      var h := s.result.value;
      && h.magic == Magic && h.version == Version
      && |h.salt| <= 255 && |h.iv| <= 255 && |h.secretSalt| <= 255 && |h.secrets| <= 255
      && s.next == pos + 7 + |h.salt| + |h.iv| + |h.secretSalt| + |h.secrets|
  {
    var magic := Int16At(data, pos);
    match magic.result
    case Err(e) => Step(Err(e), magic.next)
    case Ok(m) =>
      if m != Magic then Step(Err(UnexpectedMagic), magic.next) else
      var version := ByteAt(data, magic.next);
      match version.result
      case Err(e) => Step(Err(e), version.next)
      case Ok(v) =>
        if v != Version then Step(Err(UnexpectedVersion), version.next) else
        var salt := FieldAt(data, version.next);
        match salt.result
        case Err(e) => Step(Err(e), salt.next)
        case Ok(saltBytes) =>
          var iv := FieldAt(data, salt.next);
          match iv.result
          case Err(e) => Step(Err(e), iv.next)
          case Ok(ivBytes) =>
            var secretSalt := FieldAt(data, iv.next);
            match secretSalt.result
            case Err(e) => Step(Err(e), secretSalt.next)
            case Ok(secretSaltBytes) =>
              var secrets := FieldAt(data, secretSalt.next);
              match secrets.result
              case Err(e) => Step(Err(e), secrets.next)
              case Ok(secretsBytes) =>
                Step(Ok(Header(m, v, saltBytes, ivBytes, secretSaltBytes, secretsBytes)), secrets.next)
  }

  method ReadHeader(input: BinaryReader) returns (r: Result<Header>)
    requires input.Valid()
    modifies input`pos
    ensures input.Valid() && Step(r, input.pos) == HeaderAt(input.data, old(input.pos))
  {
    var magic :- input.ReadInt16();
    if magic != Magic {
      return Err(UnexpectedMagic);
    }
    var version :- input.ReadByte();
    if version != Version {
      return Err(UnexpectedVersion);
    }
    var salt :- ReadByteArray(input);
    var iv :- ReadByteArray(input);
    var secretSalt :- ReadByteArray(input);
    var secrets :- ReadByteArray(input);
    r := Ok(Header(magic, version, salt, iv, secretSalt, secrets));
  }

  /** 1285 is 0x0505, so the magic reads as 1285 exactly when both bytes are 5. */
  lemma MagicBytes(lo: byte, hi: byte)
    ensures Int16LE(lo, hi) == Magic <==> lo == 5 && hi == 5
  {
  }

  /** A header parses only if it starts with the magic bytes [5, 5] and the version 1;
      the magic is checked before the version, and both before any field is read. */
  lemma HeaderChecks(data: seq<byte>, pos: nat)
    requires pos <= |data|
    ensures |data| < pos + 2 ==> HeaderAt(data, pos).result == Err(EndOfStream)
    ensures pos + 2 <= |data| && !(data[pos] == 5 && data[pos + 1] == 5) ==>
              HeaderAt(data, pos) == Step(Err(UnexpectedMagic), pos + 2)
    ensures pos + 2 <= |data| && data[pos] == 5 && data[pos + 1] == 5 && |data| == pos + 2 ==>
              HeaderAt(data, pos).result == Err(EndOfStream)
    ensures pos + 3 <= |data| && data[pos] == 5 && data[pos + 1] == 5 && data[pos + 2] != Version ==>
              HeaderAt(data, pos) == Step(Err(UnexpectedVersion), pos + 3)
    ensures HeaderAt(data, pos).result.Ok? ==>
              pos + 3 <= |data| && data[pos..pos + 3] == [5, 5, Version]
  {
    if pos + 2 <= |data| {
      MagicBytes(data[pos], data[pos + 1]);
    }
  }

  /** The header reader fails only by end of stream or by one of the two format errors. */
  lemma HeaderErrors(data: seq<byte>, pos: nat)
    requires pos <= |data|
    ensures HeaderAt(data, pos).result.Err? ==>
              HeaderAt(data, pos).result.error in {EndOfStream, UnexpectedMagic, UnexpectedVersion}
  {
  }

  // ---------------------------------------------------------------- secrets unwrapper

  /** `password.Select(x => (byte)x)`: each UTF-16 code unit cut to its low 8 bits. */
  function PasswordBytes(password: seq<CodeUnit>): (bytes: seq<byte>)
    ensures |bytes| == |password|
    ensures forall i :: 0 <= i < |password| ==> bytes[i] == (password[i] % 0x100) as byte
  {
    if password == [] then []
    else
      var rest := PasswordBytes(password[1..]);
      var bytes := [(password[0] % 0x100) as byte] + rest;
      assert forall i :: 1 <= i < |password| ==> bytes[i] == rest[i - 1] && password[i] == password[1..][i - 1];
      bytes
  }

  /** `Enumerable.SequenceEqual`: walks both sequences in step and fails at the first
      differing element or when one ends before the other. */
  function SequenceEqual(a: seq<byte>, b: seq<byte>): (equal: bool)
    ensures equal <==> a == b
  {
    if a == [] || b == [] then a == [] && b == []
    else
      assert a == [a[0]] + a[1..] && b == [b[0]] + b[1..];
      a[0] == b[0] && SequenceEqual(a[1..], b[1..])
  }

  /** The `catch (EndOfStreamException)` around the parsing of the decrypted secrets. */
  function Caught(e: Error): Error {
    if e == EndOfStream then WrongPassword else e
  }

  /** The `try` block of `GetSecrets`: parse secretIv, secretKey and checkSum from the
      decrypted secrets and accept only if the checksum recomputed from the key matches. */
  function CheckSecrets(kdf: Pbkdf2, secretSalt: seq<byte>, secrets: seq<byte>): Result<Keys> {
    var secretIv := FieldAt(secrets, 0);
    match secretIv.result
    case Err(e) => Err(Caught(e))
    case Ok(iv) =>
      var secretKey := FieldAt(secrets, secretIv.next);
      match secretKey.result
      case Err(e) => Err(Caught(e))
      case Ok(key) =>
        var checkSum := FieldAt(secrets, secretKey.next);
        match checkSum.result
        case Err(e) => Err(Caught(e))
        case Ok(sum) =>
          if !SequenceEqual(sum, GetKey(kdf, key, secretSalt, ChecksumIterations)) then Err(WrongPassword)
          else Ok(Keys(key, iv))
  }

  /** `GetSecrets` after `ReadHeader`: derive the outer key from the password, decrypt the
      secrets blob with it, and check what comes out. */
  function Unwrap(prims: Primitives, header: Header, password: seq<CodeUnit>): Result<Keys> {
    var key := GetKey(prims.kdf, PasswordBytes(password), header.salt, OuterIterations);
    match GetAlgorithm(key, header.iv)
    case Err(e) => Err(e)
    case Ok(algorithm) =>
      match TransformFinalBlock(prims.aes, algorithm, header.secrets)
      case Err(e) => Err(e)
      case Ok(secrets) => CheckSecrets(prims.kdf, header.secretSalt, secrets)
  }

  /** `GetSecrets` on a stream whose content is `data`, positioned at `pos`; the cursor is
      left where `ReadHeader` left it. */
  function SecretsAt(prims: Primitives, data: seq<byte>, pos: nat, password: seq<CodeUnit>): Step<Keys>
    requires pos <= |data|
  {
    var header := HeaderAt(data, pos);
    match header.result
    case Err(e) => Step(Err(e), header.next)
    case Ok(h) => Step(Unwrap(prims, h, password), header.next)
  }

  method GetSecrets(prims: Primitives, input: BinaryReader, password: seq<CodeUnit>) returns (r: Result<Keys>)
    requires input.Valid()
    modifies input`pos
    ensures input.Valid() && Step(r, input.pos) == SecretsAt(prims, input.data, old(input.pos), password)
  {
    var header :- ReadHeader(input);
    var passwordBytes := PasswordBytes(password);
    var key := GetKey(prims.kdf, passwordBytes, header.salt, OuterIterations);
    var algorithm :- GetAlgorithm(key, header.iv);
    var secrets :- TransformFinalBlock(prims.aes, algorithm, header.secrets);
    var secretsReader := new BinaryReader(secrets);
    var secretIv := ReadByteArray(secretsReader);
    if secretIv.Err? {
      return Err(Caught(secretIv.error));
    }
    var secretKey := ReadByteArray(secretsReader);
    if secretKey.Err? {
      return Err(Caught(secretKey.error));
    }
    var checkSum := ReadByteArray(secretsReader);
    if checkSum.Err? {
      return Err(Caught(checkSum.error));
    }
    var calculatedCheckSum := GetKey(prims.kdf, secretKey.value, header.secretSalt, ChecksumIterations);
    if !SequenceEqual(checkSum.value, calculatedCheckSum) {
      return Err(WrongPassword);
    }
    r := Ok(Keys(secretKey.value, secretIv.value));
  }

  // ---------------------------------------------------------------- properties

  /** A bad magic is reported before the password is used: the same format error, at the
      same cursor, whatever the password and whatever the primitives. */
  lemma BadMagicIgnoresPassword(prims: Primitives, data: seq<byte>, pos: nat, password: seq<CodeUnit>)
    requires pos + 2 <= |data| && !(data[pos] == 5 && data[pos + 1] == 5)
    ensures SecretsAt(prims, data, pos, password) == Step(Err(UnexpectedMagic), pos + 2)
  {
    HeaderChecks(data, pos);
  }

  /** With a good magic, a version byte other than 1 is the next error, again for every password. */
  lemma BadVersionIgnoresPassword(prims: Primitives, data: seq<byte>, pos: nat, password: seq<CodeUnit>)
    requires pos + 3 <= |data| && data[pos] == 5 && data[pos + 1] == 5 && data[pos + 2] != Version
    ensures SecretsAt(prims, data, pos, password) == Step(Err(UnexpectedVersion), pos + 3)
  {
    HeaderChecks(data, pos);
  }

  /** Whatever the decrypted secrets are, checking them fails only with "wrong password":
      running out of bytes and a checksum mismatch are reported alike. */
  lemma CheckSecretsErrors(kdf: Pbkdf2, secretSalt: seq<byte>, secrets: seq<byte>)
    ensures CheckSecrets(kdf, secretSalt, secrets).Err? ==>
              CheckSecrets(kdf, secretSalt, secrets).error == WrongPassword
  {
  }

  /** How unwrapping a parsed header fails: a bad IV or misaligned secrets are reported by
      the cipher, outside the `catch`; everything after decryption is "wrong password". */
  lemma UnwrapErrors(prims: Primitives, header: Header, password: seq<CodeUnit>)
    ensures |header.iv| != BlockBytes ==> Unwrap(prims, header, password) == Err(InvalidIvSize)
    ensures |header.iv| == BlockBytes && |header.secrets| % BlockBytes != 0 ==>
              Unwrap(prims, header, password) == Err(IncompleteBlock)
    ensures |header.iv| == BlockBytes && |header.secrets| % BlockBytes == 0 &&
            Unwrap(prims, header, password).Err? ==>
              Unwrap(prims, header, password).error == WrongPassword
  {
    var key := GetKey(prims.kdf, PasswordBytes(password), header.salt, OuterIterations);
    assert |key| in LegalKeyBytes;
    match GetAlgorithm(key, header.iv)
    case Err(e) =>
    case Ok(algorithm) =>
      match TransformFinalBlock(prims.aes, algorithm, header.secrets)
      case Err(e) =>
      case Ok(secrets) => CheckSecretsErrors(prims.kdf, header.secretSalt, secrets);
  }

  /** "Wrong password" means the header was well formed and decryption ran; an end of
      stream from `GetSecrets` always comes from a truncated header. */
  lemma SecretsErrors(prims: Primitives, data: seq<byte>, pos: nat, password: seq<CodeUnit>)
    requires pos <= |data|
    ensures var s := SecretsAt(prims, data, pos, password);
      s.result == Err(WrongPassword) ==>
        HeaderAt(data, pos).result.Ok? &&
        |HeaderAt(data, pos).result.value.iv| == BlockBytes &&
        |HeaderAt(data, pos).result.value.secrets| % BlockBytes == 0
    ensures SecretsAt(prims, data, pos, password).result == Err(EndOfStream) ==>
              HeaderAt(data, pos).result == Err(EndOfStream)
  {
    var header := HeaderAt(data, pos);
    HeaderErrors(data, pos);
    if header.result.Ok? {
      UnwrapErrors(prims, header.result.value, password);
    }
  }

  /** What decrypted secrets `CheckSecrets` accepts, byte by byte: the IV field, the key
      field, and a checksum field that yields exactly the 32 bytes recomputed from the key.
      Its length byte is 32, or larger when the secrets end right after those 32 bytes;
      a shorter checksum, a prefix of the right one included, is never accepted. */
  lemma AcceptedSecrets(kdf: Pbkdf2, secretSalt: seq<byte>, secrets: seq<byte>, keys: Keys)
    requires CheckSecrets(kdf, secretSalt, secrets) == Ok(keys)
    ensures var i, k := |keys.iv|, |keys.key|;
      && 3 + i + k + 32 <= |secrets|
      && secrets[0] as int == i && secrets[1..1 + i] == keys.iv
      && secrets[1 + i] as int == k && secrets[2 + i..2 + i + k] == keys.key
      && secrets[3 + i + k..3 + i + k + 32] == GetKey(kdf, keys.key, secretSalt, ChecksumIterations)
      && (secrets[2 + i + k] as int == 32 || (secrets[2 + i + k] as int > 32 && |secrets| == 3 + i + k + 32))
  {
    var secretIv := FieldAt(secrets, 0);
    var secretKey := FieldAt(secrets, secretIv.next);
    var checkSum := FieldAt(secrets, secretKey.next);
    assert secretIv.result == Ok(keys.iv) && secretKey.result == Ok(keys.key);
    assert checkSum.result.Ok?;
    var sum := checkSum.result.value;
    assert sum == GetKey(kdf, keys.key, secretSalt, ChecksumIterations);
  }

  /** `GetSecrets` sees the password only through its bytes: passwords whose code units
      agree modulo 256 give the same outcome. */
  lemma PasswordsAgreeModulo256(prims: Primitives, data: seq<byte>, pos: nat, p: seq<CodeUnit>, q: seq<CodeUnit>)
    requires pos <= |data|
    requires |p| == |q| && forall i :: 0 <= i < |p| ==> p[i] % 0x100 == q[i] % 0x100
    ensures SecretsAt(prims, data, pos, p) == SecretsAt(prims, data, pos, q)
  {
    assert PasswordBytes(p) == PasswordBytes(q);
  }
}
