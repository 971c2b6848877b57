/** A companion writer for the format `DatabaseReader` reads: length-prefixed fields, the
    header, and the encrypted secrets blob. The reader never uses it; it exists so that
    round trips through the reader can be stated and proved. */
module Encoder {
  import opened Common
  import opened Streams
  import opened Crypto
  import opened DatabaseReader

  /** A field: its length as one byte, then its bytes. */
  function EncodeField(field: seq<byte>): seq<byte>
    requires |field| <= 255
  {
    [|field| as byte] + field
  }

  /** The header: the magic as a little-endian Int16, the version, then the four fields. */
  function EncodeHeader(salt: seq<byte>, iv: seq<byte>, secretSalt: seq<byte>, secrets: seq<byte>): seq<byte>
    requires |salt| <= 255 && |iv| <= 255 && |secretSalt| <= 255 && |secrets| <= 255
  {
    [(Magic % 0x100) as byte, (Magic / 0x100) as byte, Version]
      + EncodeField(salt) + EncodeField(iv) + EncodeField(secretSalt) + EncodeField(secrets)
  }

  /** The plaintext of the secrets blob: secretIv, secretKey and checkSum fields. */
  function EncodeSecrets(secretIv: seq<byte>, secretKey: seq<byte>, checkSum: seq<byte>): seq<byte>
    requires |secretIv| <= 255 && |secretKey| <= 255 && |checkSum| <= 255
  {
    EncodeField(secretIv) + EncodeField(secretKey) + EncodeField(checkSum)
  }

  /** Zero bytes appended up to a whole number of cipher blocks. */
  function Pad(s: seq<byte>): (padded: seq<byte>)
    ensures |padded| % BlockBytes == 0 && |s| <= |padded| < |s| + BlockBytes
    ensures padded[..|s|] == s
  {
    s + seq((BlockBytes - |s| % BlockBytes) % BlockBytes, _ => 0)
  }

  /** The most key material (secretIv plus secretKey) whose padded, encrypted secrets still
      fit in one field: 3 length bytes + 205 + a 32-byte checksum = 240 = 15 blocks. */
  const MaxKeyMaterial: nat := 205

  /** The secrets blob for a password: the three fields, the checksum recomputed from the
      key, padded and CBC-encrypted under the outer key derived from the password. */
  function EncryptSecrets(prims: Primitives, password: seq<CodeUnit>, salt: seq<byte>, iv: Block,
                          secretSalt: seq<byte>, secretIv: seq<byte>, secretKey: seq<byte>): (blob: seq<byte>)
    requires |secretIv| + |secretKey| <= MaxKeyMaterial
    ensures |blob| % BlockBytes == 0 && |blob| <= 240
  {
    var checkSum := GetKey(prims.kdf, secretKey, secretSalt, ChecksumIterations);
    var plain := Pad(EncodeSecrets(secretIv, secretKey, checkSum));
    CbcEncrypt(prims.aes, GetKey(prims.kdf, PasswordBytes(password), salt, OuterIterations), iv, plain)
  }

  /** A whole database file: the header around the encrypted secrets, then the payload. */
  function EncodeFile(prims: Primitives, password: seq<CodeUnit>, salt: seq<byte>, iv: Block, secretSalt: seq<byte>,
                      secretIv: seq<byte>, secretKey: seq<byte>, payload: seq<byte>): seq<byte>
    requires |salt| <= 255 && |secretSalt| <= 255 && |secretIv| + |secretKey| <= MaxKeyMaterial
  {
    EncodeHeader(salt, iv, secretSalt, EncryptSecrets(prims, password, salt, iv, secretSalt, secretIv, secretKey))
      + payload
  }

  /** Reading a field where one was written gives it back, moves past exactly it, and
      leaves what follows it as it was. */
  lemma FieldRoundTrip(data: seq<byte>, pos: nat, field: seq<byte>, rest: seq<byte>)
    requires pos <= |data| && |field| <= 255
    requires data[pos..] == EncodeField(field) + rest
    ensures FieldAt(data, pos) == Step(Ok(field), pos + 1 + |field|)
    ensures data[pos + 1 + |field|..] == rest
  {
    var tail := data[pos..];
    assert data[pos] == tail[0] == |field| as byte;
    assert data[pos + 1..pos + 1 + |field|] == tail[1..1 + |field|] == field;
    assert data[pos + 1 + |field|..] == tail[1 + |field|..] == rest;
  }

  /** Reading a header where one was written gives back its four fields and leaves the
      cursor on the first byte after it; the bytes after it are neither read nor changed. */
  lemma HeaderRoundTrip(data: seq<byte>, pos: nat, salt: seq<byte>, iv: seq<byte>, secretSalt: seq<byte>,
                        secrets: seq<byte>, payload: seq<byte>)
    requires pos <= |data|
    requires |salt| <= 255 && |iv| <= 255 && |secretSalt| <= 255 && |secrets| <= 255
    requires data[pos..] == EncodeHeader(salt, iv, secretSalt, secrets) + payload
    ensures var next := pos + |EncodeHeader(salt, iv, secretSalt, secrets)|;
      && HeaderAt(data, pos) == Step(Ok(Header(Magic, Version, salt, iv, secretSalt, secrets)), next)
      && data[next..] == payload
  {
    HeaderLayout(data, pos, salt, iv, secretSalt, secrets, payload);
    HeaderFields(data, pos, salt, iv, secretSalt, secrets, payload);
    HeaderOfFields(data, pos, salt, iv, secretSalt, secrets);
  }

  /** The four fields of written header bytes read back in order. */
  lemma HeaderFields(data: seq<byte>, pos: nat, salt: seq<byte>, iv: seq<byte>, secretSalt: seq<byte>,
                     secrets: seq<byte>, payload: seq<byte>)
    requires pos + 3 <= |data|
    requires |salt| <= 255 && |iv| <= 255 && |secretSalt| <= 255 && |secrets| <= 255
    requires data[pos + 3..] ==
      EncodeField(salt) + (EncodeField(iv) + (EncodeField(secretSalt) + (EncodeField(secrets) + payload)))
    ensures var p1 := pos + 3;
      var p2 := p1 + 1 + |salt|;
      var p3 := p2 + 1 + |iv|;
      var p4 := p3 + 1 + |secretSalt|;
      && p4 <= |data|
      && FieldAt(data, p1) == Step(Ok(salt), p2)
      && FieldAt(data, p2) == Step(Ok(iv), p3)
      && FieldAt(data, p3) == Step(Ok(secretSalt), p4)
      && FieldAt(data, p4) == Step(Ok(secrets), p4 + 1 + |secrets|)
      && data[p4 + 1 + |secrets|..] == payload
  {
    var p1 := pos + 3;
    var p3 := p1 + 2 + |salt| + |iv|;
    TwoFields(data, p1, salt, iv, EncodeField(secretSalt) + (EncodeField(secrets) + payload));
    TwoFields(data, p3, secretSalt, secrets, payload);
  }

  /** Two written fields read back in order. */
  lemma TwoFields(data: seq<byte>, pos: nat, first: seq<byte>, second: seq<byte>, rest: seq<byte>)
    requires pos <= |data| && |first| <= 255 && |second| <= 255
    requires data[pos..] == EncodeField(first) + (EncodeField(second) + rest)
    ensures var mid := pos + 1 + |first|;
      var end := mid + 1 + |second|;
      && end <= |data|
      && FieldAt(data, pos) == Step(Ok(first), mid)
      && FieldAt(data, mid) == Step(Ok(second), end)
      && data[end..] == rest
  {
    FieldRoundTrip(data, pos, first, EncodeField(second) + rest);
    FieldRoundTrip(data, pos + 1 + |first|, second, rest);
  }

  /** Where the magic, the version and the first field sit in written header bytes. */
  lemma HeaderLayout(data: seq<byte>, pos: nat, salt: seq<byte>, iv: seq<byte>, secretSalt: seq<byte>,
                     secrets: seq<byte>, payload: seq<byte>)
    requires pos <= |data|
    requires |salt| <= 255 && |iv| <= 255 && |secretSalt| <= 255 && |secrets| <= 255
    requires data[pos..] == EncodeHeader(salt, iv, secretSalt, secrets) + payload
    ensures pos + 3 <= |data| && data[pos] == 5 && data[pos + 1] == 5 && data[pos + 2] == Version
    ensures data[pos + 3..] ==
      EncodeField(salt) + (EncodeField(iv) + (EncodeField(secretSalt) + (EncodeField(secrets) + payload)))
  {
    var tail := data[pos..];
    assert tail == [5, 5, Version] + (EncodeField(salt) + (EncodeField(iv) + (EncodeField(secretSalt) + (EncodeField(secrets) + payload))));
    assert data[pos] == tail[0] && data[pos + 1] == tail[1] && data[pos + 2] == tail[2];
    assert data[pos + 3..] == tail[3..];
  }

  /** `HeaderAt` once its pieces have been read one by one. */
  lemma HeaderOfFields(data: seq<byte>, pos: nat, salt: seq<byte>, iv: seq<byte>, secretSalt: seq<byte>, secrets: seq<byte>)
    requires pos + 3 <= |data| && data[pos] == 5 && data[pos + 1] == 5 && data[pos + 2] == Version
    requires var p1 := pos + 3;
      var p2 := p1 + 1 + |salt|;
      var p3 := p2 + 1 + |iv|;
      var p4 := p3 + 1 + |secretSalt|;
      && p4 <= |data|
      && FieldAt(data, p1) == Step(Ok(salt), p2)
      && FieldAt(data, p2) == Step(Ok(iv), p3)
      && FieldAt(data, p3) == Step(Ok(secretSalt), p4)
      && FieldAt(data, p4) == Step(Ok(secrets), p4 + 1 + |secrets|)
    ensures HeaderAt(data, pos) == Step(Ok(Header(Magic, Version, salt, iv, secretSalt, secrets)),
                                        pos + 7 + |salt| + |iv| + |secretSalt| + |secrets|)
  {
    MagicBytes(5, 5);
  }

  /** Secrets written with the checksum recomputed from their key are accepted, whatever
      follows them, and give back (secretKey, secretIv). */
  lemma SecretsRoundTrip(kdf: Pbkdf2, secretSalt: seq<byte>, secretIv: seq<byte>, secretKey: seq<byte>, after: seq<byte>)
    requires |secretIv| <= 255 && |secretKey| <= 255
    ensures var checkSum := GetKey(kdf, secretKey, secretSalt, ChecksumIterations);
      CheckSecrets(kdf, secretSalt, EncodeSecrets(secretIv, secretKey, checkSum) + after)
        == Ok(Keys(secretKey, secretIv))
  {
    var checkSum := GetKey(kdf, secretKey, secretSalt, ChecksumIterations);
    ReadSecretFields(secretIv, secretKey, checkSum, after);
  }

  /** A stored checksum of any length other than 32, a prefix of the right one included,
      is rejected as "wrong password". */
  lemma ShortChecksumRejected(kdf: Pbkdf2, secretSalt: seq<byte>, secretIv: seq<byte>, secretKey: seq<byte>,
                              checkSum: seq<byte>, after: seq<byte>)
    requires |secretIv| <= 255 && |secretKey| <= 255 && |checkSum| <= 255
    requires |checkSum| != KeyLength / 8
    ensures CheckSecrets(kdf, secretSalt, EncodeSecrets(secretIv, secretKey, checkSum) + after) == Err(WrongPassword)
  {
    ReadSecretFields(secretIv, secretKey, checkSum, after);
  }

  /** The three fields of written secrets read back in order. */
  lemma ReadSecretFields(secretIv: seq<byte>, secretKey: seq<byte>, checkSum: seq<byte>, after: seq<byte>)
    requires |secretIv| <= 255 && |secretKey| <= 255 && |checkSum| <= 255
    ensures var data := EncodeSecrets(secretIv, secretKey, checkSum) + after;
      var p1 := 1 + |secretIv|;
      var p2 := p1 + 1 + |secretKey|;
      && FieldAt(data, 0) == Step(Ok(secretIv), p1)
      && FieldAt(data, p1) == Step(Ok(secretKey), p2)
      && FieldAt(data, p2) == Step(Ok(checkSum), p2 + 1 + |checkSum|)
  {
    var f1, f2, f3 := EncodeField(secretIv), EncodeField(secretKey), EncodeField(checkSum);
    var r3 := f3 + after;
    var r2 := f2 + r3;
    var data := EncodeSecrets(secretIv, secretKey, checkSum) + after;
    assert data == f1 + r2;
    assert data[0..] == data;
    FieldRoundTrip(data, 0, secretIv, r2);
    FieldRoundTrip(data, |f1|, secretKey, r3);
    FieldRoundTrip(data, |f1| + |f2|, checkSum, after);
  }

  /** The whole key-unwrapping front end: a file written for a password, read back with
      that password, yields (secretKey, secretIv) and leaves the cursor on the payload. */
  lemma FileRoundTrip(prims: Primitives, password: seq<CodeUnit>, salt: seq<byte>, iv: Block, secretSalt: seq<byte>,
                      secretIv: seq<byte>, secretKey: seq<byte>, payload: seq<byte>)
    requires |salt| <= 255 && |secretSalt| <= 255 && |secretIv| + |secretKey| <= MaxKeyMaterial
    ensures var file := EncodeFile(prims, password, salt, iv, secretSalt, secretIv, secretKey, payload);
      var s := SecretsAt(prims, file, 0, password);
      && s == Step(Ok(Keys(secretKey, secretIv)), |file| - |payload|)
      && file[s.next..] == payload
  {
    var blob := EncryptSecrets(prims, password, salt, iv, secretSalt, secretIv, secretKey);
    var header := EncodeHeader(salt, iv, secretSalt, blob);
    var file := EncodeFile(prims, password, salt, iv, secretSalt, secretIv, secretKey, payload);
    assert file[0..] == file == header + payload;
    HeaderRoundTrip(file, 0, salt, iv, secretSalt, blob, payload);
    var key := GetKey(prims.kdf, PasswordBytes(password), salt, OuterIterations);
    var checkSum := GetKey(prims.kdf, secretKey, secretSalt, ChecksumIterations);
    var encoded := EncodeSecrets(secretIv, secretKey, checkSum);
    var plain := Pad(encoded);
    CbcRoundTrip(prims.aes, key, iv, plain);
    assert plain == encoded + plain[|encoded|..];
    SecretsRoundTrip(prims.kdf, secretSalt, secretIv, secretKey, plain[|encoded|..]);
  }
}
