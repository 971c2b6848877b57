# SafeInCloud database reader: key unwrapping

A Dafny model of the front end of `DatabaseReader` (`SafeInCloudReader/SafeInCloudReader.cs`).
It decrypts a SafeInCloud password-manager database far enough to get the payload key.
It has three parts:

- **The field reader** (`ReadByteArray`): one unsigned length byte, then at most that many bytes.
  A short field at end of stream is not an error. Only a missing length byte raises `EndOfStreamException`.
- **The header parser** (`ReadHeader`): an Int16 magic that must be 1285, a version byte that must be 1,
  then four fields in order: salt, iv, secretSalt, secrets.
- **The secrets unwrapper** (`GetSecrets`). It runs these steps:
  - Read the header.
  - Turn the password into bytes, keeping the low 8 bits of each UTF-16 unit.
  - Derive a 32-byte outer key with PBKDF2-HMAC-SHA1 (section 5.2 of RFC 8018) and 10000 iterations.
  - Decrypt the secrets blob with AES-256 in CBC mode without padding (section 6.2 of NIST SP 800-38A).
  - Read three fields from the plaintext: secretIv, secretKey and checkSum.
  - Recompute the checksum from secretKey and secretSalt with 1000 iterations, and accept only on full equality.
  - Return `(secretKey, secretIv)`.
  - An end of stream while reading the three fields, and a checksum mismatch, both throw `ArgumentException("wrong password")`.

Modules, leaf first:

- `Common` (common.dfy): `byte`, UTF-16 code units, the error type and `Result`.
  There is one `Error` constructor per .NET exception class the code raises: end of stream, format, argument, cryptographic.
- `Streams` (streams.dfy): the `BinaryReader` class, with the stream's bytes and a position field.
  Its `ReadByte`, `ReadBytes` and `ReadInt16` are each specified by a function over the bytes and the cursor.
- `Crypto` (crypto.dfy): the primitives.
  - PBKDF2 is a function parameter of type `Pbkdf2`. All the model knows about it is that it returns as many bytes as requested.
  - The AES block cipher is a parameter of type `Aes`. All the model knows is that decryption inverts encryption under a key.
  - CBC chaining is written out over the block cipher.
  - `GetKey`, `GetAlgorithm` and `TransformFinalBlock` stand in for the .NET calls.
- `DatabaseReader` (database_reader.dfy): the methods `ReadByteArray`, `ReadHeader` and `GetSecrets`.
  They are specified by the functions `FieldAt`, `HeaderAt` and `SecretsAt`, and the properties are lemmas on those functions.
- `Encoder` (encoder.dfy): a companion writer, for fields, headers, encrypted secrets and whole files.
  It has the round-trip lemmas, up to a file written for a password unlocking with that password.

Where the code and the format's prose description differ, the model follows the code:

- The stored checksum is compared with 32 recomputed bytes, because `GetKey` always asks for `KEY_LENGTH / 8` bytes.
  A 16-byte checksum is therefore never accepted.
- The comparison is a plain `SequenceEqual`, not a constant-time one.
- A field cut short by the end of the stream is returned short rather than rejected.
  So the last secret field, checkSum, can be cut short and still match.
- A truncated header raises `EndOfStreamException`, which is an I/O error, not a format error.
  A bad magic or bad version raises `FormatException`.
- A secrets blob that is not a whole number of blocks, and an IV that is not 16 bytes, make the cipher throw
  `CryptographicException` outside the `try`. Neither is reported as "wrong password".

## Model

| member | source | states |
|---|---|---|
| Streams.Int16LE | SafeInCloudReader/SafeInCloudReader.cs:59 | the Int16 read is the two's-complement little-endian value of the two bytes, within the 16-bit signed range |
| Streams.BinaryReader.ReadByte | SafeInCloudReader/SafeInCloudReader.cs:65 | returns the byte under the cursor and moves one on; at end of stream fails with end-of-stream |
| Streams.BinaryReader.ReadBytes | SafeInCloudReader/SafeInCloudReader.cs:140 | returns the next min(count, remaining) bytes and moves past exactly them; never fails |
| Streams.BinaryReader.ReadInt16 | SafeInCloudReader/SafeInCloudReader.cs:59 | with two bytes left returns their Int16 value and moves two on; otherwise end-of-stream |
| DatabaseReader.FieldAt | SafeInCloudReader/SafeInCloudReader.cs:137-141 | fails, with end-of-stream, exactly when no length byte is left; otherwise yields the min(n, remaining) bytes after length byte n, at most 255, and the cursor moves 1 + that count |
| DatabaseReader.ReadByteArray | SafeInCloudReader/SafeInCloudReader.cs:137-141 | result and new reader position are those of `FieldAt` at the old position |
| DatabaseReader.HeaderAt | SafeInCloudReader/SafeInCloudReader.cs:55-77 | a parsed header has magic 1285 and version 1, four fields of at most 255 bytes, and the cursor is past the 7 length and prefix bytes plus the four fields |
| DatabaseReader.ReadHeader | SafeInCloudReader/SafeInCloudReader.cs:55-77 | result and new reader position are those of `HeaderAt` at the old position |
| DatabaseReader.MagicBytes | SafeInCloudReader/SafeInCloudReader.cs:15 | the magic reads as 1285 exactly when both of its bytes are 5 |
| DatabaseReader.HeaderChecks | SafeInCloudReader/SafeInCloudReader.cs:59-69 | fewer than 2 bytes is end of stream; bytes other than [5, 5] give "unexpected magic value" whatever the version byte; then a missing or non-1 version byte; a parsed header starts with [5, 5, 1] |
| DatabaseReader.HeaderErrors | SafeInCloudReader/SafeInCloudReader.cs:55-77 | the header parser fails only with end of stream or one of the two format errors |
| DatabaseReader.PasswordBytes | SafeInCloudReader/SafeInCloudReader.cs:85 | as many bytes as password units, each the unit's code modulo 256 |
| DatabaseReader.SequenceEqual | SafeInCloudReader/SafeInCloudReader.cs:101 | the element-by-element walk answers true exactly when both sequences are equal, lengths included |
| DatabaseReader.GetSecrets | SafeInCloudReader/SafeInCloudReader.cs:79-115 | result and new stream position are those of `SecretsAt`: header, outer key, decryption, three fields, checksum |
| DatabaseReader.BadMagicIgnoresPassword | SafeInCloudReader/SafeInCloudReader.cs:59-63 | with a bad magic, unwrapping gives "unexpected magic value" at cursor +2 for every password and primitive |
| DatabaseReader.BadVersionIgnoresPassword | SafeInCloudReader/SafeInCloudReader.cs:65-69 | with a good magic and a version other than 1, unwrapping gives "unexpected sver value" for every password |
| DatabaseReader.CheckSecretsErrors | SafeInCloudReader/SafeInCloudReader.cs:94-111 | every failure while reading the decrypted secrets or checking the checksum is "wrong password" |
| DatabaseReader.UnwrapErrors | SafeInCloudReader/SafeInCloudReader.cs:86-91 | an IV other than 16 bytes is the cipher's IV error; misaligned secrets are the cipher's incomplete-block error; otherwise every failure is "wrong password" |
| DatabaseReader.SecretsErrors | SafeInCloudReader/SafeInCloudReader.cs:79-115 | "wrong password" only comes after a parsed header with a 16-byte IV and block-aligned secrets; end of stream only comes from a truncated header |
| DatabaseReader.AcceptedSecrets | SafeInCloudReader/SafeInCloudReader.cs:96-106 | accepted secrets are byte for byte: the IV field, the key field and 32 bytes equal to the checksum recomputed from the returned key; the result is (key, iv); the checksum length byte is 32, or larger only when the data ends there |
| DatabaseReader.PasswordsAgreeModulo256 | SafeInCloudReader/SafeInCloudReader.cs:85 | passwords whose units agree modulo 256 give the same result |
| Crypto.GetKey | SafeInCloudReader/SafeInCloudReader.cs:129-135 | always 32 bytes, for every password, salt and iteration count (10000 and 1000 included) |
| Crypto.GetAlgorithm | SafeInCloudReader/SafeInCloudReader.cs:117-127 | succeeds exactly for a legal AES key length and a 16-byte IV, and keeps both; otherwise the key error, or the IV error |
| Crypto.TransformFinalBlock | SafeInCloudReader/SafeInCloudReader.cs:91 | succeeds exactly on whole blocks and keeps the length; otherwise the incomplete-block error |
| Crypto.CbcDecrypt | SafeInCloudReader/SafeInCloudReader.cs:122-123 | CBC decryption without padding keeps the length of its input |
| Crypto.CbcRoundTrip | SafeInCloudReader/SafeInCloudReader.cs:122-123 | CBC decryption undoes CBC encryption under the same key and IV |
| Encoder.FieldRoundTrip | SafeInCloudReader/SafeInCloudReader.cs:137-141 | a written field reads back as itself, the cursor moves past exactly it, and what follows is untouched |
| Encoder.HeaderRoundTrip | SafeInCloudReader/SafeInCloudReader.cs:71-76 | a written header reads back as its four fields in order; the cursor ends on the first payload byte, which is left as it was |
| Encoder.SecretsRoundTrip | SafeInCloudReader/SafeInCloudReader.cs:96-106 | secrets written with the recomputed checksum are accepted, whatever follows them, and give (secretKey, secretIv) |
| Encoder.ShortChecksumRejected | SafeInCloudReader/SafeInCloudReader.cs:99-104 | a stored checksum of any length other than 32, a prefix of the right one included, is "wrong password" |
| Encoder.FileRoundTrip | SafeInCloudReader/SafeInCloudReader.cs:79-106 | a file written for a password, read back with it, yields (secretKey, secretIv), and the cursor ends on the payload |

## Left out

- SafeInCloudReader/Program.cs is not part of this model. It is command-line and console plumbing: the argument check, the file lookup and the XML pretty-printing.
- The payload pipeline of `Read` (SafeInCloudReader/SafeInCloudReader.cs:46-52) is left out. It is a chain of library streams with no logic of its own: CBC decryption with the inner key, buffering, and zlib decompression.
- The null-argument checks of `Read` (SafeInCloudReader/SafeInCloudReader.cs:34-42) are left out. Sequences in the model cannot be null.
- The insides of SHA-1, HMAC, PBKDF2 and the AES block function are not modelled. They are foreign library code and enter the model only as parameters with the properties named above.
- GetKey: does not model that `Rfc2898DeriveBytes` refuses a salt shorter than eight bytes. That check belongs to the library and is not visible in the code.
- A different password is not proved to give "wrong password". That depends on the strength of PBKDF2 and AES, which the model does not assume. Only the classification of the failure is proved.
- Disposal of readers, cipher objects and derivation objects (`using`) is not modelled. Neither is timing: the comparison is not constant-time and the model says nothing about time.
- I/O failures of the underlying stream are not modelled. The reader works on the bytes of an in-memory stream.
- `Header` is a datatype rather than an object. `ReadHeader` fills it once and nothing changes it afterwards.
