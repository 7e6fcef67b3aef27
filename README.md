# vwmgr in Dafny

vwmgr manages users of a self-hosted Vaultwarden server. It writes the server's database directly
and reproduces the Bitwarden client-side key hierarchy:

- a master key derived from email and password (PBKDF2-SHA256, 600000 iterations);
- a random 64-byte symmetric user key, wrapped under the master key in a `2.iv|ct|mac` envelope
  (AES-256-CBC plus HMAC-SHA256);
- an RSA key pair whose private half is wrapped under the user key;
- organization keys wrapped for each member under that member's public key in a `4.b64` envelope
  (RSA-OAEP).

This project models that core and proves what it promises:

- **Envelopes** (`PkcsCbc`, `PkcsKdf`, `Pkcs`, from `pkcs/pkcs.go`): formatting and parsing of the
  two envelope kinds, PKCS#7 padding, the HKDF-Expand loop of section 2.3 of RFC 5869, and the two
  cipher round trips. The cryptographic library calls are the fields of a `Crypto.Primitives`
  value. The algebraic facts the round trips need are hypotheses gathered in `Crypto.Axioms`.
- **Key lookup** (`KeyHierarchy`, from `pkg/common/common.go`): `GetOrgSymKeys` unwraps a user's
  private key and then every organization key of the user's memberships.
- **Provisioning** (`Store`, `Provisioning`, `Registration`, from `pkg/mgr/create_user.go`,
  `pkg/mgr/reset_password.go` and `mgr/registration.go`):
  - the rows each operation writes inside its database transaction;
  - the rollback when a write fails;
  - end-to-end theorems: the rows written resolve, through `GetOrgSymKeys`, to exactly the
    organization keys that were granted.
- **Backup** (`Backup`, from `cmd/backup/main.go`): the walk over the decoded export that decrypts
  every envelope string under the organization key. A panic while decrypting one envelope ends the
  program before the file is written.
- **Proxy** (`Proxy`, from `cmd/proxy/main.go`):
  - the forbid list;
  - the identity read from the Google IAP header;
  - the comparison of that identity with the one named in the request body;
  - the decoding of the body, which is put back byte for byte;
  - the script injected into the start page.

  The forbid list is an exact lookup of "METHOD PATH". Its `{org_id}` entry therefore matches only
  that literal path, not a real organization id.
- **DSN** (`Dsn`, from `pkg/utils/db.go`): the defaulting and the fixed-order rendering of the
  connection string. A reader of that string is defined beside it as an independent partner.

Most source operations have two forms here. A function states the value or the new state. A
method with the source's loop or state changes is proved equal to that function. Database
writes are modelled as methods of a `Store.Database` object:

- a transaction takes a snapshot, applies its writes, and restores the snapshot when a write fails;
- whether write k fails is the answer of a `fails` parameter;
- Go's map iteration order is a non-deterministic choice, reported back as a ghost `order`.

Go strings are byte sequences (`Base.GoString`). The proxy and the DSN builder only compare and
concatenate ASCII text, so they use Dafny `string`, with HTTP bodies kept as bytes. A Go panic
that depends on the data becomes an `Err(Panic(..))` outcome that no `errors.Wrap` wraps. Panics
the callers rule out are preconditions.

## Model

| member | source | states |
|---|---|---|
| PkcsCbc.Pad | pkcs/pkcs.go:259-263 | PKCS#7 padding adds 1 to 16 bytes, keeps the text as a prefix, each pad byte equals the pad length, and the result is whole blocks |
| PkcsCbc.Unpad | pkcs/pkcs.go:283-293 | an empty buffer panics; a last byte of 0 or above 16 is a size error; otherwise the result is a prefix at most one block shorter; only the three padding errors occur |
| PkcsCbc.RemovePadding | pkcs/pkcs.go:283-293 | the padding-check loop computes exactly `Unpad` |
| PkcsCbc.UnpadPad | pkcs/pkcs.go:259-263 | unpadding undoes padding for every text |
| PkcsCbc.UnpadOnlyPadded | pkcs/pkcs.go:283-293 | whatever unpadding accepts is the padding of its result, so padding and unpadding are mutually inverse |
| PkcsCbc.Aes256CbcEncrypt | pkcs/pkcs.go:253-268 | the ciphertext is whole blocks, longer than the plaintext by 1 to 16 bytes |
| PkcsCbc.Aes256CbcDecrypt | pkcs/pkcs.go:270-294 | the checks come in order: key length, then block multiple, then the IV panic; plaintext is shorter than the ciphertext |
| PkcsCbc.CbcRoundTrip | pkcs/pkcs.go:253-294 | decryption with the same key and IV gives back the plaintext |
| PkcsKdf.Block | pkcs/pkcs.go:212-234 | T(0) is empty and every later HKDF block is one 32-byte HMAC |
| PkcsKdf.Blocks | pkcs/pkcs.go:212-234 | n blocks hold 32·n bytes |
| PkcsKdf.HkdfExpand | pkcs/pkcs.go:212-234 | the output has exactly the requested length |
| PkcsKdf.BlocksChain | pkcs/pkcs.go:221-231 | block i of the output is HMAC(prk, T(i-1) \| info \| i), as section 2.3 of RFC 5869 defines it |
| PkcsKdf.HkdfExpandLoop | pkcs/pkcs.go:212-234 | the loop with `previousBlock` and `result` computes `HkdfExpand` |
| PkcsKdf.DerivePasswordHash | pkcs/pkcs.go:38-44 | the password hash is base64 text |
| PkcsKdf.DeriveEncMacKey | pkcs/pkcs.go:144-153 | a 32-byte key is HKDF-expanded with "enc" and "mac"; a longer key is split at byte 32 with the halves making up the key; 32- and 64-byte keys give two 32-byte halves |
| PkcsKdf.ExpandedHalves | pkcs/pkcs.go:144-153 | for a 32-byte key each half is the single HMAC round of its expansion |
| PkcsKdf.DeriveMasterKey | pkcs/pkcs.go:30-36 | computes PBKDF2-SHA256 with the password as key, the email as salt and 600000 iterations; no own contract, its use is pinned by `Provisioning.CredentialsUnwrap` and `Provisioning.CreatedUserResolves` |
| PkcsKdf.HashPasswordHash | pkcs/pkcs.go:46-52 | computes PBKDF2-SHA256 with the password hash as key, the random salt as salt and 600000 iterations; no own contract, its use is pinned by `Provisioning.CredentialsUnwrap` |
| Pkcs.ParseSym | pkcs/pkcs.go:26 | a match of `rxBWEnc` has captures without `\|` in the first two and without a newline in the third, and they fill the whole text beside the "2." prefix and the two separators |
| Pkcs.IsBWSymFormat | cmd/backup/main.go:91 | holds exactly when `ParseSym` matches; `ParseFormatSym` and `ParseSymSound` state both directions |
| Pkcs.ParseFormatSym | pkcs/pkcs.go:26 | formatting three well-shaped captures gives a text that matches `rxBWEnc` and yields the same captures |
| Pkcs.ParseSymSound | pkcs/pkcs.go:26 | every text that matches `rxBWEnc` is the formatting of its captures, and those have the captured shapes |
| Pkcs.ParsePk | pkcs/pkcs.go:27 | a text matches `rxBWPk` exactly when it is "4." followed by a non-empty run without `\|`, and it is then the formatting of its capture |
| Pkcs.Base64TextFits | pkcs/pkcs.go:177-181 | base64 text never holds `\|` or a newline, so encoded fields fit the envelope patterns |
| Pkcs.DecodeAll | pkcs/pkcs.go:189-199 | decoding succeeds exactly when every input decodes, and then element i is the decoding of input i |
| Pkcs.Base64DecodeMany | pkcs/pkcs.go:189-199 | the appending loop computes `DecodeAll` |
| Pkcs.BWSymDecrypt | pkcs/pkcs.go:113-142 | a text that does not match is an `InvalidFormat` error; a match whose captures do not all decode is the wrapped base64 error, whatever the key; decoded captures with a key shorter than 32 bytes panic in `key[:32]`; success implies the MAC of IV \| ciphertext checked out |
| Pkcs.MacBeforeDecrypt | pkcs/pkcs.go:125-141 | for a decoded envelope and a usable key: a MAC that is not 32 bytes is a length error; a 32-byte MAC with the wrong value is a MAC error; any other outcome means the MAC matched, and is then success, a panic or the wrapped cipher error |
| Pkcs.BWSymEncrypt | pkcs/pkcs.go:99-111 | no own contract; its output is proved to have the envelope shape by `Pkcs.SymEnvelopeShape` and to decrypt back by `Pkcs.SymRoundTrip` |
| Pkcs.SymEnvelopeShape | pkcs/pkcs.go:99-111 | `BWSymEncrypt` always produces text of the `rxBWEnc` shape |
| Pkcs.SymRoundTrip | pkcs/pkcs.go:99-142 | `BWSymDecrypt` with the same key gives back what `BWSymEncrypt` wrapped |
| Pkcs.BWPKDecrypt | pkcs/pkcs.go:160-175 | a text that does not match is an `InvalidFormat` error; then a payload that is not base64 is that error wrapped with "fail to parse encrypted data"; then an OAEP failure is that error wrapped with "fail to decrypt with privateKey"; a matching envelope whose payload decodes and decrypts gives the plaintext, and success means exactly that |
| Pkcs.BWPKEncrypt | pkcs/pkcs.go:155-158 | no own contract; its output is proved to match `rxBWPk` by `Pkcs.PkEnvelopeShape` and to decrypt back by `Pkcs.PkRoundTrip` |
| Pkcs.PkEnvelopeShape | pkcs/pkcs.go:155-158 | `BWPKEncrypt` output matches `rxBWPk` with the base64 OAEP ciphertext as capture |
| Pkcs.PkRoundTrip | pkcs/pkcs.go:155-175 | decrypting with the private key of the pair gives back the data |
| Store.WithCredentials | pkg/mgr/reset_password.go:44-51 | the five credential columns take the new values and every other column is kept |
| Store.UpdateCredentials | pkg/mgr/reset_password.go:44-51 | exactly the rows with the given uuid are rewritten, all others are kept, and the table keeps its length |
| Store.SetMembershipAkeys | pkg/mgr/reset_password.go:57-60 | exactly the memberships of the user get the new Akey, all others are kept |
| Store.FindByEmail | pkg/mgr/reset_password.go:38-41 | a row is found exactly when some row has the email, and the row found has it |
| Store.MembershipsOf | pkg/common/common.go:25-29 | the memberships listed are exactly the table's memberships of that user |
| Store.FindAppended | pkg/common/common.go:19-23 | a row appended with an email no earlier row has is the row the email lookup finds |
| Store.MembershipsOfConcat | pkg/common/common.go:25-29 | listing a user's memberships distributes over appending rows to the table |
| Store.MembershipsOfAll | pkg/common/common.go:25-29 | a table of only that user's rows is listed whole, in order |
| Store.MembershipsOfNone | pkg/common/common.go:25-29 | a table with none of that user's rows lists nothing |
| Store.MembershipsAppended | pkg/common/common.go:25-29 | memberships appended for a user who had none are, in order, that user's memberships |
| Store.Database.Restore | pkg/mgr/create_user.go:48 | a failed transaction leaves both tables as they were when it began |
| Store.Database.CreateUser | pkg/mgr/create_user.go:64-66 | an insert appends the row, or fails with a database error and changes nothing |
| Store.Database.CreateMembership | pkg/mgr/create_user.go:78-80 | an insert appends the row, or fails with a database error and changes nothing |
| Store.Database.UpdateUserCredentials | pkg/mgr/reset_password.go:44-54 | the update rewrites the user's row as in `UpdateCredentials`, or fails and changes nothing |
| Store.Database.UpdateMembershipAkeys | pkg/mgr/reset_password.go:57-63 | the update re-wraps the user's memberships as in `SetMembershipAkeys`, or fails and changes nothing |
| KeyHierarchy.CollectOrgKeys | pkg/common/common.go:46-53 | on success the result has exactly the organizations of the memberships as keys |
| KeyHierarchy.UnwrapPrivateKey | pkg/common/common.go:31-44 | a user Akey that does not unwrap under the master key stops there with that error wrapped; a private key that does not unwrap under the user key stops there with that error wrapped; otherwise the result is the parsed PKCS#8 key, or the parse error wrapped; success implies the Akey's MAC checked out under the master key; every error that is not a panic is wrapped |
| KeyHierarchy.ResolveOrgKeys | pkg/common/common.go:10-54 | lookup errors are returned unchanged, in order; a failed unwrap stops the call with its error; success covers exactly the user's organizations |
| KeyHierarchy.GetOrgSymKeys | pkg/common/common.go:10-54 | the method computes `ResolveOrgKeys` |
| KeyHierarchy.DecryptOrgKeys | pkg/common/common.go:46-53 | the loop filling the result map computes `CollectOrgKeys` |
| KeyHierarchy.CollectErrorStays | pkg/common/common.go:47-50 | once a prefix fails, the whole call fails with the same error |
| KeyHierarchy.CollectLastWins | pkg/common/common.go:51 | on success each organization maps to the decryption of its last membership's Akey |
| KeyHierarchy.CollectFailsFast | pkg/common/common.go:46-53 | the call fails exactly when some Akey does not decrypt, and the error is the wrapped error of the first one |
| KeyHierarchy.CollectAgrees | pkg/common/common.go:46-53 | when every Akey decrypts to the key its organization should have, the call succeeds with those keys |
| KeyHierarchy.ResolveAgrees | pkg/common/common.go:10-54 | a user row that unwraps plus memberships that unwrap give exactly the expected keys, restricted to the user's organizations |
| KeyHierarchy.NoMemberships | pkg/common/common.go:31-53 | with no membership the result is the empty map, and it succeeds exactly when both unwrapping steps do |
| KeyHierarchy.WrongPasswordStopsAtUserKey | pkg/common/common.go:31-35 | a password whose master key fails the user Akey's MAC stops with that wrapped MAC error |
| Provisioning.Credentials | pkg/mgr/create_user.go:24-39 | no own contract; the five credential columns, whose meaning is stated by `Provisioning.CredentialsUnwrap` |
| Provisioning.NewUserRow | pkg/mgr/create_user.go:49-63 | no own contract; the user row, whose columns are stated by `Provisioning.NewUserRowShape` |
| Provisioning.NewMembershipRow | pkg/mgr/create_user.go:69-77 | no own contract; one membership row, whose columns are stated by `Provisioning.MembershipRowsShape` |
| Provisioning.MembershipRows | pkg/mgr/create_user.go:68-81 | one membership row is built for each organization asked for |
| Provisioning.SelectAt | pkg/mgr/create_user.go:68-81 | row i of the insertion order is the row of the i-th organization visited |
| Provisioning.MembershipRowsShape | pkg/mgr/create_user.go:69-77 | every row belongs to the new user and to its organization, is confirmed (status 2) without access to all collections, has the requested role, and wraps the organization key under the new public key |
| Provisioning.CredentialsUnwrap | pkg/mgr/create_user.go:24-31 | the stored Akey unwraps to the symmetric key under the master key; the private key envelope unwraps to the PKCS#8 key; the public key is base64 of the SPKI; the verifier is `HashPasswordHash` under the stored salt |
| Provisioning.CredentialsResolve | pkg/mgr/create_user.go:24-39 | a user row with these credentials and a genuine key pair unwraps, with the same email and password, to that pair's private key |
| Provisioning.NewUserRowShape | pkg/mgr/create_user.go:49-63 | the user row holds the derived credentials, the drawn uuid and stamp, 600000 in both iteration columns and "[]" in both JSON columns |
| Provisioning.CreatedUserResolves | pkg/mgr/create_user.go:18-85 | in any map order, the rows `createUser` writes resolve through `GetOrgSymKeys` to exactly the organization keys it granted |
| Provisioning.CreatedUserLooksUp | pkg/mgr/create_user.go:48-84 | in tables where the email and the new uuid are unused, lookup by email finds the new user row, lookup by uuid finds exactly the memberships written, and `GetOrgSymKeys` on them yields the keys granted |
| Provisioning.SelectOrgs | pkg/mgr/create_user.go:68-72 | the inserted memberships cover exactly the organizations visited |
| Provisioning.MembershipsUnwrap | pkg/mgr/create_user.go:73 | every inserted membership unwraps, under the new private key, to its organization's key |
| Provisioning.ResetUserRow | pkg/mgr/reset_password.go:44-51 | no own contract; the reset user row, the five credential columns replaced as `Store.WithCredentials` states |
| Provisioning.ResetUserResolves | pkg/mgr/reset_password.go:13-67 | after a reset, the new password resolves every one of the user's memberships to the one organization key the call wrapped |
| Provisioning.ResetMembershipsUnwrap | pkg/mgr/reset_password.go:57-60 | after the update each of the user's memberships unwraps to that organization key |
| Provisioning.ResetAkey | pkg/mgr/reset_password.go:57-60 | each of the user's memberships carries the new Akey after the update |
| Provisioning.Manager.CheckOrgKeys | pkg/mgr/create_user.go:41-46 | passes exactly when every organization asked for has a key, and otherwise reports a missing one |
| Provisioning.Manager.CreateUser | pkg/mgr/create_user.go:18-85 | a key that does not parse is an error; a missing organization key is reported; success exactly when nothing fails; an error leaves the tables unchanged; success appends the user row and one membership per organization |
| Provisioning.Manager.InsertMemberships | pkg/mgr/create_user.go:68-81 | every organization is inserted once in map order, stopping at the first failed insert; on failure, exactly the inserts before the failing one are in the table, and every one of them succeeded |
| Provisioning.Manager.ResetUserPassword | pkg/mgr/reset_password.go:13-67 | errors come in order: empty email, unparsable key (a panic), failed lookup, missing user; success exactly when nothing fails; an error leaves the tables unchanged; success rewrites the user's credentials and re-wraps the user's memberships |
| Registration.RegisteredRowIterations | mgr/registration.go:38-46 | the user row `Register` inserts holds the 600000 of mgr/main.go in both iteration columns |
| Registration.RegisteredUserResolves | mgr/registration.go:10-67 | the two rows `Register` writes resolve, with the same email and password, to the manager's organization key and nothing else |
| Registration.OneMembershipUnwraps | mgr/registration.go:52-60 | the registered membership unwraps to the manager's organization key |
| Registration.Manager.Register | mgr/registration.go:10-67 | a key that does not parse is an error; success exactly when neither insert fails; an error leaves the tables unchanged; success appends the user row and one membership with Atype 3 |
| Backup.Traverse | cmd/backup/main.go:114-129 | no own contract; the walk, whose behaviour is stated by `Backup.TraverseKeepsShape`, `Backup.TraverseReadsLeavesOnly`, `Backup.TraverseIdentity` and `Backup.TraverseCompose` |
| Backup.TraverseKeepsShape | cmd/backup/main.go:114-129 | the walk keeps every object's keys and every array's length |
| Backup.TraverseReadsLeavesOnly | cmd/backup/main.go:114-129 | two closures that agree on the leaves give the same result |
| Backup.TraverseIdentity | cmd/backup/main.go:114-129 | a closure that keeps every leaf leaves the tree unchanged |
| Backup.TraverseCompose | cmd/backup/main.go:114-129 | two walks in a row equal one walk with the composed closure |
| Backup.Mod | cmd/backup/main.go:89-101 | for any organization key: a non-string, or a string without the envelope shape, is returned as is; an envelope refused with an error is returned as is; a panic inside `BWSymDecrypt`, a short key's included, is not recovered and comes out as `Err(Panic(..))`; one that decrypts becomes its plaintext |
| Backup.ModWith | cmd/backup/main.go:89-101 | the closure returns what `mod` returns wherever `mod` returns, and leaves stay leaves |
| Backup.DecryptExport | cmd/backup/main.go:89-129 | the backup dies exactly when some leaf of the export makes `mod` panic; one that completes keeps every container of the export |
| Backup.AnyLeafWeaken | cmd/backup/main.go:114-129 | a leaf with some property that the walk reaches is a leaf with every property implied by it |
| Backup.TraverseAvoids | cmd/backup/main.go:114-129 | a walk whose closure never yields a leaf with some property leaves no such leaf |
| Backup.CrashPastMac | cmd/backup/main.go:89-111 | an envelope whose MAC checks out but whose IV is not one block long, or whose ciphertext is empty, makes `mod` panic, and an export holding it anywhere writes no backup |
| Backup.ModDecrypts | cmd/backup/main.go:89-101 | `mod` undoes `BWSymEncrypt` under the organization key |
| Backup.DecryptExportRoundTrip | cmd/backup/main.go:89-129 | backing up an export whose strings were encrypted under the organization key completes with the plaintext export, container for container |
| Text.TrimPrefix | pkg/utils/db.go:19 | at most one leading copy of the prefix is removed |
| Text.SplitJoin | pkg/utils/db.go:37-40 | splitting undoes joining when no piece holds the separator |
| Text.ReplaceAll | cmd/proxy/main.go:83-86 | no own contract; `bytes.Replace` with every occurrence, leftmost first and without overlap, whose behaviour is stated by `Text.ReplaceAbsent`, `Text.ReplaceCopies`, `Text.ReplaceAtStart` and `Text.ReplaceOnce` |
| Text.ReplaceAbsent | cmd/proxy/main.go:83-86 | a body without the closing tags is left unchanged |
| Text.ReplaceCopies | cmd/proxy/main.go:83-86 | text before the first occurrence is copied through |
| Text.ReplaceAtStart | cmd/proxy/main.go:83-86 | an occurrence is replaced by the new tags |
| Text.ReplaceOnce | cmd/proxy/main.go:83-86 | a body holding the pattern once gets the replacement there and nothing else changes |
| Text.NatToString | cmd/proxy/main.go:91 | `strconv.Itoa` of a length is a non-empty digit string without leading zeros |
| Text.DigitsRoundTrip | cmd/proxy/main.go:91 | the Content-Length value reads back as the number written |
| Proxy.GetIapHeader | cmd/proxy/main.go:149-164 | a missing header gives 401; a header without ':' gives 400; otherwise no status and the identity is everything after the first ':' |
| Proxy.IapHeaderOfIssuer | cmd/proxy/main.go:158-163 | "issuer:identity" yields the identity even when it holds ':' itself |
| Proxy.Login | cmd/proxy/main.go:116-123 | `/login` redirects with 307 exactly when the IAP identity is non-empty, to "/#login?email=" followed by the identity; a refusal carries the status `getIAPHeader` wrote, if any |
| Proxy.EmptyIdentityRefused | cmd/proxy/main.go:118-121 | an empty identity after the ':' is refused with no status written, at `/login` and in the body check |
| Proxy.FormValue | cmd/proxy/main.go:188-193 | a key with one value is stored as that string, any other as the list |
| Proxy.FormBody | cmd/proxy/main.go:183-194 | the decoded form has exactly the form's keys |
| Proxy.ParseBody | cmd/proxy/main.go:166-200 | a content type with neither prefix is an error; a JSON body is the decoder's result or an `InvalidJson` error; a form body is `FormBody` of the parsed query, or an `InvalidForm` error when `url.ParseQuery` rejects it |
| Proxy.FormFieldShape | cmd/proxy/main.go:183-194 | a decoded form has the form's keys, a single value as a string and repeated values as a list |
| Proxy.CheckIap | cmd/proxy/main.go:131-147 | passes exactly when IAP names someone, the body decodes, and the field is absent or is that identity as a string; otherwise the status of the first fault |
| Proxy.RepeatedFormFieldRefused | cmd/proxy/main.go:142-146 | a form repeating the checked field is refused with 401, even when every copy is the identity |
| Proxy.Decide | cmd/proxy/main.go:99-108 | a forbidden route gives 406 before anything else; only POST or PUT on the two gated paths is checked; everything else passes |
| Proxy.GatedReachCheck | cmd/proxy/main.go:20-30 | no gated route is on the forbid list, so gated requests always reach the body check |
| Proxy.ForbidIsExact | cmd/proxy/main.go:20-24 | the forbid lookup is exact: a real organization id in the leave path, or another method, is not refused |
| Proxy.Request.ParseToMap | cmd/proxy/main.go:166-200 | the body is put back byte for byte with its length, and the result is `ParseBody` of the original body |
| Proxy.Request.Handle | cmd/proxy/main.go:96-114 | the verdict is `Decide` on the parsed body; the body is unchanged and its length reset only when it was read |
| Proxy.Response.ModifyResponse | cmd/proxy/main.go:71-94 | only the start page changes: every `</script></body>` is replaced and Content-Length and the header match the new length |
| Proxy.StartPageRewrite | cmd/proxy/main.go:83-91 | a page with one closing pair gets the script there, and Content-Length reads back as the grown length |
| Dsn.Values | pkg/utils/db.go:15-27 | seven values are written, one per setting |
| Dsn.OrDefault | pkg/utils/db.go:21-27 | a non-empty value is kept and an empty one becomes the default |
| Dsn.Pairs | pkg/utils/db.go:37-40 | each setting is written as key=value |
| Dsn.PgUrlToGormDsn | pkg/utils/db.go:9-41 | a parse error gives "" with that error; otherwise a non-empty string and no error |
| Dsn.DsnReadsBack | pkg/utils/db.go:15-40 | when none of the seven values holds a space, the string reads back as host, user, password, dbname, port, sslmode, TimeZone in that order, with the defaults 5432, disable and UTC for empty values, an empty password when none is given, and one leading '/' removed from the path |
| Dsn.DbNameTrimsOneSlash | pkg/utils/db.go:19 | "/name" gives "name", and a path without a leading '/' is kept |

## Left out

- Cryptographic primitives: AES, HMAC-SHA256, PBKDF2, RSA key generation and OAEP, x509 parsing, base64 and `crypto/rand` are library calls. They are the abstract fields of `Crypto.Primitives`. Randomness is a parameter: salts, keys, IVs and uuids are in `Provisioning.Fresh`, and the proxy decoders are function parameters.
- `Pkcs.BWPKEncrypt`: OAEP's random seed is not modelled, so encryption is a function of key and data.
- `Pkcs.BWPKEncrypt`: `pkEncrypt` panics when `rsa.EncryptOAEP` fails, for instance on a message longer than the modulus length less 42 bytes (pkcs/pkcs.go:236-241). The model's `oaepEncrypt` never fails. The call sites wrap 64-byte organization keys under generated 2048-bit keys, so the panic cannot occur there.
- `KeyHierarchy.UnwrapPrivateKey`: the two errors of `PrivateKeyInfo`, a PKCS#8 parse error and a key that is not RSA (pkcs/pkcs.go:87-96), are one error, `InvalidPrivateKey`, wrapped once as at pkg/common/common.go:41-44. The wrapping `PrivateKeyInfo` adds itself is not modelled.
- `Provisioning.Manager.CreateUser`: the wrapped parse error and the "fail to convert" error of `PublicKeyInfo` (pkcs/pkcs.go:75-85, called at pkg/mgr/create_user.go:36-39) are one error, `InvalidPublicKey`. The public key comes from `GenRSAKeyPair`, so neither can occur there.
- `Pkcs.BWSymDecrypt`: the MAC comparison is modelled as equality. The timing behaviour of `bytes.Equal` cannot be expressed.
- `Pkcs.IsBWSymFormat`: `cmd/backup/main.go` imports the package of pkcs/pkcs.go, but that file does not define `IsBWSymFormat`. It is taken to test the `rxBWEnc` shape.
- pkg/pkcs, which pkg/common and pkg/mgr import, is not part of this model. Its functions are taken to be those of pkcs/pkcs.go.
- `Provisioning.Manager.ResetUserPassword`: it takes the one organization key it wraps as a parameter. The `m.orgSymKey` field it reads is not declared by the manager of pkg/mgr/main.go. The panic of the `*rsa.PublicKey` type assertion is folded into the `PublicKeyParse` panic.
- `Store.Database`: gorm's automatic `updated_at` columns, the begin of `db.Transaction` failing before any write, the commit itself failing, and concurrency with other writers are not modelled.
- `Backup.DecryptExport`: a panic ends the program whichever leaf `mod` reaches first. The model reports only that no file is written, not which panic occurred.
- `Backup.Traverse`: it rewrites a value, not the Go maps and slices in place, so aliasing between the input and the result is not modelled. The export fetch, `json.Unmarshal`, `json.Marshal` (including its treatment of invalid UTF-8) and the file write are I/O. `json.Unmarshal` decodes numbers into `float64`; `JNumber` keeps a number's text, so rounding beyond 2^53 is not modelled.
- `Proxy.Request.ParseToMap`: a failure to read the body is not modelled. JSON and form decoding are parameters.
- `Proxy.Request.Handle`: setting `r.Host` and the forwarding itself are I/O. So is the static `/vw-mgr-mod.js` handler.
- `Proxy.Response.ModifyResponse`: a failure to read the upstream body is not modelled. The Content-Length header is modelled as a single-valued map entry.
- `Dsn.DsnReadsBack`: pkg/utils/db.go:37-40 writes each value without quoting or escaping, so a user, password, database name, port or query value that holds a space (a password given as `%20` in the URL, say) gives a string that does not read back; the lemma states the read-back only for values without spaces.
- `Proxy.Login`: `http.Redirect` percent-escapes bytes of the location that are not ASCII; the model's location is the unescaped text, since net/http is not part of this model.
- `Dsn.PgUrlToGormDsn`: `url.Parse`, `Hostname()`, `Port()` and `Query()` are library calls. Their results are the input `PgUrl`.
- Command-line parsing, HTTP serving, the HTTP API of pkg/mgr/main.go, and the commands and reports in cmd/mgr, cmd/getorgkey, mgr/reset.go, pkg/mgr/user_depart_report.go and pkg/mgr/org_item_details.go are outside the modelled core.
