# NeedleTailCrypto core, modelled in Dafny

This project models the core of NeedleTailCrypto, a Swift package that wraps
CryptoKit key agreement, key derivation and the platform keychain. It covers
four parts.

- **Keychain items** (`Keychain`, over the abstract platform store `SecItem`):
  - `KeychainConfiguration` names a slot by service, account and access group,
    each defaulting to nil.
  - `KeychainItem` builds the query for a slot, reads the item as UTF-8 text,
    saves it (update when it can be read, add when the slot is empty) and
    deletes it.
  - The `NTKeychain` actor forwards to it. Its `fetchItem` turns every error
    into nil.
- **Enclave-key custody** (`SecureEnclave`): `NTSecureEnclave` loads the
  enclave key stored for a configuration. When there is none, it creates one,
  saves it (delete, then add) and returns it.
- **Key text encoding** (`KeyEncoding`): the `encodedKey` of every agreement
  key is its raw bytes in base64, percent-encoded with the alphanumerics as
  the allowed set.
- **Symmetric-key derivation** (`DerivedSymmetricKeys`):
  - `userInfoKey` is the UTF-8 bytes of the first 32 lowercase hex characters
    of a SHA-256 digest.
  - `derivedKeyLogic` picks the key families of an algorithm, imports both
    keys and derives.

`Wrappers` holds `Option`, `Result` (a throwing function) and `Outcome` (a
throwing function returning `Void`). `Utf8` holds the strict UTF-8 codec that
`data(using: .utf8)` and `String(data:encoding: .utf8)` stand for.

The platform store is abstract but stateful (`SecItem.SecItemStore`):
- It holds one byte string per slot. A slot is the (service, account, access
  group) triple that a query names.
- A success or item-not-found status is always truthful.
- Any other status may be answered by a store that is not `reliable`, and
  then the call changes nothing.
- A ghost log records every call and its answer, so the methods' contracts
  say which calls they issue, in which order, and what they return for each
  answer.

The keychain and the enclave custodian share the store and its slots, as
both write generic-password items.

Three behaviours of the code shape the model:
- A missing enclave is reported only as `unexpectedAccessData`, the same
  error as a missing access-control policy.
- Both policy flags (data protection and synchronizable) are fixed to true in
  every query. They are not configurable.
- `fetchItem` swallows every error into nil.

Export is `encodedKey`, modelled here. Import feeds the BSON encoding of the
key string to the key initializer, so import does not reverse export, and no
round trip through the two is claimed. `KeyStringDecode` is a reference
inverse of `encodedKey`, not the repository's import.

The foreign parts (SHA-256, key import, agreement and HKDF, the enclave's key
handles) are parameters or abstract classes. A digest is assumed to be 32
bytes.

## Model

| member | source | states |
|---|---|---|
| `Keychain.DefaultConfiguration` | Sources/NeedleTailCrypto/Keychain.swift:139-143 | The initializer defaults every part to nil: the default configuration addresses the slot with no service, account or access group, and its query is the four fixed entries alone. Naming only a service adds only that entry. |
| `Keychain.ConfigurationQuery` | Sources/NeedleTailCrypto/Keychain.swift:76-97 | The query always holds class generic-password, accessible-when-unlocked, data protection true and synchronizable true. It holds a service, account or access-group entry exactly when that field is non-nil, with its value, and no other keys. It addresses the configuration's slot. |
| `Keychain.KeychainItem.KeychainQuery` | Sources/NeedleTailCrypto/Keychain.swift:76-97 | Building the dictionary entry by entry gives exactly ConfigurationQuery. |
| `Keychain.ReadQuery` | Sources/NeedleTailCrypto/Keychain.swift:14-18 | The read query addresses the configuration's slot and asks for both the attributes and the data. |
| `Keychain.NewItemQuery` | Sources/NeedleTailCrypto/Keychain.swift:56-57 | The add query addresses the slot and carries the item's UTF-8 bytes as its value data. |
| `Keychain.ReadOutcome` | Sources/NeedleTailCrypto/Keychain.swift:25-37 | `noPassword` exactly on item-not-found. `unhandledError` exactly on any other non-success status. Success only on success status, with value data that is the UTF-8 encoding of the returned string. Every success status whose data is UTF-8 succeeds. `unexpectedItemData` never. |
| `Keychain.ReliableReadOutcome` | Sources/NeedleTailCrypto/Keychain.swift:13-38 | With a store that answers from its contents, the read gives the stored text, `noPassword` for an empty slot, or `unexpectedPasswordData` for bytes that are not UTF-8. |
| `Keychain.StoredPasswordOfSaved` | Sources/NeedleTailCrypto/Keychain.swift:40-65 | After a slot holds the UTF-8 bytes of an item, reading it gives that item back. |
| `Keychain.KeychainItem.ReadItem` | Sources/NeedleTailCrypto/Keychain.swift:13-38 | Issues exactly one copy-matching call with the read query and returns ReadOutcome of its answer. `noPassword` means the slot is empty, and a returned text is exactly what the slot holds. With a reliable store this is the stored text. |
| `Keychain.KeychainItem.SaveItem` | Sources/NeedleTailCrypto/Keychain.swift:40-65 | Reads first. A read that succeeds means the slot holds that text's bytes, and the item is then updated with the new bytes; `noPassword` means the slot is empty, and it then gets an add; and any other read error is rethrown with nothing written. A non-success write status becomes `unhandledError`. On success the slot holds the item's bytes; on failure nothing changed. With a reliable store it succeeds exactly when the slot is empty or holds UTF-8. |
| `Keychain.SaveItemUpserts` | Sources/NeedleTailCrypto/Keychain.swift:40-65 | The upsert is decided by the slot: an occupied slot never gets an add. On a reliable store a UTF-8 item gets an update, an empty slot an add, and bytes that are not UTF-8 give `unexpectedPasswordData` with nothing written. |
| `Keychain.KeychainItem.DeleteItem` | Sources/NeedleTailCrypto/Keychain.swift:67-74 | Issues one delete. Success and item-not-found both succeed and leave the slot empty. Any other status is `unhandledError` with nothing changed. |
| `Keychain.NTKeychain.Save` | Sources/NeedleTailCrypto/Keychain.swift:111-113 | Behaves as `saveItem`, the upsert decided by the slot's contents. |
| `Keychain.NTKeychain.FetchItem` | Sources/NeedleTailCrypto/Keychain.swift:115-122 | Never throws. Issues one read and gives nil exactly when the read throws, otherwise the read's value, which is exactly what the slot holds on any store. With a reliable store it gives the stored text, or nil. |
| `Keychain.NTKeychain.DeleteItem` | Sources/NeedleTailCrypto/Keychain.swift:124-126 | Behaves as `deleteItem`. |
| `Keychain.SaveThenFetch` | Sources/NeedleTailCrypto/Keychain.swift:111-122 | On a reliable store, a save that succeeds is followed by a fetch that gives the saved string. |
| `Keychain.DeleteTwiceThenRead` | Sources/NeedleTailCrypto/Keychain.swift:67-74 | On a reliable store, delete is idempotent (both calls succeed), and a read afterwards throws `noPassword`. |
| `Utf8.DecodeEncode` | Sources/NeedleTailCrypto/Keychain.swift:29-33 | Strict UTF-8 decoding of a string's UTF-8 bytes gives the string back. |
| `Utf8.EncodeDecode` | Sources/NeedleTailCrypto/Keychain.swift:29-33 | Bytes that decode are exactly the encoding of the decoded string. |
| `Utf8.DecodeIff` | Sources/NeedleTailCrypto/Keychain.swift:29-33 | Decoding gives `s` if and only if the bytes are the encoding of `s`. |
| `Utf8.EncodeAscii` | Sources/NeedleTailCrypto/Crypto/NeedleTailCrypto+DerivedSymmentricKeys.swift:21 | The UTF-8 bytes of an ASCII string are its code points, one byte per character. |
| `SecureEnclave.EnclaveQuery` | Sources/NeedleTailCrypto/SecureEnclave.swift:53-83 | The keychain's base entries are present. The value-data entry is present exactly when a key is passed, holding its data representation. The return-data entry is present exactly when `returnData` is set. There is no attribute request and no other key, and the query addresses the configuration's slot. |
| `SecureEnclave.NTSecureEnclave.KeychainQuery` | Sources/NeedleTailCrypto/SecureEnclave.swift:53-83 | Building the dictionary entry by entry gives exactly EnclaveQuery. |
| `SecureEnclave.EnclaveDevice.CreateKey` | Sources/NeedleTailCrypto/SecureEnclave.swift:39-42 | A created key is appended to the enclave's keys. Failure creates nothing. An unavailable enclave always fails. |
| `SecureEnclave.EnclaveDevice.RestoreKey` | Sources/NeedleTailCrypto/SecureEnclave.swift:117-120 | Restoring a blob gives the key with that data representation, or a provider error. |
| `SecureEnclave.NTSecureEnclave.LoadPrivateKey` | Sources/NeedleTailCrypto/SecureEnclave.swift:100-124 | When the enclave is unavailable, throws `unexpectedAccessData` before touching the store. Otherwise issues one copy-matching call with the return-data query. Item-not-found gives nil. Success with a data object gives the key restored from it, or the enclave's error when it refuses the data, and success with anything else gives nil. Any other status throws `unhandledError(status)`. A returned key is the slot's contents, and nil means the slot is empty. |
| `SecureEnclave.NTSecureEnclave.SavePrivateKey` | Sources/NeedleTailCrypto/SecureEnclave.swift:85-98 | Issues a delete then an add of the key's query, ignoring the delete's status. It succeeds exactly when the add succeeds, and then the slot holds the key. Otherwise it throws `unhandledError(status)` of the add. |
| `SecureEnclave.NTSecureEnclave.FetchPrivateKey` | Sources/NeedleTailCrypto/SecureEnclave.swift:27-50 | At most one key is created, and only when the slot was empty, on an available enclave with an access-control policy, so a slot that holds a key never gets a new one on any store. A created key is returned only if the delete-and-add save that follows it succeeds. A key that was not created was loaded from the slot, and nothing was saved. A failed fetch leaves the store as it was. An unavailable enclave throws `unexpectedAccessData` and makes no lookup. On an available enclave, a fetch that fails without creating a key made exactly one lookup: a status other than success or item-not-found throws `unhandledError(status)`, an empty slot throws `unexpectedAccessData` without an access-control policy and the enclave's error with one, and a refused restore throws the enclave's error. On a reliable store with an available, cooperative enclave, a stored key of the enclave is returned as it is, and, when there is also an access-control policy, an empty slot gets exactly one new key, which is saved and returned. |
| `SecureEnclave.FetchTwice` | Sources/NeedleTailCrypto/SecureEnclave.swift:27-50 | On a reliable store with an available, cooperative enclave and an access-control policy, and a slot that is empty or holds a key this enclave created, fetch is idempotent: both fetches succeed with the same key, at most one key is created, and none if the slot was filled. |
| `KeyEncoding.Base64Encode` | Sources/NeedleTailCrypto/Extensions/PrivateKey+Extension.swift:13 | The base64 text of n bytes is 4⌈n/3⌉ characters long. |
| `KeyEncoding.Base64RoundTrip` | Sources/NeedleTailCrypto/Extensions/PrivateKey+Extension.swift:13 | Base64-decoding the encoding of some bytes gives the bytes back. |
| `KeyEncoding.Base64Shape` | Sources/NeedleTailCrypto/Extensions/PrivateKey+Extension.swift:13 | The base64 text is a body in the alphabet followed by exactly (3 − n mod 3) mod 3 `=` characters. |
| `KeyEncoding.PercentEncodeAlnum` | Sources/NeedleTailCrypto/Extensions/PrivateKey+Extension.swift:16 | The encoding is never shorter than its input, and it leaves the text unchanged exactly when every character is an allowed letter or digit; otherwise the text grows. |
| `KeyEncoding.AddingPercentEncoding` | Sources/NeedleTailCrypto/Extensions/PrivateKey+Extension.swift:16 | Percent-encoding never gives nil, and its result percent-decodes back to the input. |
| `KeyEncoding.PercentRoundTrip` | Sources/NeedleTailCrypto/Extensions/PrivateKey+Extension.swift:16 | Percent-decoding undoes percent-encoding for every string. |
| `KeyEncoding.EncodedKeyOf` | Sources/NeedleTailCrypto/Extensions/PrivateKey+Extension.swift:11-17 | The fallback is never taken: the text is the percent-encoding of the base64 text. |
| `KeyEncoding.EncodedKeyRoundTrip` | Sources/NeedleTailCrypto/Extensions/PrivateKey+Extension.swift:11-17 | Percent-decoding and then base64-decoding an `encodedKey` gives the raw key back. |
| `KeyEncoding.EncodedKeyInjective` | Sources/NeedleTailCrypto/Extensions/PublicKey+Extension.swift:11-17 | Keys with equal `encodedKey` have equal raw bytes. |
| `KeyEncoding.EncodedKeyShape` | Sources/NeedleTailCrypto/Extensions/PrivateKey+Extension.swift:11-17 | The text holds only ASCII letters, digits and `%`, and each `%` opens `%2B`, `%2F` or `%3D`. It ends with exactly (3 − n mod 3) mod 3 `%3D` triplets. Its length is 4⌈n/3⌉ plus two per escaped character. |
| `KeyEncoding.EncodedKeyNonEmpty` | Tests/NeedleTailCryptoTests/NeedleTailCryptoTests.swift:134-152 | A key of at least one byte has an `encodedKey` of at least four characters. |
| `KeyEncoding.EncodedKey32` | Sources/NeedleTailCrypto/Extensions/PrivateKey+Extension.swift:10-17 | A 32-byte key ends with exactly one `%3D`, and its text is 44 characters plus two per escaped character. |
| `KeyEncoding.AgreementPrivateKey.EncodedKey` | Sources/NeedleTailCrypto/Extensions/PrivateKey+Extension.swift:10-48 | One definition for all four curves, whose text decodes back to the raw key. |
| `KeyEncoding.AgreementPublicKey.EncodedKey` | Sources/NeedleTailCrypto/Extensions/PublicKey+Extension.swift:10-48 | One definition for all four curves, whose text decodes back to the raw key. |
| `DerivedSymmetricKeys.HexStringDigits` | Sources/NeedleTailCrypto/Crypto/NeedleTailCrypto+DerivedSymmentricKeys.swift:19 | The joined `%02hhx` text is twice as long as the bytes, and characters 2i and 2i+1 are the high and low nibble digits of byte i. |
| `DerivedSymmetricKeys.UserInfoKey` | Sources/NeedleTailCrypto/Crypto/NeedleTailCrypto+DerivedSymmentricKeys.swift:16-23 | Never throws, so neither `keyDataNil` nor `symmetricKeyDataNil` can occur, for the empty string too. The key is 32 bytes, each a lowercase hex digit, and bytes 2i and 2i+1 are the nibble digits of digest byte i. |
| `DerivedSymmetricKeys.UserInfoKeyDependsOnPrefix` | Sources/NeedleTailCrypto/Crypto/NeedleTailCrypto+DerivedSymmentricKeys.swift:19-20 | Two strings whose digests agree on the first 16 bytes give the same key: the prefix of 32 hex characters drops the other 16 bytes. |
| `DerivedSymmetricKeys.UserInfoKeyKeepsPrefix` | Sources/NeedleTailCrypto/Crypto/NeedleTailCrypto+DerivedSymmentricKeys.swift:19-20 | Two strings that give the same key have digests that agree on the first 16 bytes, so together with the row above the key determines exactly that prefix. |
| `DerivedSymmetricKeys.ImportPrivateKey` | Sources/NeedleTailCrypto/Crypto/NeedleTailCrypto+DerivedSymmentricKeys.swift:43 | An imported private key has the kind asked for, and the import fails exactly when the provider's import fails. |
| `DerivedSymmetricKeys.ImportPublicKey` | Sources/NeedleTailCrypto/Crypto/NeedleTailCrypto+DerivedSymmentricKeys.swift:44 | An imported public key has the curve asked for, and the import fails exactly when the provider's import fails. |
| `DerivedSymmetricKeys.DerivedKeyLogic` | Sources/NeedleTailCrypto/Crypto/NeedleTailCrypto+DerivedSymmentricKeys.swift:33-71 | A failed private-key import is thrown first. A failed public-key import is thrown next. With both keys, they are of one family (the enclave case pairs an enclave key with a P-256 public key), and the result is the provider's derivation on the salt and those keys. |

## Left out

- AES-GCM encryption and decryption, key generation, SHA-256, SHA-512, HKDF and ECDH are CryptoKit's. SHA-256 and the derivation are parameters, and the rest of the encryption API is not part of this model.
- Key import feeds the BSON encoding of the key string (`String+Extension.swift`) to the key initializer. BSON is not modelled, so import is a provider parameter, and no export-then-import round trip is claimed.
- `deriveStrictSymmetricKey` is not modelled. It is HKDF over SHA-512, and it does not use its `salt` parameter.
- The one-line wrappers in `NeedleTailCrypto+Keychain.swift` and `NeedleTailCrypto+SecureEnclave.swift` are not modelled, including the enclave case of `saveKeychainPrivateKey`, which calls `fatalError`.
- Actor concurrency is not modelled: every actor method runs to completion before the next starts.
- The platform store is a map from exact slots. It does not model wildcard matching of a query that leaves service, account or access group out. It does not model the policy attributes (accessibility, data protection, synchronizable), access-control flags or `LAContext` prompts, which are folded into the store's and the enclave's success or failure.
- `SecureEnclave.EnclaveDevice.CreateKey` gives a stand-in blob; the enclave's real key handles are opaque.
- `SecureEnclave.EnclaveDevice.RestoreKey` is only guaranteed to succeed for blobs of keys the enclave created, when the enclave is available and cooperative.
- `KeyEncoding.PercentEncodeAlnum` allows only the ASCII letters and digits. Foundation's `.alphanumerics` also allows non-ASCII letters and digits, which never occur in base64 text.
- `Utf8.Decode` does not model Foundation's handling of a leading byte-order mark.
- `Keychain.KeychainItem.SaveItem` never throws `unexpectedItemData`, since `data(using: .utf8)` cannot fail for a Swift string.
- The raw key sizes of each curve are not modelled. `encodedKey` is stated for raw bytes of any length.
