# Convex account and Starfish DID registry, modelled in Dafny

This project models two parts of the `convex-api-py` client library for the Convex ledger.

**The account** (`convex_api/account.py`). A Convex account object holds three things:
- an Ed25519 private key, fixed at construction;
- the public key, derived from it once in the constructor;
- an optional ledger address, which only ever holds what `to_address` returned.

The model is the class `Accounts.Account`. Both keys are `const` fields, so no operation can change them. The address is a `var`, and only the constructor and `SetAddress` (the `address` setter) assign it. Around that state sit:
- the hex views of the public key;
- hex-in/hex-out signing;
- three import paths (raw bytes, encrypted PEM text, mnemonic);
- the text and mnemonic exports.

The cryptography and the `to_address` helper, whose code is not part of this model, are fields of a `Backend` value. `Backend.Valid()` states what the model assumes of them:
- 32-byte public keys and 64-byte signatures (sections 5.1.5 and 5.1.6 of RFC 8032);
- the encrypted PKCS#8 PEM codec round-trips under the same non-empty password, whatever salt and IV it drew;
- the BIP-39 mnemonic of 32 bytes reads back to those bytes.

Every result that depends on those assumptions takes `Valid()` as a precondition. The hex helpers from `eth_utils` are written out in module `Hex`:
- `to_hex` gives lower-case digits behind `0x`;
- `to_bytes(hexstr=…)` drops an optional `0x`/`0X`, pads an odd digit count with a leading `0`, and fails on a non-hex character;
- `remove_0x_prefix` drops one leading `0x`/`0X`.

**The Starfish DID registry** is a Convex actor whose source is embedded in `tests/intergration/test_starfish_contracts.py`. Module `DidRegistry` gives its semantics as pure functions over a map from `hash(did)` to `{owner, ddo}`. The transitions are `register`, `unregister` and `transfer`; the queries are `resolve`, `resolve?`, `owner` and `owner?`. A failing call (`INVALID`, `NOT-OWNER`) returns the registry unchanged. `DidRegistryActors.DidRegistryActor` is the deployed actor: a class with a `map` field and a caller parameter on each method, and each method is proved equal to its transition function. `SingleDidActor` is the one-record-per-DID variant:
- the owner is fixed to the deployer;
- `register` succeeds only for that owner.

Beyond the operations themselves, the model proves:
- a record can be changed only by its owner, across any sequence of transactions (`StrangersCannotTouch`);
- only DIDs that pass the 64-character check are ever stored (`RunKeepsWellFormed`);
- a transaction on one DID leaves every other DID alone;
- the test scenarios hold.

## Model

| member | source | states |
|---|---|---|
| `Hex.ToHex` | convex_api/account.py:141 | `to_hex` of n bytes is a lower-case `0x` followed by exactly the 2n lower-case digits of the bytes |
| `Hex.HexToBytes` | convex_api/account.py:65 | succeeds exactly when every character after an optional `0x`/`0X` is a hex digit; an even digit count decodes as is, an odd one with a leading `0` added; the result has ⌈digits/2⌉ bytes |
| `Hex.DecodeDigits` | convex_api/account.py:65 | unhexlify succeeds exactly when every character is a hex digit of either case; byte i is 16 times the value of digit 2i plus the value of digit 2i+1 |
| `Hex.Remove0xPrefix` | convex_api/account.py:151 | a prefixed text is the prefix plus the result; unprefixed text is returned unchanged |
| `Hex.DecodeHexDigits` | convex_api/account.py:65-67 | the digits written for any bytes decode back to those bytes |
| `Hex.ToHexRoundTrip` | convex_api/account.py:65-67 | `to_bytes(hexstr=to_hex(b)) == b` for every `b` |
| `Hex.HexDigitsRoundTrip` | convex_api/account.py:143-151 | the unprefixed digits also decode to the same bytes |
| `Accounts.Account.constructor` | convex_api/account.py:42-54 | stores the private key and the public key derived from it; the address is None without an input, otherwise exactly `to_address(input)` |
| `Accounts.Account.SetAddress` | convex_api/account.py:115-117 | the new address is `to_address(value)`, never the raw value; only the address field may change and the keys are constants |
| `Accounts.Account.PublicKeyBytes` | convex_api/account.py:119-131 | the raw public key is the one derived from the private key and is 32 bytes |
| `Accounts.Account.PublicKey` | convex_api/account.py:133-141 | `0x` plus 64 lower-case hex digits, decoding back to the raw public key |
| `Accounts.Account.PublicKeyApi` | convex_api/account.py:143-151 | `PublicKey() == "0x" + PublicKeyApi()`; 64 digits with no prefix that decode to the raw key |
| `Accounts.Account.Sign` | convex_api/account.py:56-67 | succeeds exactly when the hash text is hex; the result is `0x` plus 128 lower-case hex digits, decoding to the signature over the decoded hash bytes; as a function it cannot change the account |
| `Accounts.Account.ExportToText` | convex_api/account.py:69-85 | fails exactly for an empty password (the library refuses it); otherwise the PEM text loads back, with the same password, to this private key; the salt and IV the encryption draws are a parameter |
| `Accounts.Account.ExportToMnemonic` | convex_api/account.py:87-94 | the words read back to this private key |
| `Accounts.Account.Create` | convex_api/account.py:164-172 | a fresh account with the generated key, the derived public key and no address (unbound) |
| `Accounts.KeyFromBytes` | convex_api/account.py:184 | `from_private_bytes` yields a key exactly when given 32 bytes, and the key is those bytes |
| `Accounts.Account.ImportFromBytes` | convex_api/account.py:174-184 | no account exactly when the bytes are not 32 long; otherwise those bytes are the key and the address is the input passed through `to_address`, or None |
| `Accounts.Account.ImportFromText` | convex_api/account.py:186-205 | an account exactly when the PEM loader yields a key, holding that key and the normalised address |
| `Accounts.Account.ImportFromMnemonic` | convex_api/account.py:207-211 | an account exactly when the words yield 32 bytes of entropy, holding that key and the normalised address |
| `Accounts.ReimportViaText` | convex_api/account.py:36-39 | no account exactly when the password is empty; otherwise export to text then import gives the same private and public key and identical signatures for every hash, with the address given at import |
| `Accounts.ReimportViaMnemonic` | convex_api/account.py:36-39 | the same round trip through the mnemonic |
| `DidRegistry.ValidDid` | tests/intergration/test_starfish_contracts.py:37-39 | `assert-did` accepts a string exactly when it has 64 characters and a blob exactly when it has 32 bytes; nil never |
| `DidRegistry.GetRegister` | tests/intergration/test_starfish_contracts.py:24 | a record exactly when the DID's hash is a key, and then the record stored under it |
| `DidRegistry.IsRegistered` | tests/intergration/test_starfish_contracts.py:40 | `resolve?` is true exactly when the DID's hash is a key of the registry |
| `DidRegistry.Resolve` | tests/intergration/test_starfish_contracts.py:41-43 | nil for an unregistered DID, else the stored DDO; it has no caller, so it is the same for every account |
| `DidRegistry.Owner` | tests/intergration/test_starfish_contracts.py:44-46 | an owner exists exactly when the DID is registered, and it is the recorded `:owner` |
| `DidRegistry.IsOwner` | tests/intergration/test_starfish_contracts.py:47 | true exactly when a record exists and its owner is the caller |
| `DidRegistry.Register` | tests/intergration/test_starfish_contracts.py:48-53 | INVALID exactly when the DID's string form is not 64 characters; NOT-OWNER exactly when it is registered to someone else; no other failure; a failure leaves the registry unchanged; a valid DID that is unknown or owned by the caller succeeds; a success returns the DID, records the caller as owner, makes `resolve` give the DDO and leaves all other entries alone |
| `DidRegistry.Unregister` | tests/intergration/test_starfish_contracts.py:54-60 | nil and no change for an unknown DID; NOT-OWNER and no change for a non-owner; the owner gets the DID back and the record is removed |
| `DidRegistry.Transfer` | tests/intergration/test_starfish_contracts.py:61-67 | nil for an unknown DID; NOT-OWNER for a non-owner (checked before the target); INVALID for a target that is not an address; otherwise returns `[did address]`, sets the new owner, keeps the DDO and leaves other entries alone |
| `DidRegistry.Step` | tests/intergration/test_starfish_contracts.py:48-69 | any exported call that fails leaves the registry unchanged, and every call changes at most its own DID's entry |
| `DidRegistry.StepKeepsWellFormed` | tests/intergration/test_starfish_contracts.py:25-39 | one call keeps every stored key the hash of a DID that passed `assert-did` |
| `DidRegistry.RunKeepsWellFormed` | tests/intergration/test_starfish_contracts.py:37-53 | any sequence of calls keeps that invariant |
| `DidRegistry.StrangerStep` | tests/intergration/test_starfish_contracts.py:31-33 | one call from someone other than a record's owner leaves that record exactly as it was |
| `DidRegistry.StrangersCannotTouch` | tests/intergration/test_starfish_contracts.py:31-67 | no sequence of calls without the owner changes, moves or deletes the owner's record |
| `DidRegistry.OtherDidsUnaffected` | tests/intergration/test_starfish_contracts.py:24-30 | with an injective hash, a call on one DID changes neither the DDO nor the owner of any other DID |
| `DidRegistry.AssertDidExamples` | tests/intergration/test_starfish_contracts.py:139-161 | 40 hex characters, the empty string and 42 fail with INVALID and no change; a 32-byte blob passes and registers |
| `DidRegistry.RegisterResolveScenario` | tests/intergration/test_starfish_contracts.py:164-259 | the test's register, resolve, update, foreign update, foreign unregister, unregister and unknown-DID sequence gives the replies the test asserts |
| `DidRegistry.TransferScenario` | tests/intergration/test_starfish_contracts.py:263-319 | after a transfer the DDO is kept and `owner?` moves to the new owner; the old owner's unregister fails with NOT-OWNER and the new owner's succeeds |
| `DidRegistryActors.DidRegistryActor.constructor` | tests/intergration/test_starfish_contracts.py:22 | the registry starts empty |
| `DidRegistryActors.DidRegistryActor.Register` | tests/intergration/test_starfish_contracts.py:48-53 | reply and new map equal `DidRegistry.Register` of the old map; keeps the well-formedness invariant |
| `DidRegistryActors.DidRegistryActor.Unregister` | tests/intergration/test_starfish_contracts.py:54-60 | reply and new map equal `DidRegistry.Unregister` of the old map; keeps the invariant |
| `DidRegistryActors.DidRegistryActor.Transfer` | tests/intergration/test_starfish_contracts.py:61-67 | reply and new map equal `DidRegistry.Transfer` of the old map; keeps the invariant |
| `DidRegistryActors.SingleDidActor.constructor` | tests/intergration/test_starfish_contracts.py:80-81 | the owner is the deployer and the DDO starts as nil |
| `DidRegistryActors.SingleDidActor.IsOwner` | tests/intergration/test_starfish_contracts.py:87 | `owner?` is true exactly when the caller is the deployer recorded as owner |
| `DidRegistryActors.SingleDidActor.Register` | tests/intergration/test_starfish_contracts.py:83-86 | succeeds exactly when the caller is the owner, replacing the DDO; otherwise fails the `assert` with the DDO unchanged; the owner is a constant |
| `DidRegistryActors.SingleDidUsage` | tests/intergration/test_starfish_contracts.py:75-93 | after deployer, stranger and deployer registrations, the owner is still the deployer and the DDO is the deployer's last one |

## Left out

- Cryptographic internals are not modelled. The Ed25519 arithmetic, the PKCS#8 encryption and password stretching, and the BIP-39 word list and checksum are `Backend` fields. Their round trips are assumed in `Backend.Valid()`, not proved.
- `to_address` and `to_public_key_checksum` live in `convex_api/utils`, which is not part of this model. `to_address` is an abstract function from an abstract input type to an optional address. The model assumes it reports an input it rejects by returning None. If it raised instead, the setter would keep the old address and the constructor would yield no account; that behaviour is not modelled. `public_key_checksum` (convex_api/account.py:153-162) is left out because nothing can be stated about its helper.
- The constructor and the setter store whatever `to_address` returns, None included. Nothing rejects an address or keeps the old one.
- `export_to_file` and `import_from_file` are left out. They only write or read the PEM text of `export_to_text` / `import_from_text` through a file.
- `__str__` (convex_api/account.py:108-109) is left out. It is Python display formatting.
- Passwords and PEM text are taken as text. The `str`-to-`bytes` encoding branches (convex_api/account.py:78-79, 198-201) and passing bytes directly are not modelled.
- `Accounts.Account.ImportFromText` treats the loader as yielding an Ed25519 key or nothing. A loader that raises and a falsy result both give null. Keys of other algorithms that `load_pem_private_key` can return are not modelled.
- Randomness is a parameter: the generated key in `create`, and the salt and IV that each `export_to_text` draws, so two exports of one key may differ only through that parameter.
- Convex `store`/`fetch` of the record is modelled as storing the record itself. `hash` is abstract, and its injectivity is a precondition only of `OtherDidsUnaffected`. Juice (fees), memory accounting and the `version` function (the constant `DidRegistry.Version`) carry no properties.
- The string form of values covers nil, integers, strings and blobs. A blob's string form is taken to be its hex digits without a prefix. That is what lets the 32-byte blob at test line 158 pass the 64-character check. Other Convex value kinds are not modelled.
- The `address` cast and the `address?` check in `assert-address` form one abstract partial function. A cast the runtime itself rejects is folded into `INVALID`.
- `DidRegistryActors.SingleDidActor.Register`: the value `register` returns on success (the value of its `def` form) is not modelled, only success or the `assert` failure. The single actor's `resolve` and `owner` are plain reads of its `ddo` and `owner` fields.
- The test file's network plumbing is left out: the `ConvexAPI` fixtures, `send`/`query`, the `auto_topup_account` retry loop and the bulk-register test. The fixture calls `Account.create_new` and `address_api`, and `convex_api/account.py` defines neither.
- `convex_api/tool/command/peer_create_command.py`, `account_fund_command.py` and `argparse_typing.py` are left out. They are command-line and network glue with no state of their own.
