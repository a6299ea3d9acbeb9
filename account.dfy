/**
 * The Convex account: an Ed25519 key pair fixed at construction and an optional
 * ledger address that only ever holds what `to_address` returned.
 */
module Accounts {
  import opened Wrappers
  import opened Ledger
  import opened Hex

  /**
   * Whatever the caller may pass as an address (the source documents an int; `to_address`
   * decides what else it accepts). Its forms belong to `to_address` and are not modelled.
   */
  type AddressInput(!new)

  /** The raw Ed25519 private key: 32 octets (section 5.1.5 of RFC 8032). */
  type PrivateKey = k: Bytes | |k| == 32 witness seq(32, i => 0)

  /**
   * The library routines the account calls and whose code is not part of this model:
   * Ed25519 key derivation and signing, the encrypted PKCS#8 PEM codec, the English BIP-39
   * mnemonic codec and `to_address` from the package's utils. A pemLoad or toEntropy
   * result of None stands for a call that raises or yields nothing. `to_address` is taken
   * to report an input it rejects by returning None, which the account then stores.
   */
  datatype Backend = Backend(
    publicKeyOf: PrivateKey -> Bytes,
    signBytes: (PrivateKey, Bytes) -> Bytes,
    pemEncode: (PrivateKey, string, Bytes) -> string,
    pemLoad: (string, string) -> Option<PrivateKey>,
    toMnemonic: Bytes -> string,
    toEntropy: string -> Option<Bytes>,
    toAddress: AddressInput -> Option<Address>)
  {
    /**
     * What the model assumes of the libraries: Ed25519 public keys are 32 octets and
     * signatures 64 (sections 5.1.5 and 5.1.6 of RFC 8032), loading a PEM text with the
     * non-empty password it was written with gives the key back, whatever salt and IV the
     * encryption drew, and the mnemonic of 32 bytes decodes
     * to those bytes.
     */
    ghost predicate Valid()
    {
      && (forall k :: |publicKeyOf(k)| == 32)
      && (forall k, m :: |signBytes(k, m)| == 64)
      && (forall k, password, salt :: password != "" ==> pemLoad(pemEncode(k, password, salt), password) == Some(k))
      && (forall k: PrivateKey :: toEntropy(toMnemonic(k)) == Some(k))
    }
  }

  /** `Ed25519PrivateKey.from_private_bytes`: only exactly 32 bytes make a key. */
  function KeyFromBytes(value: Bytes): (key: Option<PrivateKey>)
    ensures key.Some? <==> |value| == 32
    ensures key.Some? ==> key.value == value
  {
    if |value| == 32 then Some(value) else None
  }

  /** The mnemonic's entropy read back as a private key. */
  function KeyFromMnemonic(backend: Backend, words: string): Option<PrivateKey>
  {
    match backend.toEntropy(words)
    case None => None
    case Some(value) => KeyFromBytes(value)
  }

  /** The address the constructor stores: nothing, or the normalised address. */
  function StoredAddress(backend: Backend, address: Option<AddressInput>): Option<Address>
  {
    match address
    case None => None
    case Some(value) => backend.toAddress(value)
  }

  class Account {
    const backend: Backend
    const privateKey: PrivateKey
    const publicKey: Bytes
    var address: Option<Address>

    /** The public key is the one derived from the private key. */
    ghost predicate KeysDerived()
    {
      publicKey == backend.publicKeyOf(privateKey)
    }

    /** An address, when present, is something `to_address` returned. */
    ghost predicate Valid()
      reads this
    {
      && KeysDerived()
      && (address.Some? ==> exists value :: backend.toAddress(value) == address)
    }

    constructor (backend: Backend, privateKey: PrivateKey, address: Option<AddressInput>)
      ensures this.backend == backend && this.privateKey == privateKey
      ensures publicKey == backend.publicKeyOf(privateKey)
      ensures this.address == StoredAddress(backend, address)
      ensures Valid()
    {
      this.backend := backend;
      this.privateKey := privateKey;
      this.publicKey := backend.publicKeyOf(privateKey);
      this.address := None;
      new;
      if address.Some? {
        this.address := backend.toAddress(address.value);
      }
    }

    /** The `address` setter: stores the normalised value and touches nothing else. */
    method SetAddress(value: AddressInput)
      requires Valid()
      modifies this`address
      ensures address == backend.toAddress(value)
      ensures Valid()
    {
      address := backend.toAddress(value);
    }

    function PublicKeyBytes(): (key: Bytes)
      requires backend.Valid() && KeysDerived()
      ensures key == backend.publicKeyOf(privateKey) && |key| == 32
    {
      publicKey
    }

    /** `public_key`: the raw public key as `0x` and 64 lower-case hex digits. */
    function PublicKey(): (text: string)
      requires backend.Valid() && KeysDerived()
      ensures |text| == 66 && text[..2] == "0x"
      ensures forall i :: 2 <= i < |text| ==> IsLowerHexDigit(text[i])
      ensures HexToBytes(text) == Some(PublicKeyBytes())
    {
      var key := PublicKeyBytes();
      ToHexRoundTrip(key);
      assert forall i :: 2 <= i < |ToHex(key)| ==> ToHex(key)[i] == HexDigits(key)[i - 2];
      ToHex(key)
    }

    /** `public_key_api`: the same text with its `0x` removed. */
    function PublicKeyApi(): (text: string)
      requires backend.Valid() && KeysDerived()
      ensures PublicKey() == "0x" + text
      ensures |text| == 64 && !Has0xPrefix(text)
      ensures HexToBytes(text) == Some(PublicKeyBytes())
    {
      var key := PublicKeyBytes();
      HexDigitsRoundTrip(key);
      assert PublicKey()[2..] == HexDigits(key);
      Remove0xPrefix(PublicKey())
    }

    /**
     * `sign`: decode the hex hash, sign those bytes, and hex-encode the signature.
     * None where the hash text is not hex. Being a function it cannot change the account.
     */
    function Sign(hashText: string): (signature: Option<string>)
      requires backend.Valid()
      ensures signature.Some? <==> HexToBytes(hashText).Some?
      ensures signature.Some? ==> |signature.value| == 130 && signature.value[..2] == "0x"
      ensures signature.Some? ==> forall i :: 2 <= i < |signature.value| ==> IsLowerHexDigit(signature.value[i])
      ensures signature.Some? ==>
        HexToBytes(signature.value) == Some(backend.signBytes(privateKey, HexToBytes(hashText).value))
    {
      match HexToBytes(hashText)
      case None => None
      case Some(hash) =>
        var signed := backend.signBytes(privateKey, hash);
        ToHexRoundTrip(signed);
        Some(ToHex(signed))
    }

    /**
     * `export_to_text`: the encrypted PEM text, which loads back to this key. The salt and
     * IV the encryption draws are a parameter; the library refuses an empty password.
     */
    function ExportToText(password: string, salt: Bytes): (text: Option<string>)
      requires backend.Valid()
      ensures text.None? <==> password == ""
      ensures text.Some? ==> backend.pemLoad(text.value, password) == Some(privateKey)
    {
      if password == "" then None else Some(backend.pemEncode(privateKey, password, salt))
    }

    /** `export_to_mnemonic`: the words of the raw private bytes, which read back to this key. */
    function ExportToMnemonic(): (words: string)
      requires backend.Valid()
      ensures KeyFromMnemonic(backend, words) == Some(privateKey)
    {
      backend.toMnemonic(privateKey)
    }

    /** `create`: fresh keys from the generator (a parameter here) and no address yet. */
    static method Create(backend: Backend, generated: PrivateKey) returns (account: Account)
      ensures fresh(account) && account.backend == backend && account.privateKey == generated
      ensures account.address.None? && account.Valid()
    {
      account := new Account(backend, generated, None);
    }

    /** `import_from_bytes`: null where the library refuses the bytes (not 32 of them). */
    static method ImportFromBytes(backend: Backend, value: Bytes, address: Option<AddressInput>)
      returns (account: Account?)
      ensures account == null <==> |value| != 32
      ensures account != null ==>
        && fresh(account) && account.backend == backend && account.privateKey == value
        && account.address == StoredAddress(backend, address) && account.Valid()
    {
      var key := KeyFromBytes(value);
      if key.None? {
        return null;
      }
      account := new Account(backend, key.value, address);
    }

    /** `import_from_text`: an account only when the PEM loader yields a key. */
    static method ImportFromText(backend: Backend, text: string, password: string, address: Option<AddressInput>)
      returns (account: Account?)
      ensures account == null <==> backend.pemLoad(text, password).None?
      ensures account != null ==>
        && fresh(account) && account.backend == backend
        && backend.pemLoad(text, password) == Some(account.privateKey)
        && account.address == StoredAddress(backend, address) && account.Valid()
    {
      var key := backend.pemLoad(text, password);
      if key.Some? {
        account := new Account(backend, key.value, address);
      } else {
        account := null;
      }
    }

    /** `import_from_mnemonic`: the words' entropy as the private key. */
    static method ImportFromMnemonic(backend: Backend, words: string, address: Option<AddressInput>)
      returns (account: Account?)
      ensures account == null <==> KeyFromMnemonic(backend, words).None?
      ensures account != null ==>
        && fresh(account) && account.backend == backend
        && KeyFromMnemonic(backend, words) == Some(account.privateKey)
        && account.address == StoredAddress(backend, address) && account.Valid()
    {
      var entropy := backend.toEntropy(words);
      if entropy.None? {
        return null;
      }
      account := ImportFromBytes(backend, entropy.value, address);
    }
  }

  /**
   * Saving an account's keys as encrypted text and importing them again gives an account
   * with the same keys, hence the same signatures, and the address given at import; an
   * empty password stops the export.
   */
  method ReimportViaText(account: Account, password: string, salt: Bytes, address: Option<AddressInput>)
    returns (copy: Account?)
    requires account.Valid() && account.backend.Valid()
    ensures copy == null <==> password == ""
    ensures copy != null ==> fresh(copy) && copy.backend == account.backend
    ensures copy != null ==> copy.privateKey == account.privateKey && copy.publicKey == account.publicKey
    ensures copy != null ==> copy.address == StoredAddress(account.backend, address) && copy.Valid()
    ensures copy != null ==> forall h :: copy.Sign(h) == account.Sign(h)
  {
    var text := account.ExportToText(password, salt);
    if text.None? {
      return null;
    }
    copy := Account.ImportFromText(account.backend, text.value, password, address);
  }

  /** The same round trip through the mnemonic words. */
  method ReimportViaMnemonic(account: Account, address: Option<AddressInput>)
    returns (copy: Account)
    requires account.Valid() && account.backend.Valid()
    ensures fresh(copy) && copy.backend == account.backend
    ensures copy.privateKey == account.privateKey && copy.publicKey == account.publicKey
    ensures copy.address == StoredAddress(account.backend, address) && copy.Valid()
    ensures forall h :: copy.Sign(h) == account.Sign(h)
  {
    var words := account.ExportToMnemonic();
    var imported := Account.ImportFromMnemonic(account.backend, words, address);
    copy := imported;
  }
}
