/**
 * The `starfish-did-registry` Convex actor as a state machine: a map from the hash of a
 * DID to the record `{owner, ddo}`, changed by `register`, `unregister` and `transfer`
 * and read by `resolve`, `resolve?`, `owner` and `owner?`. A call that fails aborts and
 * leaves the registry as it was.
 */
module DidRegistry {
  import opened Wrappers
  import opened Ledger
  import opened Hex

  const Version := "0.0.2"

  /** A Convex value, as far as a DID or a DDO goes. */
  datatype Value = Nil | Int(i: int) | Str(s: string) | Blob(bytes: Bytes)

  /** The output of Convex's `hash`; its algorithm is not modelled. */
  type Hash(==, !new)

  /** What the Convex runtime provides: `hash`, and the `address` cast with its `address?` check. */
  datatype Runtime = Runtime(hash: Value -> Hash, castAddress: Value -> Option<Address>)
  {
    /** Distinct values have distinct hashes (assumed only where a lemma needs it). */
    ghost predicate HashInjective()
    {
      forall a, b :: hash(a) == hash(b) ==> a == b
    }
  }

  datatype Record = Record(owner: Address, ddo: Value)

  type Registry = map<Hash, Record>

  datatype ErrorCode = Invalid | NotOwner | AssertFailed
  {
    /** The error code a failing call reports. */
    function Code(): string
    {
      match this
      case Invalid => "INVALID"
      case NotOwner => "NOT-OWNER"
      case AssertFailed => "ASSERT"
    }
  }

  /** A call's outcome: a value (nil included), the `[did address]` pair of a transfer, or a failure. */
  datatype Reply = Done(value: Value) | Moved(did: Value, to: Address) | Failed(error: ErrorCode)

  function Decimal(n: nat): (s: string)
    ensures 1 <= |s|
  {
    if n < 10 then [Digit(n)] else Decimal(n / 10) + [Digit(n % 10)]
  }

  /** Convex's `str`: a string is itself, an integer its decimal digits, a blob its hex digits. */
  function StrForm(v: Value): string
  {
    match v
    case Nil => "nil"
    case Int(i) => if i < 0 then "-" + Decimal(-i) else Decimal(i)
    case Str(s) => s
    case Blob(b) => HexDigits(b)
  }

  /** `assert-did`: the string form of the DID has exactly 64 characters. */
  predicate ValidDid(did: Value)
    ensures did.Str? ==> (ValidDid(did) <==> |did.s| == 64)
    ensures did.Blob? ==> (ValidDid(did) <==> |did.bytes| == 32)
    ensures did.Nil? ==> !ValidDid(did)
  {
    |StrForm(did)| == 64
  }

  /** `get-register`: the record stored under the DID's hash, if any. */
  function GetRegister(rt: Runtime, registry: Registry, did: Value): (record: Option<Record>)
    ensures record.Some? <==> rt.hash(did) in registry
    ensures record.Some? ==> record.value == registry[rt.hash(did)]
  {
    if rt.hash(did) in registry then Some(registry[rt.hash(did)]) else None
  }

  /** `resolve?` */
  predicate IsRegistered(rt: Runtime, registry: Registry, did: Value)
    ensures IsRegistered(rt, registry, did) <==> rt.hash(did) in registry
  {
    GetRegister(rt, registry, did).Some?
  }

  /** `resolve`: the DDO, or nil for an unknown DID; the same for every caller. */
  function Resolve(rt: Runtime, registry: Registry, did: Value): (ddo: Value)
    ensures !IsRegistered(rt, registry, did) ==> ddo == Nil
    ensures IsRegistered(rt, registry, did) ==> ddo == registry[rt.hash(did)].ddo
  {
    match GetRegister(rt, registry, did)
    case None => Nil
    case Some(record) => record.ddo
  }

  /** `owner`: the recorded owner, or nil. */
  function Owner(rt: Runtime, registry: Registry, did: Value): (owner: Option<Address>)
    ensures owner.Some? <==> IsRegistered(rt, registry, did)
    ensures owner.Some? ==> owner.value == registry[rt.hash(did)].owner
  {
    match GetRegister(rt, registry, did)
    case None => None
    case Some(record) => Some(record.owner)
  }

  /** `owner?`: the caller is the recorded owner; false for everyone on an unknown DID. */
  predicate IsOwner(rt: Runtime, registry: Registry, did: Value, caller: Address)
    ensures IsOwner(rt, registry, did, caller) <==>
      rt.hash(did) in registry && registry[rt.hash(did)].owner == caller
  {
    Owner(rt, registry, did) == Some(caller)
  }

  /**
   * `register`: check the DID, require ownership when it is already registered, then store
   * `{caller, ddo}` and return the DID.
   */
  function Register(rt: Runtime, registry: Registry, caller: Address, did: Value, ddo: Value)
    : (out: (Reply, Registry))
    ensures out.0 == Failed(Invalid) <==> !ValidDid(did)
    ensures out.0 == Failed(NotOwner) <==>
      ValidDid(did) && IsRegistered(rt, registry, did) && !IsOwner(rt, registry, did, caller)
    ensures out.0.Failed? ==> out.0.error == Invalid || out.0.error == NotOwner
    ensures out.0.Failed? ==> out.1 == registry
    ensures ValidDid(did) && (!IsRegistered(rt, registry, did) || IsOwner(rt, registry, did, caller)) ==>
      out.0 == Done(did)
    ensures !out.0.Failed? ==> out.0 == Done(did)
    ensures !out.0.Failed? ==>
      && Resolve(rt, out.1, did) == ddo && IsOwner(rt, out.1, did, caller)
      && out.1 - {rt.hash(did)} == registry - {rt.hash(did)}
  {
    if !ValidDid(did) then (Failed(Invalid), registry)
    else if IsRegistered(rt, registry, did) && !IsOwner(rt, registry, did, caller) then
      (Failed(NotOwner), registry)
    else (Done(did), registry[rt.hash(did) := Record(caller, ddo)])
  }

  /** `unregister`: nil for an unknown DID; otherwise owner only, removing the record. */
  function Unregister(rt: Runtime, registry: Registry, caller: Address, did: Value)
    : (out: (Reply, Registry))
    ensures !IsRegistered(rt, registry, did) ==> out == (Done(Nil), registry)
    ensures IsRegistered(rt, registry, did) && !IsOwner(rt, registry, did, caller) ==>
      out == (Failed(NotOwner), registry)
    ensures IsOwner(rt, registry, did, caller) ==>
      && out.0 == Done(did) && !IsRegistered(rt, out.1, did)
      && out.1 == registry - {rt.hash(did)}
  {
    if !IsRegistered(rt, registry, did) then (Done(Nil), registry)
    else if !IsOwner(rt, registry, did, caller) then (Failed(NotOwner), registry)
    else (Done(did), registry - {rt.hash(did)})
  }

  /**
   * `transfer`: nil for an unknown DID; otherwise owner only and the target must be an
   * address; the record gets the new owner and keeps its DDO.
   */
  function Transfer(rt: Runtime, registry: Registry, caller: Address, did: Value, to: Value)
    : (out: (Reply, Registry))
    ensures !IsRegistered(rt, registry, did) ==> out == (Done(Nil), registry)
    ensures IsRegistered(rt, registry, did) && !IsOwner(rt, registry, did, caller) ==>
      out == (Failed(NotOwner), registry)
    ensures IsOwner(rt, registry, did, caller) && rt.castAddress(to).None? ==>
      out == (Failed(Invalid), registry)
    ensures IsOwner(rt, registry, did, caller) && rt.castAddress(to).Some? ==>
      && out.0 == Moved(did, rt.castAddress(to).value)
      && GetRegister(rt, out.1, did) == Some(Record(rt.castAddress(to).value, Resolve(rt, registry, did)))
      && out.1 - {rt.hash(did)} == registry - {rt.hash(did)}
  {
    if !IsRegistered(rt, registry, did) then (Done(Nil), registry)
    else if !IsOwner(rt, registry, did, caller) then (Failed(NotOwner), registry)
    else match rt.castAddress(to)
      case None => (Failed(Invalid), registry)
      case Some(target) =>
        (Moved(did, target), registry[rt.hash(did) := Record(target, Resolve(rt, registry, did))])
  }

  /** A transaction: who sends it and which exported function it calls. */
  datatype Call = RegisterCall(did: Value, ddo: Value) | UnregisterCall(did: Value) | TransferCall(did: Value, to: Value)

  datatype Transaction = Transaction(caller: Address, call: Call)

  function Step(rt: Runtime, registry: Registry, tx: Transaction): (out: (Reply, Registry))
    ensures out.0.Failed? ==> out.1 == registry
    ensures out.1 - {rt.hash(tx.call.did)} == registry - {rt.hash(tx.call.did)}
  {
    match tx.call
    case RegisterCall(did, ddo) => Register(rt, registry, tx.caller, did, ddo)
    case UnregisterCall(did) => Unregister(rt, registry, tx.caller, did)
    case TransferCall(did, to) => Transfer(rt, registry, tx.caller, did, to)
  }

  /** The registry after a sequence of transactions, each applied to the result of the one before. */
  function Run(rt: Runtime, registry: Registry, txs: seq<Transaction>): Registry
    decreases |txs|
  {
    if txs == [] then registry else Run(rt, Step(rt, registry, txs[0]).1, txs[1..])
  }

  /** Every stored record sits under the hash of a DID that passed `assert-did`. */
  ghost predicate WellFormed(rt: Runtime, registry: Registry)
  {
    forall h :: h in registry ==> exists did :: ValidDid(did) && rt.hash(did) == h
  }

  lemma StepKeepsWellFormed(rt: Runtime, registry: Registry, tx: Transaction)
    requires WellFormed(rt, registry)
    ensures WellFormed(rt, Step(rt, registry, tx).1)
  {
  }

  /** No sequence of transactions ever stores a record under anything but a valid DID. */
  lemma {:induction false} RunKeepsWellFormed(rt: Runtime, registry: Registry, txs: seq<Transaction>)
    requires WellFormed(rt, registry)
    ensures WellFormed(rt, Run(rt, registry, txs))
    decreases |txs|
  {
    if txs != [] {
      StepKeepsWellFormed(rt, registry, txs[0]);
      RunKeepsWellFormed(rt, Step(rt, registry, txs[0]).1, txs[1..]);
    }
  }

  /** A transaction from anyone but a record's owner leaves that record exactly as it was. */
  lemma StrangerStep(rt: Runtime, registry: Registry, tx: Transaction, h: Hash)
    requires h in registry && tx.caller != registry[h].owner
    ensures h in Step(rt, registry, tx).1 && Step(rt, registry, tx).1[h] == registry[h]
  {
  }

  /**
   * Ownership protects a record: as long as its owner sends nothing, no sequence of
   * transactions from others can change, move or delete it.
   */
  lemma {:induction false} StrangersCannotTouch(rt: Runtime, registry: Registry, txs: seq<Transaction>, h: Hash)
    requires h in registry
    requires forall i :: 0 <= i < |txs| ==> txs[i].caller != registry[h].owner
    ensures h in Run(rt, registry, txs) && Run(rt, registry, txs)[h] == registry[h]
    decreases |txs|
  {
    if txs != [] {
      StrangerStep(rt, registry, txs[0], h);
      var next := Step(rt, registry, txs[0]).1;
      assert forall i :: 0 <= i < |txs[1..]| ==> txs[1..][i].caller == txs[i + 1].caller;
      StrangersCannotTouch(rt, next, txs[1..], h);
    }
  }

  /** A transaction about one DID does not change what any other DID resolves to or who owns it. */
  lemma OtherDidsUnaffected(rt: Runtime, registry: Registry, tx: Transaction, other: Value)
    requires rt.HashInjective() && other != tx.call.did
    ensures Resolve(rt, Step(rt, registry, tx).1, other) == Resolve(rt, registry, other)
    ensures Owner(rt, Step(rt, registry, tx).1, other) == Owner(rt, registry, other)
  {
  }

  /**
   * The DID checks exercised by the tests: 40 hex characters, the empty string and the
   * integer 42 are refused with INVALID, leaving the registry alone; a 32-byte blob passes,
   * and registering it when unknown returns it.
   */
  lemma AssertDidExamples(rt: Runtime, registry: Registry, caller: Address, ddo: Value, short: Bytes, long: Bytes)
    requires |short| == 20 && |long| == 32
    ensures Register(rt, registry, caller, Str(HexDigits(short)), ddo) == (Failed(Invalid), registry)
    ensures Register(rt, registry, caller, Str(""), ddo) == (Failed(Invalid), registry)
    ensures Register(rt, registry, caller, Int(42), ddo) == (Failed(Invalid), registry)
    ensures Register(rt, registry, caller, Str(""), ddo).0.error.Code() == "INVALID"
    ensures ValidDid(Str(HexDigits(long))) && ValidDid(Blob(long))
    ensures !IsRegistered(rt, registry, Blob(long)) ==>
      Register(rt, registry, caller, Blob(long), ddo).0 == Done(Blob(long))
  {
  }

  /**
   * The register/resolve/unregister sequence of the tests: the owner registers and updates,
   * anyone resolves, another account can neither update nor unregister, the owner
   * unregisters, after which the DID resolves to nil; unregistering an unknown DID is nil.
   */
  lemma RegisterResolveScenario(rt: Runtime, registry: Registry, owner: Address, other: Address,
                                did: Value, badDid: Value, ddo: Value, newDdo: Value)
    requires owner != other && ValidDid(did) && !IsRegistered(rt, registry, did)
    requires rt.hash(badDid) != rt.hash(did) && !IsRegistered(rt, registry, badDid)
    ensures
      var (reply1, r1) := Register(rt, registry, owner, did, ddo);
      && reply1 == Done(did)
      && Resolve(rt, r1, did) == ddo
      && IsOwner(rt, r1, did, owner) && !IsOwner(rt, r1, did, other)
      && Resolve(rt, r1, badDid) == Nil
      && var (reply2, r2) := Register(rt, r1, owner, did, newDdo);
      && reply2 == Done(did)
      && Register(rt, r2, other, did, ddo) == (Failed(NotOwner), r2)
      && Register(rt, r2, other, did, ddo).0.error.Code() == "NOT-OWNER"
      && Resolve(rt, r2, did) == newDdo
      && Unregister(rt, r2, other, did) == (Failed(NotOwner), r2)
      && var (reply3, r3) := Unregister(rt, r2, owner, did);
      && reply3 == Done(did)
      && Resolve(rt, r3, did) == Nil
      && Unregister(rt, r3, owner, badDid) == (Done(Nil), r3)
  {
  }

  /**
   * The transfer sequence of the tests: after the owner transfers the DID to another
   * address, the DDO is kept, `owner?` moves to the new owner, the old owner can no longer
   * unregister and the new one can.
   */
  lemma TransferScenario(rt: Runtime, registry: Registry, owner: Address, other: Address,
                         did: Value, ddo: Value, to: Value)
    requires owner != other && rt.castAddress(to) == Some(other)
    requires ValidDid(did) && !IsRegistered(rt, registry, did)
    ensures
      var r1 := Register(rt, registry, owner, did, ddo).1;
      && IsOwner(rt, r1, did, owner) && !IsOwner(rt, r1, did, other)
      && var (moved, r2) := Transfer(rt, r1, owner, did, to);
      && moved == Moved(did, other)
      && Resolve(rt, r2, did) == ddo
      && !IsOwner(rt, r2, did, owner) && IsOwner(rt, r2, did, other)
      && Unregister(rt, r2, owner, did) == (Failed(NotOwner), r2)
      && Unregister(rt, r2, other, did).0 == Done(did)
  {
  }
}
