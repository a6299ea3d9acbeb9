/** The two registry actors as objects whose state their calls redefine in place. */
module DidRegistryActors {
  import opened Wrappers
  import opened Ledger
  import opened DidRegistry

  /** The deployed `starfish-did-registry`: its `registry` map is redefined by each change. */
  class DidRegistryActor {
    const rt: Runtime
    var registry: Registry

    ghost predicate Valid()
      reads this
    {
      WellFormed(rt, registry)
    }

    /** Deployment: `(def registry {})`. */
    constructor (rt: Runtime)
      ensures this.rt == rt && registry == map[] && Valid()
    {
      this.rt := rt;
      registry := map[];
    }

    method Register(caller: Address, did: Value, ddo: Value) returns (reply: Reply)
      requires Valid()
      modifies this`registry
      ensures (reply, registry) == DidRegistry.Register(rt, old(registry), caller, did, ddo)
      ensures Valid()
    {
      StepKeepsWellFormed(rt, registry, Transaction(caller, RegisterCall(did, ddo)));
      if !ValidDid(did) {
        return Failed(Invalid);
      }
      if IsRegistered(rt, registry, did) && !IsOwner(rt, registry, did, caller) {
        return Failed(NotOwner);
      }
      registry := registry[rt.hash(did) := Record(caller, ddo)];
      reply := Done(did);
    }

    method Unregister(caller: Address, did: Value) returns (reply: Reply)
      requires Valid()
      modifies this`registry
      ensures (reply, registry) == DidRegistry.Unregister(rt, old(registry), caller, did)
      ensures Valid()
    {
      StepKeepsWellFormed(rt, registry, Transaction(caller, UnregisterCall(did)));
      if !IsRegistered(rt, registry, did) {
        return Done(Nil);
      }
      if !IsOwner(rt, registry, did, caller) {
        return Failed(NotOwner);
      }
      registry := registry - {rt.hash(did)};
      reply := Done(did);
    }

    method Transfer(caller: Address, did: Value, to: Value) returns (reply: Reply)
      requires Valid()
      modifies this`registry
      ensures (reply, registry) == DidRegistry.Transfer(rt, old(registry), caller, did, to)
      ensures Valid()
    {
      StepKeepsWellFormed(rt, registry, Transaction(caller, TransferCall(did, to)));
      if !IsRegistered(rt, registry, did) {
        return Done(Nil);
      }
      if !IsOwner(rt, registry, did, caller) {
        return Failed(NotOwner);
      }
      var target := rt.castAddress(to);
      if target.None? {
        return Failed(Invalid);
      }
      registry := registry[rt.hash(did) := Record(target.value, Resolve(rt, registry, did))];
      reply := Moved(did, target.value);
    }
  }

  /**
   * The single-record variant: one actor per DID, its owner fixed to the deploying
   * account and its DDO redefined by `register`.
   */
  class SingleDidActor {
    const owner: Address
    var ddo: Value

    /** Deployment by `deployer`: `(def store-owner *caller*)`, `(def store-ddo nil)`. */
    constructor (deployer: Address)
      ensures owner == deployer && ddo == Nil
    {
      owner := deployer;
      ddo := Nil;
    }

    /** `owner?` */
    predicate IsOwner(caller: Address)
      ensures IsOwner(caller) <==> caller == owner
    {
      owner == caller
    }

    /** `register`: only the owner may replace the DDO; anyone else fails the `assert`. */
    method Register(caller: Address, x: Value) returns (failure: Option<ErrorCode>)
      modifies this`ddo
      ensures failure.None? <==> caller == owner
      ensures failure.Some? ==> failure.value == AssertFailed && ddo == old(ddo)
      ensures failure.None? ==> ddo == x
    {
      if !IsOwner(caller) {
        return Some(AssertFailed);
      }
      ddo := x;
      failure := None;
    }
  }

  /**
   * The single-record actor in use: the deployer registers and re-registers, another
   * account is refused and the DDO stays the deployer's.
   */
  method SingleDidUsage(deployer: Address, other: Address, first: Value, second: Value, intruded: Value)
    returns (actor: SingleDidActor)
    requires deployer != other
    ensures fresh(actor) && actor.owner == deployer && actor.ddo == second
  {
    actor := new SingleDidActor(deployer);
    var failure := actor.Register(deployer, first);
    assert failure.None? && actor.ddo == first;
    failure := actor.Register(other, intruded);
    assert failure == Some(AssertFailed);
    failure := actor.Register(deployer, second);
  }
}
