/** The lease lifecycle as the objects of esi_leap/objects carry it out: each
    transition reads and updates the offers and contracts tables and the
    resource bindings in place, and is proved to leave the store exactly as
    the matching function of module Leases says. */
module Lifecycle {
  import opened Wrappers
  import opened Records
  import opened Leases
  import opened Exceptions

  /** The database tables and resource bindings the transitions change. */
  class LeaseStore {
    var offers: map<Uuid, Offer>
    var offerRows: seq<Uuid>
    var contracts: map<Uuid, Contract>
    var contractRows: seq<Uuid>
    var bindings: map<ResourceKey, Uuid>

    /** The current contents, as a value. */
    function State(): Store
      reads this
    {
      Store(offers, offerRows, contracts, contractRows, bindings)
    }

    predicate Valid()
      reads this
    {
      WellFormed(State())
    }

    /** An empty store. */
    constructor ()
      ensures Valid() && State() == Empty()
    {
      offers := map[];
      offerRows := [];
      contracts := map[];
      contractRows := [];
      bindings := map[];
    }

    /** `Offer.create`: the store's resource-availability check for the
        offer's resource and window comes first (`resourceCheck`, its pass or
        the error it raises); only when it passes is the offer written. */
    method OfferCreate(o: Offer, resourceCheck: Outcome<Fault>) returns (r: Outcome<Fault>)
      requires Valid() && o.uuid !in offers
      modifies this
      ensures Valid() && r == resourceCheck
      ensures resourceCheck.Fail? ==> State() == old(State())
      ensures resourceCheck.Pass? ==> State() == AddOffer(old(State()), o)
    {
      if resourceCheck.Fail? {
        return resourceCheck;
      }
      AddOfferKeeps(State(), o);
      offers := offers[o.uuid := o];
      offerRows := offerRows + [o.uuid];
      r := Pass;
    }

    /** `Contract.create`: the offer is looked up first (a missing offer is
        `None`, whose `status` raises AttributeError), must be available,
        then the store's contract-availability check (`availabilityCheck`)
        must pass; only then is the contract written. */
    method ContractCreate(c: Contract, availabilityCheck: Outcome<Fault>) returns (r: Outcome<Fault>)
      requires Valid() && c.uuid !in contracts
      modifies this
      ensures Valid()
      ensures c.offerUuid !in old(offers) ==>
        r == Fail(AttributeMissing("status")) && State() == old(State())
      ensures c.offerUuid in old(offers) && old(offers[c.offerUuid].status) != Available ==>
        r == Fail(Leap(OfferNotAvailable(c.offerUuid, StatusName(old(offers[c.offerUuid].status))))) &&
        State() == old(State())
      ensures c.offerUuid in old(offers) && old(offers[c.offerUuid].status) == Available ==>
        r == availabilityCheck &&
        State() == if availabilityCheck.Pass? then AddContract(old(State()), c) else old(State())
    {
      if c.offerUuid !in offers {
        return Fail(AttributeMissing("status"));
      }
      var related := offers[c.offerUuid];
      if related.status != Available {
        return Fail(Leap(OfferNotAvailable(related.uuid, StatusName(related.status))));
      }
      if availabilityCheck.Fail? {
        return availabilityCheck;
      }
      AddContractKeeps(State(), c);
      contracts := contracts[c.uuid := c];
      contractRows := contractRows + [c.uuid];
      r := Pass;
    }

    /** `Contract.fulfill`: binds the resource of the contract's offer to the
        contract and activates it, whatever its status was. */
    method ContractFulfill(cu: Uuid)
      requires Placed(State(), cu)
      modifies this
      ensures State() == Fulfill(old(State()), cu)
      ensures old(Valid()) ==> Valid()
    {
      ghost var s0 := State();
      var o := offers[contracts[cu].offerUuid];
      bindings := bindings[o.resource := cu];
      contracts := contracts[cu := contracts[cu].(status := Active)];
      if WellFormed(s0) {
        FulfillKeeps(s0, cu);
      }
    }

    /** `Contract.cancel`: releases the resource of the contract's offer if it
        is bound to this contract, then marks the contract cancelled,
        whatever its status was. */
    method ContractCancel(cu: Uuid)
      requires Placed(State(), cu)
      modifies this
      ensures State() == Close(old(State()), cu, Cancelled)
      ensures old(Valid()) ==> Valid()
    {
      ghost var s0 := State();
      var o := offers[contracts[cu].offerUuid];
      if o.resource in bindings && bindings[o.resource] == cu {
        bindings := bindings - {o.resource};
      }
      contracts := contracts[cu := contracts[cu].(status := Cancelled)];
      if WellFormed(s0) {
        CloseKeeps(s0, cu, Cancelled);
      }
    }

    /** `Contract.expire`: raises OfferNotAvailable, changing nothing, when the
        contract's offer is not available; otherwise releases the resource if
        it is bound to this contract and marks the contract expired. */
    method ContractExpire(cu: Uuid) returns (r: Outcome<Fault>)
      requires Placed(State(), cu)
      modifies this
      ensures var o := old(offers[contracts[cu].offerUuid]);
        o.status != Available ==>
          r == Fail(Leap(OfferNotAvailable(o.uuid, StatusName(o.status)))) && State() == old(State())
      ensures old(offers[contracts[cu].offerUuid].status) == Available ==>
        r == Pass && State() == Close(old(State()), cu, Expired)
      ensures old(Valid()) ==> Valid()
    {
      var o := offers[contracts[cu].offerUuid];
      if o.status != Available {
        return Fail(Leap(OfferNotAvailable(o.uuid, StatusName(o.status))));
      }
      ghost var s0 := State();
      if o.resource in bindings && bindings[o.resource] == cu {
        bindings := bindings - {o.resource};
      }
      contracts := contracts[cu := contracts[cu].(status := Expired)];
      r := Pass;
      if WellFormed(s0) {
        CloseKeeps(s0, cu, Expired);
      }
    }

    /** The loop of `Offer.cancel` over the loaded contracts of offer `ou`:
        each one created or active when loaded is cancelled. */
    method CancelEach(ghost s0: Store, ou: Uuid, loaded: seq<Contract>)
      requires ou in s0.offers && State() == s0
      requires forall x :: x in loaded ==> x.uuid in s0.contracts && s0.contracts[x.uuid].offerUuid == ou
      modifies this
      ensures State() == CloseAll(s0, ou, Chosen(loaded, Cancels), Cancelled)
    {
      CloseAllNone(s0, ou, Cancelled);
      ghost var closed: set<Uuid> := {};
      var i := 0;
      while i < |loaded|
        invariant 0 <= i <= |loaded|
        invariant closed == Chosen(loaded[..i], Cancels)
        invariant State() == CloseAll(s0, ou, closed, Cancelled)
      {
        var c := loaded[i];
        ChosenStep(loaded, i, Cancels);
        if c.status == Created || c.status == Active {
          CloseAllStep(s0, ou, closed, Cancelled, c.uuid);
          ContractCancel(c.uuid);
          closed := closed + {c.uuid};
        }
        i := i + 1;
      }
      assert loaded[..i] == loaded;
    }

    /** `Offer.cancel`: loads the offer's contracts, cancels each one that was
        created or active when loaded, then marks the offer cancelled. */
    method OfferCancel(ou: Uuid)
      requires Valid() && ou in offers
      modifies this
      ensures Valid() && State() == CancelOffer(old(State()), ou)
    {
      ghost var s0 := State();
      var loaded := ContractsOf(State(), ou);
      CancelEach(s0, ou, loaded);
      ChosenOfOffer(s0, ou, loaded, Cancels);
      CancelOfferKeeps(s0, ou);
      offers := offers[ou := offers[ou].(status := Cancelled)];
    }

    /** The loop of `Offer.expire` over the loaded contracts of offer `ou`:
        each one not expired when loaded is expired, and the first such
        contract's own expire raises OfferNotAvailable, changing nothing, when
        the offer is not available. */
    method ExpireEach(ghost s0: Store, ou: Uuid, loaded: seq<Contract>) returns (r: Outcome<Fault>)
      requires ou in s0.offers && s0.offers[ou].uuid == ou && State() == s0
      requires forall x :: x in loaded ==> x.uuid in s0.contracts && s0.contracts[x.uuid].offerUuid == ou
      modifies this
      ensures s0.offers[ou].status != Available && Chosen(loaded, Unexpired) != {} ==>
        r == Fail(Leap(OfferNotAvailable(ou, StatusName(s0.offers[ou].status)))) && State() == s0
      ensures s0.offers[ou].status == Available || Chosen(loaded, Unexpired) == {} ==>
        r == Pass && State() == CloseAll(s0, ou, Chosen(loaded, Unexpired), Expired)
    {
      CloseAllNone(s0, ou, Expired);
      ghost var closed: set<Uuid> := {};
      var i := 0;
      while i < |loaded|
        invariant 0 <= i <= |loaded|
        invariant closed == Chosen(loaded[..i], Unexpired)
        invariant s0.offers[ou].status != Available ==> closed == {}
        invariant State() == CloseAll(s0, ou, closed, Expired)
      {
        var c := loaded[i];
        ChosenStep(loaded, i, Unexpired);
        if c.status != Expired {
          CloseAllStep(s0, ou, closed, Expired, c.uuid);
          r := ContractExpire(c.uuid);
          if r.Fail? {
            ChosenMembers(loaded, Unexpired, c.uuid);
            assert Unexpired(loaded[i]);
            return;
          }
          closed := closed + {c.uuid};
        }
        i := i + 1;
      }
      assert loaded[..i] == loaded;
      r := Pass;
    }

    /** `Offer.expire`: loads the offer's contracts and expires each one that
        was not expired when loaded; the first such contract's own expire
        raises OfferNotAvailable when the offer is not available, and then
        nothing has changed. Otherwise the offer is marked expired. */
    method OfferExpire(ou: Uuid) returns (r: Outcome<Fault>)
      requires Valid() && ou in offers
      modifies this
      ensures Valid()
      ensures ExpireBlocked(old(State()), ou) ==>
        r == Fail(Leap(OfferNotAvailable(ou, StatusName(old(offers[ou].status))))) && State() == old(State())
      ensures !ExpireBlocked(old(State()), ou) ==>
        r == Pass && State() == ExpireOffer(old(State()), ou)
    {
      ghost var s0 := State();
      var loaded := ContractsOf(State(), ou);
      r := ExpireEach(s0, ou, loaded);
      ChosenOfOffer(s0, ou, loaded, Unexpired);
      if r.Fail? {
        return;
      }
      ExpireOfferKeeps(s0, ou);
      offers := offers[ou := offers[ou].(status := Expired)];
    }
  }
}
