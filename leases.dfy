/** The lease store as a value: the offers and contracts tables and the
    resource bindings, with the effect of every lifecycle transition of
    esi_leap/objects/offer.py and esi_leap/objects/contract.py stated as a
    function of the store before it. */
module Leases {
  import opened Wrappers
  import opened Records

  /** The offers and contracts tables (keyed by uuid, with their rows in
      table order) and, for each physical resource that currently has one,
      the uuid of the contract it is bound to (`set_contract`). */
  datatype Store = Store(
    offers: map<Uuid, Offer>,
    offerRows: seq<Uuid>,
    contracts: map<Uuid, Contract>,
    contractRows: seq<Uuid>,
    bindings: map<ResourceKey, Uuid>)

  /** The resource `k` is bound to an active contract of an offer on `k`. */
  predicate BoundActive(s: Store, k: ResourceKey)
    requires k in s.bindings
  {
    var cu := s.bindings[k];
    cu in s.contracts && s.contracts[cu].status == Active &&
    s.contracts[cu].offerUuid in s.offers && s.offers[s.contracts[cu].offerUuid].resource == k
  }

  /** The store's invariant: records sit under their own uuid, the row lists
      enumerate the tables, every contract's offer exists, and a resource is
      only ever bound to an active contract of an offer on that resource. */
  predicate WellFormed(s: Store)
  {
    (forall u :: u in s.offers ==> s.offers[u].uuid == u) &&
    (forall u :: u in s.contracts ==> s.contracts[u].uuid == u) &&
    (forall u :: u in s.offerRows ==> u in s.offers) &&
    (forall u :: u in s.offers ==> u in s.offerRows) &&
    (forall u :: u in s.contractRows ==> u in s.contracts) &&
    (forall u :: u in s.contracts ==> u in s.contractRows) &&
    (forall u :: u in s.contracts ==> s.contracts[u].offerUuid in s.offers) &&
    (forall k :: k in s.bindings ==> BoundActive(s, k))
  }

  /** The store with no offers, contracts or bindings. */
  function Empty(): (r: Store)
    ensures WellFormed(r)
  {
    Store(map[], [], map[], [], map[])
  }

  // ----- lookups (`get_by_uuid`, `get_by_name`, `get`) -----

  /** The rows whose record has name `id`, in table order (`get_by_name`). */
  function Named<T>(records: map<Uuid, T>, rows: seq<Uuid>, nameOf: T -> Option<string>, id: string): (r: seq<Uuid>)
    requires forall u :: u in rows ==> u in records
    ensures forall u :: u in r <==> u in rows && nameOf(records[u]) == Some(id)
  {
    if rows == [] then []
    else
      var rest := Named(records, rows[1..], nameOf, id);
      if nameOf(records[rows[0]]) == Some(id) then [rows[0]] + rest else rest
  }

  /** `get(id)`: the record whose uuid is `id` when there is one, otherwise
      every record named `id`. */
  function Lookup<T(==)>(records: map<Uuid, T>, rows: seq<Uuid>, nameOf: T -> Option<string>, id: string): (r: seq<T>)
    requires forall u :: u in rows ==> u in records
    ensures id in records ==> r == [records[id]]
    ensures id !in records ==> forall u :: u in rows && nameOf(records[u]) == Some(id) ==> records[u] in r
    ensures id !in records ==> forall x :: x in r ==> nameOf(x) == Some(id) && x in records.Values
  {
    if id in records then [records[id]]
    else
      var named := Named(records, rows, nameOf, id);
      var r := seq(|named|, j requires 0 <= j < |named| => records[named[j]]);
      assert forall u :: u in named ==> records[u] in r by {
        forall u | u in named ensures records[u] in r {
          var j :| 0 <= j < |named| && named[j] == u;
          assert r[j] == records[u];
        }
      }
      r
  }

  /** `Offer.get(id)`. */
  function GetOffers(s: Store, id: string): (r: seq<Offer>)
    requires WellFormed(s)
    ensures id in s.offers ==> r == [s.offers[id]]
    ensures id !in s.offers ==> forall x :: x in r <==> x in s.offers.Values && x.name == Some(id)
  {
    var r := Lookup(s.offers, s.offerRows, (o: Offer) => o.name, id);
    assert id !in s.offers ==> forall x :: x in s.offers.Values && x.name == Some(id) ==> x in r by {
      if id !in s.offers {
        forall x | x in s.offers.Values && x.name == Some(id) ensures x in r {
          assert s.offers[x.uuid] == x;
        }
      }
    }
    r
  }

  /** `Contract.get(id)`. */
  function GetContracts(s: Store, id: string): (r: seq<Contract>)
    requires WellFormed(s)
    ensures id in s.contracts ==> r == [s.contracts[id]]
    ensures id !in s.contracts ==> forall x :: x in r <==> x in s.contracts.Values && x.name == Some(id)
  {
    var r := Lookup(s.contracts, s.contractRows, (c: Contract) => c.name, id);
    assert id !in s.contracts ==> forall x :: x in s.contracts.Values && x.name == Some(id) ==> x in r by {
      if id !in s.contracts {
        forall x | x in s.contracts.Values && x.name == Some(id) ensures x in r {
          assert s.contracts[x.uuid] == x;
        }
      }
    }
    r
  }

  /** `Contract.get_all(None, {'offer_uuid': ou})`: the offer's contracts,
      in table order. */
  function ContractsOf(s: Store, ou: Uuid): (r: seq<Contract>)
    requires WellFormed(s)
    ensures forall x :: x in r ==> x.uuid in s.contracts && s.contracts[x.uuid] == x && x.offerUuid == ou
    ensures forall u :: u in s.contracts && s.contracts[u].offerUuid == ou ==> s.contracts[u] in r
  {
    var rows := Named(s.contracts, s.contractRows, (c: Contract) => Some(c.offerUuid), ou);
    var r := seq(|rows|, j requires 0 <= j < |rows| => s.contracts[rows[j]]);
    assert forall u :: u in rows ==> s.contracts[u] in r by {
      forall u | u in rows ensures s.contracts[u] in r {
        var j :| 0 <= j < |rows| && rows[j] == u;
        assert r[j] == s.contracts[u];
      }
    }
    r
  }

  // ----- creation -----

  /** The store after `offer_create` of `o`. */
  function AddOffer(s: Store, o: Offer): Store
  {
    s.(offers := s.offers[o.uuid := o], offerRows := s.offerRows + [o.uuid])
  }

  /** The store after `contract_create` of `c`. */
  function AddContract(s: Store, c: Contract): Store
  {
    s.(contracts := s.contracts[c.uuid := c], contractRows := s.contractRows + [c.uuid])
  }

  // ----- transitions -----

  /** The bindings after `set_contract(None)` on resource `k` by each
      contract of `closed` that finds itself bound there. */
  function Release(bindings: map<ResourceKey, Uuid>, k: ResourceKey, closed: set<Uuid>): map<ResourceKey, Uuid>
  {
    if k in bindings && bindings[k] in closed then bindings - {k} else bindings
  }

  /** Contract `cu` and its offer are both in the store. */
  predicate Placed(s: Store, cu: Uuid)
  {
    cu in s.contracts && s.contracts[cu].offerUuid in s.offers
  }

  /** The resource of the offer that contract `cu` belongs to
      (`Offer.get_by_uuid(self.offer_uuid).resource_object()`). */
  function ResourceOf(s: Store, cu: Uuid): ResourceKey
    requires Placed(s, cu)
  {
    s.offers[s.contracts[cu].offerUuid].resource
  }

  /** `Contract.fulfill`: the contract's resource is bound to it and it
      becomes active. */
  function Fulfill(s: Store, cu: Uuid): (r: Store)
    requires Placed(s, cu)
    ensures r.offers == s.offers && r.offerRows == s.offerRows && r.contractRows == s.contractRows
    ensures r.contracts.Keys == s.contracts.Keys && r.contracts[cu].status == Active
    ensures forall u :: u in s.contracts && u != cu ==> r.contracts[u] == s.contracts[u]
    ensures ResourceOf(s, cu) in r.bindings && r.bindings[ResourceOf(s, cu)] == cu
    ensures forall k :: k != ResourceOf(s, cu) ==> (k in r.bindings <==> k in s.bindings)
    ensures forall k :: k != ResourceOf(s, cu) && k in s.bindings ==> r.bindings[k] == s.bindings[k]
  {
    s.(contracts := s.contracts[cu := s.contracts[cu].(status := Active)],
       bindings := s.bindings[ResourceOf(s, cu) := cu])
  }

  /** `Contract.cancel` (with `to` = cancelled) and the success path of
      `Contract.expire` (with `to` = expired): the contract's resource is
      released if it is bound to this contract, then the contract takes
      status `to`. */
  function Close(s: Store, cu: Uuid, to: Status): (r: Store)
    requires Placed(s, cu)
    ensures r.offers == s.offers && r.offerRows == s.offerRows && r.contractRows == s.contractRows
    ensures r.contracts.Keys == s.contracts.Keys && r.contracts[cu].status == to
    ensures forall u :: u in s.contracts && u != cu ==> r.contracts[u] == s.contracts[u]
    ensures ResourceOf(s, cu) in r.bindings ==> r.bindings[ResourceOf(s, cu)] != cu
    ensures r.bindings.Keys <= s.bindings.Keys
  {
    s.(contracts := s.contracts[cu := s.contracts[cu].(status := to)],
       bindings := Release(s.bindings, ResourceOf(s, cu), {cu}))
  }

  /** Every contract of `closed` takes status `to`; others are unchanged. */
  function SetStatus(contracts: map<Uuid, Contract>, closed: set<Uuid>, to: Status): (r: map<Uuid, Contract>)
    ensures r.Keys == contracts.Keys
    ensures forall u :: u in contracts ==> r[u] == if u in closed then contracts[u].(status := to) else contracts[u]
  {
    map u | u in contracts :: if u in closed then contracts[u].(status := to) else contracts[u]
  }

  /** A cascade over offer `ou`: the contracts in `closed` take status `to`,
      and the offer's resource is released if it is bound to one of them. */
  function CloseAll(s: Store, ou: Uuid, closed: set<Uuid>, to: Status): Store
    requires ou in s.offers
  {
    s.(contracts := SetStatus(s.contracts, closed, to),
       bindings := Release(s.bindings, s.offers[ou].resource, closed))
  }

  /** The contracts `Offer.cancel` cancels: those of offer `ou` that are
      created or active. */
  function CancelledBy(contracts: map<Uuid, Contract>, ou: Uuid): set<Uuid>
  {
    OfOffer(contracts, ou, Cancels)
  }

  /** The contracts `Offer.expire` expires: those of offer `ou` that are
      not expired yet, cancelled ones included. */
  function ExpiredBy(contracts: map<Uuid, Contract>, ou: Uuid): set<Uuid>
  {
    OfOffer(contracts, ou, Unexpired)
  }

  /** The contracts of offer `ou` that pass the test `sel`. */
  function OfOffer(contracts: map<Uuid, Contract>, ou: Uuid, sel: Contract -> bool): set<Uuid>
  {
    set u | u in contracts && contracts[u].offerUuid == ou && sel(contracts[u])
  }

  /** The test `Offer.cancel` applies to each loaded contract. */
  predicate Cancels(c: Contract)
  {
    c.status == Created || c.status == Active
  }

  /** The test `Offer.expire` applies to each loaded contract. */
  predicate Unexpired(c: Contract)
  {
    c.status != Expired
  }

  /** The uuids of the contracts of `loaded` that pass the test `sel`. */
  function Chosen(loaded: seq<Contract>, sel: Contract -> bool): set<Uuid>
  {
    if loaded == [] then {}
    else
      var last := loaded[|loaded| - 1];
      Chosen(loaded[..|loaded| - 1], sel) + if sel(last) then {last.uuid} else {}
  }

  /** Going through one more loaded contract adds it when it passes. */
  lemma ChosenStep(loaded: seq<Contract>, i: nat, sel: Contract -> bool)
    requires i < |loaded|
    ensures Chosen(loaded[..i + 1], sel) ==
      Chosen(loaded[..i], sel) + if sel(loaded[i]) then {loaded[i].uuid} else {}
  {
    assert loaded[..i + 1][..i] == loaded[..i];
  }

  /** A uuid is chosen exactly when some loaded contract with that uuid passes. */
  lemma {:induction false} ChosenMembers(loaded: seq<Contract>, sel: Contract -> bool, u: Uuid)
    ensures u in Chosen(loaded, sel) <==> exists j :: 0 <= j < |loaded| && loaded[j].uuid == u && sel(loaded[j])
  {
    if loaded != [] {
      var n := |loaded| - 1;
      ChosenMembers(loaded[..n], sel, u);
      if u in Chosen(loaded[..n], sel) {
        var j :| 0 <= j < n && loaded[..n][j].uuid == u && sel(loaded[..n][j]);
        assert loaded[j] == loaded[..n][j];
      }
      if j :| 0 <= j < |loaded| && loaded[j].uuid == u && sel(loaded[j]) {
        if j < n {
          assert loaded[..n][j] == loaded[j];
        }
      }
    }
  }

  /** Going through all of an offer's contracts as `Contract.get_all`
      returns them chooses exactly the offer's contracts that pass. */
  lemma ChosenOfOffer(s: Store, ou: Uuid, loaded: seq<Contract>, sel: Contract -> bool)
    requires forall u :: u in s.contracts ==> s.contracts[u].uuid == u
    requires forall x :: x in loaded ==> x.uuid in s.contracts && s.contracts[x.uuid] == x && x.offerUuid == ou
    requires forall u :: u in s.contracts && s.contracts[u].offerUuid == ou ==> s.contracts[u] in loaded
    ensures Chosen(loaded, sel) == OfOffer(s.contracts, ou, sel)
  {
    forall u ensures u in Chosen(loaded, sel) <==> u in s.contracts && s.contracts[u].offerUuid == ou && sel(s.contracts[u]) {
      ChosenMembers(loaded, sel, u);
      if u in s.contracts && s.contracts[u].offerUuid == ou && sel(s.contracts[u]) {
        var j :| 0 <= j < |loaded| && loaded[j] == s.contracts[u];
      }
    }
  }

  /** The store with offer `ou`'s own status set to `st` (`self.status = st;
      self.save()`). */
  function SetOfferStatus(s: Store, ou: Uuid, st: Status): Store
    requires ou in s.offers
  {
    s.(offers := s.offers[ou := s.offers[ou].(status := st)])
  }

  /** `Offer.cancel`: the cascade over the offer's contracts, then the
      offer's own status. */
  function CancelOffer(s: Store, ou: Uuid): (r: Store)
    requires ou in s.offers
    ensures r.offers.Keys == s.offers.Keys && r.offers[ou].status == Cancelled
    ensures r.offerRows == s.offerRows && r.contractRows == s.contractRows
    ensures r.contracts.Keys == s.contracts.Keys
    ensures forall u :: u in r.contracts && r.contracts[u].offerUuid == ou ==>
      r.contracts[u].status != Created && r.contracts[u].status != Active
    ensures r.bindings.Keys <= s.bindings.Keys
  {
    SetOfferStatus(CloseAll(s, ou, CancelledBy(s.contracts, ou), Cancelled), ou, Cancelled)
  }

  /** `Offer.expire` on an offer that is not available raises as soon as it
      reaches a contract that is not expired, since that contract's own
      `expire` sees the offer's status. */
  predicate ExpireBlocked(s: Store, ou: Uuid): (r: bool)
    requires ou in s.offers
    ensures r <==> (s.offers[ou].status != Available &&
      exists u :: u in s.contracts && s.contracts[u].offerUuid == ou && s.contracts[u].status != Expired)
  {
    var pending := ExpiredBy(s.contracts, ou);
    assert pending != {} <==> exists u :: u in s.contracts && s.contracts[u].offerUuid == ou && s.contracts[u].status != Expired by {
      if pending != {} {
        var u :| u in pending;
      }
      if u :| u in s.contracts && s.contracts[u].offerUuid == ou && s.contracts[u].status != Expired {
        assert Unexpired(s.contracts[u]);
        assert u in pending;
      }
    }
    s.offers[ou].status != Available && pending != {}
  }

  /** `Offer.expire` when it is not blocked: the cascade over the offer's
      contracts, then the offer's own status. */
  function ExpireOffer(s: Store, ou: Uuid): (r: Store)
    requires ou in s.offers
    ensures r.offers.Keys == s.offers.Keys && r.offers[ou].status == Expired
    ensures r.offerRows == s.offerRows && r.contractRows == s.contractRows
    ensures r.contracts.Keys == s.contracts.Keys
    ensures forall u :: u in r.contracts && r.contracts[u].offerUuid == ou ==> r.contracts[u].status == Expired
    ensures r.bindings.Keys <= s.bindings.Keys
  {
    SetOfferStatus(CloseAll(s, ou, ExpiredBy(s.contracts, ou), Expired), ou, Expired)
  }

  // ----- the invariant is preserved -----

  /** Creating an offer under a fresh uuid keeps the store well formed. */
  lemma AddOfferKeeps(s: Store, o: Offer)
    requires WellFormed(s) && o.uuid !in s.offers
    ensures WellFormed(AddOffer(s, o))
  {
    var r := AddOffer(s, o);
    forall k | k in r.bindings ensures BoundActive(r, k) {
      assert BoundActive(s, k);
    }
  }

  /** Creating a contract of an existing offer under a fresh uuid keeps the
      store well formed. */
  lemma AddContractKeeps(s: Store, c: Contract)
    requires WellFormed(s) && c.uuid !in s.contracts && c.offerUuid in s.offers
    ensures WellFormed(AddContract(s, c))
  {
    var r := AddContract(s, c);
    forall k | k in r.bindings ensures BoundActive(r, k) {
      assert BoundActive(s, k);
    }
  }

  /** Fulfilling a contract keeps the store well formed: the binding it makes
      names an active contract of an offer on that resource. */
  lemma FulfillKeeps(s: Store, cu: Uuid)
    requires WellFormed(s) && cu in s.contracts
    ensures WellFormed(Fulfill(s, cu))
  {
    var r := Fulfill(s, cu);
    forall k | k in r.bindings ensures BoundActive(r, k) {
      if k != ResourceOf(s, cu) {
        assert BoundActive(s, k);
      }
    }
  }

  /** A cascade that closes contracts of the offer (to any status other than
      active) keeps the store well formed. */
  lemma CloseAllKeeps(s: Store, ou: Uuid, closed: set<Uuid>, to: Status)
    requires WellFormed(s) && ou in s.offers && to != Active
    requires forall u :: u in closed ==> u in s.contracts && s.contracts[u].offerUuid == ou
    ensures WellFormed(CloseAll(s, ou, closed, to))
  {
    var r := CloseAll(s, ou, closed, to);
    assert forall u :: u in r.contracts ==> r.contracts[u].uuid == u && r.contracts[u].offerUuid == s.contracts[u].offerUuid;
    forall k | k in r.bindings ensures BoundActive(r, k) {
      assert BoundActive(s, k);
      assert r.bindings[k] == s.bindings[k] && r.bindings[k] !in closed;
    }
  }

  /** Changing an offer's status keeps the store well formed. */
  lemma SetOfferStatusKeeps(s: Store, ou: Uuid, st: Status)
    requires WellFormed(s) && ou in s.offers
    ensures WellFormed(SetOfferStatus(s, ou, st))
  {
    var r := SetOfferStatus(s, ou, st);
    forall k | k in r.bindings ensures BoundActive(r, k) {
      assert BoundActive(s, k);
    }
  }

  /** Closing one contract is the one-element cascade over its offer. */
  lemma CloseIsCloseAll(s: Store, cu: Uuid, to: Status)
    requires Placed(s, cu)
    ensures Close(s, cu, to) == CloseAll(s, s.contracts[cu].offerUuid, {cu}, to)
  {
    assert s.contracts[cu := s.contracts[cu].(status := to)] == SetStatus(s.contracts, {cu}, to);
  }

  /** Cancelling or expiring a contract keeps the store well formed: its
      binding, if any, goes with its active status. */
  lemma CloseKeeps(s: Store, cu: Uuid, to: Status)
    requires WellFormed(s) && cu in s.contracts && to != Active
    ensures WellFormed(Close(s, cu, to))
  {
    CloseIsCloseAll(s, cu, to);
    CloseAllKeeps(s, s.contracts[cu].offerUuid, {cu}, to);
  }

  /** `Offer.cancel` keeps the store well formed. */
  lemma CancelOfferKeeps(s: Store, ou: Uuid)
    requires WellFormed(s) && ou in s.offers
    ensures WellFormed(CancelOffer(s, ou))
  {
    CloseAllKeeps(s, ou, CancelledBy(s.contracts, ou), Cancelled);
    SetOfferStatusKeeps(CloseAll(s, ou, CancelledBy(s.contracts, ou), Cancelled), ou, Cancelled);
  }

  /** `Offer.expire` keeps the store well formed. */
  lemma ExpireOfferKeeps(s: Store, ou: Uuid)
    requires WellFormed(s) && ou in s.offers
    ensures WellFormed(ExpireOffer(s, ou))
  {
    CloseAllKeeps(s, ou, ExpiredBy(s.contracts, ou), Expired);
    SetOfferStatusKeeps(CloseAll(s, ou, ExpiredBy(s.contracts, ou), Expired), ou, Expired);
  }

  // ----- the cascades, step by step -----

  /** Closing nothing changes nothing. */
  lemma CloseAllNone(s: Store, ou: Uuid, to: Status)
    requires ou in s.offers
    ensures CloseAll(s, ou, {}, to) == s
  {
    assert SetStatus(s.contracts, {}, to) == s.contracts;
  }

  /** One more contract of the offer closed by its own transition extends
      the cascade by that contract: the loops of `Offer.cancel` and
      `Offer.expire` build their result one contract at a time. */
  lemma CloseAllStep(s: Store, ou: Uuid, closed: set<Uuid>, to: Status, cu: Uuid)
    requires ou in s.offers && cu in s.contracts && s.contracts[cu].offerUuid == ou
    ensures Close(CloseAll(s, ou, closed, to), cu, to) == CloseAll(s, ou, closed + {cu}, to)
  {
    var t := CloseAll(s, ou, closed, to);
    assert t.contracts[cu := t.contracts[cu].(status := to)] == SetStatus(s.contracts, closed + {cu}, to);
  }

  // ----- what the transitions promise -----

  /** `Offer.cancel` cancels exactly the created and active contracts of the
      offer, leaves every other contract as it was, and marks the offer
      cancelled. */
  lemma CancelOfferContracts(s: Store, ou: Uuid)
    requires ou in s.offers
    ensures var r := CancelOffer(s, ou);
      r.contracts.Keys == s.contracts.Keys &&
      (forall u :: u in s.contracts ==>
        r.contracts[u] == if s.contracts[u].offerUuid == ou && (s.contracts[u].status == Created || s.contracts[u].status == Active)
                          then s.contracts[u].(status := Cancelled) else s.contracts[u]) &&
      r.offers == s.offers[ou := s.offers[ou].(status := Cancelled)]
  {
  }

  /** `Offer.cancel` releases the offer's resource exactly when it is bound
      to one of the offer's own contracts, and touches no other binding. */
  lemma CancelOfferBindings(s: Store, ou: Uuid)
    requires WellFormed(s) && ou in s.offers
    ensures var r := CancelOffer(s, ou); var k := s.offers[ou].resource;
      (forall k' :: k' != k ==> (k' in r.bindings <==> k' in s.bindings)) &&
      (forall k' :: k' != k && k' in s.bindings ==> r.bindings[k'] == s.bindings[k']) &&
      (k in r.bindings <==> k in s.bindings && s.contracts[s.bindings[k]].offerUuid != ou)
  {
    var k := s.offers[ou].resource;
    if k in s.bindings {
      assert BoundActive(s, k);
    }
  }

  /** `Offer.expire`, when not blocked, expires every contract of the offer
      that is not expired yet (cancelled ones included), leaves every other
      contract as it was, and marks the offer expired. */
  lemma ExpireOfferContracts(s: Store, ou: Uuid)
    requires ou in s.offers
    ensures var r := ExpireOffer(s, ou);
      r.contracts.Keys == s.contracts.Keys &&
      (forall u :: u in s.contracts ==>
        r.contracts[u] == if s.contracts[u].offerUuid == ou then s.contracts[u].(status := Expired) else s.contracts[u]) &&
      r.offers == s.offers[ou := s.offers[ou].(status := Expired)]
  {
  }

  /** `Offer.expire`, when not blocked, releases the offer's resource exactly
      when it is bound to one of the offer's own contracts, and touches no
      other binding. */
  lemma ExpireOfferBindings(s: Store, ou: Uuid)
    requires WellFormed(s) && ou in s.offers
    ensures var r := ExpireOffer(s, ou); var k := s.offers[ou].resource;
      (forall k' :: k' != k ==> (k' in r.bindings <==> k' in s.bindings)) &&
      (forall k' :: k' != k && k' in s.bindings ==> r.bindings[k'] == s.bindings[k']) &&
      (k in r.bindings <==> k in s.bindings && s.contracts[s.bindings[k]].offerUuid != ou)
  {
    var k := s.offers[ou].resource;
    if k in s.bindings {
      assert BoundActive(s, k);
    }
  }

  /** `Contract.cancel` and `Contract.expire` release the contract's resource
      only when it is bound to that very contract; a binding held by another
      contract, and every other binding, stays. */
  lemma CloseBindings(s: Store, cu: Uuid, to: Status)
    requires Placed(s, cu)
    ensures var r := Close(s, cu, to); var k := ResourceOf(s, cu);
      (forall k' :: k' != k ==> (k' in r.bindings <==> k' in s.bindings)) &&
      (forall k' :: k' != k && k' in s.bindings ==> r.bindings[k'] == s.bindings[k']) &&
      (k in r.bindings <==> k in s.bindings && s.bindings[k] != cu) &&
      (k in r.bindings ==> r.bindings[k] == s.bindings[k])
  {
  }

  /** Cancelling an offer twice is the same as cancelling it once. */
  lemma CancelOfferIdempotent(s: Store, ou: Uuid)
    requires ou in s.offers
    ensures CancelOffer(CancelOffer(s, ou), ou) == CancelOffer(s, ou)
  {
    var r := CancelOffer(s, ou);
    assert CancelledBy(r.contracts, ou) == {};
    CloseAllNone(r, ou, Cancelled);
    assert r.offers[ou := r.offers[ou].(status := Cancelled)] == r.offers;
  }

  /** Once an offer has been cancelled, `Offer.expire` on it raises
      OfferNotAvailable exactly when the offer had a contract that was not
      yet expired: the cancelled status blocks that contract's expire. */
  lemma ExpireAfterCancel(s: Store, ou: Uuid)
    requires ou in s.offers
    ensures ExpireBlocked(CancelOffer(s, ou), ou) <==>
      exists u :: u in s.contracts && s.contracts[u].offerUuid == ou && s.contracts[u].status != Expired
  {
    var r := CancelOffer(s, ou);
    if u :| u in s.contracts && s.contracts[u].offerUuid == ou && s.contracts[u].status != Expired {
      assert u in ExpiredBy(r.contracts, ou);
    }
  }

  /** After a successful `Offer.expire`, expiring the offer again is not
      blocked and changes nothing: every contract of the offer is expired. */
  lemma ExpireOfferIdempotent(s: Store, ou: Uuid)
    requires ou in s.offers
    ensures !ExpireBlocked(ExpireOffer(s, ou), ou)
    ensures ExpireOffer(ExpireOffer(s, ou), ou) == ExpireOffer(s, ou)
  {
    var r := ExpireOffer(s, ou);
    assert ExpiredBy(r.contracts, ou) == {};
    CloseAllNone(r, ou, Expired);
    assert r.offers[ou := r.offers[ou].(status := Expired)] == r.offers;
  }

  /** Cancelling a contract right after fulfilling it gives its resource
      back: the binding `fulfill` made is removed. */
  lemma CancelUndoesFulfill(s: Store, cu: Uuid)
    requires Placed(s, cu)
    ensures var r := Close(Fulfill(s, cu), cu, Cancelled);
      r.bindings == s.bindings - {ResourceOf(s, cu)} &&
      r.contracts == s.contracts[cu := s.contracts[cu].(status := Cancelled)]
  {
    var f := Fulfill(s, cu);
    assert ResourceOf(f, cu) == ResourceOf(s, cu);
    assert f.bindings[ResourceOf(s, cu) := cu] - {ResourceOf(s, cu)} == s.bindings - {ResourceOf(s, cu)};
  }
}
