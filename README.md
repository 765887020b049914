# esi-leap scheduling and lease lifecycle, in Dafny

esi-leap brokers time-bounded leases of physical resources. A resource owner
publishes an **Offer**: a resource plus an availability window. A consumer
books a **Contract**: a sub-window of that offer. This project models the
scheduling and lifecycle core of esi-leap and proves properties of the model:

- `availability.dfy` (module `Availability`) models the availability gap
  calculator `Offer.get_availabilities`. It builds the flat boundary list
  with appends, removes equal adjacent pairs with the `while`/`pop` loop,
  and chunks the rest into pairs. The method is proved equal to a
  specification function. For a well-formed conflict list, the result is
  proved to lie inside the window, to be sorted with gaps between pairs,
  and to cover exactly the window minus the busy intervals.
- `records.dfy` (module `Records`) holds the Offer and Contract records and
  the statuses.
- `leases.dfy` (module `Leases`) is the store as a value: the offers and
  contracts tables, in table order, and the resource bindings made by
  `set_contract`. It holds:
  - the lookups `get`, `get_by_name` and `get_all({'offer_uuid': …})`;
  - one function per transition, giving the store after it;
  - the store invariant and its preservation by every transition;
  - the lemmas stating what each transition promises.
- `lifecycle.dfy` (module `Lifecycle`) holds the class `LeaseStore`. Its
  fields are the tables and the bindings, which its methods update in
  place:
  - `Offer.create`, `Offer.cancel` and `Offer.expire`, with the cascade
    loops over the offer's contracts;
  - `Contract.create`, `fulfill`, `cancel` and `expire`.

  Each method is proved to leave the store exactly as the matching
  function of `Leases` says.
- `exceptions.dfy` holds three modules:
  - `Formatting` models the `%`-formatting of a message template.
  - `ExceptionClasses` models `ESILeapException` and its subclasses, with
    their `msg_fmt` and `code`. Its class `LeapException` is the
    constructor's `code` and `message` defaulting.
  - `Exceptions` holds the tagged error values the core raises, with the
    keyword arguments of each raise.
- `offer_api.dfy` (module `OfferApi`) models the v1 offers controller:
  - the both-or-neither time check of `get_all` and its filter-building
    loop;
  - the `project_id` defaulting of `post` and its authorization order;
  - the `_verify_resource_permission` decision.
- `wrappers.dfy` (module `Wrappers`) holds `Option`, `Outcome` and
  `Result`.

Collaborators outside the core become parameters:

- The store checks `offer_verify_resource_availability` and
  `offer_verify_contract_availability` are an `Outcome` argument: either a
  pass or the error they raise.
- The conflict-times query is the sequence of busy intervals it returns.
- The policy engine is the set of rules it grants the caller.
- `is_resource_admin` is the set of projects the resource reports as its
  admins.
- Times are integers.

Python errors that the code raises by accident are values of `Fault`: an
AttributeError on a missing attribute (for example `status` looked up on
`None`) and a KeyError.

The model follows the code as written; in particular:

- `Offer.create` does no `start_time < end_time` check.
- No direct transition checks the entity's own status. `fulfill` activates
  a contract whatever its status; `cancel` and `expire` re-enter terminal
  states.
- `Contract.expire` requires the owning offer to be available. So when the
  offer is not available, `Offer.expire` stops at the first contract that
  is not expired yet, with nothing changed. The cascade works only because
  the offer's own status is saved after the loop.
- The cascades go through the offer's contracts in table order.
- `get_availabilities` returns the whole window when there are no
  conflicts, and drops zero-length gaps otherwise.

## Model

| member | source | states |
|---|---|---|
| Availability.Availabilities | esi_leap/objects/offer.py:70-98 | nothing for an offer that is not available; exactly the whole window `[[start, end]]` when there are no conflicts |
| Availability.AvailabilitiesSound | esi_leap/objects/offer.py:77-93 | for a sorted, disjoint list of positive conflicts inside a non-empty window, every pair lies inside the window with start < end, pairs are sorted with a gap between them, and a time is covered exactly when it is in the window and in no conflict |
| Availability.AdjacentBusyExample | esi_leap/objects/offer.py:85-91 | window [0,10) with busy [2,5],[5,8] gives [[0,2],[8,10]] |
| Availability.EdgeBusyExample | esi_leap/objects/offer.py:85-91 | window [0,10) with busy [0,3],[7,10] gives [[3,7]] |
| Availability.PairsOfBoundaries | esi_leap/objects/offer.py:77-93 | chunking the boundary list `[start, c0.s, c0.e, …, end]` gives the gaps between consecutive conflicts |
| Availability.GapsCover | esi_leap/objects/offer.py:77-93 | the gaps cover exactly the points of the window that no conflict covers |
| Availability.GapsShape | esi_leap/objects/offer.py:77-93 | each gap lies inside the window, and gaps are strictly separated |
| Availability.DropEmptyCovers | esi_leap/objects/offer.py:85-91 | dropping the zero-length gaps does not change the time covered |
| Availability.DropEmptySeparated | esi_leap/objects/offer.py:85-91 | dropping zero-length gaps keeps separated gaps separated |
| Availability.PopEmptyPair | esi_leap/objects/offer.py:86-89 | an equal adjacent pair found by the loop sits at an even position, and popping it removes exactly one zero-length gap |
| Availability.AllChecked | esi_leap/objects/offer.py:86-91 | when the loop ends no two adjacent boundaries are equal, so no gap is empty |
| Availability.BuildBoundaries | esi_leap/objects/offer.py:77-83 | the appends build `[start, c0.s, c0.e, …, cn.e, end]` of length 2 + 2n |
| Availability.RemoveEmptyPairs | esi_leap/objects/offer.py:85-91 | the length stays even, no two adjacent boundaries remain equal, and the pairs left are exactly the non-empty gaps |
| Availability.GetAvailabilities | esi_leap/objects/offer.py:70-98 | the result equals the specification `Availabilities` of the offer's status, window and conflicts |
| Formatting.Format | esi_leap/common/exception.py:31-34 | formatting succeeds exactly when kwargs supply every placeholder the template names |
| Formatting.FormatIgnoresOtherKeys | esi_leap/common/exception.py:24-32 | keys the template does not name, `code` among them, do not change the formatted message |
| Formatting.FormatWithoutFields | esi_leap/common/exception.py:30-34 | a template without placeholders formats to its raw text |
| ExceptionClasses.MsgFmt | esi_leap/common/exception.py:17-117 | the `msg_fmt` of each class, transcribed; it names exactly that class's placeholders, and none of them is `code` |
| ExceptionClasses.Code | esi_leap/common/exception.py:18 | every class has the base class's `code` 500, since no subclass overrides it |
| ExceptionClasses.WithDefaultCode | esi_leap/common/exception.py:24-28 | a caller-supplied `code` is kept unchanged; otherwise `code` is set to the class's code; no other key changes |
| ExceptionClasses.InitMessage | esi_leap/common/exception.py:30-36 | a non-empty message is kept verbatim; otherwise `msg_fmt % kwargs`, or the raw `msg_fmt` when formatting fails |
| ExceptionClasses.LeapException.constructor | esi_leap/common/exception.py:21-37 | for the class's `msg_fmt` and `code`, `kwargs` gets its `code` default first, then `message` gets its default, formatted with those kwargs |
| Exceptions.KwargsKeys | esi_leap/common/exception.py:40-117 | each tagged error passes exactly the placeholders of its class |
| Exceptions.KwargsMatchTemplate | esi_leap/common/exception.py:82-84 | the fields each error carries (OfferNotAvailable: `offer_uuid`, `status`) are exactly what its message names |
| Exceptions.Message | esi_leap/common/exception.py:30-36 | a raised error's message is its formatted template and never the raw fallback, whatever `code` was added |
| Leases.Named | esi_leap/objects/offer.py:50-53 | `get_by_name` returns exactly the rows with that name |
| Leases.Lookup | esi_leap/objects/contract.py:53-61 | `get` returns the singleton of the uuid match when there is one, otherwise exactly the name matches |
| Leases.GetOffers | esi_leap/objects/offer.py:55-63 | `Offer.get` returns `[offer]` for a uuid, otherwise exactly the offers with that name |
| Leases.GetContracts | esi_leap/objects/contract.py:53-61 | `Contract.get` returns `[contract]` for a uuid, otherwise exactly the contracts with that name |
| Leases.ContractsOf | esi_leap/objects/offer.py:115-116 | the contracts loaded for an offer are exactly the stored contracts of that offer |
| Leases.ChosenMembers | esi_leap/objects/offer.py:117-119 | the loop visits a contract exactly when some loaded contract with that uuid passes its test |
| Leases.ChosenOfOffer | esi_leap/objects/offer.py:115-119 | going through all loaded contracts chooses exactly the offer's contracts that pass the test |
| Leases.Fulfill | esi_leap/objects/contract.py:104-112 | `fulfill` makes the contract active and binds its offer's resource to it; the offers, the row lists, every other contract and every other binding are unchanged |
| Leases.Close | esi_leap/objects/contract.py:84-127 | `cancel`, or an `expire` that passes its check, gives the contract the new status and leaves its offer's resource not bound to it; bindings are only removed, and the offers, the row lists and every other contract are unchanged |
| Leases.CancelOffer | esi_leap/objects/offer.py:114-122 | after `Offer.cancel` the offer is cancelled, none of its contracts is created or active, no row is added or removed, and bindings are only removed |
| Leases.ExpireBlocked | esi_leap/objects/offer.py:138-144 | `Offer.expire` raises exactly when the offer is not available and one of its contracts is not expired, since that contract's own `expire` checks the offer's status (esi_leap/objects/contract.py:116-119) |
| Leases.ExpireOffer | esi_leap/objects/offer.py:138-148 | after an `Offer.expire` that does not raise, the offer and every one of its contracts are expired, no row is added or removed, and bindings are only removed |
| Leases.AddOfferKeeps | esi_leap/objects/offer.py:111 | writing an offer under a fresh uuid keeps the store invariant |
| Leases.AddContractKeeps | esi_leap/objects/contract.py:81 | writing a contract of an existing offer keeps the store invariant |
| Leases.FulfillKeeps | esi_leap/objects/contract.py:104-112 | `fulfill` keeps the invariant: a resource is bound only to an active contract of an offer on it |
| Leases.CloseKeeps | esi_leap/objects/contract.py:84-92 | a contract `cancel` or successful `expire` keeps the store invariant |
| Leases.CloseIsCloseAll | esi_leap/objects/contract.py:84-92 | a single cancel or expire is the one-contract cascade |
| Leases.CloseAllKeeps | esi_leap/objects/offer.py:117-119 | a cascade closing contracts of the offer keeps the store invariant |
| Leases.SetOfferStatusKeeps | esi_leap/objects/offer.py:121-122 | saving an offer's status keeps the store invariant |
| Leases.CancelOfferKeeps | esi_leap/objects/offer.py:114-122 | `Offer.cancel` keeps the store invariant |
| Leases.ExpireOfferKeeps | esi_leap/objects/offer.py:138-148 | `Offer.expire` keeps the store invariant |
| Leases.CloseAllNone | esi_leap/objects/offer.py:117-119 | a cascade that closes nothing changes nothing |
| Leases.CloseAllStep | esi_leap/objects/offer.py:117-119 | one more contract's own cancel or expire extends the cascade by exactly that contract |
| Leases.CancelOfferContracts | esi_leap/objects/offer.py:114-122 | `Offer.cancel` cancels exactly the offer's created and active contracts, leaves every other contract unchanged, and marks the offer cancelled |
| Leases.CancelOfferBindings | esi_leap/objects/offer.py:117-119 | `Offer.cancel` releases the offer's resource exactly when one of the offer's contracts holds it, and touches no other binding |
| Leases.ExpireOfferContracts | esi_leap/objects/offer.py:138-148 | `Offer.expire` expires every contract of the offer that is not expired, cancelled ones included, leaves all others unchanged, and then marks the offer expired |
| Leases.ExpireOfferBindings | esi_leap/objects/offer.py:142-144 | `Offer.expire` releases the offer's resource exactly when one of the offer's contracts holds it, and touches no other binding |
| Leases.CloseBindings | esi_leap/objects/contract.py:87-89 | cancel and expire clear the binding only when it names this contract; a binding held by another contract, and every other binding, is untouched |
| Leases.CancelOfferIdempotent | esi_leap/objects/offer.py:114-122 | cancelling an offer twice is the same as cancelling it once |
| Leases.ExpireAfterCancel | esi_leap/objects/contract.py:116-119 | `Offer.expire` on a cancelled offer raises exactly when the offer had a contract that was not expired |
| Leases.ExpireOfferIdempotent | esi_leap/objects/offer.py:138-148 | after `Offer.expire`, expiring again is not blocked and changes nothing |
| Leases.CancelUndoesFulfill | esi_leap/objects/contract.py:84-112 | cancel right after fulfill removes the binding fulfill made and leaves the contract cancelled |
| Lifecycle.LeaseStore.OfferCreate | esi_leap/objects/offer.py:103-112 | the resource check runs first; if it raises nothing is written; otherwise exactly the offer is added |
| Lifecycle.LeaseStore.ContractCreate | esi_leap/objects/contract.py:68-82 | a missing offer raises AttributeError, an offer that is not available raises OfferNotAvailable with its uuid and status before any check or write, a failed availability check writes nothing, and otherwise exactly the contract is added |
| Lifecycle.LeaseStore.ContractFulfill | esi_leap/objects/contract.py:104-112 | binds the offer's resource to the contract and sets it active, whatever its status was; the store stays well formed |
| Lifecycle.LeaseStore.ContractCancel | esi_leap/objects/contract.py:84-92 | unbinds only a binding naming this contract, and sets it cancelled whatever its status was; the store stays well formed |
| Lifecycle.LeaseStore.ContractExpire | esi_leap/objects/contract.py:114-127 | with the offer not available it raises OfferNotAvailable with status and binding unchanged; otherwise unbinds only its own binding and sets it expired; the store stays well formed either way |
| Lifecycle.LeaseStore.CancelEach | esi_leap/objects/offer.py:115-119 | the loop cancels exactly the loaded contracts that were created or active |
| Lifecycle.LeaseStore.OfferCancel | esi_leap/objects/offer.py:114-122 | the store ends exactly as `CancelOffer` says, and stays well formed |
| Lifecycle.LeaseStore.ExpireEach | esi_leap/objects/offer.py:140-144 | the loop expires exactly the loaded contracts that were not expired; when the offer is not available, the first of them raises OfferNotAvailable with nothing changed |
| Lifecycle.LeaseStore.OfferExpire | esi_leap/objects/offer.py:138-148 | blocked: raises OfferNotAvailable and changes nothing; otherwise the store ends as `ExpireOffer` says; well formed either way |
| OfferApi.TimeCheck | esi_leap/api/controllers/v1/offer.py:75-79 | both times or neither pass; exactly one raises InvalidTimeAPICommand about "an offer" with both times as text |
| OfferApi.TimeCheckAsWritten | esi_leap/api/controllers/v1/offer.py:75-79 | the check as written: both times or neither pass, and exactly one ends in AttributeError for the missing `exception.InvalidTimeCommand` |
| OfferApi.TimeCheckAsWrittenMisreports | esi_leap/api/controllers/v1/offer.py:75-79 | the check as written rejects the same queries but raises AttributeError instead of the service's own error |
| OfferApi.StartOnlyMisreported | esi_leap/api/controllers/v1/offer.py:77 | a query with only `start_time=5` gets AttributeError as written, and `InvalidTimeAPICommand('an offer', '5', 'None')` as intended |
| OfferApi.PossibleFilters | esi_leap/api/controllers/v1/offer.py:81-88 | every parameter appears under its own name with its value |
| OfferApi.BuildFilters | esi_leap/api/controllers/v1/offer.py:90-93 | the filters hold exactly the parameters that are not None, each under its name with its value |
| OfferApi.GetAll | esi_leap/api/controllers/v1/offer.py:71-96 | the `get` rule is checked first, then the times with the corrected check `TimeCheck` of the Findings table, so a half-supplied query gets `InvalidTimeAPICommand` where the code as written raises AttributeError (`TimeCheckAsWritten`); a success carries exactly the given parameters as filters |
| OfferApi.Owned | esi_leap/api/controllers/v1/offer.py:109-113 | `project_id` defaults to the requester's project when absent; other fields unchanged |
| OfferApi.VerifyResourcePermission | esi_leap/api/controllers/v1/offer.py:132-139 | passes when the resource's admins include the offer's project; otherwise exactly when `offer_admin` is granted |
| OfferApi.Post | esi_leap/api/controllers/v1/offer.py:101-115 | `create` is checked first; succeeds exactly when `offer_admin` is granted, or the offer is for the requester's own project and that project administers the resource; the dict passed on has `project_id` defaulted |

## Left out

- `Offer.get_first_availability`, `destroy` and `delete`: store calls whose implementation is not part of this model.
- `get_one` in the controller: authorization followed by `Offer.get` and wire conversion.
- Availability.GetAvailabilities: requires every conflict to have positive length, which is what the store's conflict-times query returns. For zero-length conflicts the pop loop can pair boundaries differently; this is not modelled.
- The SQL behind `offer_get_conflict_times`, `offer_verify_resource_availability`, `offer_verify_contract_availability`, `offer_get_all` and `contract_get_all` is not part of this model. The verify checks are passed in as their outcome, and `get_all` returns the stored rows in table order.
- `ResourceObjectFactory` and the concrete resource adapters: a binding map replaces `get_contract_uuid`/`set_contract`, and a set of admin projects replaces `is_resource_admin`. A factory error for an unknown resource type is not modelled.
- Failures of the store's writes (`offer_create`, `contract_create`, the `offer_update` and `contract_update` behind `save()`) and of `set_contract` are not modelled: every write succeeds. So a cascade that fails partway is not modelled either. In the code, such a failure inside `Offer.cancel` or `Offer.expire` (esi_leap/objects/offer.py:117-122, 142-148) would leave the contracts already closed in that state and the offer's own status unchanged.
- The policy engine behind `policy.authorize` is not part of this model; a set of granted rules stands for its decision.
- pecan/wsme request handling, `to_dict`, the `Offer`/`OfferCollection` wire types, oslo versioned-object machinery and logging.
- `properties`, the database `id`, real `datetime` values and their `str` rendering (times are integers), and i18n.
- Concurrency, including the check-then-act race between concurrent creations: every operation runs alone.
- esi_leap/common/statuses.py is not part of this model; the five status texts are written out.
- Lifecycle.LeaseStore.ContractFulfill: requires the contract and its offer to exist. Python raises AttributeError on a missing offer; contracts of a destroyed offer are not modelled.
- Lifecycle.LeaseStore.ContractCancel: requires the contract and its offer to exist, for the same reason.
- Lifecycle.LeaseStore.ContractExpire: requires the contract and its offer to exist, for the same reason.
- Lifecycle.LeaseStore.OfferCreate: requires an unused uuid; uuid generation belongs to the store.
- Lifecycle.LeaseStore.ContractCreate: requires an unused uuid, for the same reason.
- OfferApi.GetAll: uses the corrected time check `TimeCheck`. As written, a query with only one of the two times ends in AttributeError, not `InvalidTimeAPICommand`; `TimeCheckAsWritten` and `TimeCheckAsWrittenMisreports` state that behaviour.
- OfferApi.GetAll: stops at the filters handed to `Offer.get_all`; the database query and the wire conversion of the offers it returns are left out.
- OfferApi.Post: stops at the offer dict handed to `Offer.create`, which `Lifecycle.LeaseStore.OfferCreate` models.

## Findings

| source | as written | input that shows it | evidently intended | confidence | as-written member | corrected member |
|---|---|---|---|---|---|---|
| esi_leap/api/controllers/v1/offer.py:77 | `get_all` raises `exception.InvalidTimeCommand`, a name esi_leap/common/exception.py does not define, so the check ends in AttributeError | `get_all(start_time=<any time>)` with no `end_time` | raise `InvalidTimeAPICommand(resource='an offer', start_time=…, end_time=…)`, defined at esi_leap/common/exception.py:100 | not executed | OfferApi.StartOnlyMisreported | OfferApi.TimeCheck |
