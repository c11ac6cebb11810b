# Demand lifecycle engine

A Dafny model of the demand handlers of the produce marketplace backend.
Buyers post demands for a commodity. Farmers accept or reject open demands.
The owning buyer, or an admin, updates or cancels them. The list of demands a
caller sees depends on the caller's role.

It has eight modules:

- `Domain`: users and roles, the `Demand` record with its four statuses
  (open, accepted, rejected, cancelled), notifications, e-mails and the
  handlers' error answers.
- `Lifecycle`: each transition as a function on one demand. This covers what
  creation stores, the owner/state guard that update and cancel share, the
  allow-listed patch, cancel, the two responses with the appended seller
  note, and the in-app notification a response emits. It also has the step
  relation that every transition respects.
- `Store`: the invariant of the whole store, which its handlers keep, and the
  relation between a store before and after any handler, extended over whole
  histories.
- `Listing`: the role-conditioned visibility rule, the filter the list
  handler builds, and the repository query. The query selects by filter,
  sorts newest first, then skips and limits.
- `Admission`: what the routes let through to the handlers. These are the
  role gates and the validator chains on body and query.
- `Controller`: class `DemandController` and its handlers. It holds the
  demand documents by id, the notification log, the e-mail outbox and the
  next fresh id. Each handler loads a document, checks its guards, changes
  its fields one at a time (the update handler in a loop over the
  allow-list), and saves it back.
- `Router`: each route runs admission first and then the handler.
- `Scenarios`: client runs of the routes that follow the integration test.

## Model

| member | source | states |
|---|---|---|
| `Domain.StatusName` | backend-server/src/controllers/demands.js:100 | only the open status is stored as the string "open", which the guards and the anonymous list filter compare against |
| `Lifecycle.CreateInputMissing` | backend-server/src/controllers/demands.js:10 | the handler's own 400 check: a missing or empty commodity, or a missing or zero quantity |
| `Lifecycle.NewDemand` | backend-server/src/controllers/demands.js:14-22 | a new demand is owned by the caller, is open, and has no seller and no price; an omitted unit becomes "kg", location `{}`, desiredBy null and notes "" |
| `Lifecycle.EditGuard` | backend-server/src/controllers/demands.js:95-102 | Forbidden iff the caller is neither an admin nor the owner; BadRequest iff the caller is the non-admin owner of a demand that is not open; the edit goes ahead iff admin, or owner while open |
| `Lifecycle.SetField` | backend-server/src/controllers/demands.js:107 | one present allow-listed key overwrites its field; id, buyer, seller, status, priceOffer and createdAt are never touched |
| `Lifecycle.ApplyPatch` | backend-server/src/controllers/demands.js:104-108 | each allow-listed key present in the body replaces its field; absent keys, and id, buyer, seller, status, priceOffer and createdAt, stay as they were |
| `Lifecycle.PatchIgnoresProtectedKeys` | backend-server/src/controllers/demands.js:105 | status, buyer, seller or priceOffer sent in an update body have no effect on the result |
| `Lifecycle.PatchIdempotent` | backend-server/src/controllers/demands.js:106-108 | applying the same update twice gives the same demand as applying it once |
| `Lifecycle.Cancel` | backend-server/src/controllers/demands.js:134 | a cancel makes the status cancelled and changes nothing else |
| `Lifecycle.SecondCancelRefused` | backend-server/src/controllers/demands.js:129-132 | after a non-admin buyer's cancel goes through, the same buyer's second cancel is refused with BadRequest |
| `Lifecycle.IsAction` | backend-server/src/controllers/demands.js:149 | the only actions are accept and reject |
| `Lifecycle.WithSellerNote` | backend-server/src/controllers/demands.js:164 | the old notes are a prefix of the new ones; truthy seller notes are appended after "\nSeller note: "; otherwise nothing changes |
| `Lifecycle.RespondTo` | backend-server/src/controllers/demands.js:160-164 | accept or reject records the status and the farmer as seller; the price is set only on accept when one is offered; the note is appended; all other fields are unchanged; seller and status stay consistent |
| `Lifecycle.ResponseNotice` | backend-server/src/controllers/demands.js:167-173 | the notification goes to the demand's buyer, is of type accepted iff the action is accept, has the matching title, and names the demand |
| `Lifecycle.ResponseSubject` | backend-server/src/controllers/demands.js:179-204 | the subject line of the e-mail for an accept and for a reject |
| `Lifecycle.TransitionsAreSteps` | backend-server/src/controllers/demands.js:105-190 | update, cancel and a response from open are legitimate steps: id, buyer and creation time are kept, nothing returns to open, and a recorded seller is kept |
| `Lifecycle.StepOkTransitive` | backend-server/src/controllers/demands.js:105-190 | two legitimate steps in a row make one legitimate step |
| `Lifecycle.AdminCancelKeepsSeller` | backend-server/src/controllers/demands.js:125-134 | an admin passes the guard on an accepted demand, and cancelling it keeps the seller, so a seller does not imply accepted or rejected |
| `Store.CreateKeepsInvariant` | backend-server/src/controllers/demands.js:24 | storing a new open demand under the fresh id keeps the store invariant, and the fresh id is not yet taken |
| `Store.EditKeepsInvariant` | backend-server/src/controllers/demands.js:110 | saving an updated or cancelled demand that keeps its buyer and seller keeps the store invariant |
| `Store.RespondKeepsInvariant` | backend-server/src/controllers/demands.js:167-213 | saving a response together with its one notification keeps the invariant: every notification goes to the buyer of its demand, and a demand has exactly one notification iff it has a seller |
| `Store.EvolvesAlongHistory` | backend-server/src/controllers/demands.js:105-213 | over any history of handler steps, no demand disappears, id, buyer and seller are kept, and a demand that has left open is never open again |
| `Listing.Skip` | backend-server/src/controllers/demands.js:39 | the skip is a natural number, and it is zero exactly on the first page |
| `Listing.Matches` | backend-server/src/controllers/demands.js:41-61 | a demand satisfies a repository filter: equal status, commodity and buyer where given, and open or responded by the given seller where the `$or` is given |
| `Listing.VisibilityFilter` | backend-server/src/controllers/demands.js:41-67 | a demand matches the handler's filter iff it is visible: anonymous callers see open demands whatever status they ask for; buyers see their own; farmers see open demands or ones whose seller they are; admins see all; requested status and commodity narrow the result |
| `Listing.AnonymousSeesOnlyOpen` | backend-server/src/controllers/demands.js:45-48 | an anonymous caller sees only open demands |
| `Listing.SelectMembers` | backend-server/src/controllers/demands.js:48 | the repository selection holds exactly the stored demands that match, in increasing id order |
| `Listing.InsertCorrect` | backend-server/src/controllers/demands.js:48 | inserting into a newest-first sequence keeps it newest first and adds exactly that demand |
| `Listing.SortCorrect` | backend-server/src/controllers/demands.js:48 | the sort result is newest first and is a permutation of its input |
| `Listing.Window` | backend-server/src/controllers/demands.js:48 | skip then limit: at most limit demands, the ones at positions skip, skip+1, … of the sorted list, and none when skip reaches the end |
| `Listing.QueryCorrect` | backend-server/src/controllers/demands.js:48 | for any filter, the sorted selection holds exactly the stored demands that match it, each once, newest first |
| `Listing.ListingCorrect` | backend-server/src/controllers/demands.js:41-67 | the full listing holds exactly the stored demands visible to the caller, each once, newest first |
| `Listing.PageCorrect` | backend-server/src/controllers/demands.js:38-48 | every page holds only stored demands visible to the caller, each once, newest first |
| `Admission.CreateAdmitted` | backend-server/src/routes/demands.js:27-36 | a buyer, a non-empty commodity and a positive quantity |
| `Admission.ListAdmitted` | backend-server/src/routes/demands.js:43-48 | page at least 1 and limit within 1..200 when given; no authentication |
| `Admission.UpdateAdmitted` | backend-server/src/routes/demands.js:59-68 | an authenticated caller of any role, and a positive quantity when one is given |
| `Admission.CancelAdmitted` | backend-server/src/routes/demands.js:71-74 | an authenticated caller of any role |
| `Admission.RespondAdmitted` | backend-server/src/routes/demands.js:78-86 | a farmer, an action among accept and reject, and a positive price offer when one is given |
| `Admission.AdmittedCreatePassesCheck` | backend-server/src/routes/demands.js:27-32 | an admitted creation passes the handler's own 400 check and stores a non-empty commodity and a positive quantity |
| `Admission.AdmittedPaging` | backend-server/src/routes/demands.js:43-45 | admitted paging, defaults included, has page at least 1 and limit within 1..200, so the skip is (page-1)*limit |
| `Admission.AdmittedPatchKeepsQuantityPositive` | backend-server/src/routes/demands.js:59-64 | an admitted update never makes a positive quantity non-positive |
| `Admission.AdmittedResponsePrice` | backend-server/src/routes/demands.js:78-84 | an admitted response never records a non-positive price |
| `Controller.DemandController.Create` | backend-server/src/controllers/demands.js:5-27 | a missing or zero commodity or quantity gives BadRequest and changes nothing; otherwise the new demand is stored under a fresh id and nothing else changes |
| `Controller.DemandController.Find` | backend-server/src/controllers/demands.js:48 | the repository query returns the window at skip, of at most limit, of the sorted selection, which by `Listing.QueryCorrect` holds exactly the stored demands matching the filter, newest first; each returned demand is stored and matches |
| `Controller.DemandController.List` | backend-server/src/controllers/demands.js:35-68 | the answer is the page (page-1)*limit of the caller's visible listing, of at most limit stored demands, each visible to the caller, each once, newest first |
| `Controller.DemandController.GetById` | backend-server/src/controllers/demands.js:75-80 | the stored demand, or NotFound when the id is absent |
| `Controller.DemandController.Update` | backend-server/src/controllers/demands.js:88-111 | NotFound, Forbidden or BadRequest exactly as the guard says, with the store unchanged; otherwise only this demand changes, to ApplyPatch of it, and the invariant and the step relation hold |
| `Controller.DemandController.Cancel` | backend-server/src/controllers/demands.js:119-136 | NotFound, Forbidden or BadRequest exactly as the guard says, with the store unchanged; otherwise only this demand changes, to its cancelled form |
| `Controller.DemandController.TryEmail` | backend-server/src/controllers/demands.js:175-185 | the e-mail is handed over only when the buyer has an address and the transport does not fail; a failure changes nothing |
| `Controller.DemandController.SaveResponse` | backend-server/src/controllers/demands.js:167-213 | the notification is appended, the e-mail goes out only to a truthy address when the transport does not fail, the demand is saved under its id, and the store invariant holds |
| `Controller.DemandController.Respond` | backend-server/src/controllers/demands.js:144-214 | an invalid action or a non-open demand gives BadRequest and an unknown id gives NotFound, with the store unchanged; otherwise the demand becomes RespondTo of it, exactly one notification to its buyer is appended, and a failed e-mail does not stop the save |
| `Router.PostDemand` | backend-server/src/routes/demands.js:27-38 | a request that is not admitted reaches no handler and changes nothing; an admitted one always creates the demand |
| `Router.GetDemands` | backend-server/src/routes/demands.js:41-50 | paging outside the bounds is refused whoever the caller; otherwise the answer is the caller's page; an anonymous caller gets open demands only |
| `Router.PutDemand` | backend-server/src/routes/demands.js:59-70 | without a caller, or with a non-positive quantity, nothing happens; otherwise the handler's outcomes: NotFound, the guard's error, or the patched demand saved with notifications, outbox and next id unchanged; an admitted update never makes a positive quantity non-positive |
| `Router.DeleteDemand` | backend-server/src/routes/demands.js:71-75 | without a caller nothing happens; otherwise the handler's outcomes: NotFound, the guard's error, or the cancelled demand saved with notifications, outbox and next id unchanged |
| `Router.RespondToDemand` | backend-server/src/routes/demands.js:78-88 | only a farmer with a valid action and a positive or absent price reaches the handler; then the answer is NotFound, BadRequest for a non-open demand, or the response saved with one notification and the best-effort e-mail in the outbox, and a recorded price is positive |
| `Scenarios.AcceptFlow` | backend-server/tests/demands.test.js:101-128 | the test's create, accept and update run: the demand is created open with unit kg, accepted by the farmer with price 25000 and the appended note, the buyer gets one "Demand Accepted" notification, and the buyer's later update is a BadRequest |
| `Scenarios.CancelTwice` | backend-server/src/controllers/demands.js:125-134 | the owning buyer's first cancel succeeds and the second is a BadRequest |
| `Scenarios.CancelledRefusesResponse` | backend-server/src/controllers/demands.js:156-158 | a farmer's response to a cancelled demand is a BadRequest |
| `Scenarios.OtherBuyerRefused` | backend-server/src/controllers/demands.js:96-98 | another buyer gets Forbidden on both update and cancel |
| `Scenarios.AdminUpdatesAccepted` | backend-server/src/controllers/demands.js:96-108 | an admin updates an accepted demand's quantity without touching its status or seller |
| `Scenarios.Visibility` | backend-server/src/controllers/demands.js:45-63 | with one accepted demand (seller farmer B) and one newer open demand: anonymous callers and farmer D see only the open one; farmer B and the owning buyer see both, newest first |

## Left out

- Persistence is abstract. Mongoose `save`, `findById` and `populate` are replaced by a map. The buyer and seller summaries that `populate` attaches to answers are not modelled.
- Ids are natural numbers taken from a counter in place of ObjectIds, and the `isMongoId` checks on `:id` are not modelled. The creation time is a clock reading given to `Create`.
- The repository leaves the order of demands with equal `createdAt` unspecified. The model breaks ties by id, newest id first.
- JWT authentication and the internals of `authenticateToken` and `authorizeRoles` are not part of this model. The caller is given as an optional (id, role).
- Response message texts and their interpolation are left out, including the notification's `message` and the e-mail body. ISO-8601 checking of `desiredBy` and JavaScript's string-to-number coercion of `page`, `limit` and quantities are also left out. Quantities and prices are integers. `desiredBy` and `location` are opaque values.
- `NotAdmitted` stands for every answer the middleware gives before a handler runs: failed authentication, the role gate, and the validator's 422. The model does not tell these answers apart.
- Each handler's 500 path (an exception thrown from the store) is left out.
- `backend-server/src/utils/notifications.js` is not part of this model. The e-mail is an outbox entry. Its outcome is an input flag (`emailFails`), and the buyer's address is an input (`buyerEmail`). Push notifications and the record that `sendEmail` itself may write are not modelled.
- Concurrency between simultaneous requests is left out. Each handler runs to completion on its own.
- Schema-level validation is left out, as are `updatedAt` timestamps, the swagger documentation and the workflow script.
- Controller.DemandController.List: requires the paging that the route admits (page ≥ 1, 1 ≤ limit ≤ 200). What Mongoose does with a negative skip or limit, for a call that bypasses the route, is not modelled.
- The single-demand route `GET /demands/:id` has no admission rule beyond the id format, so it is modelled by `Controller.DemandController.GetById` alone.

## Notes on the code

- An admin passes the update/cancel guard in every state. An admin can therefore cancel an accepted or rejected demand, and the seller stays recorded. The rule "a seller is recorded exactly when the demand is accepted or rejected" does not hold after that. `Lifecycle.AdminCancelKeepsSeller` shows this. The invariant the model keeps is the part that does hold: a seller implies the demand is not open, and accepted or rejected implies a seller.
- The update validator only asks that `commodity` be a string, so, as far as the route's validator goes, an update may store an empty commodity; the schema-level validation that might refuse it is not part of this model.
- The create handler on its own turns away only a missing or zero quantity. A negative quantity is stopped by the route's validator, not by the handler.
- The list route attaches no authentication. Unless an application-wide middleware sets the caller, every list request takes the anonymous branch and sees open demands only.
