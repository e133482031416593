# Fast Feet delivery lifecycle, modelled in Dafny

Fast Feet's backend keeps track of parcels: **recipients**, **delivery men**,
**deliveries**, the **problems** reported on deliveries, and uploaded **files**
(avatars and signature photos). This model covers the lifecycle of a
delivery. A delivery man *collects* a package, which sets its start date.
He *finishes* it with the recipient's signature photo, which sets its end
date and signature. An administrator may *cancel* it, which sets its
cancellation date. The model also covers the administrator's actions that
register, edit, list and remove deliveries, delivery men and recipients,
together with the checks that guard those tables.

Layout, one module per controller:

- `common.dfy` (`Common`) holds the optional value, the response
  `Ok(record) | Err(status, message)`, and the two shapes of request input.
  A `Param` is a route or query parameter read as a number: `Absent`,
  `Numeric(n)` or `NotNumeric`. A `Field` is a key of a JSON body:
  `Omitted` or `Given(v)`. `FindByPk` is the ORM's primary-key lookup.
- `tables.dfy` (`Tables`) holds one datatype per row type and the class
  `Db`. `Db` holds one map per table and the next auto-increment key of
  each table. Its invariant `Valid()` says three things: every key is below
  its table's next key, no two delivery men share an email address, and
  every stored postal code (`cep`) has a JavaScript length of 8. That
  length counts UTF-16 code units, which is what yup's `length(8)`
  measures. The nullable columns of a delivery are `Option`s, as the
  deliveries migration declares them.
- `delivery_handling.dfy` (`DeliveryHandling`) models the delivery man's
  `index` and `update` (collect and finish). It also holds the pure
  functions `Collected` and `Finished`. Each gives the deliveries table
  after one request, or the unchanged table when a check fails. The method
  `Update` changes the `Db` in place, and its postcondition equates the new
  table with `Collected` or `Finished` of the old one.
- `delivery_problems.dfy` (`DeliveryProblems`) models problem listing, problem
  reporting, and cancellation. The source calls cancellation `delete`. It
  is specified by `Canceled`.
- `deliveries.dfy` (`Deliveries`), `delivery_men.dfy` (`DeliveryMen`) and
  `recipients.dfy` (`Recipients`) model the administrator's controllers.
- `lifecycle.dfy` (`Lifecycle`) replays any sequence of collect, finish and
  cancel requests. Start from a table where every delivery is coherent (as
  defined below) and no delivery man has more than 5 pickups on any day.
  Then it proves the following for every such sequence:
  - the table keeps its keys;
  - each delivery only moves forward: a start date is never changed once
    set, a cancellation is never undone, and a finished delivery is frozen;
  - a finished delivery was collected no later than it was finished, and
    was not canceled;
  - no delivery man exceeds 5 pickups on any day.

Time is an integer count of milliseconds. The current instant `now` is a
parameter of every operation that reads the clock. The day of an instant
is the UTC day, and `SameDayWindow` proves that the pickup query's
`[startOfDay, endOfDay]` window holds exactly the instants of that day.

How the source behaves, and so how the model behaves:

- Several actions check their input with yup's `schema.isValid(...)` inside
  a `try`. `isValid` answers a boolean that the code never reads, and it
  does not throw, so those checks refuse nothing. They are not modelled.
  This covers the delivery controller's `index`, `store`, `update` and
  `delete`, the handling controller's `index`, and the problem controller's
  `index`. Only `schema.validate(...)` refuses a request.
- `!id` is true for a missing parameter and for the empty string. Both are
  `Absent`.
- The delivery controller's `index` has no not-found check: for an unknown
  id it answers `null`, so the model gives `One(None)`.
- The delivery controller's `update` refuses to reassign a collected package
  only when the body's `deliveryman_id` is truthy. A body with
  `deliveryman_id: 0` passes that check.
- The daily pickup count includes canceled and finished deliveries.
- Cancelling an already canceled delivery overwrites its cancellation date.
  Cancelling a collected delivery is allowed.
- The recipient controller's `store` copies the body's `addressNumber` into
  `address_number`. Its `update` merges the body as it is, so there
  `addressNumber` has no effect and only `address_number` changes the column.
- The delivery man controller's `update` looks up a man by the body's
  `email` even when the body has no `email`. Sequelize refuses a `where`
  with an undefined value, so such a request fails. The model answers
  `Err(500, …)` and changes nothing.
- The delivery man controller's `update` does not validate `avatar_id`.
  The column is an integer, so the database refuses a text that is not a
  number in it. The model answers `Err(500, …)` and changes nothing.
- yup's address test lets the empty string through. The update schema does
  not require `email`, so `{"email": ""}` passes validation there.
- The delivery controller's `store` inserts the body without checking
  `product`. The column is NOT NULL, so the database refuses a body without
  a product. The model answers `Err(500, …)` and changes nothing.
- The router registers neither the handling controller nor the problem
  controller. Their actions are modelled as they are written.

## Model

| member | source | states |
|---|---|---|
| DeliveryHandling.SameDayWindow | backend/src/app/controllers/DeliveryHandlingController.js:139-146 | An instant lies between the start and the end of the day of `now` exactly when it falls on the same day as `now`. |
| DeliveryHandling.PickupsOfSameDay | backend/src/app/controllers/DeliveryHandlingController.js:139-146 | Two instants of the same day see the same set of pickups. |
| DeliveryHandling.PickupsAfterStart | backend/src/app/controllers/DeliveryHandlingController.js:139-152 | Giving one uncollected delivery of a man the start date `now` adds exactly that delivery to his pickups of that day. It changes no other man's pickups and no other day's. |
| DeliveryHandling.CollectStaysWithinLimit | backend/src/app/controllers/DeliveryHandlingController.js:139-152 | When every collect check passes, the man's pickups of the day grow by exactly one and stay at most 5. |
| DeliveryHandling.ListingsPartition | backend/src/app/controllers/DeliveryHandlingController.js:34-45 | The delivered listing and the pending listing are disjoint. Together they hold every delivery of the man except those canceled and unfinished. |
| DeliveryHandling.Index | backend/src/app/controllers/DeliveryHandlingController.js:13-84 | Refused with 400 when the delivery man does not exist. Otherwise it lists his deliveries: the finished ones when `delivered` is 1, else those neither canceled nor finished. |
| DeliveryHandling.Update | backend/src/app/controllers/DeliveryHandlingController.js:86-186 | Non-numeric ids and any action other than collect or finish are refused with 400 before any lookup. An unknown man, an unknown delivery, a delivery of another man, or a canceled or finished delivery is refused with 400. Collect is refused when already collected (400) or when the man already has 5 pickups today (401). Otherwise `start_date := now` and the new table is `Collected` of the old one, with at most 5 pickups today. A collect never changes the files table or its next key. Finish is refused when not collected (401), when `now` is before the start date (401), or without a photo (400). Otherwise one file is added and `end_date := now`, `signature_id :=` the new file's key. Every refusal changes nothing. |
| Deliveries.MergeLaws | backend/src/app/controllers/DeliveryController.js:132 | Merging a body is idempotent. An empty body changes nothing, and a body giving every column replaces the record. |
| Deliveries.CreatedFromFull | backend/src/app/controllers/DeliveryController.js:92 | Creating from the body that gives every column of a record yields that record. |
| Deliveries.Index | backend/src/app/controllers/DeliveryController.js:44-65 | Without `id`, every delivery. With `id`, that delivery, or null when there is none. |
| Deliveries.Store | backend/src/app/controllers/DeliveryController.js:68-94 | Refused with 400 when the delivery man, then the recipient, does not exist, and refused by the database without a product. Otherwise exactly one delivery is added under a fresh key with the body's columns. Refusals change nothing. |
| Deliveries.Update | backend/src/app/controllers/DeliveryController.js:96-134 | Refused with 400 for an unknown delivery. Refused with 401 if it is canceled (checked first) or finished, or if the body names a delivery man (truthy id) for a collected package. Otherwise the body is merged into that delivery only. |
| Deliveries.Delete | backend/src/app/controllers/DeliveryController.js:136-156 | Removes exactly the requested delivery when it exists. Otherwise 400 and nothing changes. |
| DeliveryProblems.ListingsAgree | backend/src/app/controllers/DeliveryProblemController.js:12-64 | A delivery is in the "deliveries with problems" listing exactly when its own list of problems is non-empty. |
| DeliveryProblems.Index | backend/src/app/controllers/DeliveryProblemController.js:9-65 | Without an id, exactly the deliveries that have at least one problem. With an id, 400 when the delivery does not exist, else exactly its problems. |
| DeliveryProblems.ValidatePayload | backend/src/app/controllers/DeliveryProblemController.js:68-85 | The payload passes exactly when `delivery_id` is a number and `description` is a non-empty string. It then yields the problem with those two fields. |
| DeliveryProblems.Store | backend/src/app/controllers/DeliveryProblemController.js:67-89 | Answers the validation's refusal unchanged, or adds exactly one problem under a fresh key. |
| DeliveryProblems.Delete | backend/src/app/controllers/DeliveryProblemController.js:91-116 | Refused with 400 for a non-numeric id, an unknown delivery, or a finished one. Otherwise only `canceled_at := now`, also on a collected or an already canceled delivery. The new table is `Canceled` of the old one, and the canceled delivery is unfinished. |
| DeliveryMen.ValidateStore | backend/src/app/controllers/DeliveryManController.js:38-51 | Passes exactly when `name` and `email` are present, `email` is an address, and `avatar_id` is absent or a number. Each refusal is a 400. |
| DeliveryMen.ValidateUpdate | backend/src/app/controllers/DeliveryManController.js:84-98 | Passes exactly when `id` is not non-numeric and a given non-empty `email` is an address. An empty `email` passes. |
| DeliveryMen.InsertKeepsEmailsUnique | backend/src/app/controllers/DeliveryManController.js:55-73 | Inserting a man whose address no one has keeps addresses unique. |
| DeliveryMen.RenameKeepsEmailsUnique | backend/src/app/controllers/DeliveryManController.js:106-118 | Giving a man an address that no other man has keeps addresses unique. |
| DeliveryMen.Index | backend/src/app/controllers/DeliveryManController.js:7-35 | Without `id`, every delivery man. With `id`, that man, or 400 when he does not exist. |
| DeliveryMen.Store | backend/src/app/controllers/DeliveryManController.js:37-76 | Refused with 400 when validation fails, when some man already has the address, or when `avatar_id` names no file. Otherwise exactly one man is added. Addresses stay unique. |
| DeliveryMen.Update | backend/src/app/controllers/DeliveryManController.js:78-121 | Refused with 400 without an id, on failed validation, or for an unknown man. Refused when the body has no address (the lookup fails). Refused with 400 when the address belongs to a different man; one's own address is allowed. Refused (500, by the database) when `avatar_id` is not a number. Otherwise the body is merged into that man only. Addresses stay unique. |
| DeliveryMen.Delete | backend/src/app/controllers/DeliveryManController.js:123-147 | Refused with 400 without an id, for a non-numeric id, or for an unknown man. Otherwise exactly that man is removed. |
| Common.Utf16Length | backend/src/app/controllers/RecipientController.js:40 | JavaScript's string length, which `length(8)` checks: at least the number of characters and at most twice it, and zero only for the empty string. |
| Common.Utf16LengthOfBmp | backend/src/app/controllers/RecipientController.js:40 | On text inside the Basic Multilingual Plane, that length is the number of characters. |
| Recipients.ValidateStore | backend/src/app/controllers/RecipientController.js:20-47 | Passes exactly when name, street, city, state and cep are present and cep has a JavaScript length of 8. |
| Recipients.ValidateUpdate | backend/src/app/controllers/RecipientController.js:62-84 | Passes exactly when a given cep has a JavaScript length of 8. Otherwise the cep-length error. |
| Recipients.CepLengthCountsCodeUnits | backend/src/app/controllers/RecipientController.js:37-40 | A cep of four characters outside the Basic Multilingual Plane passes. Seven digits followed by one such character are refused with the cep-length error. |
| Recipients.CepStaysWellFormed | backend/src/app/controllers/RecipientController.js:37-40 | A created recipient that passed validation has a cep of JavaScript length 8. Merging a body that passed update validation keeps that length. |
| Recipients.Index | backend/src/app/controllers/RecipientController.js:6-17 | Without `id`, every recipient. With `id`, that recipient, or 400 when there is none. |
| Recipients.Store | backend/src/app/controllers/RecipientController.js:19-55 | Refused with 400 exactly when validation fails. Otherwise one recipient is added whose `address_number` is the body's `addressNumber`. |
| Recipients.Update | backend/src/app/controllers/RecipientController.js:57-93 | Refused with 400 without an id, when a given cep does not have JavaScript length 8, or for an unknown recipient. Otherwise the body is merged into that recipient only. |
| Lifecycle.PickupsFollowStarts | backend/src/app/controllers/DeliveryHandlingController.js:139-146 | Pickups depend only on each delivery's man and start date. |
| Lifecycle.StepAdvances | backend/src/app/controllers/DeliveryHandlingController.js:123-183 | One collect, finish or cancel keeps the table's keys. In every delivery it keeps the references and the product, never changes a set start date, never undoes a cancellation, and never changes a finished delivery. |
| Lifecycle.StepKeepsCoherent | backend/src/app/controllers/DeliveryHandlingController.js:156-183 | One request keeps every delivery coherent: finished implies collected no later than finished, and finished and canceled never hold together. |
| Lifecycle.StepKeepsDailyLimit | backend/src/app/controllers/DeliveryHandlingController.js:139-152 | If no man has more than 5 pickups on any day, that still holds after one request. |
| Lifecycle.ReplayKeepsInvariants | backend/src/app/controllers/DeliveryHandlingController.js:125-183 | Start from a table that is coherent and within the daily limit. After any sequence of requests, the same keys remain and every delivery has only moved forward. Coherence and the daily limit on every day still hold. |
| Lifecycle.FinishedIsFinal | backend/src/app/controllers/DeliveryHandlingController.js:125-129 | After any sequence of lifecycle requests, a finished delivery is exactly as it was. |

## Left out

- HTTP, the router and the ORM's association loading are left out. The
  `include` and `attributes` projections only shape the JSON. The model
  answers with whole records.
- Validation messages: when several fields fail at once, yup reports one
  of them. The model reports the first failing field in schema order.
  yup's own texts for type errors become one fixed message. Messages that
  interpolate ids are given without the ids.
- Email syntax: yup's address test is the parameter `isEmail`.
- The clock and dates: `new Date()` is the parameter `now`.
  `startOfDay`/`endOfDay` are UTC days of 86,400,000 ms; time zones are not
  modelled.
- Non-numeric and non-integer keys: `findByPk` with a key that is not an
  integer is treated as finding no row. Depending on the database, a
  non-numeric key may raise an error instead.
- JSON nulls sent for NOT NULL columns, and values of the wrong type, are
  not modelled (body fields of non-nullable columns carry values).
- Recipient `address_number`: the Recipient model declares it a number,
  but the Dafny row stores the body's text as it is. The database's cast
  may turn a non-numeric `addressNumber` into an error or an altered value,
  and the model does not capture that.
- JSON nulls in optional columns: only the recipient body's
  `address_number` may be null, because no schema checks it and `update`
  merges it. The delivery man update also merges an unchecked
  `avatar_id: null`, which would clear the avatar; `Param` has no null, so
  the model cannot express that request. A null `complement` fails yup's
  `string()` test; the model has no such input either.
- Foreign keys and `ON DELETE` rules are not modelled. The database would
  refuse a delivery or problem that references a missing row. Deleting a
  delivery man cascades to his deliveries. Deleting a delivery that has
  problems is refused.
- The columns a delivery body may set are its references, product,
  signature and the three timestamps. `created_at`/`updated_at` are not
  modelled.
- Concurrency: each request is atomic. Two collects racing on the daily
  count are not modelled.
- Sessions and authentication (`SessionControler.js`, `authGuard.js`) rely
  on bcrypt and JSON Web Tokens; they are not part of this model.
- File upload: multer's storage is I/O. A signature photo is an optional
  `File` input, and the files table is a map.
- Mail jobs (`CanceledDeliveryMail.js`, `NewDeliveryMail.js`) are queue and
  mail I/O, and they are not part of this model.
- Lifecycle.ReplayKeepsInvariants: the daily limit and coherence are
  proved for sequences of collect, finish and cancel only. Registering or
  editing a delivery writes any start, end or cancellation date the body
  gives, so neither invariant holds across those actions.
