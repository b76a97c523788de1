# Paid orders and user records of the event app, modelled in Dafny

This project models the two write paths of the event application:

- the **Stripe webhook** (`app/api/webhooks/stripe/route.ts`): a signature
  gate, a dispatch on the event type, the order record built from a
  completed checkout session (the session id as `stripeId`, `eventId` and
  `buyerId` from the metadata with `''` as default, the amount in cents
  turned into a major-unit string) and the mapping of the store's outcome to
  an HTTP status;
- the **order-data reference helpers** of the order test
  (`__tests__/api/simple-order.test.ts`): `createOrderData` and the
  first-failure validator `validateOrderData`;
- the **find-or-create user endpoint** (`app/api/create-user/route.ts`): 401
  without an identity, the existing record returned unchanged, otherwise one
  record inserted with the identity as key, 500 on any thrown error;
- the **client-side user registration** (`components/shared/UserCreator.tsx`):
  the defaults filled into the request body and the `userCreated` flag that
  stops requests once one has succeeded.

Files:

| file | module | contents |
|---|---|---|
| `wrappers.dfy` | `Wrappers` | `Option`, standing for `null`/`undefined` |
| `decimal.dfy` | `Decimal` | decimal notation of naturals and its reading, both round trips |
| `money.dfy` | `Money` | cents to major-unit string, a reference reader, exactness and shape |
| `orders.dfy` | `Orders` | the order record, `createOrderData`, `validateOrderData` |
| `stripe_webhook.dfy` | `StripeWebhook` | the webhook handler as a total function |
| `create_user.dfy` | `CreateUser` | the endpoint as a function `Post` and as a class over the users collection |
| `user_creator.dfy` | `UserCreator` | body defaults, the flag as a step function and as a class |

How the pieces are modelled:

- The amount conversion works on integers. The integer part is `c / 100`.
  The fraction is the two digits of `c % 100` with a trailing zero removed,
  and there is no dot when the remainder is 0. A negative amount gets a `-`
  in front, as JavaScript prints it. Exactness is stated against an
  independent reader, `Money.ParseMajor`: every formatted amount reads back
  as the same number of cents.
- The signature check is an oracle. The handler receives `Some(event)` when
  the Stripe library accepted the request and `None` when it threw.
- `createOrder` is an outcome parameter: the stored record, or a failure.
  The handler result names the order passed to `createOrder`, if it was
  called, so "no order is written" is a statement about the model.
- The users collection is a sequence of records. `findOne` scans it and
  `createUser` appends to it. Failures of `auth()`, of the lookup and of the
  insert are a `Fault` parameter. The invariant is "at most one record per
  `clerkId`": `HandlePost` keeps it, and the lemmas about repeated calls
  rest on it.
- Clock readings (`new Date()`, `Date.now()`) are parameters.

The webhook handler does not look up existing orders by `stripeId`. It does
not reject an empty `eventId` or `buyerId`. It maps every failure of
`createOrder` to 500 (`app/api/webhooks/stripe/route.ts:23-43`). So missing
metadata is written as `''`, and a redelivered event is written again; the
lemmas `StripeWebhook.MissingMetadataStillWritten` and
`StripeWebhook.RedeliveryWritesAgain` state these facts. No idempotency is
claimed for the webhook path: any duplicate protection lives inside
`createOrder`, which is not part of this model. The user defaults are filled
in by the client component, not by the endpoint: the endpoint copies
whatever the body holds.

## Model

| member | source | states |
|---|---|---|
| `Money.FormatCents` | app/api/webhooks/stripe/route.ts:33 | the major-unit string is never empty and starts with `-` exactly for a negative amount |
| `Money.FormatCentsRoundTrip` | app/api/webhooks/stripe/route.ts:33 | reading the string back gives exactly the amount in cents: it is the exact decimal of `amount / 100` |
| `Money.FormatCentsInjective` | app/api/webhooks/stripe/route.ts:33 | different amounts give different strings |
| `Money.FormatCentsCanonical` | __tests__/api/simple-order.test.ts:9 | the string is in shortest notation (`CanonicalMajor`): an optional `-`, an integer part without leading zero, and, only if there is a fraction, a dot and one or two digits not ending in `0`; never "-0" |
| `Money.CanonicalMajorUnique` | app/api/webhooks/stripe/route.ts:33 | the shortest notation of an amount is unique: any canonical string that reads as `c` cents is `FormatCents(c)` |
| `Money.FormatCentsExamples` | __tests__/api/simple-order.test.ts:29-35 | 2500 gives "25", 1000 gives "10", 99 gives "0.99", 0 gives "0", -250 gives "-2.5" |
| `Decimal.CanonicalRoundTrip` | app/api/webhooks/stripe/route.ts:33 | every digit string without a leading zero is the notation of its own value (used for the uniqueness of the amount's notation) |
| `Decimal.DecimalRoundTrip` | app/api/webhooks/stripe/route.ts:33 | the decimal notation of a natural reads back as that natural |
| `Orders.CreateOrderData` | __tests__/api/simple-order.test.ts:4-12 | the three ids are copied unchanged, the total reads back as the amount in cents and is in shortest notation, the total is never empty, and `createdAt` is the clock reading |
| `Orders.ValidateOrderData` | __tests__/api/simple-order.test.ts:14-20 | the result is null exactly when all four fields are non-empty; otherwise it is the message of the first empty field in the order stripeId, eventId, buyerId, totalAmount |
| `Orders.CreatedOrderValidity` | __tests__/api/simple-order.test.ts:4-20 | an order from `createOrderData` passes validation exactly when its three ids are non-empty |
| `Orders.CreateOrderDataExamples` | __tests__/api/simple-order.test.ts:22-37 | the asserted fields of the `createOrderData` test |
| `Orders.ValidateOrderDataExamples` | __tests__/api/simple-order.test.ts:39-51 | the valid order gives null; an empty stripeId or eventId gives its message |
| `StripeWebhook.MetadataField` | app/api/webhooks/stripe/route.ts:31-32 | the value for the key when the metadata has it; any non-empty result comes from the metadata; otherwise `''` |
| `StripeWebhook.TotalAmount` | app/api/webhooks/stripe/route.ts:33 | "0" when the amount is absent or 0; the string reads back as the amount in cents (0 when absent) and is in shortest notation, with no trailing zeros |
| `StripeWebhook.TotalAmountDetermined` | app/api/webhooks/stripe/route.ts:33 | the total is exactly `(amount / 100).toString()` for the amount, with an absent amount as 0 |
| `StripeWebhook.OrderFromSession` | app/api/webhooks/stripe/route.ts:24-35 | `stripeId` is the session id unchanged; `eventId` and `buyerId` are the metadata values or `''`; the total is `TotalAmount` of the session's amount, reads back as the amount (0 when absent) and is in shortest notation; `createdAt` is the clock reading |
| `StripeWebhook.HandleWebhook` | app/api/webhooks/stripe/route.ts:7-47 | a failed signature check gives 400 and no write; other event types give 200 "OK" and no write; a completed checkout session writes the order built from it; insert success gives 200 with the stored order and failure gives 500 "Failed to create order"; a write happens exactly for a verified completed session |
| `StripeWebhook.WebhookOrderMatchesCreateOrderData` | app/api/webhooks/stripe/route.ts:29-35 | the webhook builds the same order as `createOrderData` for the same ids, with an absent amount read as 0 |
| `StripeWebhook.MissingMetadataStillWritten` | app/api/webhooks/stripe/route.ts:31-37 | without metadata the order is still written with `''` ids, and the reference validator would reject it |
| `StripeWebhook.RedeliveryWritesAgain` | app/api/webhooks/stripe/route.ts:23-37 | the same completed event delivered twice is written twice with the same `stripeId`: the handler itself does not deduplicate |
| `StripeWebhook.CompletedCheckoutScenario` | app/api/webhooks/stripe/route.ts:23-39 | 2500 cents with metadata E1/U1 writes the order {"25", "E1", "U1"} and answers 200 with the stored record |
| `StripeWebhook.IgnoredEventScenario` | app/api/webhooks/stripe/route.ts:23-46 | a `payment_intent.created` event answers 200 "OK" and writes nothing |
| `CreateUser.FindByClerkId` | app/api/create-user/route.ts:19 | a found record is in the collection and has the id; nothing is found exactly when no record has the id |
| `CreateUser.UnauthenticatedIgnoresStore` | app/api/create-user/route.ts:9-13 | with no (or an empty) user id the answer is 401 whatever the store holds, the body is or the store does, and the store is untouched |
| `CreateUser.ExistingUserReturned` | app/api/create-user/route.ts:19-23 | an existing record with the id is returned unchanged with "User already exists" and nothing is inserted |
| `CreateUser.NewUserInserted` | app/api/create-user/route.ts:26-35 | for a new id exactly one record is appended; its `clerkId` is the auth id and the other fields come from the body; the answer is 200 "User created" with that record |
| `CreateUser.Post` | app/api/create-user/route.ts:7-40 | the endpoint as a function of the store, the auth id, the body and the faults: the only answers are 200, 401 and 500; 401 exactly when `auth()` gave no id; every 200 carries a record with the caller's id |
| `CreateUser.FailureExactlyOnThrow` | app/api/create-user/route.ts:9-39 | the answer is 500 "Failed to create user" exactly when something throws: `auth()`, parsing the body, connecting or looking up, or, for a new id, reading a `null` body or inserting; the store is then unchanged |
| `CreateUser.FailureChangesNothing` | app/api/create-user/route.ts:36-39 | every 500 answer carries "Failed to create user" and leaves the store as it was |
| `CreateUser.StoreGrowsOnlyOnCreate` | app/api/create-user/route.ts:7-40 | the store is either unchanged or grows by exactly the record returned with 200 "User created" |
| `CreateUser.UniqueCountsAtMostOne` | app/api/create-user/route.ts:19-33 | a collection without duplicate ids holds at most one record per id |
| `CreateUser.PostKeepsUnique` | app/api/create-user/route.ts:19-35 | every request keeps the collection free of duplicate ids |
| `CreateUser.RepeatedPostIsIdempotent` | app/api/create-user/route.ts:19-35 | two calls with the same id leave at most one record for it, and after a 200 answer the second call changes nothing |
| `CreateUser.TwoIdentitiesTwoRecords` | app/api/create-user/route.ts:19-35 | two distinct new ids give two new records, in call order |
| `CreateUser.UserCollection.FindOne` | app/api/create-user/route.ts:19 | the scan returns the first record with the id, or none |
| `CreateUser.UserCollection.Insert` | app/api/create-user/route.ts:26-33 | the collection grows by the one record |
| `CreateUser.UserCollection.HandlePost` | app/api/create-user/route.ts:7-40 | the new collection and the response are those of `Post` on the old collection, and no duplicate id appears |
| `UserCreator.BuildUserData` | components/shared/UserCreator.tsx:14-20 | email and photo pass through; username is the user's when truthy, else exactly `user_` followed by the decimal clock reading (`PlaceholderUsername`), which reads back; first and last names default to "Unknown" and "User" when falsy; the three names are never empty |
| `UserCreator.PlaceholderRoundTrip` | components/shared/UserCreator.tsx:16 | the timestamp in a placeholder username reads back |
| `UserCreator.PlaceholdersDistinct` | components/shared/UserCreator.tsx:16 | placeholders made at different times differ |
| `UserCreator.RegisteredUserHasNames` | components/shared/UserCreator.tsx:14-26 | a body built by the component and received for a new id is stored under that id with non-empty username, first and last names |
| `UserCreator.RunEffect` | components/shared/UserCreator.tsx:12-36 | a request is sent exactly when the user is loaded, signed in, present and the flag is false; the body is the defaulted user data; the flag becomes true only on an ok response |
| `UserCreator.OnceOnly` | components/shared/UserCreator.tsx:10-41 | over any sequence of effect runs: once the flag is set nothing more is sent, at most one request succeeds, and the flag ends set exactly when one did |
| `UserCreator.Creator.CreateUserInDb` | components/shared/UserCreator.tsx:11-38 | the body sent and the new flag are those of `RunEffect` on the old flag |

## Left out

- The signature computation (HMAC over the raw body, the header format, constant-time comparison) belongs to the Stripe library; the model takes its verdict as an input.
- The bodies of `createOrder` and `createUser` and the user model are not part of this model; their outcomes are parameters. What the store adds to a record (`_id`, defaults, its own validation) is not modelled.
- Duplicate protection for orders: the handler has none, and `createOrder` is not part of this model. Nothing in the model claims that a redelivered event yields one order.
- `Money.FormatCents`: floating point is not modelled. The amount is an integer number of cents. The model does not cover the exponent notation JavaScript uses from 10^21 on, non-integer amounts, or `NaN`.
- `Orders.ValidateOrderData`: the source accepts any object. The model reads each field as a string, with a missing field read as `""`. Non-string values (numbers, `null`) are not modelled.
- `StripeWebhook.MetadataField`: metadata is a string-to-string map. Non-string metadata values are not modelled.
- The find-then-insert race between concurrent create-user requests is not modelled; requests are sequential.
- Logging (`console.log`/`console.error`), the database connection cache in `lib/database/index.ts`, and the JSON encoding of responses are not modelled.
- UserCreator.OnceOnly: "at most one request succeeds" relies on each run's request finishing before the next run starts. In the source, an effect re-run while a request is still pending sends again. A "User already exists" answer is also ok, so a second success against the endpoint is harmless but is not excluded by the component.
- React's effect scheduling, re-renders and `fetch` are not modelled: each effect run is one call, and its request outcome is an input. The flag is modelled as read and written synchronously.
- The event-form validator tests, the number and date formatting helpers, the UI components, the middleware and the configuration files are not part of this model.
