# Login-as-upsert handler: a Dafny model

This project models the `POST /login` handler of a small Express/Mongoose
backend, together with the `log_reg_form` collection it writes to.

For each request the handler does four things:

- It takes `phoneNumber` and `password` from the JSON body. A missing or
  falsy field is answered with 400. So is a phone number whose trimmed length
  is under ten.
- It upserts one record keyed by the trimmed phone number. The update sets
  only `phoneNumber` and `password`.
- It answers 200 with the stored phone number. A rejected write gets a 500
  with a fixed message. A synchronous exception (calling `trim` on a
  non-string) gets another 500.
- It never compares against a stored password. Every valid login overwrites
  it.

The model has four modules:

- `Js` (`js.dfy`) holds the JavaScript semantics the handler relies on:
  - the values a JSON field can hold (`JsValue`), with `Undefined` for an
    absent field;
  - truthiness (`Truthy`, the meaning of `!x`);
  - `String.prototype.trim` (`Trim`), over the full ECMAScript
    WhiteSpace and LineTerminator set;
  - `length` as a count of UTF-16 code units (`Utf16Length`).
- `FormData` (`form_data.dfy`) holds the record type and the collection:
  - the record the schema declares (`Record`, with `pin` an `Option`;
    `None` is the schema's `null` default);
  - the collection as a map from phone number to record;
  - `Keyed`: every record sits under its own phone number, which is the
    unique index;
  - `Upsert`: the upsert as a specification function;
  - the `Store` class, whose `FindOneAndUpdate` method performs the write in
    place, as one atomic step.
- `Server` (`server.dfy`) holds the handler:
  - `Validate`: the early-return validation, including the `catch` of the
    TypeError thrown by `trim`;
  - `Reply`: the promise chain's mapping of the write's outcome to a reply;
  - `Handle`: the whole request as a function from the old collection to a
    reply and a new collection;
  - `Login`: the handler as a method on a `Store`, proved to match `Handle`;
  - lemmas for the properties the handler promises.
- `Wrappers` (`wrappers.dfy`) holds `Option`.

The store's success or failure is not decided by the model. It is the
parameter `fault: Option<string>`: `None` means the write is accepted, and
`Some(detail)` means it is rejected with that error.

Some facts about the code the model keeps:

- The handler has no connection-readiness guard and no 503 reply. It calls
  `findOneAndUpdate` directly.
- The request's `pin` is never read and never written. A stored pin
  survives every login.
- The handler reads only the phone number and the password; there is no
  PIN-entry step.
- The success reply is `{ success, message, data: { phoneNumber } }`.

## Model

| member | source | states |
|---|---|---|
| `Js.Truthy` | backend/index.js:31 | `!x` in the presence check: the falsy values are exactly undefined, null, false, 0 and the empty string |
| `Js.SkipLeading` | backend/index.js:39 | the scan `trim` does from the left: everything it skips is whitespace, and it stops at a non-whitespace character or at the end |
| `Js.SkipTrailing` | backend/index.js:39 | the scan `trim` does from the right: everything it skips is whitespace, and it stops after a non-whitespace character or at the start |
| `Js.Trim` | backend/index.js:39 | `phoneNumber.trim()` has no whitespace at either end and is no longer than its input |
| `Js.TrimSplit` | backend/index.js:39 | `trim` removes only whitespace: the input is the trimmed string with whitespace in front and behind |
| `Js.Utf16Length` | backend/index.js:39 | `.length` counts UTF-16 code units: between one and two per character, and zero only for the empty string |
| `Js.Utf16LengthOfBmp` | backend/index.js:39 | for a string of Basic Multilingual Plane characters, such as an ordinary phone number, `.length` is the number of characters |
| `Js.TrimOfPadded` | backend/index.js:39 | a string with no whitespace at its ends, padded with whitespace on both sides, trims back to itself |
| `Js.TrimIgnoresPadding` | backend/index.js:47-48 | strings that differ only in surrounding whitespace trim to the same key |
| `Js.TrimIdempotent` | backend/index.js:47-48 | the trimmed key is already trimmed: trimming twice is trimming once |
| `Js.TrimOfWhitespace` | backend/index.js:39 | a whitespace-only phone number trims to the empty string |
| `FormData.SchemaValid` | backend/models/FormData.js:4-12 | the schema's `required` constraints: a record that satisfies them has a non-empty phone number and a password that is neither undefined nor null |
| `FormData.KeyedIsUnique` | backend/models/FormData.js:7 | the unique index, modelled as `Keyed` (each record sits under its own phone number): two records of a keyed collection have the same phone number exactly when they are the same record |
| `FormData.Upsert` | backend/index.js:46-50 | after the upsert, a record exists under the key, with that phone number and the supplied password. An existing record keeps its pin and a new record's pin is null. Every other record is unchanged, and no other key appears. |
| `FormData.UpsertKeepsInvariants` | backend/models/FormData.js:3-12 | an upsert keeps each record under its own phone number (the unique index). It keeps the required fields present when the key is non-empty and the password present. |
| `FormData.UpsertLeavesOneRecord` | backend/models/FormData.js:4-8 | after an upsert exactly one record has the upserted phone number |
| `FormData.UpsertIdempotent` | backend/index.js:46-50 | repeating the same upsert changes nothing further |
| `FormData.UpsertLastWins` | backend/index.js:48 | two upserts of one key leave what the second alone leaves: the later password overwrites the earlier one |
| `FormData.UpsertsCommute` | backend/index.js:47 | upserts of different keys commute: each touches only its own record |
| `FormData.Store.FindOneAndUpdate` | backend/index.js:46-50 | an accepted write replaces the collection by `Upsert` of it and returns the updated document (`new: true`). A rejected write leaves the collection as it was and returns the error. Both keep the unique-index invariant. |
| `Server.Text` | backend/index.js:32-72 | the five literal messages the handler sends, one per outcome; none is empty |
| `Server.TextsDistinct` | backend/index.js:32-72 | the five messages are pairwise different, so the message alone tells the client which outcome it got |
| `Server.Validate` | backend/index.js:28-44 | a write goes ahead only when all of these hold: the phone number is a string, the key is its trim, and that key has no edge whitespace and at least ten code units; the password is present. Every early answer is a 400 or a 500 with `success: false` and no data. |
| `Server.Reply` | backend/index.js:51-66 | the reply is 200 and `success: true` exactly when the write succeeded, and then its data is the stored phone number. A rejection becomes 500 with the fixed message. |
| `Server.Handle` | backend/index.js:26-74 | a 200 means the store accepted a valid request and the collection is its `Upsert`. Any other reply leaves the collection untouched. The unique-index invariant and the schema's required fields are preserved. |
| `Server.Login` | backend/index.js:26-74 | the handler run in place on the store gives the reply and the new collection that `Handle` gives, and keeps the store's invariant |
| `Server.MissingFieldRejected` | backend/index.js:31-36 | a missing or falsy phone number or password gives 400 "Phone number and password are required" and writes nothing |
| `Server.NonStringPhoneRejected` | backend/index.js:67-73 | a truthy phone number that is not a string makes `trim` throw. The catch answers 500 "Internal server error…" and nothing is written. |
| `Server.ShortPhoneRejected` | backend/index.js:39-44 | a phone number shorter than ten code units after trimming gives 400 "Please enter a valid phone number" and writes nothing |
| `Server.WhitespacePhoneRejected` | backend/index.js:31-44 | a whitespace-only phone number passes the presence check but is rejected as invalid (400), and nothing is written |
| `Server.AcceptedLoginUpserts` | backend/index.js:46-58 | an accepted valid login answers 200 "Login successful" with data equal to the trimmed phone number. Exactly one record then has that number, and it carries the supplied password. |
| `Server.RejectedWriteAnswers500` | backend/index.js:60-66 | a rejected write answers 500 with the fixed message, whatever the error's detail, and nothing is written |
| `Server.LoginIdempotent` | backend/index.js:46-50 | repeating an accepted request gives the same reply and the same collection as the first call |
| `Server.LatestPasswordWins` | backend/index.js:46-50 | two accepted logins whose phone numbers trim to the same key, padded or not, leave the collection the second alone would leave |
| `Server.PaddingIrrelevant` | backend/index.js:39-48 | phone numbers that differ only in surrounding whitespace get the same reply and address the same record |
| `Server.LoginTouchesOnlyItsKey` | backend/index.js:46-50 | a login leaves every record under any other key unchanged and adds no other key |
| `Server.PinSurvivesLogin` | backend/index.js:46-50 | a login never changes a stored pin, and a record it creates has pin null |
| `Server.PinIgnored` | backend/index.js:28 | the body's `pin` changes neither the reply nor the collection |
| `Server.ReplyHidesSecrets` | backend/index.js:51-72 | the reply depends only on the phone number, on whether the password is present, and on whether the write succeeded. It never reveals the password, the pin, the stored records or the error's detail. |
| `Server.ExampleSession` | backend/index.js:26-74 | a first login for 5551234567 answers 200 with that number. A second login with another password leaves one record with the new password and no pin. Then phone number "123" is refused with 400 and the store is unchanged. |

## Left out

- Express, CORS and dotenv setup, `app.listen`, the `/health` route, the 404 handler, the error middleware and `console` logging (backend/index.js:1-23, 76-89). These are framework plumbing and I/O.
- The database connection (`connDB`, backend/config/db.js). It is network I/O with only a log line on each outcome.
- The React front end. It is UI and network code.
- The asynchrony of the promise chain. The write is one atomic step, and requests do not interleave. Two concurrent first logins for one number, which the unique index would turn into a duplicate-key rejection, are covered only as a rejected write.
- Mongoose casting and validation:
  - a non-string password is stored as the JSON value it was, not cast to a string;
  - a cast failure appears only as a rejected write;
  - `findOneAndUpdate` does not run the schema validators, so the schema's required fields hold because the handler's validation guarantees them.
- FormData.SchemaValid: reads the password's `required` as the handler's own presence check (a truthy value). After casting, Mongoose would also accept `0` or `false` as the strings "0" and "false". The handler never lets those through, so the difference does not reach the store.
- A request with no parsed body is not modelled. Destructuring `undefined` would throw, which the catch would turn into a 500. The body is always an object here.
- JSON numbers are integers in the model. Only zero versus non-zero matters to the handler's checks; a fractional numeric password, which the handler would pass to the store as it is, cannot be represented.
- JavaScript strings with unpaired surrogates cannot be represented, because a Dafny `char` is a Unicode scalar value.
- The whitespace set is the Space_Separator list as of Unicode 15. A JavaScript engine uses its own Unicode version.
- The reply's message is one of five fixed values (`Server.Message`). `Server.Text` gives the exact text of each. HTTP headers and JSON serialisation are not modelled.
