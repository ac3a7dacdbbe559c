# Accounts, one-time passcodes and products: a Dafny model

This project models an Express/MongoDB back end with three parts:

- **User accounts** (`controllers/userController.js`): registration, verification of the e-mail address with a one-time passcode (OTP), login, account deletion, password change, forgotten-password and reset flows, and profile reading and editing.
- **Bearer-token middleware** (`middlewares/authMiddleware.js`): it turns the `Authorization` header into the caller identity `req.user`.
- **Product catalogue** (`controllers/produitController.js`): create, list with paging and search, read one, update, delete, and list the products of one user. Each operation checks whether the caller owns the product or is an administrator.

## How the model is built

The MongoDB collections are sequences in storage order:

- `findOne` is the first document that matches (`Store.FindFirst`).
- `find` and `deleteMany` keep the documents a filter selects, or drops them (`Store.Select`).
- `findByIdAndDelete` removes the document found at a position (`Store.RemoveAt`).
- Document ids are natural numbers handed out from a counter. They are distinct and below the counter, which is the invariant `WellFormed`.

Each handler that writes is a pure step function from the collections to an `Outcome`: the HTTP response together with the new collections. The class methods `Accounts.AccountService.*` and `Catalogue.ProductTable.*` carry out the same step on fields updated in place. Each method ensures that its response and new state are exactly the step function's outcome, and that it keeps `Valid()`.

Handlers that only read (`login`, `getProfile`, `getAllProducts`, `getProductById`, `getProductsByUser`) are functions of the collections. The middleware is a function of the header and of the token verifier's result.

The JavaScript operations the handlers depend on are written out in `JsText`:

- truthiness of request fields;
- `String.prototype.trim` over the ECMAScript white-space set;
- `split(" ")`;
- `parseInt`, with sign, `0x` prefix and the digit-prefix rule;
- `parseInt(v) || d`.

Foreign capabilities are parameters:

- bcrypt is `hash: string -> string`, and `compareSync(pw, h)` holds iff `hash(pw) == h`;
- `jwt.verify` is `verify: string -> VerifyResult`;
- `generateOTP`, `uuid.v4`, `Date.now()` and `new Date()` are the arguments `code`, `otpToken` and `now`;
- the regular-expression search in `getAllProducts` is `matches: string -> bool`.

Sending mail has no effect in the model.

### Behaviour worth knowing

- **Login claims:** the token signed at login carries only `userId` and `email`, with no `role`. The middleware therefore gives every such caller the role "user" (`Session.LoginTokenAuthenticates`).
- **Reading uses `role`:** `getProductById` admits an administrator through `req.user.role === "admin"`.
- **Writing and per-user listing use `isAdmin`:** `updateProduct`, `deleteProduct` and `getProductsByUser` test `req.user.isAdmin`, which the middleware never sets. So nobody is an administrator for writing (`Catalogue.AdminRoleOnlyReads`, `Session.LoginSessionOwnsOnly`).
- **`resetPassword` checks neither timing nor length:** it does not look at the OTP's age, so a reset-password OTP never expires (`Accounts.ResetFlow`). It does not check the new password's length either.
- **A failed mail send is a 500:** when sending the mail fails, the catch block answers 500, although the user and the OTP are already stored.

## Model

| member | source | states |
|---|---|---|
| Common.Status.Code | controllers/userController.js:17 | the wire code of each status; it is below 300 exactly for 200 and 201 |
| Store.FindFirst | controllers/userController.js:15 | `findOne` returns the first document in storage order that matches; it is None iff no document matches |
| Store.Select | controllers/produitController.js:307 | `find` returns no more documents than are stored, and every one it returns passes the filter |
| Store.SelectMembers | controllers/produitController.js:307 | a document is in the result of `find` iff it is stored and the filter accepts it |
| Store.RemoveAt | controllers/produitController.js:281 | deleting the document at one position leaves the others in order, one fewer |
| JsText.TrimStart | controllers/produitController.js:17 | the result is a suffix of the input, what was dropped is all white space, and it does not start with white space |
| JsText.TrimEnd | controllers/produitController.js:17 | the result is a prefix of the input, what was dropped is all white space, and it does not end with white space |
| JsText.Trim | controllers/produitController.js:35 | the trimmed text is no longer than the input and neither starts nor ends with white space |
| JsText.TrimDecomposes | controllers/produitController.js:35 | the input is the leading white space, then the trimmed text, then the trailing white space |
| JsText.TrimIdempotent | controllers/produitController.js:35 | trimming twice is trimming once |
| JsText.PaddedTrim | controllers/produitController.js:17 | white space added on both sides of a title does not change its trimmed form |
| JsText.StartPadding | controllers/produitController.js:17 | leading white space added to a text is removed by `trimStart` |
| JsText.EndPadding | controllers/produitController.js:17 | trailing white space added to a text is removed by `trimEnd` |
| JsText.TrimStartAppend | controllers/produitController.js:17 | white space after a text that is not all white space survives `trimStart` |
| JsText.TrimStartAllSpace | controllers/produitController.js:38 | a text made only of white space trims to "" |
| JsText.Split | middlewares/authMiddleware.js:16 | `split(" ")` yields at least one piece, and no piece contains the separator |
| JsText.JoinSplit | middlewares/authMiddleware.js:16 | joining the pieces of `split` with the separator gives back the header |
| JsText.SplitCons | middlewares/authMiddleware.js:16 | splitting text whose first piece lacks the separator gives that piece, then the split of the rest |
| JsText.SplitJoin | middlewares/authMiddleware.js:16 | splitting pieces joined by a separator they lack gives back the pieces |
| JsText.IndexOf | middlewares/authMiddleware.js:16 | the first occurrence of the separator |
| JsText.DigitRun | controllers/produitController.js:79 | `parseInt` reads the longest prefix of digits of the radix |
| JsText.DigitValue | controllers/produitController.js:79 | a digit's value is below the radix |
| JsText.IntOr | controllers/produitController.js:80 | `parseInt(v) \|\| d` is the parsed number unless it is NaN or 0, then the fallback; with a non-zero fallback it is never 0 |
| JsText.FalsyValues | controllers/produitController.js:8 | exactly `undefined`, `null`, `false`, 0 and the empty string are falsy |
| JsText.Present | controllers/userController.js:217 | an optional string field is truthy iff it is present and not empty |
| JsText.ParseIntTextSign | controllers/produitController.js:79-80 | `parseInt` of blank text is NaN, and a negative result needs a minus sign after the leading white space |
| JsText.ParseIntValues | controllers/produitController.js:37 | `parseInt` of `undefined`, `null` or a boolean is NaN, and of a number is that number truncated toward zero |
| JsText.DecimalDigits | controllers/produitController.js:37 | the decimal spelling of a number is a non-empty run of digits whose value is the number |
| JsText.ParseIntOfDecimal | controllers/produitController.js:37 | `parseInt` of an integer's decimal spelling, signed or not, gives back the integer, in exact arithmetic (rounding beyond 2^53 is under Left out) |
| AuthMiddleware.Classify | middlewares/authMiddleware.js:28-65 | an expired or invalid signature is 401; any other error, and a decoded payload without a user id or a non-empty e-mail, is 400; `next` runs iff the payload has both, and then `req.user` carries its user id, its e-mail and its role, or "user" when the role is absent or empty |
| AuthMiddleware.Authenticate | middlewares/authMiddleware.js:3-66 | a missing or empty header is 401; every refusal is 401 or 400; an admitted caller has a non-empty e-mail and role |
| AuthMiddleware.SchemeOf | middlewares/authMiddleware.js:16 | the first name destructured from `split(" ")` is the header up to its first space, or all of it |
| AuthMiddleware.TokenOf | middlewares/authMiddleware.js:16 | the second name is defined iff the header has a space, and is then the text after the first space up to the next |
| AuthMiddleware.SplitFirstTwo | middlewares/authMiddleware.js:16 | for `a + " " + b + tail`, where a and b hold no space, the first two pieces are a and b |
| AuthMiddleware.BearerTokenIsVerified | middlewares/authMiddleware.js:16-28 | for `"Bearer " + token`, with or without a further space and more text, the outcome is exactly the classification of verifying that token |
| AuthMiddleware.DoubleSpaceRejected | middlewares/authMiddleware.js:18-24 | two spaces after the scheme, or nothing after its single space, leave the token empty: 401 whatever the verifier says |
| AuthMiddleware.SchemeRequired | middlewares/authMiddleware.js:18-24 | a header without a space, or with another scheme, is 401 whatever the verifier says |
| AuthMiddleware.AuthenticatedHeaderShape | middlewares/authMiddleware.js:16-43 | an admitted header is "Bearer ", the token, then nothing or a space; the identity is the verified payload's id and e-mail, with the role defaulting to "user" |
| Accounts.RegisterStep | controllers/userController.js:11-57 | 409 iff the e-mail is taken, and then nothing changes; otherwise 201 with the token, an unverified user with the hashed password appended, and a "verify-email" OTP for that user |
| Accounts.VerifyStep | controllers/userController.js:68-127 | the answer is one of 422, 404, 410, 406, 200 and 500; 422 iff the purpose is not "verify-email"; 404 iff no OTP matches; for the matched OTP, the codes and tables of `VerifyFound` |
| Accounts.VerifyFound | controllers/userController.js:88-127 | for the OTP found: 410 iff older than 15 minutes, and then only that OTP is deleted; 406 iff fresh with a different code, and nothing changes; otherwise the owner is marked verified and the OTP deleted, and the answer is 200 iff the owner exists (500 otherwise) |
| Accounts.VerifiedResponse | controllers/userController.js:110-127 | after the update the answer is 200 with the updated user iff `findByIdAndUpdate` found one, and 500 otherwise |
| Accounts.UserByEmail | controllers/userController.js:15 | `findOne({ email })` returns a stored user with that e-mail, if any |
| Accounts.UserById | controllers/userController.js:188 | `findById` returns a stored user with that id, if any |
| Accounts.OtpByToken | controllers/userController.js:78-81 | `findOne({ otpToken, purpose })` returns a stored OTP with both the token and the purpose, if any |
| Accounts.DeleteOtpById | controllers/userController.js:95 | `findByIdAndDelete` changes nothing when no OTP has the id, otherwise removes exactly one; with distinct ids, no OTP with that id remains |
| Accounts.MarkVerified | controllers/userController.js:110-114 | only the user `findById` finds changes, and only its `isEmailVerified`, which becomes true; the same user is found afterwards |
| Accounts.StorePassword | controllers/userController.js:329-331 | only the user `findById` finds changes, and only its password; the same user is found afterwards |
| Accounts.Login | controllers/userController.js:137-172 | 404 iff the e-mail is unknown; else 401 iff the hash differs; else 403 iff unverified; else 200 with claims {id, email}, a 24-hour lifetime and the public user |
| Accounts.DeleteUserStep | controllers/userController.js:182-205 | the answer is 404, 401 or 200; 404 iff there is no such user; 401 iff the password is wrong; 200 iff the user exists and the password matches, and then that user is removed, none of their OTPs remains, and every other OTP is kept; otherwise nothing changes |
| Accounts.UpdatePasswordStep | controllers/userController.js:214-255 | the answer is 400, 404, 401 or 200, checked in that order; 400 iff a field is missing or empty or the new password is shorter than 8; then 404 iff there is no such user; then 401 iff the old password is wrong; 200 iff every check passes, and then only that user's hash is replaced; otherwise nothing changes |
| Accounts.ForgotPasswordStep | controllers/userController.js:267-301 | 404 iff the e-mail is unknown, and then nothing changes; otherwise a "reset-password" OTP for that user is appended and its token returned |
| Accounts.ResetPasswordStep | controllers/userController.js:312-337 | the answer is 404, 406 or 200; 404 iff no reset OTP has the token; 406 iff one has it and the code differs; 200 iff the code matches, and then the owner's hash is replaced and that OTP deleted; otherwise nothing changes |
| Accounts.GetProfile | controllers/userController.js:348-360 | 404 iff there is no such user; otherwise the caller's id, name, e-mail and verification flag, without the hash |
| Accounts.UpdateProfileStep | controllers/userController.js:371-403 | the answer is 400, 404 or 200; 400 iff a non-empty e-mail belongs to another user; then 404 iff there is no such user; 200 iff neither, and then only the caller's document changes, taking the fields present in the body; otherwise nothing changes |
| Accounts.RegisterKeepsWellFormed | controllers/userController.js:21-35 | registration keeps ids distinct and every OTP's owner existing |
| Accounts.VerifyKeepsWellFormed | controllers/userController.js:94-117 | verification keeps the invariant |
| Accounts.RemoveOwnerKeepsOwners | controllers/userController.js:200-201 | removing an account and the OTPs it owns leaves every remaining OTP with an existing owner |
| Accounts.DeleteUserKeepsWellFormed | controllers/userController.js:200-201 | deleting an account, with its OTPs, keeps every remaining OTP's owner existing |
| Accounts.UpdatePasswordKeepsWellFormed | controllers/userController.js:248-250 | a password change keeps the invariant |
| Accounts.ForgotPasswordKeepsWellFormed | controllers/userController.js:279-284 | issuing a reset OTP keeps the invariant |
| Accounts.ResetPasswordKeepsWellFormed | controllers/userController.js:328-333 | a reset keeps the invariant |
| Accounts.UpdateProfileKeepsWellFormed | controllers/userController.js:388-393 | a profile update keeps the invariant |
| Accounts.VerifyExpiryBoundary | controllers/userController.js:90-99 | at exactly 15 minutes the OTP is still accepted; one millisecond later it is 410 and exactly that OTP is removed |
| Accounts.VerifySucceeds | controllers/userController.js:109-127 | the right code in time marks the owner verified, deletes exactly that OTP and returns the verified profile |
| Accounts.VerifyReplayNotFound | controllers/userController.js:116-117 | with unique tokens, a second verification with the same token is 404 and changes nothing |
| Accounts.VerifyKeepsOtherPurposes | controllers/userController.js:78-81 | verification never removes a reset-password OTP |
| Accounts.RegistrationFlow | controllers/userController.js:11-172 | right after registration, login is 403; after verifying with the mailed code within 15 minutes, login is 200 with the new user's id and e-mail |
| Accounts.PasswordChangeTakesEffect | controllers/userController.js:240-250 | after a password change, login with the new password gets past the password check, and the old one is 401 |
| Accounts.ResetFlow | controllers/userController.js:267-337 | forgot-password then reset with the mailed code succeeds at any time and leaves the collections as before except for that user's new hash |
| Accounts.ResetKeepsOtherPurposes | controllers/userController.js:316-333 | a reset never removes an e-mail verification OTP |
| Accounts.DeletedAccountIsGone | controllers/userController.js:188-201 | after an account is deleted, its profile is 404 and deleting it again is 404 |
| Accounts.RegisterKeepsEmailsDistinct | controllers/userController.js:15-25 | registration never creates a second user with the same e-mail |
| Accounts.UpdateProfileKeepsEmailsDistinct | controllers/userController.js:377-393 | a profile update with a non-empty or absent e-mail never makes two users share an e-mail |
| Accounts.AccountService.Register | controllers/userController.js:11-65 | updates the user and OTP collections in place exactly as `RegisterStep`, keeping the invariant |
| Accounts.AccountService.Verify | controllers/userController.js:68-135 | in place, as `VerifyStep` |
| Accounts.AccountService.DeleteUser | controllers/userController.js:182-213 | in place, as `DeleteUserStep` |
| Accounts.AccountService.UpdatePassword | controllers/userController.js:214-264 | in place, as `UpdatePasswordStep` |
| Accounts.AccountService.ForgotPassword | controllers/userController.js:267-309 | in place, as `ForgotPasswordStep` |
| Accounts.AccountService.ResetPassword | controllers/userController.js:312-345 | in place, as `ResetPasswordStep` |
| Accounts.AccountService.UpdateProfile | controllers/userController.js:371-411 | in place, as `UpdateProfileStep` |
| Catalogue.CallerOf | middlewares/authMiddleware.js:31-36 | the caller seen by the product handlers has the middleware's id and role, and `isAdmin` false |
| Catalogue.OwnerRights | controllers/produitController.js:150-154 | an owner may always change, delete and list its own products (`CanModify`, `CanList`), and may read one (`CanRead`) iff its user document exists or its role is "admin" |
| Catalogue.StrangerRights | controllers/produitController.js:218-225 | a caller that is neither owner, nor of role "admin", nor `isAdmin` may neither read, change, delete nor list another user's products |
| Catalogue.AdminRoleOnlyReads | controllers/produitController.js:150-154 | a caller with role "admin" may read a product it does not own, but may not change or delete it, nor list another user's products |
| Catalogue.DescriptionOf | controllers/produitController.js:38 | the stored description is the trimmed text, or "" when absent; it neither starts nor ends with white space |
| Catalogue.ProductById | controllers/produitController.js:133 | `findById`: a returned position holds the product with that id |
| Catalogue.ProductByTitle | controllers/produitController.js:16-19 | `findOne({ titre, user })`: a returned position holds a product of that owner with that title |
| Catalogue.CreateStep | controllers/produitController.js:3-46 | the answer is 400, 409 or 201; 400 iff the title or the price is falsy; 409 iff the caller owns a product with the trimmed title, answering with that product's id, title and date, and nothing changes; 201 iff neither, and then exactly one product is appended, with the trimmed title, `parseFloat` price, the parsed quantity or 1, and the caller as owner |
| Catalogue.ZeroPriceRefused | controllers/produitController.js:8 | the number 0 as price is 400, while the text "0" is accepted |
| Catalogue.QuantityFallback | controllers/produitController.js:37 | an absent or empty quantity is stored as 1 |
| Catalogue.QuantityWritten | controllers/produitController.js:37 | a quantity written as an integer is stored as that integer, except 0, which becomes 1, in exact arithmetic (rounding beyond 2^53 is under Left out) |
| Catalogue.CreateAgainConflicts | controllers/produitController.js:16-35 | after a creation, the same owner creating the title again, even padded with white space, is 409 |
| Catalogue.OtherOwnerMayReuseTitle | controllers/produitController.js:16-19 | another owner may still create a product with that title |
| Catalogue.PageCountBounds | controllers/produitController.js:104 | `Math.ceil(total / limit)`: the least page count covering the total for a positive limit, and the negative quotient rounded toward zero for a negative one |
| Catalogue.PagingOf | controllers/produitController.js:79-81 | page and limit are `parseInt(v) \|\| 1` and `\|\| 10`, never 0, and skip is (page - 1) * limit |
| Catalogue.ListedMembers | controllers/produitController.js:84-91 | without a search term every product is listed; with one, exactly the products whose title the pattern matches |
| Catalogue.Window | controllers/produitController.js:95 | `.skip(s).limit(l)` returns the listed documents from position s, at most \|l\| of them |
| Catalogue.ListProducts | controllers/produitController.js:76-120 | 500 iff the skip is negative; otherwise the data are the listed products from position skip on, at most \|limit\| of them, the count is their number, the total counts every listed product, and the page count is `ceil(total / limit)` |
| Catalogue.DefaultPageContents | controllers/produitController.js:79-95 | without page or limit (or with values parsing to NaN or 0) the answer is page 1 holding the first ten listed products |
| Catalogue.PageContents | controllers/produitController.js:79-105 | with page n and a positive limit, the data are the listed products from (n - 1) * limit to n * limit, in order |
| Catalogue.EveryPositionOnAPage | controllers/produitController.js:81-104 | every listed position falls on exactly one page between 1 and the page count |
| Catalogue.TotalIndependentOfPage | controllers/produitController.js:94-104 | the page asked for changes neither the total nor the page count |
| Catalogue.NoOwnerFilter | controllers/produitController.js:84-96 | without a search term the total is every product of every owner |
| Catalogue.GetProductById | controllers/produitController.js:122-176 | 400 iff the id is malformed; 404 iff it is unknown; 403 iff the caller neither owns the product (with its owner still stored) nor has role "admin"; 500 iff reading is allowed but the owner document is gone; 200 iff allowed and the owner exists, with the owner's name and e-mail |
| Catalogue.Patched | controllers/produitController.js:230-239 | each of the five body fields (title, price, quantity, description, status) is written when present and kept when absent; the id, owner and creation date are kept and `updatedAt` is set |
| Catalogue.UpdateStep | controllers/produitController.js:201-249 | the answer is 400, 404, 403 or 200; 400 iff the body is invalid; 404 iff the id is unknown; 403 iff the caller is neither owner nor `isAdmin`; 200 iff the product exists and the caller may modify it, and then only that product changes |
| Catalogue.DeleteStep | controllers/produitController.js:260-286 | the answer is 404, 403 or 200; 404 iff the id is unknown; 403 iff the caller is neither owner nor `isAdmin`; 200 iff the product exists and the caller may modify it, and then that product is removed |
| Catalogue.DeleteRemovesExactlyOne | controllers/produitController.js:281 | a deletion keeps every other product in order and leaves the id unknown |
| Catalogue.ProductsByUser | controllers/produitController.js:297-316 | 403 iff the caller is neither that user nor `isAdmin`; otherwise exactly that user's products in storage order, with their count |
| Catalogue.CreatedIsListed | controllers/produitController.js:34-41 | a product just created appears in its owner's listing, after the owner's earlier products |
| Catalogue.CreateKeepsWellFormed | controllers/produitController.js:34-41 | creation keeps product ids distinct |
| Catalogue.UpdateKeepsWellFormed | controllers/produitController.js:230-244 | an update keeps product ids distinct |
| Catalogue.DeleteKeepsWellFormed | controllers/produitController.js:281 | a deletion keeps product ids distinct |
| Catalogue.ProductTable.Create | controllers/produitController.js:3-74 | appends to the product collection in place exactly as `CreateStep`, keeping the invariant |
| Catalogue.ProductTable.Update | controllers/produitController.js:201-257 | in place, as `UpdateStep` |
| Catalogue.ProductTable.Delete | controllers/produitController.js:260-294 | in place, as `DeleteStep` |
| Session.LoginTokenAuthenticates | controllers/userController.js:155-162 | the token of a successful login, presented as "Bearer <token>" while it verifies, authenticates as that user with role "user"; if the account's e-mail is empty, it is refused with 400 |
| Session.PayloadOf | controllers/userController.js:155-162 | a login token decodes to the user id and e-mail, with no role |
| Session.LoginSessionOwnsOnly | controllers/produitController.js:150-154 | a caller authenticated by a login token reads, changes, deletes and lists only what it owns |

## Left out

- Password hashing: bcrypt is a deterministic parameter `hash`. Salting is not modelled, and neither is the fact that `hashSync` produces a new hash each time; `compareSync(pw, h)` is `hash(pw) == h`.
- The token library: `jwt.sign` and `jwt.verify` are not modelled. The middleware receives the verifier's result as a parameter, and `Session.PayloadOf` states what a login token decodes to during its lifetime. Signatures, secrets and the 24-hour expiry on the clock are therefore not checked by the model.
- Randomness and time: `generateOTP`, `uuid.v4` and the clock are arguments. Where a property needs tokens to be unique, it says so in a precondition.
- Mail: `transporter.sendMail` has no effect. A send that throws would answer 500 after the records were written; that path is not modelled.
- Schema defaults: `models/userModel.js` and `models/otpModel.js` are not part of this model. The model assumes that a new user has `isEmailVerified` false, that an OTP's `createdAt` is the time of creation, and that there is no unique index on e-mail.
- Caller id in deleteUser and updatePassword: these two handlers read `req.userData.userId` (controllers/userController.js:184, :225), while the middleware sets `req.user`. As wired, that read throws and the answer is 500. The model takes the caller's id as a parameter and models the handler's logic.
- Unimported and undefined names: `mongoose` is not imported at controllers/produitController.js:125, and `validateProductData` is not defined at :203. Both checks are boolean parameters, `idValid` and `bodyValid`.
- Module and route wiring: the controller requires `../models/productModel`, but the schema is in `models/produitModel.js`. The routers refer to handler names that differ from the exports. Express routing and application start-up are not modelled.
- Mongoose behaviour: query casting, `CastError`, `ValidationError`, `runValidators`, the duplicate-key error 11000, `lean` and `select` are not modelled. Neither is the dropping of undefined filter keys, which makes a missing `email` or `otpToken` match any document. Request fields are taken to be strings of the expected type.
- Price: `parseFloat` is kept opaque (`Amount.ParsedFloat`), since floating point is not modelled. `parseInt` of a number whose string form uses an exponent is not modelled either.
- Population: `populate` is reduced to whether the owner document exists and to its name and e-mail (`owner` parameter of `GetProductById`). The populated owner embedded in the update, listing and per-user responses is not part of the response bodies.
- Search: the case-insensitive regular-expression search is the parameter `matches`. Query values that are arrays are not modelled.
- String length: JavaScript counts UTF-16 code units, and the model counts characters. This matters for the 8-character password minimum.
- Errors and concurrency: the catch-all 500 answers, the error details shown in development mode, the message texts, the parallel `Promise.all`, and races between concurrent requests (for instance two creations of one title) are not modelled.
- Accounts.UpdateProfileStep, Catalogue.Patched: a field absent from the body is taken to leave the stored value unchanged. That is how Mongoose 6 and later treat the undefined keys of a `findByIdAndUpdate` update, which they strip. Without `omitUndefined`, Mongoose 5 sends them and the absent fields become null. The files modelled do not pin a Mongoose version.
- JsText.ParseIntOfDecimal, Catalogue.QuantityWritten: `parseInt` is modelled with exact, unbounded integers. JavaScript returns a double, so beyond 2^53 in magnitude the result is rounded (`parseInt("9007199254740993")` is 9007199254740992), and a long enough digit run gives `Infinity`. These two properties, the stored `quantite` of `Catalogue.CreateStep`, and the page and limit arithmetic of `Catalogue.PagingOf` are therefore exact only for integers up to 2^53 in magnitude.
- Catalogue.Window: a negative limit is taken to return at most its absolute value of documents, as the MongoDB driver's single-batch rule does. The driver's behaviour itself is not modelled.
- Accounts.UpdateProfileKeepsEmailsDistinct: the property excludes an empty e-mail. An empty e-mail is falsy, so `updateProfile` skips the uniqueness check and stores "" even when another user has it.
- Accounts.VerifyReplayNotFound: the property assumes that verification tokens are unique. Two OTPs with one token would let a replay find the second.
