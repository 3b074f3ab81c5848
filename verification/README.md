# Marketplace authorisation and merchant onboarding, in Dafny

This project models the security and onboarding core of a micro-service
marketplace:

- the bearer-token middleware of the services, and the group checks that guard routes;
- the browser's own group test and its password login;
- the identity-provider admin session with its one-shot re-login on an expired session;
- self-service sign-up of merchants and clients;
- the merchant-profile routes of the user service, including the administrator's approval;
- the product service's search, featured list, product read and product-create defaults;
- the add-product form's list parsing, image list and submit guard.

Every operation is a pure function over immutable values:

- A request's outcome is a datatype: `Decision`, `Outcome`, `Reply`, `Response`, `Lookup` or `CreateReply`.
- The user service's state is a `System`. It holds three parts:
  - the local store: users by id, and merchant profiles by the id of their user;
  - the admin session flag;
  - the identity provider's realm: its users and groups.
- Whether a provider call gets through is a script of `Link`s carried in the state. An exhausted script means every later call gets through, which `Reliable` states.
- The token signature check is a parameter: `verify(token)` returns claims or `None`.
- So are `parseFloat` (`None` standing for NaN), the form's `parseInt` of text, the payload decoder and the upload endpoint's answer.
- The product service's `parseInt` of a JSON number is modelled in full (`Catalog.NumberParseInt`): the number is printed first, so a number printed with an exponent keeps only its leading digit.

Modules, one per source component:

| module | file | models |
|---|---|---|
| `Wrappers` | wrappers.dfy | `Option` |
| `Builtins` | builtins.dfy | the JavaScript string and array built-ins the code relies on |
| `Bearer` | bearer.dfy | shared/keycloak-middleware.js |
| `Authorization` | authorization.dfy | shared/authorization-middleware.js |
| `AuthContext` | auth_context.dfy | frontend/src/contexts/AuthContext.tsx |
| `KeycloakAdmin` | keycloak_admin.dfy | user-service/src/lib/keycloakAdmin.ts |
| `LocalStore` | store.dfy | the user service's tables and the lookups the handlers make |
| `Registration` | registration.dfy | user-service/src/controllers/registrationController.ts |
| `MerchantRoutes` | merchant_routes.dfy | user-service/src/routes/merchantRoutes.ts and the admin dashboard's buttons |
| `Catalog` | catalog.dfy | product-service/index.js |
| `ProductForm` | product_form.dfy | frontend/src/app/merchant/products/new/page.tsx |

The `Builtins` module mirrors the JavaScript built-ins:

- `String.prototype.trim` removes the ECMAScript white-space and line-terminator set.
- `split` with a one-character separator.
- `replace` with a string pattern replaces only the first occurrence.
- `length` counts UTF-16 code units.

Where one might expect more than the code does, the model follows the code:

- Slash normalisation is one-directional. A requirement written `/owner` is not met by the group `owner`.
- The any-of check removes the first `/` of a caller's group wherever it stands.
- A merchant decision overwrites the status with no check on the current one. A rejection after an approval is accepted, and the user keeps the MERCHANT role (`MerchantRoutes.RejectAfterApprove`).
- The bearer middleware answers three distinct 401 messages: "No token provided", "Invalid token" and "Invalid token issuer".
- An owner resolver that finds no owner answers 403, not 404.
- Strict id equality lets a caller without a subject claim pass for a resource whose resolver yields `undefined` (`Authorization.AbsentIdsMatch`).
- A resolver that yields `null` refuses every caller who is not a platform owner, id-less callers included, because `undefined === null` is false (`Authorization.NullOwnerRefused`).
- A local unique-email error during sign-up is a 500, not a 409. The store's own error message does not mention "already exists". The provider user created just before stays behind (`Registration.MerchantLocalFailureKeepsProviderUser`, `Registration.ClientLocalFailureKeepsProviderUser`).

## Model

| member | source | states |
|---|---|---|
| `Authorization.Normalize` | shared/authorization-middleware.js:18 | the normalised name always starts with "/"; a slashed name is kept, any other gets "/" in front |
| `Authorization.RequireGroup` | shared/authorization-middleware.js:9-34 | no user gives 401 "Authentication required"; otherwise allow iff a caller group equals the name, or equals "/" + name when the name has no leading "/"; a refusal is 403 "Forbidden" naming the group and echoing exactly the caller's groups |
| `Authorization.RequireAnyGroup` | shared/authorization-middleware.js:40-68 | no user gives 401; otherwise allow iff some caller group is a normalised listed name or becomes a listed name once its first "/" is removed; a refusal is 403 listing the names joined by ", " and echoing the caller's groups |
| `Authorization.RequireOwnerOrAdmin` | shared/authorization-middleware.js:74-105 | no user gives 401 without calling the resolver; a member of "owner" or "/owner" passes without the resolver; anyone else passes iff the resolved owner id strictly equals their id; a mismatch is 403, a `null` owner is 403 for everyone, a throwing resolver 500 |
| `Authorization.NullOwnerRefused` | shared/authorization-middleware.js:90-99 | a resolver yielding `null` refuses every non-owner caller with 403 |
| `Authorization.RequireOwner` | shared/authorization-middleware.js:110 | passes exactly the callers holding "owner" or "/owner" |
| `Authorization.RequireMerchant` | shared/authorization-middleware.js:115 | passes exactly the callers holding "merchant" or "/merchant" |
| `Authorization.RequireClient` | shared/authorization-middleware.js:120 | passes exactly the callers holding "client" or "/client" |
| `Authorization.RequireMerchantOrOwner` | shared/authorization-middleware.js:125 | passes exactly the callers with a group that is "/merchant" or "/owner", or that becomes "merchant" or "owner" once its first "/" is removed |
| `Authorization.RequireGroupMonotone` | shared/authorization-middleware.js:20-22 | adding groups to a caller never turns an allowed `requireGroup` into a refusal |
| `Authorization.RequireAnyGroupMonotone` | shared/authorization-middleware.js:53-56 | adding groups to a caller never turns an allowed `requireAnyGroup` into a refusal |
| `Authorization.SlashedRequirementIsExact` | shared/authorization-middleware.js:18-22 | a requirement that starts with "/" is met only by that exact group |
| `Authorization.SlashedOwnerRefusesBareOwner` | shared/authorization-middleware.js:18-22 | a caller holding only "owner" is refused by `requireGroup('/owner')` and let through by `requireGroup('owner')` |
| `Authorization.AnyOfCoversGroup` | shared/authorization-middleware.js:49-56 | for a listed name that starts with "/" or holds none, whatever `requireGroup` of that name allows, the any-of check allows too |
| `Authorization.InnerSlashSatisfiesAnyOf` | shared/authorization-middleware.js:53-56 | the group "ow/ner" satisfies `requireAnyGroup(['owner'])` but not `requireGroup('owner')` |
| `Authorization.InnerSlashNameRefused` | shared/authorization-middleware.js:53-56 | a caller holding "a/b" passes `requireGroup('a/b')` but is refused by `requireAnyGroup(['a/b'])` |
| `Authorization.AbsentIdsMatch` | shared/authorization-middleware.js:92-93 | a non-owner caller without an id passes when the resolver yields no owner, after the resolver ran |
| `Authorization.OwnerBypassIsRequireOwner` | shared/authorization-middleware.js:81-86 | the owner-or-admin check skips the resolver exactly when `requireOwner` would pass, and then allows |
| `Bearer.TokenOf` | shared/keycloak-middleware.js:35 | "Bearer " followed by the token gives back the header |
| `Bearer.Authenticate` | shared/keycloak-middleware.js:28-70 | a missing header or one not starting with "Bearer " is 401 "No token provided"; a failed verification is 401 "Invalid token"; an issuer other than the two realm URLs is 401 "Invalid token issuer"; otherwise the user carries `sub`, `email`, `name`, `preferred_username` and the token, with absent groups and roles as empty lists |
| `Bearer.OptionalAuth` | shared/keycloak-middleware.js:75-111 | never refuses; yields a user exactly when `authenticateKeycloak` would accept, and then the identical user record |
| `Bearer.BearerRoundTrip` | shared/keycloak-middleware.js:31-35 | a header built from a token is judged on that token's verification alone, and an accepted one carries the token itself |
| `AuthContext.UserFromClaims` | frontend/src/contexts/AuthContext.tsx:134-140 | absent subject, email, name and username become "", absent groups become the empty list; present claims are copied |
| `AuthContext.HasGroup` | frontend/src/contexts/AuthContext.tsx:188-192 | false with no user; otherwise true iff the user holds the group, or "/" + group when the group has no leading "/" |
| `AuthContext.FlagsOf` | frontend/src/contexts/AuthContext.tsx:194-196 | `isOwner`, `isMerchant` and `isClient` hold iff the user holds the bare or slashed group |
| `AuthContext.HasGroupAgreesWithRequireGroup` | frontend/src/contexts/AuthContext.tsx:188-192 | for the same claims, the browser's `hasGroup(g)` holds exactly when the services' `requireGroup(g)` allows; with no user both refuse |
| `AuthContext.UrlToBase64` | frontend/src/contexts/AuthContext.tsx:125 | the length is kept; every "-" becomes "+", every "_" becomes "/", every other character stays |
| `AuthContext.UrlToBase64RoundTrip` | frontend/src/contexts/AuthContext.tsx:125 | on base64url text, the substitution is undone by the encoder's opposite substitution and leaves no "-" or "_" |
| `AuthContext.PayloadSegment` | frontend/src/contexts/AuthContext.tsx:124 | defined iff the token holds a "."; then it is the text after the first "." up to the next "." or the end |
| `AuthContext.LoginWithPassword` | frontend/src/contexts/AuthContext.tsx:94-147 | a non-OK answer throws "Invalid credentials"; any failure leaves the modelled state as it was; success sets authenticated, the token, and the user mapped from the decoded payload |
| `KeycloakAdmin.AuthenticateAdmin` | user-service/src/lib/keycloakAdmin.ts:13-28 | the flag is up exactly when no error is rethrown, and a failed login rethrows its own error |
| `KeycloakAdmin.EnsureAuthenticated` | user-service/src/lib/keycloakAdmin.ts:33-37 | logs in only when the flag is down, and then exactly once |
| `KeycloakAdmin.Recover` | user-service/src/lib/keycloakAdmin.ts:46-54 | a non-401 error is rethrown untouched; after a 401 the flag goes down and the admin logs in once; a working login is always followed by exactly one more run whose outcome and realm are returned unchanged; a failed login rethrows the login's error with the realm untouched |
| `KeycloakAdmin.WithRetry` | user-service/src/lib/keycloakAdmin.ts:42-55 | at most two runs and two logins; a success is one the operation returned; a first success or a non-401 error is returned after one run; a 401 from the first run is always followed by a re-login and, when that works, by a second run whose outcome is passed on; with the flag down the login comes first, and a failed first login is itself retried when it looks like a 401 and rethrown otherwise; a re-login that fails rethrows its own error |
| `KeycloakAdmin.UsersCreate` | user-service/src/lib/keycloakAdmin.ts:72-87 | the provider stores the user, username and email lower-cased, under the next id unless the username or email is taken in any letter case, which is a 409 |
| `KeycloakAdmin.GroupsFind` | user-service/src/lib/keycloakAdmin.ts:110 | the group search returns exactly the groups whose name contains the search text |
| `KeycloakAdmin.UsersAddToGroup` | user-service/src/lib/keycloakAdmin.ts:118-122 | adds the group to the user's memberships, or is a 404 for an unknown user |
| `KeycloakAdmin.TakenIgnoresCase` | user-service/src/lib/keycloakAdmin.ts:72-87 | two emails equal up to letter case are taken together |
| `KeycloakAdmin.UsersFind` | user-service/src/lib/keycloakAdmin.ts:157 | the exact email search returns the realm's users with that email up to letter case, in order |
| `KeycloakAdmin.Representation` | user-service/src/lib/keycloakAdmin.ts:72-87 | username and email are the given email; enabled unless `enabled` is false; email verified; one non-temporary password credential; no groups |
| `KeycloakAdmin.CreateOp` | user-service/src/lib/keycloakAdmin.ts:70-97 | a 409 from the provider becomes "User with this email already exists"; a success appends the lower-cased representation under the next id |
| `KeycloakAdmin.AlreadyExistsMentioned` | user-service/src/lib/keycloakAdmin.ts:92-94 | the conflict error's message contains "already exists" |
| `KeycloakAdmin.CreateKeycloakUser` | user-service/src/lib/keycloakAdmin.ts:60-99 | a success returns the new id and adds exactly the lower-cased representation; a failure leaves the users as they were; with a working provider it succeeds iff the email is free, else fails with a message containing "already exists" |
| `KeycloakAdmin.AddToGroupOp` | user-service/src/lib/keycloakAdmin.ts:108-128 | succeeds only when a group has exactly the name, and then adds that group to the user; a failure changes no user |
| `KeycloakAdmin.FindInFilter` | user-service/src/lib/keycloakAdmin.ts:110-111 | picking the exact name among the search results finds the realm's first group with that name |
| `KeycloakAdmin.AddUserToGroup` | user-service/src/lib/keycloakAdmin.ts:104-130 | with a working provider, succeeds iff the realm has a group of exactly that name and knows the user, and then adds that group to the user |
| `KeycloakAdmin.FindByEmailOp` | user-service/src/lib/keycloakAdmin.ts:156-162 | the first user with the email up to letter case, or none |
| `KeycloakAdmin.GetUserByEmail` | user-service/src/lib/keycloakAdmin.ts:152-164 | returns the realm's first user with the email up to letter case, or none, and changes no user or group |
| `LocalStore.UserByEmail` | user-service/src/routes/merchantRoutes.ts:16 | in a consistent store, finds a user iff one holds the email, and it is that stored user |
| `LocalStore.UserById` | user-service/src/routes/merchantRoutes.ts:14 | finds a user iff the id is in the table, and returns that row |
| `LocalStore.CreateUser` | user-service/src/controllers/registrationController.ts:38-45 | refused iff the email is taken; otherwise the next id holds the new user and the store stays consistent |
| `LocalStore.CreateProfile` | user-service/src/controllers/registrationController.ts:48-59 | refused iff the user already has a profile or does not exist; otherwise the next profile id is used and the store stays consistent |
| `Registration.Validate` | user-service/src/controllers/registrationController.ts:15-21 | a missing or empty email, password or name is 400 with the "required" message; otherwise a password under 8 UTF-16 units is 400 with the length message; the form passes iff neither applies |
| `Registration.SplitName` | user-service/src/controllers/registrationController.ts:24-26 | the first name is the trimmed name up to its first space; with no space the last name repeats it; with a space, first + " " + last rebuilds the trimmed name and the last name is not empty |
| `Registration.ProviderRequest` | user-service/src/controllers/registrationController.ts:29-35 | the provider gets the email and password as given, the split name, and `enabled` true |
| `Registration.ErrorReply` | user-service/src/controllers/registrationController.ts:71-79 | 409 with the duplicate-email message iff the error mentions "already exists", else 500 with the handler's message |
| `Registration.NewMerchantProfile` | user-service/src/controllers/registrationController.ts:48-59 | a new profile is PENDING with commission 5.0 and balance 0.0; a missing or empty mvola number is null |
| `Registration.MerchantLocalWrites` | user-service/src/controllers/registrationController.ts:37-59 | writes a BUYER user with an empty password and its PENDING profile; in a consistent store this happens iff the email is free, and a refusal writes nothing |
| `Registration.RegisterMerchant` | user-service/src/controllers/registrationController.ts:10-80 | validation failures change nothing; the provider user is created before any local write, so a failure leaves the store alone; success creates a BUYER and a PENDING profile and assigns no provider group; a provider conflict is 409 and changes nothing; consistency is kept |
| `Registration.ProvisionClient` | user-service/src/controllers/registrationController.ts:103-113 | creates the provider user, then makes it a member of exactly the "client" group; succeeds, with a working provider and a free email, iff the realm has that group |
| `Registration.RegisterClient` | user-service/src/controllers/registrationController.ts:85-144 | validation failures change nothing; any failure leaves the store alone; success writes one BUYER user after the provider user joined "client"; a provider conflict is 409 and changes nothing |
| `Registration.RegisterMerchantTwice` | user-service/src/controllers/registrationController.ts:74-76 | with a working provider, an acceptable form whose email neither side knows is created; sending it again is 409 and writes nothing, locally or at the provider |
| `Registration.RegisterClientTwice` | user-service/src/controllers/registrationController.ts:138-140 | with a working provider, an acceptable form whose email neither side knows is created when a "client" group exists; sending it again is 409 and writes nothing, locally or at the provider |
| `Registration.MerchantLocalFailureKeepsProviderUser` | user-service/src/controllers/registrationController.ts:29-78 | with a working provider and an email only the local store knows, sign-up is a 500 that leaves the store alone and keeps the provider user just created |
| `Registration.ClientLocalFailureKeepsProviderUser` | user-service/src/controllers/registrationController.ts:104-142 | the same for clients: a 500, the store unchanged, and the provider user kept, already in the "client" group |
| `MerchantRoutes.LookupUser` | user-service/src/routes/merchantRoutes.ts:12-17 | a numeric `userId` finds the user with that id; otherwise a given email finds the user with that email; nothing else finds anyone |
| `MerchantRoutes.Updated` | user-service/src/routes/merchantRoutes.ts:37-42 | an update moves only shop name, logo, address and mvola number, and an absent field keeps its column; status, ids, commission and balance stay |
| `MerchantRoutes.Upsert` | user-service/src/routes/merchantRoutes.ts:35-51 | an existing profile is updated in place; a missing one is created PENDING under the next profile id; only that user's profile changes |
| `MerchantRoutes.UpsertProfile` | user-service/src/routes/merchantRoutes.ts:9-57 | no user and no email is 400; a user not found with an email is created as a MERCHANT named "Unknown" by default; the upsert never changes an existing status; a refusal changes nothing; consistency is kept |
| `MerchantRoutes.UpsertByEmailIdempotent` | user-service/src/routes/merchantRoutes.ts:9-57 | sending the same form by email a second time returns the same profile and changes nothing |
| `MerchantRoutes.UpsertByStaleIdFailsOnRetry` | user-service/src/routes/merchantRoutes.ts:13-29 | a numeric id naming nobody, with a free email, creates a user under a fresh id; the same request again fails with 500 and changes nothing |
| `MerchantRoutes.GetProfile` | user-service/src/routes/merchantRoutes.ts:60-74 | answers the profile of the user with that id, 404 "Merchant not found" when there is none, 500 for a non-integer id |
| `MerchantRoutes.UpsertThenGet` | user-service/src/routes/merchantRoutes.ts:60-70 | after a successful upsert, the read route answers exactly the upserted profile |
| `MerchantRoutes.PendingMerchants` | user-service/src/routes/merchantRoutes.ts:116-126 | the list holds exactly the stored profiles whose status is PENDING |
| `MerchantRoutes.ParseStatus` | user-service/src/routes/merchantRoutes.ts:81-84 | exactly "PENDING", "APPROVED" and "REJECTED" name a status |
| `MerchantRoutes.SyncMerchantGroup` | user-service/src/routes/merchantRoutes.ts:93-105 | best effort: either nothing changes at the provider or the user found by email joins the "merchant" group; with a working provider the join happens whenever both exist |
| `MerchantRoutes.UpdateStatus` | user-service/src/routes/merchantRoutes.ts:77-113 | an unknown profile or an unknown status is 500 with nothing written; otherwise the status is written whatever it was; APPROVED then makes the user a MERCHANT; any other status leaves users and provider untouched; the answer is the profile as written |
| `MerchantRoutes.DecisionIgnoresProvider` | user-service/src/routes/merchantRoutes.ts:93-108 | the reply and the local store after a decision are the same whatever the provider does |
| `MerchantRoutes.RejectAfterApprove` | user-service/src/routes/merchantRoutes.ts:81-91 | approving and then rejecting is accepted; the profile ends REJECTED and the user stays a MERCHANT |
| `MerchantRoutes.DecisionLeavesPending` | user-service/src/routes/merchantRoutes.ts:81-84 | an approval or rejection of a PENDING profile removes exactly that profile from the pending list |
| `MerchantRoutes.RegisteredMerchantIsPending` | user-service/src/controllers/registrationController.ts:48-59 | a merchant who has just signed up appears on the pending list |
| `MerchantRoutes.ApprovalJoinsMerchantGroup` | user-service/src/routes/merchantRoutes.ts:87-101 | with a working provider, approving a user the realm knows by email adds the "merchant" group to that provider user |
| `MerchantRoutes.DashboardDecideAsWritten` | frontend/src/app/admin/dashboard/page.tsx:41-57 | the buttons as written decide on the profile of the user whose id equals the profile's own id |
| `MerchantRoutes.DashboardApprovesWrongMerchant` | frontend/src/app/admin/dashboard/page.tsx:84-90 | for any two pending merchants where the first one's profile id is the second one's user id, approving the first one's row approves the second merchant's profile and makes them a MERCHANT; the first profile stays PENDING and its user is unchanged |
| `MerchantRoutes.CrossedIdsOccur` | frontend/src/app/admin/dashboard/page.tsx:84-90 | a valid store with two pending merchants whose ids are crossed exists: users 1 and 2 with profiles 2 and 1 |
| `MerchantRoutes.DashboardDecide` | frontend/src/app/admin/dashboard/page.tsx:41-57 | keyed by the profile's `userId`, a decision on a listed profile changes exactly that profile's status and answers it |
| `MerchantRoutes.DashboardDecisionClearsRow` | frontend/src/app/admin/dashboard/page.tsx:51-53 | keyed by `userId`, the row the dashboard drops is exactly the profile that leaves the pending list |
| `Catalog.BuildWhere` | product-service/index.js:343-362 | a text filter exists iff `q` is non-empty; a category filter iff the category is given and not "all"; a price filter iff a bound is given, each bound independently, NaN exactly when the bound does not parse; the filter admits exactly the products matching the query |
| `Catalog.BuildOrder` | product-service/index.js:364-367 | "price-asc", "price-desc" and "rating" give their orders; anything else gives sold count descending |
| `Catalog.SortBy` | product-service/index.js:369-372 | the products in the requested order, a permutation of the input |
| `Catalog.Matching` | product-service/index.js:369-372 | exactly the catalogue's products matching the query, each no more often than in the catalogue |
| `Catalog.Search` | product-service/index.js:341-379 | sorted by the requested order; holds every matching product and nothing else |
| `Catalog.BestSellersFirst` | product-service/index.js:396-399 | the first n of the catalogue sorted by sales are best first, and no product left out sold more than the last one kept |
| `Catalog.Featured` | product-service/index.js:394-404 | twelve products, or the whole catalogue when smaller; best sellers first; every product left out sold no more than the last one shown |
| `Catalog.GetProduct` | product-service/index.js:328-338 | a product with the id, 404 when none has it, 500 when the id does not parse |
| `Catalog.UnreadableBoundFindsNothing` | product-service/index.js:358-362 | a price bound that does not parse makes the search empty, when NaN is read as IEEE 754 compares it |
| `Catalog.LeadingDigitBrackets` | product-service/index.js:418 | the leading digit `d` at place `k` satisfies `d * 10^k <= n < (d + 1) * 10^k` |
| `Catalog.LeadingDigitScaled` | product-service/index.js:418 | appending zeros to an integer keeps its leading digit |
| `Catalog.NumberParseInt` | product-service/index.js:418 | `parseInt` of a number: 0 for 0, the integer part truncated toward zero between 1e-6 and 1e21 in magnitude, the sign-symmetric positive case otherwise |
| `Catalog.NumberParseIntPositive` | product-service/index.js:418 | for a positive number: the integer part between 1e-6 and 1e21, and outside that range a digit 1 to 9 that brackets the number at some power of ten |
| `Catalog.NumberParseIntExamples` | product-service/index.js:418 | `parseInt(5e-7)` is 5, `parseInt(1e21)` is 1, `parseInt(-2.5e22)` is -2 and `parseInt(12.7)` is 12 |
| `Catalog.Defaults` | product-service/index.js:409-423 | category "Other" and brand "" when falsy; stock 100 when falsy, so 0 becomes 100, otherwise `parseInt` of the number: its integer part between 1e-6 and 1e21 in magnitude, a single digit below that; optional prices null when falsy; absent lists empty |
| `Catalog.CreateProduct` | product-service/index.js:406-443 | fails iff the price or the name is missing; otherwise answers the defaulted data, and emits it as an event only when the broker is up |
| `Catalog.CreateIgnoresBroker` | product-service/index.js:426-438 | the reply is the same whether the event is sent or not |
| `Catalog.ZeroStockBecomesHundred` | product-service/index.js:418 | a stock of 0 is stored as 100 |
| `ProductForm.CleanPieces` | frontend/src/app/merchant/products/new/page.tsx:101 | no entry is empty or has white space at either end, and there are no more entries than pieces |
| `ProductForm.CleanConcat` | frontend/src/app/merchant/products/new/page.tsx:101 | cleaning two runs of pieces is cleaning each, in order |
| `ProductForm.ParseList` | frontend/src/app/merchant/products/new/page.tsx:101-102 | no entry is empty or has white space at either end |
| `ProductForm.ParseListSingle` | frontend/src/app/merchant/products/new/page.tsx:101 | text without a comma gives its trimmed self, or nothing when that is empty |
| `ProductForm.ParseListConcat` | frontend/src/app/merchant/products/new/page.tsx:101-102 | the entries of two texts joined by a comma are those of the first followed by those of the second, so entries keep input order |
| `ProductForm.ParseListBlank` | frontend/src/app/merchant/products/new/page.tsx:101 | blank input gives no entries |
| `ProductForm.RemoveAt` | frontend/src/app/merchant/products/new/page.tsx:80 | an index in range removes exactly that position and keeps the rest in order; any other index changes nothing |
| `ProductForm.RemoveImage` | frontend/src/app/merchant/products/new/page.tsx:79-82 | the same position leaves both the uploaded list and the previews; aligned lists stay aligned, every other image keeps its preview |
| `ProductForm.Upload` | frontend/src/app/merchant/products/new/page.tsx:33-68 | an empty selection changes nothing; a failed upload sets "Failed to upload images"; a success appends the returned urls after the existing ones and one preview per file |
| `ProductForm.Submit` | frontend/src/app/merchant/products/new/page.tsx:84-104 | with no uploaded image only the error "Please upload at least one image" is set and no request is sent; otherwise the request carries the name, description, category and brand as typed, the uploaded images, the parsed lists and the parsed numbers |
| `ProductForm.SubmittedProduct` | frontend/src/app/merchant/products/new/page.tsx:96-104 | a submitted form with a price is created by the product service with the typed name, description and brand and exactly the uploaded images and parsed lists; a stock of 0 or one that does not parse becomes 100, any other below 1e21 in magnitude arrives unchanged, and one from 1e21 on becomes a single digit |

## Left out

- Token signature and expiry checks, and the key-set client with its cache and rate limit. They are library calls; `verify` is a parameter.
- The store and provider calls themselves, and their network behaviour. The store is a value. Each provider call's fate is a scripted `Link`.
- `deleteKeycloakUser` and `configureKeycloakClient` (user-service/src/lib/keycloakAdmin.ts:135-209). No modelled handler calls them, and the second swallows its own errors.
- The message broker: producer and consumer wiring, and `connectKafka`. The product create only takes a `brokerUp` flag.
- The sales service, the product seed data, the server bootstrapping and the registration route table. They are I/O or configuration.
- `GET /products` and `GET /category/:category` (product-service/index.js:319-391). They are plain reads outside the search and featured paths.
- The `include: { user: true }` join of the profile reads. Replies carry the profile alone.
- The browser's single-sign-on start-up, token refresh and logout (frontend/src/contexts/AuthContext.tsx:40-92, 179-186). Only the claims mapping they share with the password login is modelled.
- Rendering, routing, local storage and fetch plumbing in the frontend pages. Only the add-product form's state and the admin dashboard's decision target are modelled.
- `atob`, `decodeURIComponent` and `JSON.parse` of the token payload. They form one oracle, `decode`.
- `parseFloat` on query and form text, and the form's `parseInt` of text. They are parameters; NaN is `None`; Infinity is not modelled.
- Numbers are exact reals, not doubles. Rounding is not modelled; `Catalog.NumberParseInt` reads the leading digit of the exact value, where JavaScript prints the shortest decimal that rounds back to the double.
- `Catalog.BuildWhere`: a NaN bound is taken to compare as IEEE 754 compares, false for every price. The source does not say what the database makes of a NaN bound. It might refuse the query, which would be a 500 "Error searching products" (product-service/index.js:375-377). It might order NaN above every number, as PostgreSQL does, so that `price <= NaN` holds for every price. Neither reading is modelled.
- `Catalog.UnreadableBoundFindsNothing`: holds only under the IEEE reading of `Catalog.BuildWhere` above. Under another reading the search may fail or may ignore the bound.
- `Catalog.CreateProduct`: the store is assumed to refuse a product whose price is NaN, the `parseFloat` of a missing price, and to answer the 500 "Error creating product". The source does not say so, and this is a different assumption from the search's IEEE reading. If the database stored NaN, such a create would succeed.
- `KeycloakAdmin.UsersCreate`: letter case is folded for the ASCII letters only. Keycloak's lower-casing also folds other scripts.
- `KeycloakAdmin.UsersFind`: the same; the search ignores ASCII letter case only.
- JSON body fields of a type other than the handler expects, such as a number where a string is read. Forms hold optional strings.
- The outcome of the add-product request: the error "Failed to create product", the navigation, and the loading and uploading flags. The form's `merchantId` is sent but the product service never reads it.
- Network errors of the upload other than a non-OK answer. Their message is the browser's own.
- Schema defaults of the tables. When a handler leaves commission, balance, rating or sold count to the database, the model leaves them unset (`None`) or outside the datatype.
- Integer widths. Ids are unbounded naturals; a `Number(id)` beyond the database's integer range is not modelled.
- `Catalog.SortBy`: ties keep catalogue order. The database leaves the order of equal keys unspecified, so this is one admissible order rather than the only one.
- `Catalog.Matching`: `contains` is taken as case-sensitive, the database's default. A case-insensitive collation is not modelled.
- `MerchantRoutes.PendingMerchants`: the list is a set, because the database's row order is unspecified.
- `LocalStore.UserByEmail`: its iff holds only for a store that satisfies `Valid`, the schema's constraints. Other stores cannot arise from the modelled operations.

## Findings

| source | as written | input that shows it | evidently intended | confidence | as-written member | corrected member |
|---|---|---|---|---|---|---|
| frontend/src/app/admin/dashboard/page.tsx:84-90 | The Approve and Reject buttons put `merchant.id`, the profile's own id, in the path of `PUT /:id/status`. That route finds the profile by `userId` (user-service/src/routes/merchantRoutes.ts:81-82) and updates the user with that id (line 89). | Users 1 and 2 whose profiles have ids 2 and 1. Approving user 1's row approves user 2's profile, makes user 2 a MERCHANT, and leaves user 1 PENDING. The dashboard still drops user 1's row (line 52). | Send `merchant.userId` in the path. | not executed; high: the route and the buttons use different keys on every call, and the ids agree only while profiles are created in user-id order | `MerchantRoutes.DashboardApprovesWrongMerchant` | `MerchantRoutes.DashboardDecide` |
