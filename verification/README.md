# D P System contact pipeline and catalogue helpers in Dafny

This project models two parts of the D P System website: the contact-form
lead pipeline and the static catalogue helpers. It then proves what those
parts promise.

The contact-form lead pipeline has three pieces:

- **Validator.** The field rules for the contact form: name, e-mail,
  Indian mobile number, service and message. The two regular expressions
  are replaced by hand-written predicates, each proved equivalent to an
  independent description of the accepted shape.
- **`POST /api/contact` handler.** Its steps, in order:
  1. honeypot gate;
  2. validation;
  3. client IP and user-agent capture;
  4. sanitisation;
  5. a single `createLead` call;
  6. classification of store errors.
  Two further responses come from the outer catch-all and from `GET`.
- **Lead-store wrapper.** `createLead` builds the document, refuses to
  run without a write token, and rewords two kinds of store error.
  `updateLeadStatus` builds a patch.

The catalogue helpers work on four constant tables: brands, services,
products and testimonials. They filter, sort, find, de-duplicate, group
and take prefixes.

Modules:

- **`Wrappers`** holds `Option` and `Result`.
- **`Text`** covers the JavaScript string built-ins used by the pipeline:
  - `trim`, using the ECMAScript WhiteSpace and LineTerminator set;
  - ASCII `toLowerCase`;
  - `includes`;
  - `split(',')[0]`;
  - the `||` fallbacks.
- **`Validation`** is `lib/validation.ts`.
- **`LeadStore`** is `lib/sanity.server.ts`.
- **`ContactRoute`** is `app/api/contact/route.ts`. The handler is a total
  function of three inputs:
  - a request: the method, a parsed body or the parse error, and the headers;
  - an environment: `NODE_ENV`, whether the write token is present, and the
    clock reading;
  - the store's reply.

  It returns the response, the `createLead` arguments if any, and the
  document sent to the store's `create`, if any.
- **`Seqs`** holds the array idioms the catalogue uses:
  - `filter`, `find` and `findIndex`;
  - a stable insertion sort by a numeric key;
  - `[...new Set(..)]`;
  - grouping by a key with `reduce`.
- **`Brands`**, **`Services`**, **`Products`** and **`Testimonials`**
  hold the tables and their helpers.

Each catalogue helper is defined over the table it is given, and the
site's own table is a constant next to it. So the proved properties hold
for every table, the site's own included. The one exception is
`brandsByCategory`. Its properties hold for tables whose categories are
neither array-index strings such as `"2"` nor `Object.prototype` names such
as `constructor`. The site's table meets that condition.

String lengths are JavaScript lengths: `Text.JsLength` counts UTF-16 code
units, so a character above U+FFFF counts twice. The name and message
length rules use it.

A request sends at most one document to the store. That is a property of
the `Handled` type: `sent` is an `Option`. It reflects the route having a
single `createLead` call site, and `createLead` making a single `create`.
`sent` records what was handed to `create`, not what the store kept: a
store that rejects the document still has it in `sent`, and the reply says
whether it was accepted. The proved properties say when the document is
sent and what it holds.

The permission-error behaviour is modelled as written. `createLead`
rewords an `Insufficient permissions` error into a lower-case message. The
route's case-sensitive check then does not recognise it, so that failure
gets the generic 500 and not the configuration message. This is stated by
`ContactRoute.PermissionFailureIsGeneric`.

## Model

| member | source | states |
|---|---|---|
| Text.Trim | lib/validation.ts:33-37 | `trim` never lengthens; the result is empty iff the input is blank, and otherwise neither starts nor ends with whitespace |
| Text.TrimSplit | lib/validation.ts:33-37 | the input is a blank prefix, then the trimmed string, then a blank suffix; both margins are returned |
| Text.TrimMargins | lib/validation.ts:33-37 | `trim` removes only a blank prefix and a blank suffix |
| Text.TrimOfTrimmed | app/api/contact/route.ts:82-86 | trimming a string that already has no surrounding whitespace leaves it unchanged |
| Text.TrimIdempotent | app/api/contact/route.ts:82-86 | trimming twice is trimming once |
| Text.Lower | app/api/contact/route.ts:83 | `toLowerCase` maps each character independently and leaves no capital letter |
| Text.LowerIdempotent | lib/sanity.server.ts:95 | lower-casing twice is lower-casing once |
| Text.LowerKeepsSpace | lib/sanity.server.ts:95 | lower-casing neither creates nor removes whitespace |
| Text.LowerSlice | lib/sanity.server.ts:95 | lower-casing commutes with taking a slice |
| Text.LowerTrimmed | lib/sanity.server.ts:95 | a lower-cased trimmed string is still trimmed |
| Text.TrimOfLowerTrimmed | lib/sanity.server.ts:95 | trimming `email.trim().toLowerCase()` again changes nothing |
| Text.Contains | app/api/contact/route.ts:173-174 | `includes` holds iff the fragment occurs at some position; its partner `Text.ContainsAt` gives the witness direction and `Text.NotContainsMissingChar` the refuting one |
| Text.ContainsAt | app/api/contact/route.ts:173-174 | an occurrence at some position makes `includes` true |
| Text.NotContainsMissingChar | lib/sanity.server.ts:122 | a string lacking one of the characters of a pattern does not include the pattern |
| Text.FirstSegment | app/api/contact/route.ts:70 | `split(',')[0]` is the longest comma-free prefix: a prefix, without commas, followed by a comma or the end |
| Text.OrElse | lib/sanity.server.ts:99 | `value \|\| fallback` is the value when present and non-empty, otherwise the fallback |
| Text.OrNull | lib/sanity.server.ts:103-104 | `value \|\| null` is present exactly when the value is present and non-empty |
| Validation.IndexOf | lib/validation.ts:10 | the first position of a character, or the length when absent |
| Validation.IsValidEmail | lib/validation.ts:9-12 | the matcher for `^[^\s@]+@[^\s@]+\.[^\s@]+$`; its partner `Validation.EmailIff` proves it accepts exactly that language (`Validation.EmailShape`) |
| Validation.EmailSound | lib/validation.ts:9-12 | every string the matcher accepts has the `A@B.C` shape |
| Validation.EmailComplete | lib/validation.ts:9-12 | every string of the `A@B.C` shape is accepted, whichever `@` and `.` witness it |
| Validation.EmailIff | lib/validation.ts:9-12 | the matcher accepts exactly the strings `A@B.C` with non-empty A, B and C free of whitespace and `@` |
| Validation.BlankIsNotEmail | lib/validation.ts:42-45 | a blank string never passes the e-mail test |
| Validation.PaddedEmailRejected | lib/validation.ts:44 | the test runs on the untrimmed string, so leading or trailing whitespace fails it |
| Validation.EmailAccepted | lib/validation.ts:9-12 | `a@b.co` passes |
| Validation.EmailRejected | lib/validation.ts:9-12 | `not-an-email` fails |
| Validation.StripSeparators | lib/validation.ts:20 | removing whitespace and hyphens leaves only other characters of the input |
| Validation.StripAppend | lib/validation.ts:20 | separator removal distributes over concatenation |
| Validation.StripBlank | lib/validation.ts:20 | a blank string strips to the empty string |
| Validation.StripAround | lib/validation.ts:20 | blank margins around a string strip away entirely |
| Validation.StripTrim | lib/validation.ts:20 | stripping a trimmed string is stripping the string |
| Validation.NoSeparators | lib/validation.ts:20 | a string without separators is unchanged by stripping |
| Validation.MatchesPhone | lib/validation.ts:19 | the length-directed matcher for `^(\+91\|91\|0)?[6-9]\d{9}$`; its partner `Validation.PhoneIff` proves it accepts exactly that language (`Validation.PhoneShape`) |
| Validation.IsValidPhone | lib/validation.ts:18-21 | the pattern applied after removing whitespace and hyphens; its partners `Validation.PhoneIgnoresSeparator`, `Validation.PhoneAcceptsMobile` and `Validation.PhoneAcceptsPrefixed` state which inputs pass |
| Validation.PhoneIff | lib/validation.ts:18-21 | the length-directed matcher accepts exactly an optional `+91`, `91` or `0` prefix followed by a digit 6-9 and nine more digits |
| Validation.PhoneAcceptsMobile | lib/validation.ts:19 | every bare ten-digit mobile number passes |
| Validation.PhoneAcceptsPrefixed | lib/validation.ts:19 | each of the three prefixes followed by a mobile number passes |
| Validation.PhoneIgnoresSeparator | lib/validation.ts:20 | inserting a space or hyphen anywhere does not change the verdict |
| Validation.PhoneBareExample | lib/validation.ts:18-21 | `9876543210` passes |
| Validation.PhonePrefixedExample | lib/validation.ts:18-21 | `+919876543210` passes |
| Validation.PhoneRejectsLowLead | lib/validation.ts:19 | ten digits whose first digit is below 6 fail |
| Validation.PhoneBadLeadRejected | lib/validation.ts:18-21 | `1234567890` fails |
| Text.CodeUnits | lib/validation.ts:35 | a character takes two UTF-16 code units above U+FFFF and one otherwise |
| Text.JsLength | lib/validation.ts:35 | `length` is at least the number of characters and at most twice it, and is 0 only for the empty string |
| Text.JsLengthAppend | lib/validation.ts:35 | the length of a concatenation is the sum of the lengths |
| Text.JsLengthBmp | lib/validation.ts:35 | without characters above U+FFFF, the length is the number of characters |
| Text.JsLengthAstral | lib/validation.ts:35 | a single character above U+FFFF has length 2 |
| Validation.NameError | lib/validation.ts:33-39 | no name error exactly when the trimmed length in UTF-16 code units is 2 to 50 |
| Validation.EmojiNameAccepted | lib/validation.ts:35-39 | a name of one emoji has length 2 and passes |
| Validation.EmailError | lib/validation.ts:42-46 | no e-mail error exactly when the string has the `A@B.C` shape |
| Validation.PhoneError | lib/validation.ts:49-53 | no phone error exactly when the separator-free string has the mobile shape |
| Validation.ServiceError | lib/validation.ts:56-58 | no service error exactly when the service is not blank |
| Validation.MessageError | lib/validation.ts:61-67 | no message error exactly when the trimmed length in UTF-16 code units is 10 to 1000 |
| Validation.Collect | lib/validation.ts:30-67 | the errors map holds one entry per failing field, with that field's message, and nothing else |
| Validation.ValidateContactForm | lib/validation.ts:26-73 | `isValid` iff the errors map is empty; each field has an entry iff its rule fails |
| Validation.NameRule | lib/validation.ts:33-39 | trimmed UTF-16 length 0 gives "required", 1 gives "too short", over 50 gives "too long", 2-50 no error |
| Validation.EmailRule | lib/validation.ts:42-46 | a blank e-mail gives "required"; otherwise a wrong shape gives the format message |
| Validation.PhoneRule | lib/validation.ts:49-53 | a blank phone gives "required"; otherwise a wrong shape gives the format message |
| Validation.ServiceRule | lib/validation.ts:56-58 | a service error exactly when the trimmed service is empty, with its message |
| Validation.MessageRule | lib/validation.ts:61-67 | trimmed UTF-16 length 0 gives "required", 1-9 "too short", over 1000 "too long", 10-1000 no error |
| Validation.FieldIndependence | lib/validation.ts:32-67 | a field's error depends on that field alone, whatever the other fields hold |
| Validation.LowerKeepsPlain | app/api/contact/route.ts:83 | lower-casing keeps characters free of whitespace and `@` |
| Validation.LowerKeepsPlainSlice | app/api/contact/route.ts:83 | the same for any slice of the lower-cased string |
| Validation.LowerKeepsPlainPrefix | app/api/contact/route.ts:83 | the same for a prefix |
| Validation.LowerKeepsPlainSuffix | app/api/contact/route.ts:83 | the same for a suffix |
| Validation.LowerKeepsEmailSplit | app/api/contact/route.ts:83 | lower-casing keeps the `@` and `.` positions of an accepted address |
| Validation.LowerKeepsEmailShape | app/api/contact/route.ts:83 | an accepted address is already trimmed and stays accepted when lower-cased |
| LeadStore.BuildLeadDocument | lib/sanity.server.ts:92-105 | type `lead`, status `new`, priority `medium`; the given source, or `website` when absent or empty; `submittedAt` passed through; IP and user agent `null` iff absent or empty, and otherwise the given value; name, phone, service and message equal to the input trimmed; e-mail trimmed then lower-cased |
| LeadStore.RewrapError | lib/sanity.server.ts:121-134 | a permission error becomes the reworded permission message first; otherwise a token error becomes the "token is missing" message; anything else is rethrown unchanged |
| LeadStore.PermissionRewrapLosesMarkers | lib/sanity.server.ts:122-126 | the reworded permission message contains neither `Insufficient permissions` nor `SANITY_WRITE_TOKEN` |
| LeadStore.TokenRewrapKeepsMarker | lib/sanity.server.ts:128-132 | the reworded token message still contains `SANITY_WRITE_TOKEN` and not `Insufficient permissions` |
| LeadStore.TokenUndefinedRewrapped | lib/sanity.server.ts:85-89 | the missing-token error is turned into the "token is missing" message |
| LeadStore.CreateLead | lib/sanity.server.ts:72-136 | without a token nothing is sent to the store and the error carries `SANITY_WRITE_TOKEN`; with one, exactly the built document is sent to `create`, whether or not the store then accepts it; success iff the token is present and the store accepts, with `leadId` the store's id; a store failure comes back reworded |
| LeadStore.LeadStatusPatch | lib/sanity.server.ts:157-161 | the patch sets `status`, sets `notes` iff notes are non-empty, and sets nothing else |
| LeadStore.UpdateLeadStatus | lib/sanity.server.ts:151-179 | the commit's result is returned with `success`, and its error is rethrown unchanged |
| ContactRoute.Header | app/api/contact/route.ts:70-75 | `headers.get` gives the value when the header is present and `null` otherwise |
| ContactRoute.IsBot | app/api/contact/route.ts:38 | the honeypot trips iff `website` is present and not blank; its partners `ContactRoute.HoneypotSilentlyAccepts` and `ContactRoute.BlankHoneypotIgnored` state both outcomes |
| ContactRoute.ClientIp | app/api/contact/route.ts:69-72 | the first comma segment of `x-forwarded-for` if non-empty, else `x-real-ip` if non-empty, else `unknown`, so never empty |
| ContactRoute.UserAgent | app/api/contact/route.ts:75 | the `user-agent` header if non-empty, else `unknown` |
| ContactRoute.Sanitize | app/api/contact/route.ts:81-87 | each field is the input trimmed and the e-mail is the trimmed input lower-cased, so no field has surrounding whitespace and the e-mail has no capital letter |
| ContactRoute.SanitizeIdempotent | app/api/contact/route.ts:81-87 | sanitising twice is sanitising once |
| ContactRoute.SanitizeKeepsValid | app/api/contact/route.ts:55-87 | a submission that passes validation still passes after sanitisation |
| ContactRoute.StoredFieldsSanitisedOnce | lib/sanity.server.ts:94-98 | the second trim and lower-case inside `createLead` change nothing on sanitised input |
| ContactRoute.LeadFor | app/api/contact/route.ts:92-99 | the `createLead` argument: the sanitised fields, source `website`, the time and the captured metadata; its partner `ContactRoute.LeadCallArguments` proves this is what a valid post passes |
| ContactRoute.StoreErrorResponse | app/api/contact/route.ts:168-189 | always 500; the configuration message iff the message includes either marker, otherwise the generic retry message; the fixed details come exactly with the configuration message; the raw text is never echoed |
| ContactRoute.Post | app/api/contact/route.ts:28-202 | a document is sent to the store only for a valid submission with the token present, and it is the document built from the lead call; a returned lead id is the store's |
| ContactRoute.Submit | app/api/contact/route.ts:69-189 | after validation `createLead` is called once; the document is sent to the store iff the token is present; success iff the token is present and the store accepts |
| ContactRoute.Get | app/api/contact/route.ts:207-212 | `GET` answers 405 and does nothing else |
| ContactRoute.Handle | app/api/contact/route.ts:28-212 | a `GET` is the 405 answer; a document is only ever sent to the store after a `POST` with a lead call |
| ContactRoute.HoneypotSilentlyAccepts | app/api/contact/route.ts:38-50 | a non-blank `website` gets 200 with the thank-you message and no lead id; no validation, no lead call, nothing sent to the store |
| ContactRoute.BlankHoneypotIgnored | app/api/contact/route.ts:38 | a blank or absent `website` is handled exactly as if the field were absent |
| ContactRoute.InvalidFormRejected | app/api/contact/route.ts:55-63 | an invalid form gets 400 carrying the validator's errors map unchanged, with no lead call |
| ContactRoute.LeadCallArguments | app/api/contact/route.ts:69-99 | `createLead` gets the sanitised fields, source `website`, the clock reading and the captured IP and user agent |
| ContactRoute.SentDocument | app/api/contact/route.ts:81-99 | with the token present the single document sent to the store holds the sanitised fields and the route's defaults |
| ContactRoute.SuccessCarriesStoreId | app/api/contact/route.ts:159-166 | on store success the answer is 200 with exactly the store's id |
| ContactRoute.MissingTokenIsConfigurationError | lib/sanity.server.ts:85-89 | without a token the answer is the 500 configuration error, and nothing is sent to the store |
| ContactRoute.ReachesStoreSubmits | app/api/contact/route.ts:38-63 | a post that passes the honeypot and validation is handled by the store steps |
| ContactRoute.StoreFailureResponse | app/api/contact/route.ts:168-189 | a store failure is answered by classifying the reworded message |
| ContactRoute.RewordedErrorClassification | lib/sanity.server.ts:121-134 | after rewording, the configuration answer appears exactly for errors that carry the token marker but not the permission marker; all others get the generic answer |
| ContactRoute.StoreFailureClassification | app/api/contact/route.ts:168-189 | a store failure gets 500: the configuration message exactly for token errors that are not permission errors, the generic message otherwise |
| ContactRoute.PermissionFailureIsGeneric | app/api/contact/route.ts:173-174 | an `Insufficient permissions` failure gets the generic 500, because the reworded message no longer carries the capitalised marker |
| ContactRoute.ValidPostOutcome | app/api/contact/route.ts:28-189 | a post that passes the honeypot and validation calls `createLead`, sends the document to the store iff the token is present, and succeeds iff the token is present and the store accepts |
| ContactRoute.UnreadableBody | app/api/contact/route.ts:191-201 | a body that cannot be parsed gets the 500 unexpected-error answer; it has details iff `NODE_ENV` is `development`, and nothing is sent to the store |
| Seqs.Filter | data/staticServices.ts:239-241 | `filter` keeps only passing elements, each taken from the input, and keeps every passing element |
| Seqs.FilterMembers | data/staticProducts.ts:212-214 | an element is in the filter iff it is in the input and passes |
| Seqs.FilterSnoc | data/staticBrands.ts:421-428 | filtering an extended array filters the extension separately |
| Seqs.FilterNone | data/staticBrands.ts:408-412 | a filter no element passes is empty |
| Seqs.FilterMultiset | data/staticServices.ts:239-241 | a passing element occurs in the result as often as in the input |
| Seqs.FilterPositions | data/staticServices.ts:239-241 | the filtered elements sit at strictly increasing positions of the input |
| Seqs.EmbedsStep | data/staticServices.ts:239-241 | positions in the tail of an array shift by one into the array, with or without the head in front |
| Seqs.FilterIsSubsequence | data/staticServices.ts:239-241 | a filter preserves input order |
| Seqs.FindIndex | data/staticServices.ts:234-236 | the index of the first passing element, or none exactly when no element passes |
| Seqs.Find | data/staticProducts.ts:207-209 | `find` returns a passing element of the input, and `undefined` exactly when none passes |
| Seqs.FindIsFirst | data/staticProducts.ts:207-209 | the element found is at the first passing position |
| Seqs.Insert | data/staticBrands.ts:404 | one insertion step of the stable sort, one element longer; its partners `Seqs.InsertSorted` (sortedness kept) and `Seqs.InsertMultiset` (exactly `x` added) |
| Seqs.InsertSorted | data/staticBrands.ts:404 | inserting into a sorted array keeps it sorted, and nothing in the result is below both the new element and the old head |
| Seqs.InsertMultiset | data/staticBrands.ts:404 | inserting adds exactly one copy of the element and keeps every other |
| Seqs.SortBy | data/staticBrands.ts:404 | `sort((a, b) => a.order - b.order)` gives a non-decreasing permutation |
| Seqs.SortKeepsMembers | data/staticBrands.ts:404 | sorting neither adds nor drops an element |
| Seqs.Project | data/staticBrands.ts:416 | `map` keeps the length and puts the key of the i-th element at position i |
| Seqs.FirstIndex | data/staticBrands.ts:415-418 | the position of the first occurrence |
| Seqs.FirstIndexPrefix | data/staticBrands.ts:415-418 | appending does not move a first occurrence |
| Seqs.Dedupe | data/staticBrands.ts:417 | `[...new Set(s)]`, never longer than `s`; its partners `Seqs.DedupeMembers`, `Seqs.DedupeNoDuplicates` and `Seqs.DedupeFirstOccurrence` state its contents, uniqueness and order |
| Seqs.DedupeSnoc | data/staticBrands.ts:417 | a new value is appended to the set's listing, and a value already seen is ignored |
| Seqs.DedupeMembers | data/staticBrands.ts:417 | `[...new Set(s)]` holds exactly the values of `s` |
| Seqs.DedupeNoDuplicates | data/staticBrands.ts:417 | `[...new Set(s)]` lists no value twice |
| Seqs.FirstOrderedSnoc | data/staticBrands.ts:417 | appending to an array keeps an order by first occurrence, and a value new to the array can be listed last |
| Seqs.DedupeFirstOccurrence | data/staticBrands.ts:417 | `[...new Set(s)]` lists values in the order of their first occurrence |
| Seqs.Push | data/staticBrands.ts:422-426 | a reducer step adds a record key only when the key is new |
| Seqs.PushKeys | data/staticBrands.ts:423-425 | a new key is added at the end of the record's key order; an existing key leaves the order alone |
| Seqs.PushKeepsKeys | data/staticBrands.ts:422-426 | a step changes no existing key |
| Seqs.PushNew | data/staticBrands.ts:423-426 | a key not yet in the record gets a new one-element array at the end |
| Seqs.PushItems | data/staticBrands.ts:426 | a step appends the element to its own key's array and changes no other array |
| Seqs.PushTotal | data/staticBrands.ts:426 | a step adds exactly one element |
| Seqs.GroupBy | data/staticBrands.ts:421-428 | the `reduce` into a record, with no more groups than elements; its partners `Seqs.GroupByKeys`, `Seqs.GroupByItems` and `Seqs.GroupByTotal` state its keys, each key's array and the total |
| Seqs.GroupByKeys | data/staticBrands.ts:421-428 | the grouped record's keys are the distinct keys in first-occurrence order |
| Seqs.GroupByDistinctKeys | data/staticBrands.ts:421-428 | the grouped record never holds a key twice |
| Seqs.GroupByAbsentKey | data/staticBrands.ts:421-428 | a key the record lacks belongs to no element |
| Seqs.GroupByItems | data/staticBrands.ts:421-428 | each key's array is the input filtered by that key, in input order |
| Seqs.GroupByTotal | data/staticBrands.ts:421-428 | the arrays' lengths sum to the input length |
| Brands.GetFeaturedBrands | data/staticBrands.ts:401-405 | sorted by `order` and a permutation of the featured brands |
| Brands.FeaturedBrandsExactly | data/staticBrands.ts:401-405 | a brand is listed iff it is a featured table entry |
| Brands.InCategoryMeans | data/staticBrands.ts:410 | the category predicate holds exactly for brands of that category |
| Brands.GetBrandsByCategory | data/staticBrands.ts:408-412 | sorted by `order` and a permutation of that category's brands |
| Brands.BrandsByCategoryExactly | data/staticBrands.ts:408-412 | a brand is listed iff the table gives it that category |
| Brands.UnknownCategoryIsEmpty | data/staticBrands.ts:408-412 | a category no brand carries gives an empty list |
| Brands.GetAllCategories | data/staticBrands.ts:415-418 | at most one category per brand |
| Brands.AllCategoriesSpec | data/staticBrands.ts:415-418 | no duplicates, exactly the brands' categories, in first-occurrence order |
| Brands.BrandsByCategory | data/staticBrands.ts:421-428 | at most one group per brand |
| Brands.BrandsByCategorySpec | data/staticBrands.ts:421-428 | keys are `getAllCategories()`, each array is that category's brands in table order, and the arrays hold the whole table |
| Brands.GroupSortedIsCategory | data/staticBrands.ts:408-428 | sorting a group's array gives `getBrandsByCategory` of its key |
| Services.GetServiceBySlug | data/staticServices.ts:234-236 | a found service has that slug and comes from the table; `undefined` iff no service has the slug |
| Services.GetServiceBySlugIsFirst | data/staticServices.ts:234-236 | the first service in table order with the slug is the one returned |
| Services.GetServicesByCategory | data/staticServices.ts:239-241 | every listed service has the category, and every service of that category is listed |
| Services.GetServicesByCategoryKeepsOrder | data/staticServices.ts:239-241 | the list keeps table order and each service's multiplicity |
| Services.UnknownServiceCategoryIsEmpty | data/staticServices.ts:239-241 | a category no service carries gives an empty list |
| Products.GetProductBySlug | data/staticProducts.ts:207-209 | a found product has that slug and comes from the table; `undefined` iff no product has the slug |
| Products.GetProductBySlugIsFirst | data/staticProducts.ts:207-209 | the first product in table order with the slug is the one returned |
| Products.GetProductsByCategory | data/staticProducts.ts:212-214 | every listed product has the category, and every product of that category is listed |
| Products.GetProductsByCategoryKeepsOrder | data/staticProducts.ts:212-214 | the list keeps table order and each product's multiplicity |
| Products.UnknownProductCategoryIsEmpty | data/staticProducts.ts:212-214 | a category no product carries gives an empty list |
| Testimonials.SliceEnd | data/staticTestimonials.ts:81 | `slice`'s end argument counts from the back when negative and is clamped to the length |
| Testimonials.GetFeaturedTestimonials | data/staticTestimonials.ts:80-82 | a prefix of the table of length `min(n, length)` for `n >= 0`, with `n` defaulting to 3 |
| Testimonials.DefaultIsThree | data/staticTestimonials.ts:80 | omitting the count is asking for three |
| Testimonials.LargeCountIsWholeTable | data/staticTestimonials.ts:80-82 | a count of at least the table length returns the whole table in order |
| Testimonials.FeaturedMonotone | data/staticTestimonials.ts:80-82 | a smaller count gives a prefix of a larger count's result |
| Testimonials.SiteDefaultShowsFirstThree | data/staticTestimonials.ts:16-82 | on the site's six testimonials the default shows the first three |

## Left out

- The store client is left out: `createClient`, `create` and `patch().set().commit()`. The store's reply to `create` is an input (`Created(id)` or `Failed(message)`), and so is the result of `commit`.
- LeadStore.CreateLead: `data == StoredLead(id, doc)` holds because the modelled reply carries only the store's `_id`. The real `create` also returns store-side fields such as `_createdAt`, `_updatedAt` and `_rev`, and `createLead` passes them on in `data`; those fields are not modelled.
- `lib/sanity.client.ts` and `lib/sanity.image.ts` are not part of this model. They are thin wrappers over client libraries.
- Environment variables, the clock and logging are left out as behaviour. `SANITY_WRITE_TOKEN` presence, `NODE_ENV` and `new Date().toISOString()` are fields of an environment input. `console.*` calls have no effect on the result.
- The commented-out e-mail notification block in the route is dead code and is not modelled.
- JSON typing is not modelled. Body fields are strings, and an absent field is the empty string. The validator and the route treat `undefined` and `""` alike, and the validator rejects both before sanitisation runs. Non-string JSON values in the body are not modelled.
- Any failure before the store call is an unparsed body carrying an error message. This stands for a body that is not JSON and for any other throw the outer `catch` sees.
- Only `GET` and `POST` are modelled. The framework answers other methods itself.
- Text.JsLength: strings are sequences of Unicode scalar values, so a lone surrogate (possible in a JavaScript string) cannot be represented; every character counts as one or two whole UTF-16 code units.
- Case mapping and whitespace are simplified:
  - `toLowerCase` lowers only ASCII capitals; full Unicode case mapping is left out;
  - whitespace is the fixed ECMAScript WhiteSpace and LineTerminator set that both `trim` and the regex `\s` use.
- Descriptive table fields are left out. Logos, websites, descriptions, icons, highlights, features, pricing, images and quote text play no part in any helper.
- Testimonials.GetFeaturedTestimonials: integer counts only. `slice` also truncates fractional counts and treats `NaN` as 0; those are not modelled.
- Seqs.SortBy: proved sorted and a permutation, but stability is not stated as a lemma. It is stable by construction: each element is inserted before the first element whose key is not smaller. The brand table's `order` values are all distinct, so stability does not affect its results.
- Validation.PhonePrefixedExample: the example `+91 98765-43210` is covered by `Validation.PhoneIgnoresSeparator` together with this lemma, not by a separate literal example.
- Brands.BrandsByCategory: the record is modelled as insertion-ordered with ordinary keys. A plain JavaScript object lists array-index keys first, in numeric order. An inherited name such as `constructor` makes `!acc[category]` false, and the following `push` throws. Neither behaviour is modelled; the site's categories trigger neither.
