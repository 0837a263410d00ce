# E-Commerce backend core, modelled in Dafny

This project models the request-handling core of a small Express and Mongoose
e-commerce API, and proves properties of that model. The core covers:

- the generic CRUD handlers every resource uses (`services/handlersFactory.js`);
- the pagination normaliser (`utils/paginationHelper.js`);
- the express-validator rule lists for products, categories and sub-categories,
  and the runner that turns their errors into a 400 answer (`utils/baseValidator.js`);
- the in-place request sanitiser (`middleware/sanitizeRequest.js`);
- the image upload middlewares (`middleware/uploadImages.js`);
- the CORS whitelist and the 404 fallback of `app.js`;
- the global error handler (`middleware/errorMiddleware.js`).

Layout, one module per source file plus shared pieces:

- `handlers_factory.dfy`, module `HandlersFactory`: a `Collection` class whose `documents` map the handlers change.
- `pagination_helper.dfy`, module `PaginationHelper`: `getPagination` as a function.
- `validation.dfy`, module `Validation`: a small interpreter of express-validator chains: fields, locations, standard validators, sanitizers, custom validators, `optional()` and `bail()`.
- `validator_js.dfy`, module `ValidatorJs`: the validator.js checks the chains use, and rules shared by the validator files.
- `base_validator.dfy`, module `BaseValidator`: `runValidation` as a method with a loop over the chains.
- `product_validator.dfy`, `category_validator.dfy`, `subcategory_validator.dfy`, modules `ProductValidator`, `CategoryValidator`, `SubCategoryValidator`: the rule lists, and lemmas stating what each rule does to a request.
- `sanitize_request.dfy`, module `SanitizeRequest`: a `JsObject` class walked in place, and its value `Tree`.
- `upload_images.dfy`, module `UploadImages`: the file filter and name, the middleware set-up, and `attachFilenames` as a loop over the fields.
- `app.dfy`, module `App`: the origin whitelist, the origin check and the 404 error.
- `error_middleware.dfy`, module `ErrorMiddleware`: an `ErrorObject` class whose `statusCode` is defaulted in place, and the two envelopes.
- `js_values.dfy`, `js_strings.dfy`, `js_numbers.dfy`, `wrappers.dfy`, `collections.dfy`: JSON values and truthiness, `trim`/`split`, `parseInt` and `isInt`, `Option`, small set lemmas.

Library behaviour that is not part of this model is a parameter:
- `slugify`, `escape`, `ObjectId.isValid`, the ObjectId an id casts to,
  `isFloat`, `parseFloat`, `Number` and the display of a number are fields of
  `ValidatorJs.Lib`;
- the `ApiFeatures` pipeline is the `features` parameter of `GetAll`;
- `mongoSanitize` is a function parameter of the sanitiser;
- the uuid, the time, the outcome of `mkdir`, the environment variables and
  the database contents (`ProductValidator.Db`) are arguments.

## Model

| member | source | states |
|---|---|---|
| `HandlersFactory.NotFound` | services/handlersFactory.js:48-50 | the 404 error whose message is "No document found with id: " followed by the id |
| `HandlersFactory.Collection.GetOne` | services/handlersFactory.js:45-56 | a path id that casts to no ObjectId throws a CastError; one whose ObjectId is stored gives 200 with that document; any other gives the 404 error naming the id as sent; the collection is only read |
| `HandlersFactory.Collection.CreateOne` | services/handlersFactory.js:36-43 | the body is stored under the fresh id, every other document is kept, and it is returned with 201; no other check is made |
| `HandlersFactory.Collection.UpdateOne` | services/handlersFactory.js:19-34 | an uncastable id throws a CastError and changes nothing; a stored ObjectId has the body merged in and the updated document is returned with 200; an unknown one leaves the collection unchanged and gives 404 |
| `HandlersFactory.Collection.DeleteOne` | services/handlersFactory.js:9-17 | an uncastable id throws a CastError and changes nothing; otherwise the collection loses exactly that ObjectId, answering 204 with no body when it was stored and 404 when not |
| `HandlersFactory.Collection.DeleteTwice` | services/handlersFactory.js:9-17 | deleting the same castable id a second time answers 404; an uncastable one throws a CastError both times |
| `HandlersFactory.Collection.GetAll` | services/handlersFactory.js:58-78 | a category id that is no ObjectId throws a CastError to `next`; otherwise the count is taken under the same scope the documents are selected from, the envelope is 200 `success`, and `results` is the number of documents sent |
| `HandlersFactory.ScopeFilter` | services/handlersFactory.js:59 | no filter exactly when `categoryId` is absent or empty; a CastError exactly when it is truthy and casts to no ObjectId; otherwise the filter on the ObjectId it casts to |
| `HandlersFactory.Scoped` | services/handlersFactory.js:59-60 | the documents whose `category` casts to the filter's ObjectId, keyed and valued as in the collection |
| `HandlersFactory.UnscopedIsEverything` | services/handlersFactory.js:59 | without a category there is no filter and the scope is the whole collection |
| `HandlersFactory.SameObjectIdSameScope` | services/handlersFactory.js:59-60 | two spellings of one ObjectId give the same filter and scope the same documents |
| `HandlersFactory.ScopedCountBounded` | services/handlersFactory.js:60 | the count passed to `paginate` never exceeds the collection size |
| `HandlersFactory.Merge` | services/handlersFactory.js:20-24 | every body key is set, every other field kept, and no key is lost |
| `HandlersFactory.MergeIdempotent` | services/handlersFactory.js:20-24 | applying the same update twice is applying it once |
| `HandlersFactory.Deleted` | services/handlersFactory.js:10 | the collection without that id, every other document unchanged |
| `HandlersFactory.Updated` | services/handlersFactory.js:20-24 | only the updated id changes, and it becomes the merge of the document and the body |
| `PaginationHelper.NormalPage` | utils/paginationHelper.js:2-5 | the page is at least 1 for every input |
| `PaginationHelper.NormalLimit` | utils/paginationHelper.js:3-7 | the limit never exceeds `maxLimit`, and is at least 1 when both bounds are |
| `PaginationHelper.GetPagination` | utils/paginationHelper.js:1-11 | page at least 1, limit in `[1, maxLimit]` when the bounds are positive |
| `PaginationHelper.PageDefaulting` | utils/paginationHelper.js:5 | a missing, non-numeric or sub-1 page becomes 1; any other parsed page is kept |
| `PaginationHelper.LimitDefaulting` | utils/paginationHelper.js:6-7 | a missing, non-numeric or sub-1 limit becomes the default, one above the cap becomes the cap, one in range is kept |
| `PaginationHelper.SkipIsWholePages` | utils/paginationHelper.js:9 | the offset is `(page - 1)` whole pages, never negative, and 0 exactly on page 1 |
| `PaginationHelper.NoQueryValues` | utils/paginationHelper.js:1 | with no query values the defaults give page 1 of 10, offset 0 |
| `JsNumbers.ParseInt` | utils/paginationHelper.js:2-3 | `parseInt(s, 10)` finds a number exactly when a digit follows the blanks and the sign |
| `JsNumbers.ParseIntOfShowInt` | utils/paginationHelper.js:2-3 | `parseInt` reads the integer a text starts with and ignores what follows the digits ("3abc" and "3.9" read as 3) |
| `JsNumbers.ParseIntOfDigits` | utils/paginationHelper.js:2-3 | an optional sign, digits, and text not starting with a digit read as the signed value of the digits |
| `JsNumbers.DigitsOfShowNat` | utils/paginationHelper.js:2-3 | the digits of the decimal display of `n` read back as `n` |
| `JsNumbers.ParseIntRoundTrip` | utils/paginationHelper.js:2-3 | `parseInt` of the decimal display of an integer is that integer |
| `JsNumbers.IntLiteralParses` | middleware/validators/productValidator.js:41-43 | what `isInt()` accepts, `toInt()` reads as the same integer |
| `JsNumbers.IntLiteralOfShowInt` | middleware/validators/productValidator.js:41 | the decimal display of every integer passes `isInt()` as that integer |
| `JsStrings.Trim` | middleware/validators/categoryValidator.js:7 | the trimmed text has no blank at either end and is the input without its leading and trailing blanks |
| `JsStrings.TrimIdempotent` | app.js:40 | trimming twice is trimming once |
| `JsStrings.JoinSplit` | app.js:39 | joining the pieces of a split gives back the text |
| `JsStrings.SplitJoin` | app.js:39 | splitting a join of separator-free pieces gives back the pieces |
| `ValidatorJs.LengthOfPlain` | middleware/validators/categoryValidator.js:10 | `isLength` counts every character of a text without variation selectors |
| `ValidatorJs.MongoIdShapes` | middleware/validators/categoryValidator.js:21 | `isMongoId` accepts exactly 24 hexadecimal digits, or `0x` and 22 of them |
| `ValidatorJs.ZeroXIsMongoId` | middleware/validators/productValidator.js:95 | a `0x`-prefixed 24-character hex text passes `isMongoId` |
| `ValidatorJs.SlugStepOnString` | middleware/validators/categoryValidator.js:13-16 | on a text the custom item writes `body.slug = slugify(text)` and records nothing |
| `ValidatorJs.TrimmedRule` | middleware/validators/categoryValidator.js:6-17 | after `trim()` every check sees the trimmed text; the slug and the escaped text are written whether or not a check failed |
| `ValidatorJs.RequiredIdRule` | middleware/validators/subCategoryValidator.js:21-27 | an empty or missing id records "Id is required", a non-MongoId the format error, and nothing else changes |
| `ValidatorJs.QueryIntRule` | middleware/validators/productValidator.js:366 | an optional integer query value adds its one error, if any, and changes nothing else |
| `ValidatorJs.PaginationRule` | middleware/validators/productValidator.js:365-368 | `page` must be an integer of at least 1 and `limit` one from 1 to 100, when present; errors in that order |
| `Validation.RunChainAppends` | utils/baseValidator.js:5-7 | a chain adds its own errors after those already recorded |
| `Validation.RunChainsKeepsErrors` | utils/baseValidator.js:5-7 | running the chains keeps every earlier error as a prefix |
| `Validation.RunChainsAppend` | utils/baseValidator.js:5-7 | the chains run one after another, each on the request the previous one left |
| `Validation.SelectedEverywhere` | middleware/validators/categoryValidator.js:21 | `check(name)` looks in the body, the path parameters and the query, in that order |
| `Validation.LeadingBail` | middleware/validators/productValidator.js:270-271 | a `bail()` before any error does nothing |
| `Validation.SanitizedCustomChain` | middleware/validators/productValidator.js:209-215 | check, sanitizer, optional bail and custom validator: the custom validator judges the sanitized value, and the bail skips it after a failure |
| `Validation.CheckGuardedRun` | middleware/validators/productValidator.js:91-102 | guards with bails then a custom check: the first failing guard's error, or else the custom rejection |
| `Validation.EachOnArray` | middleware/validators/productValidator.js:41 | a standard validator on an array records no error exactly when every element passes it |
| `Validation.AllErrors` | middleware/validators/productValidator.js:39-42 | the errors of several standard validators on one value are empty exactly when each validator's own errors are |
| `Validation.ChecksOnAny` | middleware/validators/productValidator.js:39-42 | standard validators on one instance, an array or not, append their errors in order and change nothing else |
| `Validation.ChecksThenSanitizeAny` | middleware/validators/productValidator.js:38-43 | a one-location chain of validators then a sanitizer: the validators' errors, then the value sanitized element by element when it is an array |
| `BaseValidator.Record` | utils/baseValidator.js:12-20 | one error becomes one record with its message, type, path and location |
| `BaseValidator.Records` | utils/baseValidator.js:12-20 | one record per error, in the same order |
| `BaseValidator.RecordsAppend` | utils/baseValidator.js:12-20 | the records of two runs of errors are the records of each, in order |
| `BaseValidator.RunValidation` | utils/baseValidator.js:3-26 | every chain runs in list order; any error gives 400 `fail` with one record per error, and otherwise `next()` is called |
| `BaseValidator.EarlierErrorsReported` | utils/baseValidator.js:9-10 | an error recorded before the chains run is still reported, ahead of the new ones |
| `CategoryValidator.NameRule` | middleware/validators/categoryValidator.js:6-17 | the trimmed name must be non-empty, 2 to 50 long and `[\w\s-]`; `body.slug` becomes its slug and `body.name` the escaped name |
| `CategoryValidator.NameFailures` | middleware/validators/categoryValidator.js:8-12 | the name errors, in item order, for each way the trimmed name can fail |
| `CategoryValidator.NameRequiredOnUpdate` | middleware/validators/categoryValidator.js:5-18 | the same list guards updates, so an update without a name is refused with "Name is required" |
| `CategoryValidator.IdRule` | middleware/validators/categoryValidator.js:20-22 | the only possible error is "Invalid category ID format", exactly when the id is no MongoId |
| `SubCategoryValidator.NameRule` | middleware/validators/subCategoryValidator.js:5-13 | the trimmed name must be non-empty, 3 to 32 long and `[\w\s-]`; the name is written escaped and no slug is written |
| `SubCategoryValidator.NameFailures` | middleware/validators/subCategoryValidator.js:7-12 | the name errors, in item order |
| `SubCategoryValidator.CreateSubCategoryRule` | middleware/validators/subCategoryValidator.js:4-19 | the name errors come first, then the category errors |
| `SubCategoryValidator.CategoryRequired` | middleware/validators/subCategoryValidator.js:14-18 | without a category both "Id is required" and the format error are recorded, on create and on update |
| `SubCategoryValidator.MissingIdErrors` | middleware/validators/subCategoryValidator.js:15-18 | a missing id fails both the emptiness and the format check |
| `SubCategoryValidator.IdRule` | middleware/validators/subCategoryValidator.js:21-27 | the id errors of `validateId`, and nothing else changes |
| `ProductValidator.NormalizeIds` | middleware/validators/productValidator.js:15 | an array is kept as it is, anything else becomes a one-element list |
| `ProductValidator.NormalizeIdsStable` | middleware/validators/productValidator.js:15 | normalizing again changes nothing, and a single id is treated like the array holding it |
| `ProductValidator.CheckIdFormats` | middleware/validators/productValidator.js:112-116 | the loop finds the first id that is not a valid ObjectId, or none exactly when all are valid |
| `ProductValidator.Found` | middleware/validators/productValidator.js:119 | the stored sub-categories the ids cast to, each once |
| `ProductValidator.FoundAll` | middleware/validators/productValidator.js:119-122 | the count matches exactly when every id is stored and no two ids name the same ObjectId |
| `ProductValidator.SubCategoryAccepted` | middleware/validators/productValidator.js:107-139 | accepted exactly when all ids are valid, stored and distinct and, when there is a category to check, it is valid and the parent of all of them |
| `ProductValidator.CategoryToCheck` | middleware/validators/productValidator.js:304-313 | the body's category when truthy, else the stored product's category, else nothing to check |
| `ProductValidator.SubCategoryRule` | middleware/validators/productValidator.js:282-329 | an absent field records nothing; otherwise the verdict's rejection is recorded and nothing else changes |
| `ProductValidator.DiscountCreateRule` | middleware/validators/productValidator.js:59-72 | on create a discount is accepted exactly when the body price is a number above it; a missing price and an equal price are errors |
| `ProductValidator.DiscountUpdateRule` | middleware/validators/productValidator.js:215-251 | on update a discount is compared with the body price when sent, else the stored product's price; each failure has its own message |
| `ProductValidator.NoDiscountAccepted` | middleware/validators/productValidator.js:215-216 | null and undefined discounts pass both rules |
| `ProductValidator.DiscountIgnoresOwnField` | middleware/validators/productValidator.js:62-63 | writing the converted discount back does not change either rule's verdict |
| `ProductValidator.DiscountCreateChain` | middleware/validators/productValidator.js:54-72 | the format error, the converted value written back, and the rule's verdict on it, with no bail in between |
| `ProductValidator.DiscountUpdateChain` | middleware/validators/productValidator.js:209-251 | the format error and the converted value; the bail skips the rule after a format error |
| `ProductValidator.TitleRule` | middleware/validators/productValidator.js:19-26 | the trimmed title must be 3 to 50 long; `body.slug` becomes its slug and `body.title` the escaped title |
| `ProductValidator.TitleFailures` | middleware/validators/productValidator.js:21-22 | the one title error, exactly when the length is out of range |
| `ProductValidator.NoTitleOnUpdate` | middleware/validators/productValidator.js:176-184 | an update without a title leaves the request as it is |
| `ProductValidator.DescriptionRule` | middleware/validators/productValidator.js:29-35 | the trimmed description must be non-empty and at least 3 long; it is written escaped |
| `ProductValidator.DescriptionFailures` | middleware/validators/productValidator.js:31-34 | the description errors, in item order |
| `ProductValidator.NumberRule` | middleware/validators/productValidator.js:38-51 | a number field records its required and format errors and holds the converted value |
| `ProductValidator.QuantityRule` | middleware/validators/productValidator.js:38-43 | no error exactly when the quantity is an integer of at least 0; the body holds its `parseInt` |
| `ProductValidator.NumberArrayRule` | middleware/validators/productValidator.js:38-51 | on an array, `notEmpty()` and the number check judge each element: no error exactly when every element passes both; the body holds each element converted, params and query untouched |
| `ProductValidator.NumberArrayRun` | middleware/validators/productValidator.js:38-51 | on an array the chain appends the per-element errors of its checks to the earlier ones and writes back the element-wise conversion |
| `ProductValidator.RequiredAndOnArray` | middleware/validators/productValidator.js:39-42 | `notEmpty()` and the number check leave no error on an array exactly when every element is non-empty and passes the check |
| `ProductValidator.QuantityArrayRule` | middleware/validators/productValidator.js:38-43 | a `quantity` array passes exactly when every element is an integer literal of at least 0 (`[]` included); the body holds `parseInt` of each element |
| `ProductValidator.PriceRule` | middleware/validators/productValidator.js:46-51 | no error exactly when the price is a number of at least 0.01; the body holds it as a number |
| `ProductValidator.RatingsAverageRule` | middleware/validators/productValidator.js:154-158 | no error exactly when the average is a number from 1 to 5 |
| `ProductValidator.RatingsQuantityRule` | middleware/validators/productValidator.js:161-165 | no error exactly when the count is an integer of at least 0 |
| `ProductValidator.CategoryErrors` | middleware/validators/productValidator.js:91-102 | at most one error, and none exactly when the category is absent on update or a MongoId that casts to a stored ObjectId; an `isMongoId` text that does not cast records the CastError message |
| `ProductValidator.ZeroXCategoryCastError` | middleware/validators/productValidator.js:95-100 | `0x` and 22 hex digits passes `isMongoId`, and when it does not cast the chain records the CastError message |
| `ProductValidator.CategoryRule` | middleware/validators/productValidator.js:269-279 | the category chain records `CategoryErrors` and nothing else changes |
| `ProductValidator.BrandErrors` | middleware/validators/productValidator.js:142-151 | at most one error, and none exactly when the brand is absent or a MongoId that casts to a stored ObjectId; an `isMongoId` text that does not cast records the CastError message |
| `ProductValidator.BrandRule` | middleware/validators/productValidator.js:332-342 | the brand chain records `BrandErrors` and nothing else changes |
| `ProductValidator.IdRule` | middleware/validators/productValidator.js:360-362 | an empty id records "Id is required", a non-MongoId the format error |
| `SanitizeRequest.Sanitized` | middleware/sanitizeRequest.js:16-24 | leaves become `mongoSanitize` of themselves, objects stay objects with the same keys |
| `SanitizeRequest.SanitizedAt` | middleware/sanitizeRequest.js:16-24 | along every path the same keys lead somewhere; objects are never handed to `mongoSanitize`, and every other value, `null` included, is |
| `SanitizeRequest.SanitizedKeepsShape` | middleware/sanitizeRequest.js:18-22 | the key set at every level, and so the tree's shape, is unchanged |
| `SanitizeRequest.JsObject.SanitizeObject` | middleware/sanitizeRequest.js:16-24 | the walk in place leaves the object tree valid and its contents sanitized |
| `SanitizeRequest.JsObject.SanitizeEntry` | middleware/sanitizeRequest.js:17-22 | one key is sanitized and every other entry is left as it was |
| `SanitizeRequest.SanitizeRequest` | middleware/sanitizeRequest.js:3-14 | the body, query and parameters are each sanitized when they are objects, then `next()` is called once |
| `UploadImages.FileFilter` | middleware/uploadImages.js:39-43 | a rejection is always the 400 "Only images allowed" error |
| `UploadImages.FileFilterIsPrefixTest` | middleware/uploadImages.js:40 | every mimetype starting with `image` passes, `image/` or not, and every other is rejected |
| `UploadImages.Extension` | middleware/uploadImages.js:32 | the extension contains no `/` |
| `UploadImages.ExtensionOfPieces` | middleware/uploadImages.js:32 | the extension of `a/b/...` is `b`, and a mimetype without `/` has none |
| `UploadImages.NoExtensionWithoutSlash` | middleware/uploadImages.js:32 | without a `/` the name ends in `.undefined` |
| `UploadImages.Filename` | middleware/uploadImages.js:31-36 | the name starts with the field name and `-`, and ends with `.` and the extension |
| `UploadImages.FilenamesDiffer` | middleware/uploadImages.js:34 | two files with different uuids get different names, even in the same millisecond |
| `UploadImages.UploadDirectory` | middleware/uploadImages.js:19 | the directory is `uploads/` followed by the folder name |
| `UploadImages.EnsureDir` | middleware/uploadImages.js:17-24 | `next()` when `mkdir` succeeds, else the 500 "Could not create upload directory" error |
| `UploadImages.UploadMixedImages` | middleware/uploadImages.js:15-72 | the directory made and the disk destination are the same, and the fields are handed on as given |
| `UploadImages.UploadSingleImage` | middleware/uploadImages.js:77-78 | one field, named `image` by default, taking one file |
| `UploadImages.UploadMultipleImages` | middleware/uploadImages.js:83-84 | one field, named `images` by default, taking up to 10 files by default |
| `UploadImages.Filenames` | middleware/uploadImages.js:63 | one name per file, in order |
| `UploadImages.AttachedWithoutFiles` | middleware/uploadImages.js:52 | without `req.files` the body is unchanged |
| `UploadImages.AttachedEntries` | middleware/uploadImages.js:54-66 | one file sets the name as text, several the list of names in order; a field without files and every other key are untouched |
| `UploadImages.UploadRequest.AttachFilenames` | middleware/uploadImages.js:51-69 | the loop leaves the body as `Attached` describes, in any key order, then calls `next()` once |
| `App.TrimAll` | app.js:40 | one trimmed entry per piece, in order |
| `App.NonEmpty` | app.js:41 | exactly the non-empty entries are kept |
| `App.AllowedOrigins` | app.js:38-41 | every whitelist entry is non-empty, trimmed and free of commas |
| `App.NoWhitelistWhenUnset` | app.js:38 | an unset or empty `CORS_ORIGIN` gives the empty whitelist |
| `App.AllowedOriginsRoundTrip` | app.js:38-41 | a whitelist written as padded entries joined by commas reads back as the same entries |
| `App.CheckOrigin` | app.js:44-55 | a refusal is always the 403 "Not allowed by CORS" error |
| `App.DeniedExactly` | app.js:45-53 | refused exactly when an origin is sent, the whitelist is non-empty, has no `*`, and no entry equals the origin |
| `App.ConfiguredOriginsAllowed` | app.js:49 | every origin read from the whitelist is let through |
| `App.PaddedOriginsAllowed` | app.js:38-51 | every non-blank comma-separated piece of `CORS_ORIGIN` admits the origin it spells once trimmed |
| `App.RouteNotFound` | app.js:89-91 | a 404 whose message is "Could not Find the Route " followed by the URL |
| `App.RouteNotFoundNamesUrl` | app.js:90 | different URLs give different errors |
| `ErrorMiddleware.StatusCodeOrDefault` | middleware/errorMiddleware.js:20 | a truthy status code is kept, any other becomes 500; the result is never falsy |
| `ErrorMiddleware.StatusCodeDefaultIdempotent` | middleware/errorMiddleware.js:20 | defaulting twice is defaulting once |
| `ErrorMiddleware.ApiErrorStatusKept` | middleware/errorMiddleware.js:20 | an `ApiError` keeps a non-zero code, and code 0 becomes 500 |
| `ErrorMiddleware.StatusText` | middleware/errorMiddleware.js:3 | `err.status` when truthy, else `error` |
| `ErrorMiddleware.SendErrDev` | middleware/errorMiddleware.js:1-9 | the status sent and `status code` are `err.statusCode`; the error and its stack are included |
| `ErrorMiddleware.SendErrProd` | middleware/errorMiddleware.js:11-17 | the same status and message, without the error and the stack |
| `ErrorMiddleware.ProdIsDevWithoutDebug` | middleware/errorMiddleware.js:1-17 | the production envelope is the development one minus `error` and `stack` |
| `ErrorMiddleware.GlobalError` | middleware/errorMiddleware.js:19-27 | the code is defaulted in place; the status sent equals `status code` and is never falsy; only `development` adds the error and the stack |

## Left out

- `Record`: the model follows express-validator 7, where a field error has `path` and no `param`, and only grouped (`oneOf`) errors have `nestedErrors`. So `field` and `nested` are always undefined here. The library's version is not pinned in the files this model covers.
- `RunChains`: how express-validator runs a chain is this model's reading of version 7. It covers which instances an item runs on, and how `check()` groups them (body, path parameters and query; cookies and headers are never looked at). It covers `bail()` stopping the chain on its instance after an error on any instance. It covers a standard validator judging an array element by element, while `isArray`, `isString` and custom validators judge the whole value. A wildcard such as `images.*` is expanded over the elements of an array only; the library also expands it over the keys of an object, which is not modelled. None of this is visible in the repository's own code.
- `TrimmedRule`: stated for a field held once, in the body, with a value that is not an array. The library trims, checks and escapes an array element by element and hands the whole array to the custom slug step; that outcome is not stated.
- `RequiredIdRule`: stated for a request holding the field in at most one location, with a value that is not an array. `check()` judges every copy of a field held in several locations, and an array element by element; neither outcome is stated.
- `NameRule` (in `CategoryValidator` and `SubCategoryValidator`): stated for a name that is not an array; an array of names is trimmed, checked and escaped element by element, and that outcome is not stated.
- `IdRule` (in `CategoryValidator`, `SubCategoryValidator` and `ProductValidator`): stated for an id given only as a path parameter and not as an array. `check('id')` also judges an `id` sent in the body or the query beside it, and that outcome is not stated.
- `HandlersFactory`: `services/handlersFactory.js` holds unresolved merge-conflict markers at lines 4-7 and does not load as written. The model reads it with the conflict resolved; the two sides differ only in an unused `{ Model }` import from mongoose.
- `SubCategoryRule`: stated for a request holding `subCategory` in at most one location; `check('subCategory')` runs the custom rule on every location that holds it, and that outcome is not stated.
- `CreateSubCategoryRule`: stated for a `category` sent only in the body and not as an array; a `category` in the path parameters or the query, or an array of them, is judged copy by copy and element by element, which is not stated.
- `DiscountCreateChain`: stated for a discount that is not an array; an array is checked and converted element by element and then handed whole to the custom rule, which is not stated.
- `DiscountUpdateChain`: stated for a discount that is not an array, for the same reason as `DiscountCreateChain`.
- `TitleRule`: stated for a title that is not an array, and on update for a title that is sent (`NoTitleOnUpdate` covers the other case); an array of titles is not stated.
- `DescriptionRule`: stated for a description that is not an array; an array is trimmed, checked and escaped element by element, which is not stated.
- `NumberRule`: stated for a value that is not an array; `NumberArrayRule` states the array case.
- `QuantityRule`: the "no error exactly when" holds for a quantity that is not an array; for an array (`["1", "2"]` passes) `QuantityArrayRule` states the element-wise outcome.
- `PriceRule`: stated for a price that is not an array; the array case is `NumberArrayRule` with the float check, not restated for `price`.
- `RatingsAverageRule`: stated for a value that is not an array; the array case is `NumberArrayRule` with the float check, not restated for `ratingsAverage`.
- `RatingsQuantityRule`: stated for a value that is not an array; the array case is `NumberArrayRule` with the integer check, not restated for `ratingsQuantity`.
- `CategoryRule`: stated for a request holding `category` in at most one location and not as an array; several copies, or an array, are judged one by one, which is not stated.
- `BrandRule`: stated for a request holding `brand` in at most one location and not as an array, for the same reason as `CategoryRule`.
- `PaginationRule`, `QueryIntRule`: a query key given twice arrives as an array, which the library checks element by element; these lemmas cover a single value only.
- `CreateOne`: Mongoose schema validation and cast errors, which reach `next(err)`, are not modelled; the body is always stored.
- `UpdateOne`: validation and cast errors under `runValidators: true` are not modelled, and neither is a body whose `$set` Mongoose would refuse.
- `Merge`: any body is accepted as an update, `_id` included; what Mongoose does with such keys is not modelled.
- `GetPagination`: a query value that the query parser turns into an array or object (`?page=2&page=3`) is not representable as an optional text.
- `SanitizeRequest`: the body, query and parameters are assumed to be separate trees with no object reachable twice, as the parsers build them. The order in which `for...in` visits keys is not modelled; no step depends on it.
- `AttachFilenames`: the key order of `req.files` is not modelled; distinct fields write distinct keys.
- `GetAll`: the `ApiFeatures` stages (filter, sort, search, field limiting, paginate) are not part of this model; they are the `features` parameter. Errors those stages throw are not modelled; the CastError of an uncastable category id is.
- Multer's storage engine, its `limits`, the `maxCount` enforcement and the writing of files to disk are not modelled; the stored files arrive as `req.files`.
- `randomUUID()`, `Date.now()`, `fs.mkdir`, `process.env` and every database query are inputs, not effects.
- The validators' `imageCover` and `images` chains are defined in the rule lists but no separate lemma states their outcome.
- The `/health` route, helmet, rate limiting, static files, logging, the Mongoose schemas and hooks, the seeding script and the server bootstrap are not part of this model.
- Floating-point arithmetic: prices are reals, and `parseFloat`, `Number` and `isFloat` are library parameters. `parseInt` results are exact integers here, while JavaScript rounds those above 2^53; `GetPagination` and `ParseInt` do not model that rounding.
- `utils/ApiError.js` is not part of this model: an `ApiError` is its message and status code, and its `status` field is a parameter of the error handler.
