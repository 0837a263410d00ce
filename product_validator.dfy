/**
 * `middleware/validators/productValidator.js`: the product create, update,
 * id and pagination rules. The custom validators read the database through
 * a `Db` value holding the collections they look up.
 */
module ProductValidator {
  import opened Wrappers
  import opened JsValues
  import opened JsStrings
  import opened JsNumbers
  import opened Collections
  import opened Validation
  import opened ValidatorJs

  const TitleLength := "Title must be 3\U{2013}50 chars"
  const DescriptionRequired := "Description is required"
  const DescriptionLength := "Description must be at least 3 characters long"
  const QuantityRequired := "Quantity is required"
  const QuantityInvalid := "Quantity must be a non-negative integer"
  const PriceRequired := "Price is required"
  const PriceInvalid := "Price must be a positive number"
  const DiscountInvalid := "priceAfterDiscount must be a number"
  const PriceMissing := "price must be provided when using priceAfterDiscount"
  const DiscountNotLower := "priceAfterDiscount must be lower than price"
  const BodyPriceInvalid := "price must be a valid number when using priceAfterDiscount"
  const ProductIdMissing := "price must be provided when using priceAfterDiscount (product id missing)"
  const StoredPriceInvalid := "Existing product price is invalid for priceAfterDiscount validation"
  const DiscountNotLowerThanStored := "priceAfterDiscount must be lower than the current product price"
  const ImageCoverRequired := "imageCover is required"
  const ImageCoverString := "imageCover must be a string (URL/path)"
  const ImagesArray := "images must be an array"
  const ImageString := "each image must be a string (URL/path)"
  const CategoryRequired := "category id is required"
  const InvalidId := "Invalid ID format"
  const SubCategoriesMissing := "One or more sub-category IDs do not exist"
  const InvalidParentId := "Invalid category ID format (for subCategory check)"
  const WrongParent := "One or more sub-categories do not belong to the provided category"
  const RatingsAverageInvalid := "ratingsAverage must be a number between 1 and 5"
  const RatingsQuantityInvalid := "ratingsQuantity must be a non-negative integer"
  const IdRequired := "Id is required"

  /** What a product lookup returns: the stored price (`None` for null or NaN) and the category as text. */
  datatype ProductDoc = ProductDoc(price: Option<real>, category: string)

  /** A stored document's `_id`, as the hex text of its ObjectId. */
  type Id = string

  /**
   * The collections the custom validators query, keyed by `_id`: the
   * categories and brands that exist, the parent category (as text) of each
   * sub-category, and the stored products. A lookup first casts the id the
   * request gives to an ObjectId (`lib.objectId`), so two spellings of one
   * ObjectId find the same document.
   */
  datatype Db = Db(categories: set<Id>, subCategories: map<Id, string>, brands: set<Id>,
                   products: map<Id, ProductDoc>)

  // `normalizeIds` and the sub-category rule.

  /** `normalizeIds(val)`: an array as it is, any other value as a one-element list. */
  function NormalizeIds(val: Value): (ids: seq<Value>)
    ensures val.List? ==> ids == val.items
    ensures !val.List? ==> |ids| == 1 && ids[0] == val
  {
    if val.List? then val.items else [val]
  }

  /**
   * Normalizing is a one-way trip to a list: normalizing the normalized list
   * again changes nothing, and a single id and the one-element array holding
   * it are normalized alike, so the rule treats them the same.
   */
  lemma NormalizeIdsStable(val: Value)
    ensures NormalizeIds(List(NormalizeIds(val))) == NormalizeIds(val)
    ensures !val.List? ==> NormalizeIds(List([val])) == NormalizeIds(val)
  {
  }

  /** The index of the first id from `from` on that `ObjectId.isValid` refuses, or `|ids|`. */
  function FirstInvalidFrom(lib: Lib, ids: seq<Value>, from: nat): (k: nat)
    requires from <= |ids|
    ensures from <= k <= |ids|
    ensures forall i :: from <= i < k ==> lib.isObjectId(ids[i])
    ensures k < |ids| ==> !lib.isObjectId(ids[k])
    decreases |ids| - from
  {
    if from < |ids| && lib.isObjectId(ids[from]) then FirstInvalidFrom(lib, ids, from + 1) else from
  }

  function FirstInvalid(lib: Lib, ids: seq<Value>): (k: nat)
    ensures k <= |ids|
    ensures forall i :: 0 <= i < k ==> lib.isObjectId(ids[i])
    ensures k < |ids| ==> !lib.isObjectId(ids[k])
  {
    FirstInvalidFrom(lib, ids, 0)
  }

  /**
   * The `for (const id of ids)` loop of the sub-category rule: the first id
   * that is no valid ObjectId, whose message the rule throws, or none.
   */
  method CheckIdFormats(lib: Lib, ids: seq<Value>) returns (bad: Option<Value>)
    ensures bad.None? <==> forall i :: 0 <= i < |ids| ==> lib.isObjectId(ids[i])
    ensures var k := FirstInvalid(lib, ids); bad == if k < |ids| then Some(ids[k]) else None
  {
    var i := 0;
    while i < |ids|
      invariant 0 <= i <= |ids|
      invariant forall j :: 0 <= j < i ==> lib.isObjectId(ids[j])
    {
      if !lib.isObjectId(ids[i]) {
        return Some(ids[i]);
      }
      i := i + 1;
    }
    return None;
  }

  /** The ObjectIds the ids cast to, in order. */
  function ObjectIds(lib: Lib, ids: seq<Value>): (r: seq<Id>)
    ensures |r| == |ids|
    ensures forall i :: 0 <= i < |ids| ==> r[i] == lib.objectId(ids[i])
  {
    seq(|ids|, (i: int) requires 0 <= i < |ids| => lib.objectId(ids[i]))
  }

  /** `SubCategory.find({ _id: { $in: ids } })`: each stored sub-category named by some id, once. */
  function Found(lib: Lib, db: Db, ids: seq<Value>): (r: set<Id>)
    ensures forall k :: k in r <==> k in ObjectIds(lib, ids) && k in db.subCategories
  {
    set k | k in ObjectIds(lib, ids) && k in db.subCategories
  }

  /**
   * `found.length === ids.length` holds exactly when every id names a stored
   * sub-category and no two ids name the same one: a repeated id, even
   * spelled differently, is refused as missing.
   */
  lemma FoundAll(lib: Lib, db: Db, ids: seq<Value>)
    ensures |Found(lib, db, ids)| == |ids|
            <==> (forall i :: 0 <= i < |ids| ==> lib.objectId(ids[i]) in db.subCategories) && Distinct(ObjectIds(lib, ids))
  {
    var oids := ObjectIds(lib, ids);
    var f, e := Found(lib, db, ids), Elements(oids);
    ElementsCount(oids);
    assert f <= e;
    if forall i :: 0 <= i < |ids| ==> lib.objectId(ids[i]) in db.subCategories {
      assert f == e;
    } else {
      var i :| 0 <= i < |ids| && lib.objectId(ids[i]) !in db.subCategories;
      var k := oids[i];
      SubsetCardinality(f, e - {k});
      SubsetCardinality(e - {k}, e);
      assert e - {k} < e;
      if |e - {k}| == |e| {
        SubsetOfSameSize(e - {k}, e);
      }
    }
  }

  /** `found.some((s) => String(s.category) !== String(categoryId))`. */
  predicate Mismatched(lib: Lib, db: Db, ids: seq<Value>, category: Value) {
    exists k :: k in Found(lib, db, ids) && db.subCategories[k] != JsString(lib, category)
  }

  /**
   * The checks of both sub-category rules on the ids and on the category to
   * check against, in the order they throw.
   */
  function SubCategoryVerdict(lib: Lib, db: Db, ids: seq<Value>, category: Option<Value>, body: map<string, Value>): (r: Verdict)
    ensures r.Accept? ==> r.body == body
  {
    var k := FirstInvalid(lib, ids);
    if k < |ids| then Reject("Invalid subCategory ID format: " + JsString(lib, ids[k]))
    else if |Found(lib, db, ids)| != |ids| then Reject(SubCategoriesMissing)
    else if Truthy(category) && !lib.isObjectId(category.value) then Reject(InvalidParentId)
    else if Truthy(category) && Mismatched(lib, db, ids, category.value) then Reject(WrongParent)
    else Accept(body)
  }

  /**
   * The sub-category ids are accepted exactly when each is a valid ObjectId,
   * each names a stored sub-category, none repeats, and, when there is a
   * category to check, it is a valid ObjectId that is the parent of every
   * one of them.
   */
  lemma SubCategoryAccepted(lib: Lib, db: Db, ids: seq<Value>, category: Option<Value>, body: map<string, Value>)
    ensures SubCategoryVerdict(lib, db, ids, category, body).Accept?
            <==> && (forall i :: 0 <= i < |ids| ==> lib.isObjectId(ids[i]))
                 && (forall i :: 0 <= i < |ids| ==> lib.objectId(ids[i]) in db.subCategories)
                 && Distinct(ObjectIds(lib, ids))
                 && (Truthy(category) ==> && lib.isObjectId(category.value)
                                          && forall i :: 0 <= i < |ids| ==> db.subCategories[lib.objectId(ids[i])] == JsString(lib, category.value))
  {
    var oids := ObjectIds(lib, ids);
    FoundAll(lib, db, ids);
    if Truthy(category) && |Found(lib, db, ids)| == |ids| && (forall i :: 0 <= i < |ids| ==> lib.objectId(ids[i]) in db.subCategories) {
      var text := JsString(lib, category.value);
      if Mismatched(lib, db, ids, category.value) {
        var k :| k in Found(lib, db, ids) && db.subCategories[k] != text;
        var i :| 0 <= i < |ids| && oids[i] == k;
      } else {
        forall i | 0 <= i < |ids|
          ensures db.subCategories[lib.objectId(ids[i])] == text
        {
          assert oids[i] in Found(lib, db, ids);
        }
      }
    }
  }

  /** On create the category to check against is `req.body.category`. */
  function SubCategoryOnCreate(lib: Lib, db: Db): (Option<Value>, Request) -> Verdict {
    (v: Option<Value>, req: Request) =>
      match v
      // `optional()` never runs the validator on an undefined value
      case None => Accept(req.body)
      case Some(val) => SubCategoryVerdict(lib, db, NormalizeIds(val), Get(req, Instance(Body, Key("category"))), req.body)
  }

  /**
   * On update the category to check against is `req.body.category` when
   * truthy, else the stored category of the product `req.params.id` when
   * that id is a valid ObjectId of a stored product; with neither (or an
   * empty stored category) there is nothing to check against.
   */
  function CategoryToCheck(lib: Lib, db: Db, req: Request): (r: Option<Value>)
    ensures var fromBody := Get(req, Instance(Body, Key("category")));
            var id := Get(req, Instance(Params, Key("id")));
            var stored := Truthy(id) && lib.isObjectId(id.value) && lib.objectId(id.value) in db.products;
            && (Truthy(fromBody) ==> r == fromBody)
            && (!Truthy(fromBody) && stored ==> r == Some(Str(db.products[lib.objectId(id.value)].category)))
            && (!Truthy(r) <==> !Truthy(fromBody) && (!stored || db.products[lib.objectId(id.value)].category == ""))
  {
    var fromBody := Get(req, Instance(Body, Key("category")));
    var id := Get(req, Instance(Params, Key("id")));
    if Truthy(fromBody) then fromBody
    else if Truthy(id) && lib.isObjectId(id.value) && lib.objectId(id.value) in db.products then
      Some(Str(db.products[lib.objectId(id.value)].category))
    else fromBody
  }

  function SubCategoryOnUpdate(lib: Lib, db: Db): (Option<Value>, Request) -> Verdict {
    (v: Option<Value>, req: Request) =>
      match v
      // `optional()` never runs the validator on an undefined value
      case None => Accept(req.body)
      case Some(val) => SubCategoryVerdict(lib, db, NormalizeIds(val), CategoryToCheck(lib, db, req), req.body)
  }

  // The `priceAfterDiscount` rules.

  /** `parseFloat(req.body.price)`, NaN (`None`) when the body has no price. */
  function BodyPrice(lib: Lib, req: Request): Option<real> {
    if "price" in req.body then ParseFloatOf(lib, req.body["price"]) else None
  }

  /** The create rule: a discount other than null or undefined needs a body price above it. */
  function DiscountCreateVerdict(lib: Lib, v: Option<Value>, req: Request): (r: Verdict)
    ensures r.Accept? ==> r.body == req.body
  {
    if v.None? || v == Some(Null) then Accept(req.body)
    else
      var price := BodyPrice(lib, req);
      if price.None? then Reject(PriceMissing)
      else if AtLeast(lib, v.value, price.value) then Reject(DiscountNotLower)
      else Accept(req.body)
  }

  function DiscountOnCreate(lib: Lib): (Option<Value>, Request) -> Verdict {
    (v: Option<Value>, req: Request) => DiscountCreateVerdict(lib, v, req)
  }

  /**
   * On create a discount `d` is accepted exactly when the body price is a
   * number above it: a missing or NaN price is its own error, and a
   * discount equal to the price is refused.
   */
  lemma DiscountCreateRule(lib: Lib, d: real, req: Request)
    ensures var verdict := DiscountCreateVerdict(lib, Some(Num(d)), req);
            var p := BodyPrice(lib, req);
            && (verdict.Accept? <==> p.Some? && d < p.value)
            && (p.None? ==> verdict == Reject(PriceMissing))
            && (p.Some? && d >= p.value ==> verdict == Reject(DiscountNotLower))
  {
    assert NumberOf(lib, Num(d)) == Some(d);
  }

  /**
   * The price the update rule compares a discount with: the body price when
   * the body has one, else the stored price of the product `req.params.id`.
   */
  function ReferencePrice(lib: Lib, db: Db, req: Request): Option<real> {
    if "price" in req.body then ParseFloatOf(lib, req.body["price"])
    else
      var id := Get(req, Instance(Params, Key("id")));
      if Truthy(id) && lib.isObjectId(id.value) && lib.objectId(id.value) in db.products then db.products[lib.objectId(id.value)].price
      else None
  }

  /** The update rule: the body price when one is sent, else the stored product's. */
  function DiscountUpdateVerdict(lib: Lib, db: Db, v: Option<Value>, req: Request): (r: Verdict)
    ensures r.Accept? ==> r.body == req.body
  {
    if v.None? || v == Some(Null) then Accept(req.body)
    else if "price" in req.body then
      var price := ParseFloatOf(lib, req.body["price"]);
      if price.None? then Reject(BodyPriceInvalid)
      else if AtLeast(lib, v.value, price.value) then Reject(DiscountNotLower)
      else Accept(req.body)
    else
      var id := Get(req, Instance(Params, Key("id")));
      if !Truthy(id) || !lib.isObjectId(id.value) then Reject(ProductIdMissing)
      else if lib.objectId(id.value) !in db.products then
        Reject("Product not found to validate priceAfterDiscount (id: " + JsString(lib, id.value) + ")")
      else
        var current := db.products[lib.objectId(id.value)].price;
        if current.None? then Reject(StoredPriceInvalid)
        else if AtLeast(lib, v.value, current.value) then Reject(DiscountNotLowerThanStored)
        else Accept(req.body)
  }

  function DiscountOnUpdate(lib: Lib, db: Db): (Option<Value>, Request) -> Verdict {
    (v: Option<Value>, req: Request) => DiscountUpdateVerdict(lib, db, v, req)
  }

  /**
   * On update a discount `d` is accepted exactly when it is below the
   * reference price: the body price when one is sent, else the stored
   * product's. A body price that is NaN, a missing or invalid product id and
   * a product that is not stored are errors.
   */
  lemma DiscountUpdateRule(lib: Lib, db: Db, d: real, req: Request)
    ensures var verdict := DiscountUpdateVerdict(lib, db, Some(Num(d)), req);
            var p := ReferencePrice(lib, db, req);
            && (verdict.Accept? <==> p.Some? && d < p.value)
            && ("price" in req.body && p.None? ==> verdict == Reject(BodyPriceInvalid))
            && (var id := Get(req, Instance(Params, Key("id")));
                "price" !in req.body && (!Truthy(id) || !lib.isObjectId(id.value)) ==> verdict == Reject(ProductIdMissing))
  {
    assert NumberOf(lib, Num(d)) == Some(d);
  }

  /** Null and undefined discounts pass both rules. */
  lemma NoDiscountAccepted(lib: Lib, db: Db, req: Request)
    ensures DiscountCreateVerdict(lib, None, req).Accept? && DiscountCreateVerdict(lib, Some(Null), req).Accept?
    ensures DiscountUpdateVerdict(lib, db, None, req).Accept? && DiscountUpdateVerdict(lib, db, Some(Null), req).Accept?
  {
  }

  // Existence checks.

  /** `${id}` in a message. */
  function Shown(lib: Lib, v: Option<Value>): string {
    if v.None? then "undefined" else JsString(lib, v.value)
  }

  /**
   * The custom item `Category.findById(categoryId)`: a value that casts to no
   * ObjectId (an `isMongoId` text such as `0x` and 22 hex digits) makes the
   * query throw, and the CastError's message is recorded; a stored id is
   * accepted; anything else is rejected with "No category found".
   */
  function CategoryExists(lib: Lib, db: Db): (Option<Value>, Request) -> Verdict {
    (v: Option<Value>, req: Request) =>
      if v.Some? && !lib.isObjectId(v.value) then Reject(lib.castError("Category", v.value))
      else if v.Some? && lib.objectId(v.value) in db.categories then Accept(req.body)
      else Reject("No category found for id: " + Shown(lib, v))
  }

  /** The custom item `Brand.findById(brandId)`, with the same three outcomes as `CategoryExists`. */
  function BrandExists(lib: Lib, db: Db): (Option<Value>, Request) -> Verdict {
    (v: Option<Value>, req: Request) =>
      if v.Some? && !lib.isObjectId(v.value) then Reject(lib.castError("Brand", v.value))
      else if v.Some? && lib.objectId(v.value) in db.brands then Accept(req.body)
      else Reject("No brand found for id: " + Shown(lib, v))
  }

  // The chains.

  function TitleChain(lib: Lib, opt: Optionality): Chain {
    Chain([Body], Field("title"), opt, [TrimValue(lib), LengthCheck(lib, 3, Some(50), TitleLength), SlugStep(lib), EscapeValue(lib)])
  }

  function DescriptionChecks(lib: Lib, opt: Optionality): seq<Step> {
    if opt == Required then [NotEmpty(lib, DescriptionRequired), LengthCheck(lib, 3, None, DescriptionLength)]
    else [LengthCheck(lib, 3, None, DescriptionLength)]
  }

  function DescriptionChain(lib: Lib, opt: Optionality): Chain {
    Chain([Body], Field("description"), opt, [TrimValue(lib)] + DescriptionChecks(lib, opt) + [EscapeValue(lib)])
  }

  /** A number field: `notEmpty()` with the `required` message when there is one, a number check, then its conversion. */
  function NumberChain(lib: Lib, name: string, opt: Optionality, required: Option<string>, check: Step, convert: Step): Chain {
    Chain([Body], Field(name), opt, (if required.Some? then [NotEmpty(lib, required.value)] else []) + [check, convert])
  }

  /** The `required` message on create, none on update. */
  function OnCreate(opt: Optionality, msg: string): Option<string> {
    if opt == Required then Some(msg) else None
  }

  function QuantityChain(lib: Lib, opt: Optionality): Chain {
    NumberChain(lib, "quantity", opt, OnCreate(opt, QuantityRequired), IntCheck(lib, Some(0), None, QuantityInvalid), ToIntValue(lib))
  }

  function PriceChain(lib: Lib, opt: Optionality): Chain {
    NumberChain(lib, "price", opt, OnCreate(opt, PriceRequired), FloatCheck(lib, Some(0.01), None, PriceInvalid), ToFloatValue(lib))
  }

  /** `optional({ nullable: true })`, `isFloat({ min: 0 })`, `toFloat()`, then (with `bail()` on update) the rule. */
  function DiscountChain(lib: Lib, bail: bool, rule: (Option<Value>, Request) -> Verdict): Chain {
    Chain([Body], Field("priceAfterDiscount"), OptionalNullable,
          [FloatCheck(lib, Some(0.0), None, DiscountInvalid), ToFloatValue(lib)] + (if bail then [Bail] else []) + [Custom(rule)])
  }

  function ImageCoverChain(lib: Lib, opt: Optionality): Chain {
    Chain([Body], Field("imageCover"), opt,
          (if opt == Required then [NotEmpty(lib, ImageCoverRequired)] else []) + [StringCheck(ImageCoverString), TrimValue(lib)])
  }

  function ImagesChain(): Chain {
    Chain([Body], Field("images"), Optional, [ArrayCheck(ImagesArray), Bail])
  }

  function ImageItemsChain(lib: Lib): Chain {
    Chain([Body], EachOf("images"), Optional, [StringCheck(ImageString), TrimValue(lib)])
  }

  /** `check('category')`: on create required and non-empty; on update optional, with a leading `bail()`. */
  function CategoryChain(lib: Lib, db: Db, opt: Optionality): Chain {
    var guards := if opt == Required then [NotEmpty(lib, CategoryRequired), MongoIdCheck(lib, InvalidId)] else [MongoIdCheck(lib, InvalidId)];
    Chain(AnyLocation, Field("category"), opt, (if opt == Required then [] else [Bail]) + Guarded(guards) + [Custom(CategoryExists(lib, db))])
  }

  function SubCategoryChain(rule: (Option<Value>, Request) -> Verdict, bail: bool): Chain {
    Chain(AnyLocation, Field("subCategory"), Optional, (if bail then [Bail] else []) + [Custom(rule)])
  }

  function BrandChain(lib: Lib, db: Db, bail: bool): Chain {
    Chain(AnyLocation, Field("brand"), Optional, (if bail then [Bail] else []) + Guarded([MongoIdCheck(lib, InvalidId)]) + [Custom(BrandExists(lib, db))])
  }

  function RatingsAverageChain(lib: Lib): Chain {
    NumberChain(lib, "ratingsAverage", Optional, None, FloatCheck(lib, Some(1.0), Some(5.0), RatingsAverageInvalid), ToFloatValue(lib))
  }

  function RatingsQuantityChain(lib: Lib): Chain {
    NumberChain(lib, "ratingsQuantity", Optional, None, IntCheck(lib, Some(0), None, RatingsQuantityInvalid), ToIntValue(lib))
  }

  function ValidateCreateProduct(lib: Lib, db: Db): seq<Chain> {
    [ TitleChain(lib, Required), DescriptionChain(lib, Required), QuantityChain(lib, Required), PriceChain(lib, Required),
      DiscountChain(lib, false, DiscountOnCreate(lib)), ImageCoverChain(lib, Required), ImagesChain(), ImageItemsChain(lib),
      CategoryChain(lib, db, Required), SubCategoryChain(SubCategoryOnCreate(lib, db), false), BrandChain(lib, db, false),
      RatingsAverageChain(lib), RatingsQuantityChain(lib) ]
  }

  function ValidateUpdateProduct(lib: Lib, db: Db): seq<Chain> {
    [ TitleChain(lib, Optional), DescriptionChain(lib, Optional), QuantityChain(lib, Optional), PriceChain(lib, Optional),
      DiscountChain(lib, true, DiscountOnUpdate(lib, db)), ImageCoverChain(lib, Optional), ImagesChain(), ImageItemsChain(lib),
      CategoryChain(lib, db, Optional), SubCategoryChain(SubCategoryOnUpdate(lib, db), true), BrandChain(lib, db, true),
      RatingsAverageChain(lib), RatingsQuantityChain(lib) ]
  }

  function ValidateId(lib: Lib): seq<Chain> {
    [RequiredIdChain(lib, "id", IdRequired, InvalidId)]
  }

  function ValidatePagination(lib: Lib): seq<Chain> {
    PaginationChains(lib)
  }

  // What the chains do.

  /**
   * The title rule: the title is trimmed; the trimmed title `t` must be 3 to
   * 50 long; whatever the outcome `body.slug` becomes `slugify(t)` and
   * `body.title` the escaped `t`. On update the same holds whenever a title
   * is sent.
   */
  lemma TitleRule(lib: Lib, opt: Optionality, req: Request)
    requires Present(opt, Get(req, Instance(Body, Key("title"))))
    requires "title" in req.body ==> !req.body["title"].List?
    ensures var t := Trim(ToStr(lib, Get(req, Instance(Body, Key("title")))));
            RunChain(TitleChain(lib, opt), req)
            == req.(body := req.body["slug" := Str(lib.slugify(t))]["title" := Str(lib.escape(t))],
                    errors := req.errors + TitleErrors(t))
  {
    var t := Trim(ToStr(lib, Get(req, Instance(Body, Key("title")))));
    var check := LengthCheck(lib, 3, Some(50), TitleLength);
    assert "title"[0] != "slug"[0];
    assert TitleChain(lib, opt).steps == [TrimValue(lib)] + [check] + [SlugStep(lib), EscapeValue(lib)];
    TrimmedRule(lib, req, "title", opt, [check], true);
    TitleFailures(lib, t);
  }

  /** The one error the title rule can record for the trimmed title `t`. */
  function TitleErrors(t: string): seq<FieldError> {
    if IsLength(t, 3, Some(50)) then [] else [ErrorAt(TitleLength, Instance(Body, Key("title")), Some(Str(t)))]
  }

  lemma TitleFailures(lib: Lib, t: string)
    ensures Failures([LengthCheck(lib, 3, Some(50), TitleLength)], Instance(Body, Key("title")), Some(Str(t))) == TitleErrors(t)
  {
    var inst := Instance(Body, Key("title"));
    var check := LengthCheck(lib, 3, Some(50), TitleLength);
    FailuresOne(check, inst, Some(Str(t)));
    assert ToStr(lib, Some(Str(t))) == t;
  }

  /** An update without a title leaves the request as it is: no slug is written. */
  lemma NoTitleOnUpdate(lib: Lib, req: Request)
    requires "title" !in req.body
    ensures RunChain(TitleChain(lib, Optional), req) == req
  {
    SkippedChain(req, Body, "title", Optional, TitleChain(lib, Optional).steps);
  }

  /** On create the trimmed description must be non-empty and at least 3 long; the body holds it escaped. */
  lemma DescriptionRule(lib: Lib, req: Request)
    requires "description" in req.body ==> !req.body["description"].List?
    ensures var t := Trim(ToStr(lib, Get(req, Instance(Body, Key("description")))));
            RunChain(DescriptionChain(lib, Required), req)
            == req.(body := req.body["description" := Str(lib.escape(t))], errors := req.errors + DescriptionErrors(t))
  {
    var t := Trim(ToStr(lib, Get(req, Instance(Body, Key("description")))));
    assert "description"[0] != "slug"[0];
    TrimmedRule(lib, req, "description", Required, DescriptionChecks(lib, Required), false);
    DescriptionFailures(lib, t);
  }

  /** The errors the description rule records on create for the trimmed description `t`, in item order. */
  function DescriptionErrors(t: string): seq<FieldError> {
    var inst := Instance(Body, Key("description"));
    (if t == "" then [ErrorAt(DescriptionRequired, inst, Some(Str(t)))] else [])
    + (if IsLength(t, 3, None) then [] else [ErrorAt(DescriptionLength, inst, Some(Str(t)))])
  }

  lemma DescriptionFailures(lib: Lib, t: string)
    ensures Failures(DescriptionChecks(lib, Required), Instance(Body, Key("description")), Some(Str(t))) == DescriptionErrors(t)
  {
    var inst := Instance(Body, Key("description"));
    var checks := DescriptionChecks(lib, Required);
    FailuresTwo(checks[0], checks[1], inst, Some(Str(t)));
    assert ToStr(lib, Some(Str(t))) == t;
  }

  /** A number field on a value that is not an array: the `required` error, the check's error, and the converted value written back. */
  lemma NumberRule(lib: Lib, req: Request, name: string, opt: Optionality, required: Option<string>, check: Step, f: Option<Value> -> Value)
    requires check.Each?
    requires var v := Get(req, Instance(Body, Key(name))); Present(opt, v) && !(v.Some? && v.value.List?)
    ensures var inst := Instance(Body, Key(name));
            var v := Get(req, inst);
            RunChain(NumberChain(lib, name, opt, required, check, Sanitize(f)), req)
            == req.(body := req.body[name := f(v)],
                    errors := req.errors + (if required.Some? && ToStr(lib, v) == "" then [ErrorAt(required.value, inst, v)] else [])
                                         + Failure(check, inst, v))
  {
    var inst := Instance(Body, Key(name));
    var v := Get(req, inst);
    var checks := RequiredAnd(lib, required, check);
    var chain := Chain([Body], Field(name), opt, checks + [Sanitize(f)]);
    assert NumberChain(lib, name, opt, required, check, Sanitize(f)) == chain;
    ChecksThenSanitize(req, Body, name, opt, checks, f);
    SetKey(req, Body, name, f(v));
    var written := req.(body := req.body[name := f(v)]);
    assert Set(req, inst, f(v)) == written;
    NumberErrors(lib, required, check, inst, v);
    var a := if required.Some? && ToStr(lib, v) == "" then [ErrorAt(required.value, inst, v)] else [];
    var b := Failure(check, inst, v);
    calc {
      RunChain(chain, req);
      written.(errors := req.errors + Failures(checks, inst, v));
      written.(errors := req.errors + (a + b));
      { AppendAssoc(req.errors, a, b); }
      written.(errors := req.errors + a + b);
    }
  }

  /**
   * A number field holding an array: `notEmpty()` and the number check run
   * on every element, each failing element recording its own error, and the
   * conversion is written back element by element.
   */
  lemma NumberArrayRule(lib: Lib, req: Request, name: string, opt: Optionality, required: Option<string>, check: Step, f: Option<Value> -> Value)
    requires check.Each?
    requires name in req.body && req.body[name].List?
    ensures var items := req.body[name].items;
            var r := RunChain(NumberChain(lib, name, opt, required, check, Sanitize(f)), req);
            && r.body == req.body[name := List(MapElements(f, items))]
            && r.params == req.params && r.query == req.query
            && (r.errors == req.errors <==>
                forall i :: 0 <= i < |items| ==> (required.None? || ToStr(lib, Some(items[i])) != "") && check.ok(Some(items[i])))
  {
    var inst := Instance(Body, Key(name));
    var items := req.body[name].items;
    var errs := NumberArrayRun(lib, req, name, opt, required, check, f);
    RequiredAndOnArray(lib, required, check, inst, items);
    assert req.errors + errs == req.errors <==> errs == [] by {
      assert |req.errors + errs| == |req.errors| + |errs|;
      if errs == [] { assert req.errors + errs == req.errors; }
    }
  }

  /** The run of a number chain on an array, with the errors it records. */
  lemma NumberArrayRun(lib: Lib, req: Request, name: string, opt: Optionality, required: Option<string>, check: Step, f: Option<Value> -> Value)
      returns (errs: seq<FieldError>)
    requires check.Each?
    requires name in req.body && req.body[name].List?
    ensures var v := Some(req.body[name]);
            && errs == AllErrors(RequiredAnd(lib, required, check), Instance(Body, Key(name)), v)
            && RunChain(NumberChain(lib, name, opt, required, check, Sanitize(f)), req)
               == req.(body := req.body[name := SanitizeValue(f, v)], errors := req.errors + errs)
  {
    var inst := Instance(Body, Key(name));
    var v := Get(req, inst);
    assert v == Some(req.body[name]);
    var checks := RequiredAnd(lib, required, check);
    var chain := Chain([Body], Field(name), opt, checks + [Sanitize(f)]);
    assert NumberChain(lib, name, opt, required, check, Sanitize(f)) == chain;
    ChecksThenSanitizeAny(req, Body, name, opt, checks, f);
    SetKey(req, Body, name, SanitizeValue(f, v));
    errs := AllErrors(checks, inst, v);
  }

  /** `notEmpty()` and a number check on an array record nothing exactly when every element passes both. */
  lemma RequiredAndOnArray(lib: Lib, required: Option<string>, check: Step, inst: Instance, items: seq<Value>)
    requires check.Each?
    ensures AllErrors(RequiredAnd(lib, required, check), inst, Some(List(items))) == [] <==>
            forall i :: 0 <= i < |items| ==> (required.None? || ToStr(lib, Some(items[i])) != "") && check.ok(Some(items[i]))
  {
    var checks := RequiredAnd(lib, required, check);
    EachOnArray(check.ok, check.message, inst, items);
    if required.Some? {
      var empty := NotEmpty(lib, required.value);
      EachOnArray(empty.ok, empty.message, inst, items);
      assert checks == [empty, check];
    } else {
      assert checks == [check];
    }
  }

  /** `notEmpty()` with the `required` message when there is one, then `check`. */
  function RequiredAnd(lib: Lib, required: Option<string>, check: Step): (r: seq<Step>)
    requires check.Each?
    ensures AllChecks(r)
  {
    (if required.Some? then [NotEmpty(lib, required.value)] else []) + [check]
  }

  lemma NumberErrors(lib: Lib, required: Option<string>, check: Step, inst: Instance, v: Option<Value>)
    requires check.Each?
    ensures Failures(RequiredAnd(lib, required, check), inst, v)
            == (if required.Some? && ToStr(lib, v) == "" then [ErrorAt(required.value, inst, v)] else []) + Failure(check, inst, v)
  {
    var checks := RequiredAnd(lib, required, check);
    if required.Some? {
      FailuresTwo(checks[0], check, inst, v);
    } else {
      assert checks == [check];
      FailuresOne(check, inst, v);
    }
  }

  /**
   * `quantity` must be an integer literal of at least 0 (and, on create,
   * present); the body holds `parseInt` of it.
   */
  lemma QuantityRule(lib: Lib, opt: Optionality, req: Request)
    requires var v := Get(req, Instance(Body, Key("quantity"))); Present(opt, v) && !(v.Some? && v.value.List?)
    ensures var inst := Instance(Body, Key("quantity"));
            var v := Get(req, inst);
            var r := RunChain(QuantityChain(lib, opt), req);
            && r.body == req.body["quantity" := IntOf(lib, v)]
            && (r.errors == req.errors <==> IsIntIn(ToStr(lib, v), Some(0), None))
  {
    NumberRule(lib, req, "quantity", opt, OnCreate(opt, QuantityRequired), IntCheck(lib, Some(0), None, QuantityInvalid), ToIntValue(lib).f);
    assert IntLiteral("").None?;
  }

  /**
   * A `quantity` array passes exactly when every element is an integer
   * literal of at least 0 (so `[]` and `["1", "2"]` pass); the body holds
   * `parseInt` of every element.
   */
  lemma QuantityArrayRule(lib: Lib, opt: Optionality, req: Request)
    requires "quantity" in req.body && req.body["quantity"].List?
    ensures var items := req.body["quantity"].items;
            var r := RunChain(QuantityChain(lib, opt), req);
            && r.body == req.body["quantity" := List(seq(|items|, (i: int) requires 0 <= i < |items| => IntOf(lib, Some(items[i]))))]
            && (r.errors == req.errors <==> forall i :: 0 <= i < |items| ==> IsIntIn(ToStr(lib, Some(items[i])), Some(0), None))
  {
    var items := req.body["quantity"].items;
    var required := OnCreate(opt, QuantityRequired);
    var check := IntCheck(lib, Some(0), None, QuantityInvalid);
    var f := ToIntValue(lib).f;
    var r := RunChain(QuantityChain(lib, opt), req);
    assert r.body == req.body["quantity" := List(MapElements(f, items))]
        && (r.errors == req.errors <==>
            forall i :: 0 <= i < |items| ==> (required.None? || ToStr(lib, Some(items[i])) != "") && check.ok(Some(items[i]))) by {
      NumberArrayRule(lib, req, "quantity", opt, required, check, f);
    }
    IntConversionElementwise(lib, items);
    IntElementsPass(lib, required, items);
  }

  /** `toInt()` on every element is `parseInt` of every element. */
  lemma IntConversionElementwise(lib: Lib, items: seq<Value>)
    ensures MapElements(ToIntValue(lib).f, items) == seq(|items|, (i: int) requires 0 <= i < |items| => IntOf(lib, Some(items[i])))
  {
  }

  /** An element that is an integer literal is never empty, so `notEmpty()` adds nothing to `isInt({ min: 0 })`. */
  lemma IntElementsPass(lib: Lib, required: Option<string>, items: seq<Value>)
    ensures var check := IntCheck(lib, Some(0), None, QuantityInvalid);
            (forall i :: 0 <= i < |items| ==> (required.None? || ToStr(lib, Some(items[i])) != "") && check.ok(Some(items[i])))
            <==> forall i :: 0 <= i < |items| ==> IsIntIn(ToStr(lib, Some(items[i])), Some(0), None)
  {
    assert IntLiteral("").None?;
  }

  /** `price` must be a number of at least 0.01 (and, on create, present); the body holds it as a number. */
  lemma PriceRule(lib: Lib, opt: Optionality, req: Request)
    requires var v := Get(req, Instance(Body, Key("price"))); Present(opt, v) && !(v.Some? && v.value.List?)
    ensures var inst := Instance(Body, Key("price"));
            var v := Get(req, inst);
            var r := RunChain(PriceChain(lib, opt), req);
            && r.body == req.body["price" := FloatOf(lib, v)]
            && (r.errors == req.errors <==> IsFloatIn(lib, ToStr(lib, v), Some(0.01), None))
  {
    NumberRule(lib, req, "price", opt, OnCreate(opt, PriceRequired), FloatCheck(lib, Some(0.01), None, PriceInvalid), ToFloatValue(lib).f);
  }

  /** A sent `ratingsAverage` must be a number from 1 to 5; the body holds it as a number. */
  lemma RatingsAverageRule(lib: Lib, req: Request)
    requires "ratingsAverage" in req.body && !req.body["ratingsAverage"].List?
    ensures var inst := Instance(Body, Key("ratingsAverage"));
            var v := Get(req, inst);
            var r := RunChain(RatingsAverageChain(lib), req);
            && r.body == req.body["ratingsAverage" := FloatOf(lib, v)]
            && (r.errors == req.errors <==> IsFloatIn(lib, ToStr(lib, v), Some(1.0), Some(5.0)))
  {
    NumberRule(lib, req, "ratingsAverage", Optional, None, FloatCheck(lib, Some(1.0), Some(5.0), RatingsAverageInvalid), ToFloatValue(lib).f);
  }

  /** A sent `ratingsQuantity` must be an integer literal of at least 0; the body holds `parseInt` of it. */
  lemma RatingsQuantityRule(lib: Lib, req: Request)
    requires "ratingsQuantity" in req.body && !req.body["ratingsQuantity"].List?
    ensures var inst := Instance(Body, Key("ratingsQuantity"));
            var v := Get(req, inst);
            var r := RunChain(RatingsQuantityChain(lib), req);
            && r.body == req.body["ratingsQuantity" := IntOf(lib, v)]
            && (r.errors == req.errors <==> IsIntIn(ToStr(lib, v), Some(0), None))
  {
    NumberRule(lib, req, "ratingsQuantity", Optional, None, IntCheck(lib, Some(0), None, RatingsQuantityInvalid), ToIntValue(lib).f);
  }

  // The custom and existence rules on the chains.

  /** Writing the discount back into the body changes neither rule's verdict on a discount. */
  lemma DiscountIgnoresOwnField(lib: Lib, db: Db, v: Option<Value>, req: Request, x: Value)
    ensures var written := req.(body := req.body["priceAfterDiscount" := x]);
            && DiscountCreateVerdict(lib, v, written).Reject? == DiscountCreateVerdict(lib, v, req).Reject?
            && (DiscountCreateVerdict(lib, v, req).Reject? ==> DiscountCreateVerdict(lib, v, written) == DiscountCreateVerdict(lib, v, req))
            && DiscountUpdateVerdict(lib, db, v, written).Reject? == DiscountUpdateVerdict(lib, db, v, req).Reject?
            && (DiscountUpdateVerdict(lib, db, v, req).Reject? ==> DiscountUpdateVerdict(lib, db, v, written) == DiscountUpdateVerdict(lib, db, v, req))
  {
    assert |"priceAfterDiscount"| != |"price"|;
    assert "priceAfterDiscount" != "price";
    var written := req.(body := req.body["priceAfterDiscount" := x]);
    assert BodyPrice(lib, written) == BodyPrice(lib, req);
    assert Get(written, Instance(Params, Key("id"))) == Get(req, Instance(Params, Key("id")));
  }

  lemma DiscountRulesReadOnly(lib: Lib, db: Db)
    ensures ReadOnly(Custom(DiscountOnCreate(lib))) && ReadOnly(Custom(DiscountOnUpdate(lib, db)))
  {
  }

  /** The rejection a verdict records, the same on the request before and after the discount is written back. */
  lemma SameRejection(a: Verdict, b: Verdict, inst: Instance, v: Option<Value>)
    requires a.Reject? == b.Reject? && (b.Reject? ==> a == b)
    ensures Rejection(a, inst, v) == Rejection(b, inst, v)
  {
  }

  /**
   * The create discount chain on a discount other than undefined and null,
   * sent in the body and not as an array: `isFloat({ min: 0 })` records its
   * error, the body holds the converted value `w`, and the rule, which has
   * no `bail()` before it, also judges `w` against the body price.
   */
  lemma DiscountCreateChain(lib: Lib, db: Db, req: Request)
    requires var v := Get(req, Instance(Body, Key("priceAfterDiscount")));
             Present(OptionalNullable, v) && !(v.Some? && v.value.List?)
    ensures var inst := Instance(Body, Key("priceAfterDiscount"));
            var v := Get(req, inst);
            var w := FloatOf(lib, v);
            RunChain(DiscountChain(lib, false, DiscountOnCreate(lib)), req)
            == req.(body := req.body["priceAfterDiscount" := w],
                    errors := req.errors + Failure(FloatCheck(lib, Some(0.0), None, DiscountInvalid), inst, v)
                                         + Rejection(DiscountCreateVerdict(lib, Some(w), req), inst, Some(w)))
  {
    var name := "priceAfterDiscount";
    var inst := Instance(Body, Key(name));
    var w := FloatOf(lib, Get(req, inst));
    var written := req.(body := req.body[name := w]);
    var fn := DiscountOnCreate(lib);
    DiscountRulesReadOnly(lib, db);
    SanitizedCustomChain(req, name, OptionalNullable, FloatCheck(lib, Some(0.0), None, DiscountInvalid), ToFloatValue(lib).f, false, fn);
    assert fn(Some(w), written) == DiscountCreateVerdict(lib, Some(w), written);
    DiscountIgnoresOwnField(lib, db, Some(w), req, w);
    SameRejection(DiscountCreateVerdict(lib, Some(w), written), DiscountCreateVerdict(lib, Some(w), req), inst, Some(w));
  }

  /**
   * The update discount chain on a discount other than undefined and null,
   * sent in the body and not as an array: `isFloat({ min: 0 })` records its
   * error and the body holds the converted value `w`; the `bail()` then
   * skips the rule after that error, and otherwise the rule judges `w`
   * against the reference price.
   */
  lemma DiscountUpdateChain(lib: Lib, db: Db, req: Request)
    requires var v := Get(req, Instance(Body, Key("priceAfterDiscount")));
             Present(OptionalNullable, v) && !(v.Some? && v.value.List?)
    ensures var inst := Instance(Body, Key("priceAfterDiscount"));
            var v := Get(req, inst);
            var w := FloatOf(lib, v);
            var e := Failure(FloatCheck(lib, Some(0.0), None, DiscountInvalid), inst, v);
            RunChain(DiscountChain(lib, true, DiscountOnUpdate(lib, db)), req)
            == req.(body := req.body["priceAfterDiscount" := w],
                    errors := req.errors + e + if e != [] then [] else Rejection(DiscountUpdateVerdict(lib, db, Some(w), req), inst, Some(w)))
  {
    var name := "priceAfterDiscount";
    var inst := Instance(Body, Key(name));
    var w := FloatOf(lib, Get(req, inst));
    var written := req.(body := req.body[name := w]);
    var fn := DiscountOnUpdate(lib, db);
    DiscountRulesReadOnly(lib, db);
    SanitizedCustomChain(req, name, OptionalNullable, FloatCheck(lib, Some(0.0), None, DiscountInvalid), ToFloatValue(lib).f, true, fn);
    assert fn(Some(w), written) == DiscountUpdateVerdict(lib, db, Some(w), written);
    DiscountIgnoresOwnField(lib, db, Some(w), req, w);
    SameRejection(DiscountUpdateVerdict(lib, db, Some(w), written), DiscountUpdateVerdict(lib, db, Some(w), req), inst, Some(w));
  }

  /** The sub-category rule of the create (`update` false) or the update list. */
  function SubCategoryRuleOf(lib: Lib, db: Db, update: bool): (Option<Value>, Request) -> Verdict {
    if update then SubCategoryOnUpdate(lib, db) else SubCategoryOnCreate(lib, db)
  }

  /** The category the sub-categories are checked against: the body's on create, `CategoryToCheck` on update. */
  function ParentToCheck(lib: Lib, db: Db, update: bool, req: Request): Option<Value> {
    if update then CategoryToCheck(lib, db, req) else Get(req, Instance(Body, Key("category")))
  }

  lemma SubCategoryReadOnly(lib: Lib, db: Db, update: bool)
    ensures ReadOnly(Custom(SubCategoryRuleOf(lib, db, update)))
  {
    var fn := SubCategoryRuleOf(lib, db, update);
    forall v, r | fn(v, r).Accept?
      ensures fn(v, r).body == r.body
    {
      if v.Some? {
        var verdict := SubCategoryVerdict(lib, db, NormalizeIds(v.value), ParentToCheck(lib, db, update, r), r.body);
        assert fn(v, r) == verdict;
      }
    }
  }

  /**
   * The sub-category chain, wherever the ids are sent: an absent field
   * records nothing; otherwise the verdict on the normalized ids and the
   * category to check against is recorded when it rejects, and nothing else
   * changes.
   */
  lemma SubCategoryRule(lib: Lib, db: Db, update: bool, req: Request, loc: Location)
    requires HeldAt(req, "subCategory", loc)
    ensures var inst := Instance(loc, Key("subCategory"));
            var v := Get(req, inst);
            RunChain(SubCategoryChain(SubCategoryRuleOf(lib, db, update), update), req)
            == req.(errors := req.errors + if v.None? then [] else
                      Rejection(SubCategoryVerdict(lib, db, NormalizeIds(v.value), ParentToCheck(lib, db, update, req), req.body), inst, v))
  {
    var inst := Instance(loc, Key("subCategory"));
    var v := Get(req, inst);
    var fn := SubCategoryRuleOf(lib, db, update);
    SubCategoryReadOnly(lib, db, update);
    CheckCustomRun(SubCategoryChain(fn, update), req, loc, update, fn);
    if v.Some? {
      assert fn(v, req) == SubCategoryVerdict(lib, db, NormalizeIds(v.value), ParentToCheck(lib, db, update, req), req.body);
    }
  }

  /** The error the category chain records: the first of emptiness (on create), format and existence that fails. */
  function CategoryErrors(lib: Lib, db: Db, opt: Optionality, inst: Instance, v: Option<Value>): (r: seq<FieldError>)
    ensures |r| <= 1
    ensures r == [] <==> !Present(opt, v) || (IsMongoId(ToStr(lib, v)) && v.Some? && lib.isObjectId(v.value) && lib.objectId(v.value) in db.categories)
    ensures Present(opt, v) && IsMongoId(ToStr(lib, v)) && v.Some? && !lib.isObjectId(v.value)
            ==> r == [ErrorAt(lib.castError("Category", v.value), inst, v)]
  {
    if !Present(opt, v) then []
    else if opt == Required && ToStr(lib, v) == "" then [ErrorAt(CategoryRequired, inst, v)]
    else if !IsMongoId(ToStr(lib, v)) then [ErrorAt(InvalidId, inst, v)]
    else if v.Some? && !lib.isObjectId(v.value) then [ErrorAt(lib.castError("Category", v.value), inst, v)]
    else if v.None? || lib.objectId(v.value) !in db.categories then [ErrorAt("No category found for id: " + Shown(lib, v), inst, v)]
    else []
  }

  /**
   * `0x` and twenty-two hex digits passes `isMongoId`; when Mongoose cannot
   * cast it, the category chain records the CastError's message, not
   * "No category found".
   */
  lemma ZeroXCategoryCastError(lib: Lib, db: Db, opt: Optionality, inst: Instance)
    requires !lib.isObjectId(Str("0x0123456789abcdef012345"))
    ensures var v := Some(Str("0x0123456789abcdef012345"));
            CategoryErrors(lib, db, opt, inst, v) == [ErrorAt(lib.castError("Category", v.value), inst, v)]
  {
    ZeroXIsMongoId();
  }

  lemma CategoryExistsReadOnly(lib: Lib, db: Db)
    ensures ReadOnly(Custom(CategoryExists(lib, db)))
  {
  }

  /**
   * The category chain, on create (`Required`) or update (`Optional`), with
   * the field in one location and not an array: `CategoryErrors` is
   * recorded and nothing else changes.
   */
  lemma CategoryRule(lib: Lib, db: Db, opt: Optionality, req: Request, loc: Location)
    requires opt == Required || opt == Optional
    requires HeldOnlyAt(req, "category", loc)
    ensures var inst := Instance(loc, Key("category"));
            RunChain(CategoryChain(lib, db, opt), req) == req.(errors := req.errors + CategoryErrors(lib, db, opt, inst, Get(req, inst)))
  {
    var inst := Instance(loc, Key("category"));
    var v := Get(req, inst);
    var fn := CategoryExists(lib, db);
    var g := MongoIdCheck(lib, InvalidId);
    var guards := if opt == Required then [NotEmpty(lib, CategoryRequired), g] else [g];
    CategoryExistsReadOnly(lib, db);
    CheckGuardedRun(CategoryChain(lib, db, opt), req, loc, opt != Required, guards, fn);
    if opt == Required {
      GuardErrorTwo(guards[0], g, inst, v);
    } else {
      GuardErrorOne(g, inst, v);
    }
  }

  /** The error the brand chain records: none when absent, else the first of format and existence that fails. */
  function BrandErrors(lib: Lib, db: Db, inst: Instance, v: Option<Value>): (r: seq<FieldError>)
    ensures |r| <= 1
    ensures r == [] <==> v.None? || (IsMongoId(ToStr(lib, v)) && lib.isObjectId(v.value) && lib.objectId(v.value) in db.brands)
    ensures v.Some? && IsMongoId(ToStr(lib, v)) && !lib.isObjectId(v.value) ==> r == [ErrorAt(lib.castError("Brand", v.value), inst, v)]
  {
    if v.None? then []
    else if !IsMongoId(ToStr(lib, v)) then [ErrorAt(InvalidId, inst, v)]
    else if !lib.isObjectId(v.value) then [ErrorAt(lib.castError("Brand", v.value), inst, v)]
    else if lib.objectId(v.value) !in db.brands then [ErrorAt("No brand found for id: " + Shown(lib, v), inst, v)]
    else []
  }

  lemma BrandExistsReadOnly(lib: Lib, db: Db)
    ensures ReadOnly(Custom(BrandExists(lib, db)))
  {
  }

  /** The brand chain, on create or update, with the field in one location and not an array: `BrandErrors` is recorded and nothing else changes. */
  lemma BrandRule(lib: Lib, db: Db, update: bool, req: Request, loc: Location)
    requires HeldOnlyAt(req, "brand", loc)
    ensures var inst := Instance(loc, Key("brand"));
            RunChain(BrandChain(lib, db, update), req) == req.(errors := req.errors + BrandErrors(lib, db, inst, Get(req, inst)))
  {
    var inst := Instance(loc, Key("brand"));
    var g := MongoIdCheck(lib, InvalidId);
    BrandExistsReadOnly(lib, db);
    CheckGuardedRun(BrandChain(lib, db, update), req, loc, update, [g], BrandExists(lib, db));
    GuardErrorOne(g, inst, Get(req, inst));
  }

  /** `validateId` with the id given only as a path parameter. */
  lemma IdRule(lib: Lib, req: Request)
    requires "id" in req.params && "id" !in req.body && "id" !in req.query
    requires !req.params["id"].List?
    ensures var inst := Instance(Params, Key("id"));
            RunChains(ValidateId(lib), req)
            == req.(errors := req.errors + IdErrors(lib, inst, Get(req, inst), IdRequired, InvalidId))
  {
    assert HeldOnlyAt(req, "id", Params);
    RequiredIdRule(lib, req, "id", IdRequired, InvalidId, Params);
    RunOne(RequiredIdChain(lib, "id", IdRequired, InvalidId), req);
  }
}
