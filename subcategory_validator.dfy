/** `middleware/validators/subCategoryValidator.js`: the sub-category name and parent, id and pagination rules. */
module SubCategoryValidator {
  import opened Wrappers
  import opened JsValues
  import opened JsStrings
  import opened Validation
  import opened ValidatorJs

  const NameRequired := "Name is required"
  const NameLength := "Name must be 3\U{2013}32 characters long"
  const NameCharacters := "Name must contain only letters, numbers, dashes, or spaces"
  const IdRequired := "Id is required"
  const InvalidCategoryId := "Invalid category ID format"
  const InvalidSubCategoryId := "Invalid subcategory ID format"

  /** The standard checks on the trimmed name. */
  function NameChecks(lib: Lib): seq<Step> {
    [ NotEmpty(lib, NameRequired),
      LengthCheck(lib, 3, Some(32), NameLength),
      NameCheck(lib, NameCharacters) ]
  }

  /** `body('name')`: trimmed, non-empty, 3 to 32 long, `[\w\s-]` only, then escaped. */
  function NameChain(lib: Lib): Chain {
    Chain([Body], Field("name"), Required, [TrimValue(lib)] + NameChecks(lib) + [EscapeValue(lib)])
  }

  /** `check('category')`: present and a MongoId. */
  function CategoryChain(lib: Lib): Chain {
    RequiredIdChain(lib, "category", IdRequired, InvalidCategoryId)
  }

  /** `validateCreateSubCategory`, which guards both creating and updating a sub-category. */
  function ValidateCreateSubCategory(lib: Lib): seq<Chain> {
    [NameChain(lib), CategoryChain(lib)]
  }

  function ValidateId(lib: Lib): seq<Chain> {
    [RequiredIdChain(lib, "id", IdRequired, InvalidSubCategoryId)]
  }

  function ValidatePagination(lib: Lib): seq<Chain> {
    PaginationChains(lib)
  }

  /** The errors the name rule records for the trimmed name `t`, in item order. */
  function NameErrors(t: string): seq<FieldError> {
    var inst := Instance(Body, Key("name"));
    (if t == "" then [ErrorAt(NameRequired, inst, Some(Str(t)))] else [])
    + (if !IsLength(t, 3, Some(32)) then [ErrorAt(NameLength, inst, Some(Str(t)))] else [])
    + (if !IsName(t) then [ErrorAt(NameCharacters, inst, Some(Str(t)))] else [])
  }

  lemma NameFailures(lib: Lib, t: string)
    ensures Failures(NameChecks(lib), Instance(Body, Key("name")), Some(Str(t))) == NameErrors(t)
  {
    var inst := Instance(Body, Key("name"));
    var v := Some(Str(t));
    var checks := NameChecks(lib);
    assert ToStr(lib, v) == t;
    var e0, e1, e2 := Failure(checks[0], inst, v), Failure(checks[1], inst, v), Failure(checks[2], inst, v);
    assert e0 == if t == "" then [ErrorAt(NameRequired, inst, v)] else [];
    assert e1 == if !IsLength(t, 3, Some(32)) then [ErrorAt(NameLength, inst, v)] else [];
    assert e2 == if !IsName(t) then [ErrorAt(NameCharacters, inst, v)] else [];
    FailuresThree(checks[0], checks[1], checks[2], inst, v);
  }

  /**
   * The name rule: the trimmed name `t` must be non-empty, 3 to 32 long and
   * made of `[\w\s-]`; the body's `name` becomes the escaped `t` and no
   * slug is written. (A name sent as an array is checked element by element
   * instead.)
   */
  lemma NameRule(lib: Lib, req: Request)
    requires "name" in req.body ==> !req.body["name"].List?
    ensures var t := Trim(ToStr(lib, Get(req, Instance(Body, Key("name")))));
            RunChain(NameChain(lib), req)
            == req.(body := req.body["name" := Str(lib.escape(t))], errors := req.errors + NameErrors(t))
  {
    var t := Trim(ToStr(lib, Get(req, Instance(Body, Key("name")))));
    assert "name"[0] != "slug"[0];
    TrimmedRule(lib, req, "name", Required, NameChecks(lib), false);
    NameFailures(lib, t);
  }

  /**
   * `validateCreateSubCategory` with `category` only in the body: the name
   * errors come first, then the category errors.
   */
  lemma CreateSubCategoryRule(lib: Lib, req: Request)
    requires "name" in req.body ==> !req.body["name"].List?
    requires "category" !in req.params && "category" !in req.query
    requires "category" in req.body ==> !req.body["category"].List?
    ensures var t := Trim(ToStr(lib, Get(req, Instance(Body, Key("name")))));
            var cat := Instance(Body, Key("category"));
            var r := RunChains(ValidateCreateSubCategory(lib), req);
            && r.body == req.body["name" := Str(lib.escape(t))]
            && r.errors == req.errors + NameErrors(t) + IdErrors(lib, cat, Get(req, cat), IdRequired, InvalidCategoryId)
  {
    var t := Trim(ToStr(lib, Get(req, Instance(Body, Key("name")))));
    var cat := Instance(Body, Key("category"));
    NameRule(lib, req);
    var named := req.(body := req.body["name" := Str(lib.escape(t))], errors := req.errors + NameErrors(t));
    assert "name"[0] != "category"[0];
    assert Get(named, cat) == Get(req, cat);
    HeldOnlyInBody(named, "category");
    RequiredIdRule(lib, named, "category", IdRequired, InvalidCategoryId, Body);
    RunTwo(NameChain(lib), CategoryChain(lib), req);
  }

  /**
   * Without a category the rules always end with "Id is required" and the
   * format error, so an update (which runs the same rules) must name the
   * parent category again.
   */
  lemma CategoryRequired(lib: Lib, req: Request)
    requires "name" in req.body ==> !req.body["name"].List?
    requires "category" !in req.body && "category" !in req.params && "category" !in req.query
    ensures var t := Trim(ToStr(lib, Get(req, Instance(Body, Key("name")))));
            var cat := Instance(Body, Key("category"));
            RunChains(ValidateCreateSubCategory(lib), req).errors
            == req.errors + NameErrors(t) + [ErrorAt(IdRequired, cat, None), ErrorAt(InvalidCategoryId, cat, None)]
  {
    CreateSubCategoryRule(lib, req);
    MissingIdErrors(lib, Instance(Body, Key("category")), IdRequired, InvalidCategoryId);
  }

  lemma MissingIdErrors(lib: Lib, inst: Instance, required: string, invalid: string)
    ensures IdErrors(lib, inst, None, required, invalid) == [ErrorAt(required, inst, None), ErrorAt(invalid, inst, None)]
  {
    assert ToStr(lib, None) == "";
    assert !IsMongoId("");
  }

  /** `validateId` with the id given only as a path parameter. */
  lemma IdRule(lib: Lib, req: Request)
    requires "id" in req.params && "id" !in req.body && "id" !in req.query
    requires !req.params["id"].List?
    ensures var inst := Instance(Params, Key("id"));
            RunChains(ValidateId(lib), req)
            == req.(errors := req.errors + IdErrors(lib, inst, Get(req, inst), IdRequired, InvalidSubCategoryId))
  {
    assert HeldOnlyAt(req, "id", Params);
    RequiredIdRule(lib, req, "id", IdRequired, InvalidSubCategoryId, Params);
    RunOne(RequiredIdChain(lib, "id", IdRequired, InvalidSubCategoryId), req);
  }
}
