/** `middleware/validators/categoryValidator.js`: the category name, id and pagination rules. */
module CategoryValidator {
  import opened Wrappers
  import opened JsValues
  import opened JsStrings
  import opened Validation
  import opened ValidatorJs

  const NameRequired := "Name is required"
  const NameLength := "Name must be 2\U{2013}50 characters long"
  const NameCharacters := "Name must contain only letters, numbers, dashes, or spaces"
  const InvalidId := "Invalid category ID format"

  /** The standard checks on the trimmed name. */
  function NameChecks(lib: Lib): seq<Step> {
    [ NotEmpty(lib, NameRequired),
      LengthCheck(lib, 2, Some(50), NameLength),
      NameCheck(lib, NameCharacters) ]
  }

  /** `body('name')`: trimmed, non-empty, 2 to 50 long, `[\w\s-]` only; the slug is written, then the name escaped. */
  function NameChain(lib: Lib): Chain {
    Chain([Body], Field("name"), Required, [TrimValue(lib)] + NameChecks(lib) + [SlugStep(lib), EscapeValue(lib)])
  }

  /** `validateCreateUpdateCategory`, which guards both creating and updating a category. */
  function ValidateCreateUpdateCategory(lib: Lib): seq<Chain> {
    [NameChain(lib)]
  }

  /** `check('id').isMongoId()`. */
  function IdChain(lib: Lib): Chain {
    Chain(AnyLocation, Field("id"), Required, [MongoIdCheck(lib, InvalidId)])
  }

  function ValidateId(lib: Lib): seq<Chain> {
    [IdChain(lib)]
  }

  function ValidatePagination(lib: Lib): seq<Chain> {
    PaginationChains(lib)
  }

  /** The errors the name rule records for the trimmed name `t`, in item order. */
  function NameErrors(t: string): seq<FieldError> {
    var inst := Instance(Body, Key("name"));
    (if t == "" then [ErrorAt(NameRequired, inst, Some(Str(t)))] else [])
    + (if !IsLength(t, 2, Some(50)) then [ErrorAt(NameLength, inst, Some(Str(t)))] else [])
    + (if !IsName(t) then [ErrorAt(NameCharacters, inst, Some(Str(t)))] else [])
  }

  /**
   * The name rule: the name is trimmed; the trimmed name `t` must be
   * non-empty, 2 to 50 long and made of `[\w\s-]`; whatever the outcome,
   * `body.slug` becomes `slugify(t)` and `body.name` the escaped `t`.
   * (A name sent as an array is checked element by element instead.)
   */
  lemma NameRule(lib: Lib, req: Request)
    requires "name" in req.body ==> !req.body["name"].List?
    ensures var t := Trim(ToStr(lib, Get(req, Instance(Body, Key("name")))));
            RunChains(ValidateCreateUpdateCategory(lib), req)
            == req.(body := req.body["slug" := Str(lib.slugify(t))]["name" := Str(lib.escape(t))],
                    errors := req.errors + NameErrors(t))
  {
    var t := Trim(ToStr(lib, Get(req, Instance(Body, Key("name")))));
    assert "name"[0] != "slug"[0];
    TrimmedRule(lib, req, "name", Required, NameChecks(lib), true);
    NameFailures(lib, t);
    RunOne(NameChain(lib), req);
  }

  lemma NameFailures(lib: Lib, t: string)
    ensures Failures(NameChecks(lib), Instance(Body, Key("name")), Some(Str(t))) == NameErrors(t)
  {
    var inst := Instance(Body, Key("name"));
    var v := Some(Str(t));
    var checks := NameChecks(lib);
    assert ToStr(lib, v) == t;
    var e0, e1, e2 := Failure(checks[0], inst, v), Failure(checks[1], inst, v), Failure(checks[2], inst, v);
    assert e0 == if t == "" then [ErrorAt(NameRequired, inst, v)] else [];
    assert e1 == if !IsLength(t, 2, Some(50)) then [ErrorAt(NameLength, inst, v)] else [];
    assert e2 == if !IsName(t) then [ErrorAt(NameCharacters, inst, v)] else [];
    FailuresThree(checks[0], checks[1], checks[2], inst, v);
  }

  /** The same rule guards updates, so an update without a name is refused with "Name is required". */
  lemma NameRequiredOnUpdate(lib: Lib, req: Request)
    requires "name" !in req.body
    ensures var r := RunChains(ValidateCreateUpdateCategory(lib), req);
            r.errors == req.errors + NameErrors("") && |NameErrors("")| == 3
            && NameErrors("")[0].msg == NameRequired
  {
    NameRule(lib, req);
    assert Trim("") == "";
  }

  /**
   * `validateId` with the id given only as a path parameter: the one error
   * it can record is "Invalid category ID format", exactly when the id is no
   * MongoId; the request is otherwise unchanged.
   */
  lemma IdRule(lib: Lib, req: Request)
    requires "id" in req.params && "id" !in req.body && "id" !in req.query
    requires !req.params["id"].List?
    ensures var v := Some(req.params["id"]);
            RunChains(ValidateId(lib), req)
            == req.(errors := req.errors
                              + if IsMongoId(ToStr(lib, v)) then [] else [ErrorAt(InvalidId, Instance(Params, Key("id")), v)])
  {
    var chain := IdChain(lib);
    var inst := Instance(Params, Key("id"));
    var v := Some(req.params["id"]);
    assert Get(req, inst) == v;
    CheckChainChecks(chain, req, Params);
    FailuresOne(chain.steps[0], inst, v);
    RunOne(chain, req);
  }
}
