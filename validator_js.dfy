/**
 * The validator.js checks and sanitizers the chains use, as express-validator
 * 7 applies them: every value is first turned into a string by
 * express-validator's `toString`. Library functions this model does not
 * define (`slugify`, `escape`, mongoose `ObjectId.isValid` and the ObjectId an id casts to, the number
 * syntax of `isFloat`, `parseFloat`, `Number` and the display of a
 * floating-point number) are the fields of a `Lib` value.
 */
module ValidatorJs {
  import opened Wrappers
  import opened JsValues
  import opened JsStrings
  import opened JsNumbers
  import opened Validation

  datatype Lib = Lib(
    show: real -> string,                  // String(x) for a finite number
    slugify: string -> string,             // slugify(s) with its default options
    escape: string -> string,              // validator.js escape
    isObjectId: Value -> bool,             // mongoose.Types.ObjectId.isValid: the value casts to an ObjectId
    objectId: Value -> string,             // the hex text of the ObjectId a valid id casts to in a query
    castError: (string, Value) -> string,  // the message of the CastError `findById` on a model throws for a value that does not cast
    floatLiteral: string -> Option<real>,  // validator.js isFloat() pattern on a non-empty string, and its number
    parseFloat: string -> Option<real>,    // parseFloat(s); None is NaN
    toNumber: string -> Option<real>)      // Number(s); None is NaN

  /** JavaScript `String(v)`. */
  function JsString(lib: Lib, v: Value): string
    decreases v
  {
    match v
    case Null => "null"
    case Bool(b) => if b then "true" else "false"
    case Num(x) => lib.show(x)
    case NaN => "NaN"
    case Str(s) => s
    case List(items) =>
      // Array.prototype.join(','): null elements are written as empty strings
      var parts := seq(|items|, (i: int) requires 0 <= i < |items| => if items[i].Null? then "" else JsString(lib, items[i]));
      if parts == [] then "" else Join(parts, ',')
    case Obj(_) => "[object Object]"
  }

  /** express-validator's `toString`: `undefined`, `null` and NaN become the empty string. */
  function ToStr(lib: Lib, v: Option<Value>): (r: string)
    ensures v.Some? && v.value.Str? ==> r == v.value.s
    ensures v.None? ==> r == ""
  {
    match v
    case None => ""
    case Some(Null) => ""
    case Some(NaN) => ""
    case Some(x) => JsString(lib, x)
  }

  /** The number of variation selectors U+FE0E and U+FE0F, which `isLength` does not count. */
  function PresentationCount(s: string): (n: nat)
    ensures n <= |s|
  {
    if s == [] then 0 else (if s[0] == '\U{FE0E}' || s[0] == '\U{FE0F}' then 1 else 0) + PresentationCount(s[1..])
  }

  /** The length `isLength` measures. */
  function Length(s: string): nat {
    |s| - PresentationCount(s)
  }

  /** A string without variation selectors measures its number of characters. */
  lemma {:induction false} LengthOfPlain(s: string)
    requires forall i :: 0 <= i < |s| ==> s[i] != '\U{FE0E}' && s[i] != '\U{FE0F}'
    ensures Length(s) == |s|
  {
    if s != [] {
      LengthOfPlain(s[1..]);
    }
  }

  /** `isLength({ min, max })`. */
  predicate IsLength(s: string, min: nat, max: Option<nat>) {
    min <= Length(s) && (max.None? || Length(s) <= max.value)
  }

  /** `isInt({ min, max })`: `^[-+]?[0-9]+$`, then the bounds. */
  predicate IsIntIn(s: string, min: Option<int>, max: Option<int>) {
    var n := IntLiteral(s);
    n.Some? && (min.None? || n.value >= min.value) && (max.None? || n.value <= max.value)
  }

  /** The number `isFloat` accepts `s` as: never the empty string, which it refuses before its pattern. */
  function FloatValue(lib: Lib, s: string): (r: Option<real>)
    ensures s == "" ==> r.None?
  {
    if s == "" then None else lib.floatLiteral(s)
  }

  /** `isFloat({ min, max })`. */
  predicate IsFloatIn(lib: Lib, s: string, min: Option<real>, max: Option<real>) {
    var x := FloatValue(lib, s);
    x.Some? && (min.None? || x.value >= min.value) && (max.None? || x.value <= max.value)
  }

  predicate IsHexDigit(c: char) {
    IsDigit(c) || ('a' <= c <= 'f') || ('A' <= c <= 'F')
  }

  predicate HexDigits(s: string) {
    s != [] && forall i :: 0 <= i < |s| ==> IsHexDigit(s[i])
  }

  /** `isHexadecimal`: `^(0x|0h)?[0-9a-f]+$`, ignoring case. */
  predicate IsHexadecimal(s: string) {
    HexDigits(s) || (|s| >= 2 && s[0] == '0' && s[1] in "xXhH" && HexDigits(s[2..]))
  }

  /** `isMongoId`: a hexadecimal string of length 24. */
  predicate IsMongoId(s: string) {
    IsHexadecimal(s) && |s| == 24
  }

  /** Twenty-four hexadecimal digits pass `isMongoId`, and so does `0x` followed by twenty-two of them. */
  lemma MongoIdShapes(s: string)
    ensures |s| == 24 && HexDigits(s) ==> IsMongoId(s)
    ensures |s| == 24 && s[..2] == "0x" && HexDigits(s[2..]) ==> IsMongoId(s)
    ensures IsMongoId(s) ==> |s| == 24 && forall i :: 2 <= i < 24 ==> IsHexDigit(s[i])
  {
    if IsMongoId(s) && !HexDigits(s) {
      assert forall i :: 2 <= i < 24 ==> s[i] == s[2..][i - 2];
    }
  }

  /** An instance of the second shape: `0x` and twenty-two hex digits. */
  lemma ZeroXIsMongoId()
    ensures IsMongoId("0x0123456789abcdef012345")
  {
    var digits := "0123456789abcdef012345";
    assert HexDigits(digits) by {
      forall i | 0 <= i < |digits|
        ensures IsHexDigit(digits[i])
      {
      }
    }
    assert "0x0123456789abcdef012345"[2..] == digits;
  }

  /** A character of `[\w\s-]`. */
  predicate NameChar(c: char) {
    ('a' <= c <= 'z') || ('A' <= c <= 'Z') || IsDigit(c) || c == '_' || IsSpace(c) || c == '-'
  }

  /** `matches(/^[\w\s-]+$/)`. */
  predicate IsName(s: string) {
    s != [] && forall i :: 0 <= i < |s| ==> NameChar(s[i])
  }

  // The chain items.

  function NotEmpty(lib: Lib, msg: string): Step {
    Each((v: Option<Value>) => ToStr(lib, v) != "", msg)
  }

  function LengthCheck(lib: Lib, min: nat, max: Option<nat>, msg: string): Step {
    Each((v: Option<Value>) => IsLength(ToStr(lib, v), min, max), msg)
  }

  function IntCheck(lib: Lib, min: Option<int>, max: Option<int>, msg: string): Step {
    Each((v: Option<Value>) => IsIntIn(ToStr(lib, v), min, max), msg)
  }

  function FloatCheck(lib: Lib, min: Option<real>, max: Option<real>, msg: string): Step {
    Each((v: Option<Value>) => IsFloatIn(lib, ToStr(lib, v), min, max), msg)
  }

  function MongoIdCheck(lib: Lib, msg: string): Step {
    Each((v: Option<Value>) => IsMongoId(ToStr(lib, v)), msg)
  }

  function NameCheck(lib: Lib, msg: string): Step {
    Each((v: Option<Value>) => IsName(ToStr(lib, v)), msg)
  }

  /** `isString()`, on the whole value. */
  function StringCheck(msg: string): Step {
    Whole((v: Option<Value>) => v.Some? && v.value.Str?, msg)
  }

  /** `isArray()`, on the whole value. */
  function ArrayCheck(msg: string): Step {
    Whole((v: Option<Value>) => v.Some? && v.value.List?, msg)
  }

  function TrimValue(lib: Lib): Step {
    Sanitize((v: Option<Value>) => Str(Trim(ToStr(lib, v))))
  }

  function EscapeValue(lib: Lib): Step {
    Sanitize((v: Option<Value>) => Str(lib.escape(ToStr(lib, v))))
  }

  /** What `toInt()` makes of a value: `parseInt(str, 10)`. */
  function IntOf(lib: Lib, v: Option<Value>): Value {
    match ParseInt(ToStr(lib, v))
    case Some(n) => Num(n as real)
    case None => NaN
  }

  /** What `toFloat()` makes of a value: the number `isFloat` accepts, else NaN. */
  function FloatOf(lib: Lib, v: Option<Value>): Value {
    match FloatValue(lib, ToStr(lib, v))
    case Some(x) => Num(x)
    case None => NaN
  }

  function ToIntValue(lib: Lib): Step {
    Sanitize((v: Option<Value>) => IntOf(lib, v))
  }

  function ToFloatValue(lib: Lib): Step {
    Sanitize((v: Option<Value>) => FloatOf(lib, v))
  }

  /**
   * The custom item `(val, { req }) => { req.body.slug = slugify(val); return true; }`:
   * `slugify` throws on anything but a string.
   */
  function SlugStep(lib: Lib): Step {
    Custom((v: Option<Value>, req: Request) =>
      match v
      case Some(Str(s)) => Accept(req.body["slug" := Str(lib.slugify(s))])
      case _ => Reject("slugify: string argument expected"))
  }

  /** On a string value the slug item writes `body.slug` and records no error. */
  lemma SlugStepOnString(lib: Lib, inst: Instance, st: State, t: string)
    requires Get(st.req, inst) == Some(Str(t))
    ensures ApplyOne(SlugStep(lib), inst, st) == st.(req := st.req.(body := st.req.body["slug" := Str(lib.slugify(t))]))
  {
  }

  /**
   * `body(name).trim()`, then standard checks, then (when `slug`) the slug
   * item and `escape()`: the trimmed value `t` is what every check sees;
   * `body.slug` becomes `slugify(t)` and the field the escaped `t`, whether
   * or not a check failed.
   */
  lemma TrimmedRule(lib: Lib, req: Request, name: string, opt: Optionality, checks: seq<Step>, slug: bool)
    requires name != "slug"
    requires AllChecks(checks)
    requires Present(opt, Get(req, Instance(Body, Key(name))))
    requires name in req.body ==> !req.body[name].List?
    ensures var inst := Instance(Body, Key(name));
            var t := Trim(ToStr(lib, Get(req, inst)));
            var writes := if slug then [SlugStep(lib), EscapeValue(lib)] else [EscapeValue(lib)];
            var body := if slug then req.body["slug" := Str(lib.slugify(t))] else req.body;
            RunChain(Chain([Body], Field(name), opt, [TrimValue(lib)] + checks + writes), req)
            == req.(body := body[name := Str(lib.escape(t))], errors := req.errors + Failures(checks, inst, Some(Str(t))))
  {
    var writes := if slug then [SlugStep(lib), EscapeValue(lib)] else [EscapeValue(lib)];
    var chain := Chain([Body], Field(name), opt, [TrimValue(lib)] + checks + writes);
    SingleLocation(chain, chain.steps, State(req, {}, []));
    TrimmedRun(lib, req, name, opt, checks, slug);
  }

  /** The items of `TrimmedRule` on the field's one instance. */
  lemma TrimmedRun(lib: Lib, req: Request, name: string, opt: Optionality, checks: seq<Step>, slug: bool)
    requires name != "slug"
    requires AllChecks(checks)
    requires Present(opt, Get(req, Instance(Body, Key(name))))
    requires name in req.body ==> !req.body[name].List?
    ensures var inst := Instance(Body, Key(name));
            var t := Trim(ToStr(lib, Get(req, inst)));
            var writes := if slug then [SlugStep(lib), EscapeValue(lib)] else [EscapeValue(lib)];
            var body := if slug then req.body["slug" := Str(lib.slugify(t))] else req.body;
            RunSingle(opt, [TrimValue(lib)] + checks + writes, inst, State(req, {}, []))
            == State(req.(body := body[name := Str(lib.escape(t))]), {}, Failures(checks, inst, Some(Str(t))))
  {
    var inst := Instance(Body, Key(name));
    var t := Trim(ToStr(lib, Get(req, inst)));
    var writes := if slug then [SlugStep(lib), EscapeValue(lib)] else [EscapeValue(lib)];
    var errs := Failures(checks, inst, Some(Str(t)));
    var s0 := State(req, {}, []);
    RunSingleAppend(opt, [TrimValue(lib)] + checks, writes, inst, s0);
    TrimThenChecks(lib, req, name, opt, checks);
    var trimmed := req.(body := req.body[name := Str(t)]);
    WritesRun(lib, trimmed, name, opt, t, errs, slug);
    OverwrittenUpdate(req.body, name, "slug", Str(t), Str(lib.slugify(t)), Str(lib.escape(t)), slug);
  }

  /** `trim()` and then standard checks: the checks see the trimmed value, which is written in place. */
  lemma TrimThenChecks(lib: Lib, req: Request, name: string, opt: Optionality, checks: seq<Step>)
    requires AllChecks(checks)
    requires Present(opt, Get(req, Instance(Body, Key(name))))
    requires name in req.body ==> !req.body[name].List?
    ensures var inst := Instance(Body, Key(name));
            var t := Trim(ToStr(lib, Get(req, inst)));
            RunSingle(opt, [TrimValue(lib)] + checks, inst, State(req, {}, []))
            == State(req.(body := req.body[name := Str(t)]), {}, Failures(checks, inst, Some(Str(t))))
  {
    var inst := Instance(Body, Key(name));
    var t := Trim(ToStr(lib, Get(req, inst)));
    TrimOf(lib, Get(req, inst));
    SanitizeThenChecks(opt, TrimValue(lib).f, checks, Body, name, State(req, {}, []));
    assert [] + Failures(checks, inst, Some(Str(t))) == Failures(checks, inst, Some(Str(t)));
  }

  lemma TrimOf(lib: Lib, v: Option<Value>)
    ensures TrimValue(lib).f(v) == Str(Trim(ToStr(lib, v)))
  {
  }

  /** Writing a key a second time overrides the first write, whatever was written in between to another key. */
  lemma OverwrittenUpdate<K, V>(m: map<K, V>, a: K, b: K, first: V, between: V, last: V, written: bool)
    requires a != b
    ensures (if written then m[a := first][b := between] else m[a := first])[a := last]
            == (if written then m[b := between] else m)[a := last]
  {
  }

  lemma EscapeOf(lib: Lib, t: string)
    ensures EscapeValue(lib).f(Some(Str(t))) == Str(lib.escape(t))
  {
    assert ToStr(lib, Some(Str(t))) == t;
    var f := EscapeValue(lib).f;
    assert f == (v: Option<Value>) => Str(lib.escape(ToStr(lib, v)));
  }

  /** The slug item (when `slug`) and `escape()` on a field holding the string `t`. */
  lemma WritesRun(lib: Lib, req: Request, name: string, opt: Optionality, t: string, errs: seq<FieldError>, slug: bool)
    requires name != "slug"
    requires Get(req, Instance(Body, Key(name))) == Some(Str(t))
    ensures var inst := Instance(Body, Key(name));
            var writes := if slug then [SlugStep(lib), EscapeValue(lib)] else [EscapeValue(lib)];
            var body := if slug then req.body["slug" := Str(lib.slugify(t))] else req.body;
            RunSingle(opt, writes, inst, State(req, {}, errs)) == State(req.(body := body[name := Str(lib.escape(t))]), {}, errs)
  {
    var inst := Instance(Body, Key(name));
    var s2 := State(req, {}, errs);
    EscapeOf(lib, t);
    if slug {
      SlugStepOnString(lib, inst, s2, t);
      var body3 := req.body["slug" := Str(lib.slugify(t))];
      var s3 := s2.(req := req.(body := body3));
      assert Get(s3.req, inst) == Some(Str(t));
      SanitizeOnPlain(EscapeValue(lib).f, inst, s3);
      assert Set(s3.req, inst, Str(lib.escape(t))) == s3.req.(body := body3[name := Str(lib.escape(t))]);
      RunSingleAppend(opt, [SlugStep(lib)], [EscapeValue(lib)], inst, s2);
      assert [SlugStep(lib)] + [EscapeValue(lib)] == [SlugStep(lib), EscapeValue(lib)];
      RunSingleOne(opt, SlugStep(lib), inst, s2);
      RunSingleOne(opt, EscapeValue(lib), inst, s3);
    } else {
      SanitizeOnPlain(EscapeValue(lib).f, inst, s2);
      assert Set(req, inst, Str(lib.escape(t))) == req.(body := req.body[name := Str(lib.escape(t))]);
      RunSingleOne(opt, EscapeValue(lib), inst, s2);
    }
  }

  /**
   * JavaScript `parseFloat(v)` on a value: a number reads back as itself,
   * NaN stays NaN, and any other value is read from `String(v)`.
   */
  function ParseFloatOf(lib: Lib, v: Value): Option<real> {
    match v
    case Num(x) => Some(x)
    case NaN => None
    case _ => lib.parseFloat(JsString(lib, v))
  }

  /** `Number(v)` for the values a sanitized number field can hold. */
  function NumberOf(lib: Lib, v: Value): Option<real> {
    match v
    case Num(x) => Some(x)
    case NaN => None
    case Null => Some(0.0)
    case Bool(b) => Some(if b then 1.0 else 0.0)
    case Obj(_) => None
    case _ => lib.toNumber(JsString(lib, v))
  }

  /** `value >= bound` in JavaScript; always false when `value` is NaN. */
  predicate AtLeast(lib: Lib, value: Value, bound: real) {
    var x := NumberOf(lib, value);
    x.Some? && x.value >= bound
  }

  /** `check(name).notEmpty().withMessage(required).isMongoId().withMessage(invalid)`. */
  function RequiredIdChain(lib: Lib, name: string, required: string, invalid: string): Chain {
    Chain(AnyLocation, Field(name), Required, [NotEmpty(lib, required), MongoIdCheck(lib, invalid)])
  }

  /** The errors a required id rule records for the value `v` found at `inst`. */
  function IdErrors(lib: Lib, inst: Instance, v: Option<Value>, required: string, invalid: string): seq<FieldError> {
    var s := ToStr(lib, v);
    (if s == "" then [ErrorAt(required, inst, v)] else [])
    + (if !IsMongoId(s) then [ErrorAt(invalid, inst, v)] else [])
  }

  /** The field `name` is in no location but `loc`, and is missing only from the body. */
  predicate HeldAt(req: Request, name: string, loc: Location) {
    && (forall other :: other != loc ==> Get(req, Instance(other, Key(name))).None?)
    && (Get(req, Instance(loc, Key(name))).None? ==> loc == Body)
  }

  /** `HeldAt`, and the field is not an array there. */
  predicate HeldOnlyAt(req: Request, name: string, loc: Location) {
    && HeldAt(req, name, loc)
    && var v := Get(req, Instance(loc, Key(name))); !(v.Some? && v.value.List?)
  }

  /** A field sent neither as a path parameter nor in the query is held only in the body. */
  lemma HeldOnlyInBody(req: Request, name: string)
    requires name !in req.params && name !in req.query
    requires name in req.body ==> !req.body[name].List?
    ensures HeldOnlyAt(req, name, Body)
  {
  }

  /**
   * A required id rule, on a request holding the field in one location at
   * most (the body when in none): the `required` message when it is empty
   * or missing, then the `invalid` message when it is no MongoId; nothing
   * else changes.
   */
  lemma RequiredIdRule(lib: Lib, req: Request, name: string, required: string, invalid: string, loc: Location)
    requires HeldOnlyAt(req, name, loc)
    ensures var inst := Instance(loc, Key(name));
            RunChain(RequiredIdChain(lib, name, required, invalid), req)
            == req.(errors := req.errors + IdErrors(lib, inst, Get(req, inst), required, invalid))
  {
    var chain := RequiredIdChain(lib, name, required, invalid);
    var inst := Instance(loc, Key(name));
    var v := Get(req, inst);
    CheckChainChecks(chain, req, loc);
    assert chain.steps[0].ok(v) == (ToStr(lib, v) != "");
    assert chain.steps[1].ok(v) == IsMongoId(ToStr(lib, v));
    FailuresTwo(chain.steps[0], chain.steps[1], inst, v);
  }

  // The pagination query rules, declared identically in the product,
  // category and sub-category validator files.

  const PageMessage := "Page must be a positive integer"
  const LimitMessage := "Limit must be 1\U{2013}100"

  function PageChain(lib: Lib): Chain {
    Chain([Query], Field("page"), Optional, [IntCheck(lib, Some(1), None, PageMessage)])
  }

  function LimitChain(lib: Lib): Chain {
    Chain([Query], Field("limit"), Optional, [IntCheck(lib, Some(1), Some(100), LimitMessage)])
  }

  function PaginationChains(lib: Lib): seq<Chain> {
    [PageChain(lib), LimitChain(lib)]
  }

  /** The error an optional integer query value gets: none when absent or an integer in range. */
  function QueryIntErrors(lib: Lib, req: Request, name: string, min: Option<int>, max: Option<int>, msg: string): seq<FieldError> {
    if name in req.query && !IsIntIn(ToStr(lib, Some(req.query[name])), min, max)
    then [ErrorAt(msg, Instance(Query, Key(name)), Some(req.query[name]))]
    else []
  }

  /** One optional integer query rule adds its error, if any, and changes nothing else. */
  lemma QueryIntRule(lib: Lib, req: Request, name: string, min: Option<int>, max: Option<int>, msg: string)
    requires name in req.query ==> !req.query[name].List?
    ensures RunChain(Chain([Query], Field(name), Optional, [IntCheck(lib, min, max, msg)]), req)
            == req.(errors := req.errors + QueryIntErrors(lib, req, name, min, max, msg))
  {
    SingleCheck(req, Query, name, Optional, IntCheck(lib, min, max, msg));
  }

  /**
   * `validatePagination`: an optional `page` must be an integer of at least
   * 1 and an optional `limit` an integer from 1 to 100; these add their
   * errors in that order and change nothing else. (A repeated query key,
   * which arrives as an array, is checked element by element instead.)
   */
  lemma PaginationRule(lib: Lib, req: Request)
    requires "page" in req.query ==> !req.query["page"].List?
    requires "limit" in req.query ==> !req.query["limit"].List?
    ensures RunChains(PaginationChains(lib), req)
            == req.(errors := req.errors
                              + QueryIntErrors(lib, req, "page", Some(1), None, PageMessage)
                              + QueryIntErrors(lib, req, "limit", Some(1), Some(100), LimitMessage))
  {
    var page, limit := PageChain(lib), LimitChain(lib);
    QueryIntRule(lib, req, "page", Some(1), None, PageMessage);
    var afterPage := RunChain(page, req);
    QueryIntRule(lib, afterPage, "limit", Some(1), Some(100), LimitMessage);
    assert QueryIntErrors(lib, afterPage, "limit", Some(1), Some(100), LimitMessage)
        == QueryIntErrors(lib, req, "limit", Some(1), Some(100), LimitMessage);
    RunTwo(page, limit, req);
  }
}
