/**
 * The part of express-validator (version 7) the validators rely on: a
 * validation chain selects the field instances it names in the request,
 * runs its items one after another over every selected instance, writes
 * sanitized values back into the request and records its errors on the
 * request, in chain order, for `validationResult`.
 */
module Validation {
  import opened Wrappers
  import opened JsValues
  import opened JsNumbers

  datatype Location = Body | Params | Query

  /** A field path: `name`, or `name[i]` for an element a wildcard `name.*` selects. */
  datatype Path = Key(name: string) | Item(name: string, index: nat)

  /** One selected field: where it is and its path there. */
  datatype Instance = Instance(location: Location, path: Path)

  /** An express-validator 7 field error: `type: 'field'`, `msg`, `path`, `location`, `value`. */
  datatype FieldError = FieldError(kind: string, msg: string, location: Location, path: Path, value: Option<Value>)

  /** The request as the chains see it, with the errors recorded on it so far. */
  datatype Request = Request(body: map<string, Value>, params: map<string, Value>, query: map<string, Value>,
                             errors: seq<FieldError>)

  function Part(req: Request, loc: Location): map<string, Value> {
    match loc
    case Body => req.body
    case Params => req.params
    case Query => req.query
  }

  function WithPart(req: Request, loc: Location, m: map<string, Value>): (r: Request)
    ensures Part(r, loc) == m && r.errors == req.errors
    ensures forall other :: other != loc ==> Part(r, other) == Part(req, other)
  {
    match loc
    case Body => req.(body := m)
    case Params => req.(params := m)
    case Query => req.(query := m)
  }

  /** The value at an instance, `None` for `undefined`. */
  function Get(req: Request, inst: Instance): Option<Value> {
    var m := Part(req, inst.location);
    match inst.path
    case Key(n) => if n in m then Some(m[n]) else None
    case Item(n, i) => if n in m && m[n].List? && i < |m[n].items| then Some(m[n].items[i]) else None
  }

  /** The request with `v` written at an instance (lodash `_.set` on an existing path). */
  function Set(req: Request, inst: Instance, v: Value): (r: Request)
    ensures r.errors == req.errors
  {
    var m := Part(req, inst.location);
    match inst.path
    case Key(n) => WithPart(req, inst.location, m[n := v])
    case Item(n, i) =>
      if n in m && m[n].List? && i < |m[n].items| then WithPart(req, inst.location, m[n := List(m[n].items[i := v])])
      else req
  }

  /** Reading back a key just written gives the written value; nothing else at that location changes. */
  lemma SetKey(req: Request, loc: Location, n: string, v: Value)
    ensures var r := Set(req, Instance(loc, Key(n)), v);
            && Get(r, Instance(loc, Key(n))) == Some(v)
            && Part(r, loc) == Part(req, loc)[n := v]
            && forall other :: other != loc ==> Part(r, other) == Part(req, other)
  {
  }

  /** What a custom validator does: resolve (possibly having written `req.body`) or throw an error with a message. */
  datatype Verdict = Accept(body: map<string, Value>) | Reject(message: string)

  /**
   * The items of a chain:
   *  - `Each`: a standard validator, run on every element of an array value and
   *    on any other value as a whole, with its `withMessage` message;
   *  - `Whole`: a validator express-validator builds from `custom` (`isArray`,
   *    `isString`), run on the whole value;
   *  - `Sanitize`: a standard sanitizer, applied like `Each` and written back;
   *  - `Custom`: `custom(fn)` given the value and the request;
   *  - `Bail`: stop this instance if the chain already has an error.
   */
  datatype Step =
    | Each(ok: Option<Value> -> bool, message: string)
    | Whole(test: Option<Value> -> bool, message: string)
    | Sanitize(f: Option<Value> -> Value)
    | Custom(fn: (Option<Value>, Request) -> Verdict)
    | Bail

  /** Which instances a chain skips: none, `optional()` (undefined ones), `optional({ nullable: true })` (null ones too). */
  datatype Optionality = Required | Optional | OptionalNullable

  /** `'name'` or the wildcard `'name.*'`. */
  datatype Target = Field(name: string) | EachOf(name: string)

  /** `body(...)`, `query(...)` (one location) or `check(...)` (every location), and its items. */
  datatype Chain = Chain(locations: seq<Location>, target: Target, optionality: Optionality, steps: seq<Step>)

  /** The locations `check(...)` looks in, in express-validator's order (cookies and headers are not modelled). */
  const AnyLocation: seq<Location> := [Body, Params, Query]

  /** A chain's running state: the request, the halted instances and the chain's own errors. */
  datatype State = State(req: Request, halted: set<Instance>, errors: seq<FieldError>)

  /** The elements of `s` that satisfy `p`, in order. */
  function Filter<T>(s: seq<T>, p: T -> bool): (r: seq<T>)
    ensures |r| <= |s|
    decreases |s|
  {
    if s == [] then []
    else
      var x := s[|s| - 1];
      Filter(s[..|s| - 1], p) + (if p(x) then [x] else [])
  }

  /** The paths a target names in one location. */
  function Paths(m: map<string, Value>, target: Target): seq<Path> {
    match target
    case Field(n) => [Key(n)]
    case EachOf(n) =>
      if n in m && m[n].List? then seq(|m[n].items|, (i: int) requires 0 <= i < |m[n].items| => Item(n, i)) else []
  }

  /** The instances a target names in one location. */
  function InstancesAt(req: Request, loc: Location, target: Target): seq<Instance> {
    var paths := Paths(Part(req, loc), target);
    seq(|paths|, (i: int) requires 0 <= i < |paths| => Instance(loc, paths[i]))
  }

  /** Every instance a chain names, location by location. */
  function Selected(req: Request, locations: seq<Location>, target: Target): seq<Instance>
    decreases |locations|
  {
    if locations == [] then []
    else Selected(req, locations[..|locations| - 1], target) + InstancesAt(req, locations[|locations| - 1], target)
  }

  predicate Present(opt: Optionality, v: Option<Value>) {
    match opt
    case Required => true
    case Optional => v.Some?
    case OptionalNullable => v.Some? && v.value != Null
  }

  /**
   * The instances an item runs on: when a field is looked for in several
   * locations only those holding a value are kept, or the first one if none
   * does; then the ones `optional` skips and the halted ones are dropped.
   */
  function Active(chain: Chain, st: State): seq<Instance> {
    var req := st.req;
    var sel := Selected(req, chain.locations, chain.target);
    var grouped :=
      if chain.target.Field? && |chain.locations| > 1 then
        var held := Filter(sel, HasValue(req));
        if held != [] then held else if sel != [] then [sel[0]] else []
      else sel;
    var present := Filter(grouped, (inst: Instance) => Present(chain.optionality, Get(req, inst)));
    Filter(present, (inst: Instance) => inst !in st.halted)
  }

  function HasValue(req: Request): Instance -> bool {
    (inst: Instance) => Get(req, inst).Some?
  }

  function ErrorAt(msg: string, inst: Instance, v: Option<Value>): FieldError {
    FieldError("field", msg, inst.location, inst.path, v)
  }

  /** The errors of a standard validator: one per failing array element, or one for a failing value. */
  function EachErrors(ok: Option<Value> -> bool, msg: string, inst: Instance, v: Option<Value>): (r: seq<FieldError>)
    ensures v.Some? && v.value.List? ==> |r| <= |v.value.items|
    ensures !(v.Some? && v.value.List?) ==> (r == [] <==> ok(v))
  {
    match v
    case Some(List(items)) =>
      var bad := Filter(seq(|items|, (i: int) requires 0 <= i < |items| => Some(items[i])), (e: Option<Value>) => !ok(e));
      seq(|bad|, (i: int) requires 0 <= i < |bad| => ErrorAt(msg, inst, bad[i]))
    case _ => if ok(v) then [] else [ErrorAt(msg, inst, v)]
  }

  /** A standard sanitizer: element by element on an array, else on the value. */
  function SanitizeValue(f: Option<Value> -> Value, v: Option<Value>): Value {
    match v
    case Some(List(items)) => List(MapElements(f, items))
    case _ => f(v)
  }

  /** A sanitizer on every element of an array, in order. */
  function MapElements(f: Option<Value> -> Value, items: seq<Value>): (r: seq<Value>)
    ensures |r| == |items|
    ensures forall i :: 0 <= i < |items| ==> r[i] == f(Some(items[i]))
  {
    seq(|items|, (i: int) requires 0 <= i < |items| => f(Some(items[i])))
  }

  /** One item on one instance. */
  function ApplyOne(step: Step, inst: Instance, st: State): State {
    var v := Get(st.req, inst);
    match step
    case Each(ok, msg) => st.(errors := st.errors + EachErrors(ok, msg, inst, v))
    case Whole(test, msg) => if test(v) then st else st.(errors := st.errors + [ErrorAt(msg, inst, v)])
    case Sanitize(f) => st.(req := Set(st.req, inst, SanitizeValue(f, v)))
    case Custom(fn) =>
      (match fn(v, st.req)
       case Accept(body) => st.(req := st.req.(body := body))
       case Reject(msg) => st.(errors := st.errors + [ErrorAt(msg, inst, v)]))
    case Bail => if st.errors != [] then st.(halted := st.halted + {inst}) else st
  }

  /** One item on every instance it runs on, in instance order. */
  function Apply(step: Step, insts: seq<Instance>, st: State): State
    decreases |insts|
  {
    if insts == [] then st else ApplyOne(step, insts[|insts| - 1], Apply(step, insts[..|insts| - 1], st))
  }

  /** The items in order; each item runs on the instances active at that point. */
  function RunSteps(chain: Chain, steps: seq<Step>, st: State): State
    decreases |steps|
  {
    if steps == [] then st
    else
      var before := RunSteps(chain, steps[..|steps| - 1], st);
      Apply(steps[|steps| - 1], Active(chain, before), before)
  }

  /** `chain.run(req)`: the sanitized request, with the chain's errors added after the earlier ones. */
  function RunChain(chain: Chain, req: Request): Request {
    var st := RunSteps(chain, chain.steps, State(req, {}, []));
    st.req.(errors := req.errors + st.errors)
  }

  /** The chain's own errors. */
  function ChainErrors(chain: Chain, req: Request): seq<FieldError> {
    RunSteps(chain, chain.steps, State(req, {}, [])).errors
  }

  /** Running chains one at a time, in list order, each on the request the previous one left. */
  function RunChains(chains: seq<Chain>, req: Request): Request
    decreases |chains|
  {
    if chains == [] then req else RunChain(chains[|chains| - 1], RunChains(chains[..|chains| - 1], req))
  }

  /** Running one chain as a list. */
  lemma RunOne(a: Chain, req: Request)
    ensures RunChains([a], req) == RunChain(a, req)
  {
    assert [a][..0] == [];
  }

  /** Running two chains as a list: the first, then the second on what the first left. */
  lemma RunTwo(a: Chain, b: Chain, req: Request)
    ensures RunChains([a, b], req) == RunChain(b, RunChain(a, req))
  {
    assert [a, b][..1] == [a];
    RunOne(a, req);
  }

  /** `a` is `b` with possibly more after it. */
  predicate Extends<T(==)>(b: seq<T>, a: seq<T>) {
    |b| <= |a| && a[..|b|] == b
  }

  lemma ExtendsTrans<T>(a: seq<T>, b: seq<T>, c: seq<T>)
    requires Extends(a, b) && Extends(b, c)
    ensures Extends(a, c)
  {
    assert c[..|a|] == c[..|b|][..|a|];
  }

  /** Items never remove an error and never touch the errors recorded on the request. */
  lemma {:induction false} RunStepsKeepsErrors(chain: Chain, steps: seq<Step>, st: State)
    ensures var r := RunSteps(chain, steps, st);
            r.req.errors == st.req.errors && Extends(st.errors, r.errors)
    decreases |steps|
  {
    if steps != [] {
      var before := RunSteps(chain, steps[..|steps| - 1], st);
      RunStepsKeepsErrors(chain, steps[..|steps| - 1], st);
      ApplyKeepsErrors(steps[|steps| - 1], Active(chain, before), before);
      ExtendsTrans(st.errors, before.errors, RunSteps(chain, steps, st).errors);
    }
  }

  lemma {:induction false} ApplyKeepsErrors(step: Step, insts: seq<Instance>, st: State)
    ensures var r := Apply(step, insts, st);
            r.req.errors == st.req.errors && Extends(st.errors, r.errors)
    decreases |insts|
  {
    if insts != [] {
      var before := Apply(step, insts[..|insts| - 1], st);
      ApplyKeepsErrors(step, insts[..|insts| - 1], st);
      var r := ApplyOne(step, insts[|insts| - 1], before);
      assert Extends(before.errors, r.errors);
      ExtendsTrans(st.errors, before.errors, r.errors);
    }
  }

  /** A chain appends its own errors to those already recorded, and no others. */
  lemma RunChainAppends(chain: Chain, req: Request)
    ensures RunChain(chain, req).errors == req.errors + ChainErrors(chain, req)
  {
  }

  /** Running a list of chains keeps every error already recorded, as a prefix. */
  lemma {:induction false} RunChainsKeepsErrors(chains: seq<Chain>, req: Request)
    ensures Extends(req.errors, RunChains(chains, req).errors)
    decreases |chains|
  {
    if chains != [] {
      var before := RunChains(chains[..|chains| - 1], req);
      RunChainsKeepsErrors(chains[..|chains| - 1], req);
      var r := RunChain(chains[|chains| - 1], before);
      RunChainAppends(chains[|chains| - 1], before);
      assert r.errors[..|before.errors|] == before.errors;
      ExtendsTrans(req.errors, before.errors, r.errors);
    }
  }

  /** The last element of `a + b` is that of `b`, and what comes before it is `a` followed by the rest of `b`. */
  lemma LastOfAppend<T>(a: seq<T>, b: seq<T>)
    requires b != []
    ensures (a + b)[|a + b| - 1] == b[|b| - 1]
    ensures (a + b)[..|a + b| - 1] == a + b[..|b| - 1]
  {
  }

  /** Running `a + b` is running `a`, then `b`. */
  lemma {:induction false} RunChainsAppend(a: seq<Chain>, b: seq<Chain>, req: Request)
    ensures RunChains(a + b, req) == RunChains(b, RunChains(a, req))
    decreases |b|
  {
    if b == [] {
      assert a + b == a;
    } else {
      var init, last := b[..|b| - 1], b[|b| - 1];
      LastOfAppend(a, b);
      calc {
        RunChains(a + b, req);
        RunChain(last, RunChains(a + init, req));
        { RunChainsAppend(a, init, req); }
        RunChain(last, RunChains(init, RunChains(a, req)));
      }
    }
  }

  /** A chain's items on its single instance, one after another (halted or skipped instances stay untouched). */
  function RunSingle(opt: Optionality, steps: seq<Step>, inst: Instance, st: State): State
    decreases |steps|
  {
    if steps == [] then st
    else
      StepOn(opt, steps[|steps| - 1], inst, RunSingle(opt, steps[..|steps| - 1], inst, st))
  }

  /** One item on one instance, unless the instance is halted or skipped. */
  function StepOn(opt: Optionality, step: Step, inst: Instance, st: State): State {
    if inst !in st.halted && Present(opt, Get(st.req, inst)) then ApplyOne(step, inst, st) else st
  }

  /** One item on one instance is that item applied, or nothing when the instance is halted or skipped. */
  lemma RunSingleOne(opt: Optionality, step: Step, inst: Instance, st: State)
    ensures RunSingle(opt, [step], inst, st)
            == if inst !in st.halted && Present(opt, Get(st.req, inst)) then ApplyOne(step, inst, st) else st
  {
    assert [step][..0] == [];
  }

  /** An item on a list holding one instance is that item on the instance. */
  lemma ApplyToOne(step: Step, inst: Instance, st: State)
    ensures Apply(step, [inst], st) == ApplyOne(step, inst, st)
  {
    assert [inst][..0] == [];
  }

  /** The instances a `body(name)` or `query(name)` chain runs an item on: its one instance, unless halted or skipped. */
  lemma SingleActive(chain: Chain, st: State)
    requires |chain.locations| == 1 && chain.target.Field?
    ensures var inst := Instance(chain.locations[0], Key(chain.target.name));
            Active(chain, st) == if inst !in st.halted && Present(chain.optionality, Get(st.req, inst)) then [inst] else []
  {
    var inst := Instance(chain.locations[0], Key(chain.target.name));
    assert chain.locations[..0] == [];
    assert InstancesAt(st.req, chain.locations[0], chain.target) == [inst];
    assert Selected(st.req, chain.locations, chain.target) == [inst];
    assert [inst][..0] == [];
  }

  /** A `body(name)` or `query(name)` chain has exactly one instance, so it runs its items on that instance in order. */
  lemma {:induction false} SingleLocation(chain: Chain, steps: seq<Step>, st: State)
    requires |chain.locations| == 1 && chain.target.Field?
    ensures RunSteps(chain, steps, st)
            == RunSingle(chain.optionality, steps, Instance(chain.locations[0], Key(chain.target.name)), st)
    decreases |steps|
  {
    if steps != [] {
      var inst := Instance(chain.locations[0], Key(chain.target.name));
      var before := RunSteps(chain, steps[..|steps| - 1], st);
      SingleLocation(chain, steps[..|steps| - 1], st);
      SingleActive(chain, before);
      ApplyToOne(steps[|steps| - 1], inst, before);
    }
  }

  /**
   * A `check(name)` chain over a request that holds `name` in at most one
   * location has exactly one instance: that location, or the body when no
   * location holds it.
   */
  lemma CheckInstance(chain: Chain, st: State, loc: Location)
    requires chain.locations == AnyLocation && chain.target.Field?
    requires var n := chain.target.name;
             forall other :: other != loc ==> Get(st.req, Instance(other, Key(n))).None?
    requires Get(st.req, Instance(loc, Key(chain.target.name))).None? ==> loc == Body
    ensures var inst := Instance(loc, Key(chain.target.name));
            Active(chain, st) == if inst !in st.halted && Present(chain.optionality, Get(st.req, inst)) then [inst] else []
  {
    var n := chain.target.name;
    var req := st.req;
    var b, p, q := Instance(Body, Key(n)), Instance(Params, Key(n)), Instance(Query, Key(n));
    var inst := Instance(loc, Key(n));
    SelectedEverywhere(req, n);
    var f := HasValue(req);
    FilterThree(b, p, q, f);
    assert Filter([b, p, q], f) == if Get(req, inst).Some? then [inst] else [];
    FilterOne(inst, (i: Instance) => Present(chain.optionality, Get(req, i)));
    FilterOne(inst, (i: Instance) => i !in st.halted);
  }

  /** `check(name)` names the field in the body, the path parameters and the query, in that order. */
  lemma SelectedEverywhere(req: Request, n: string)
    ensures Selected(req, AnyLocation, Field(n)) == [Instance(Body, Key(n)), Instance(Params, Key(n)), Instance(Query, Key(n))]
  {
    var locs := AnyLocation;
    assert locs[..2] == [Body, Params] && locs[..2][..1] == [Body] && locs[..2][..1][..0] == [];
    assert Selected(req, locs[..2][..1], Field(n)) == [Instance(Body, Key(n))];
    assert Selected(req, locs[..2], Field(n)) == [Instance(Body, Key(n))] + [Instance(Params, Key(n))];
  }

  lemma FilterOne<T>(x: T, f: T -> bool)
    ensures Filter([x], f) == if f(x) then [x] else []
  {
    assert [x][..0] == [];
  }

  lemma FilterThree<T>(x: T, y: T, z: T, f: T -> bool)
    ensures Filter([x, y, z], f) == (if f(x) then [x] else []) + (if f(y) then [y] else []) + (if f(z) then [z] else [])
  {
    assert [x, y, z][..2] == [x, y] && [x, y][..1] == [x];
    FilterOne(x, f);
  }

  /** A standard validator on a value that is not an array records at most one error, for that value. */
  lemma EachOnPlain(check: Step, inst: Instance, st: State)
    requires check.Each?
    requires var v := Get(st.req, inst); !(v.Some? && v.value.List?)
    ensures ApplyOne(check, inst, st) == st.(errors := st.errors + Failure(check, inst, Get(st.req, inst)))
  {
  }

  /** A standard sanitizer on a value that is not an array writes its result in place of the value. */
  lemma SanitizeOnPlain(f: Option<Value> -> Value, inst: Instance, st: State)
    requires var v := Get(st.req, inst); !(v.Some? && v.value.List?)
    ensures ApplyOne(Sanitize(f), inst, st) == st.(req := Set(st.req, inst, f(Get(st.req, inst))))
  {
  }

  predicate AllChecks(steps: seq<Step>) {
    forall i :: 0 <= i < |steps| ==> steps[i].Each?
  }

  /** The error a standard validator records for a value that is not an array: its message, if the value fails. */
  function Failure(check: Step, inst: Instance, v: Option<Value>): (r: seq<FieldError>)
    requires check.Each?
    ensures r == [] <==> check.ok(v)
  {
    if check.ok(v) then [] else [ErrorAt(check.message, inst, v)]
  }

  /** The errors a list of standard validators records for one value that is not an array, in order. */
  function Failures(checks: seq<Step>, inst: Instance, v: Option<Value>): (r: seq<FieldError>)
    requires AllChecks(checks)
    ensures |r| <= |checks|
    ensures r == [] <==> forall i :: 0 <= i < |checks| ==> checks[i].ok(v)
    decreases |checks|
  {
    if checks == [] then []
    else Failures(checks[..|checks| - 1], inst, v) + Failure(checks[|checks| - 1], inst, v)
  }

  lemma FailuresOne(c: Step, inst: Instance, v: Option<Value>)
    requires c.Each?
    ensures Failures([c], inst, v) == Failure(c, inst, v)
  {
    assert [c][..0] == [];
  }

  lemma FailuresTwo(c0: Step, c1: Step, inst: Instance, v: Option<Value>)
    requires c0.Each? && c1.Each?
    ensures Failures([c0, c1], inst, v) == Failure(c0, inst, v) + Failure(c1, inst, v)
  {
    assert [c0, c1][..1] == [c0];
    FailuresOne(c0, inst, v);
  }

  lemma FailuresThree(c0: Step, c1: Step, c2: Step, inst: Instance, v: Option<Value>)
    requires c0.Each? && c1.Each? && c2.Each?
    ensures Failures([c0, c1, c2], inst, v) == Failure(c0, inst, v) + Failure(c1, inst, v) + Failure(c2, inst, v)
  {
    assert [c0, c1, c2][..2] == [c0, c1];
    FailuresTwo(c0, c1, inst, v);
  }

  /** Standard validators on one instance holding no array: their failures are recorded in order and nothing else changes. */
  lemma {:induction false} ChecksOnly(opt: Optionality, checks: seq<Step>, inst: Instance, st: State)
    requires AllChecks(checks)
    requires inst !in st.halted && Present(opt, Get(st.req, inst))
    requires var v := Get(st.req, inst); !(v.Some? && v.value.List?)
    ensures RunSingle(opt, checks, inst, st) == st.(errors := st.errors + Failures(checks, inst, Get(st.req, inst)))
    decreases |checks|
  {
    if checks != [] {
      var v := Get(st.req, inst);
      var init := checks[..|checks| - 1];
      var earlier := Failures(init, inst, v);
      ChecksOnly(opt, init, inst, st);
      var before := st.(errors := st.errors + earlier);
      EachOnPlain(checks[|checks| - 1], inst, before);
      var e := Failure(checks[|checks| - 1], inst, v);
      assert before.errors + e == st.errors + (earlier + e);
    }
  }

  /** A sanitizer and then standard validators on one instance holding no array: the validators see the sanitized value. */
  lemma SanitizeThenChecks(opt: Optionality, f: Option<Value> -> Value, checks: seq<Step>, loc: Location, name: string, st: State)
    requires AllChecks(checks)
    requires var v := Get(st.req, Instance(loc, Key(name)));
             && Instance(loc, Key(name)) !in st.halted && Present(opt, v) && Present(opt, Some(f(v)))
             && !(v.Some? && v.value.List?) && !f(v).List?
    ensures var inst := Instance(loc, Key(name));
            var w := f(Get(st.req, inst));
            RunSingle(opt, [Sanitize(f)] + checks, inst, st)
            == st.(req := Set(st.req, inst, w), errors := st.errors + Failures(checks, inst, Some(w)))
  {
    var inst := Instance(loc, Key(name));
    var w := f(Get(st.req, inst));
    RunSingleAppend(opt, [Sanitize(f)], checks, inst, st);
    SanitizeOnPlain(f, inst, st);
    RunSingleOne(opt, Sanitize(f), inst, st);
    var s1 := st.(req := Set(st.req, inst, w));
    SetKey(st.req, loc, name, w);
    ChecksOnly(opt, checks, inst, s1);
  }

  /** Running `a + b` on one instance is running `a`, then `b`. */
  lemma {:induction false} RunSingleAppend(opt: Optionality, a: seq<Step>, b: seq<Step>, inst: Instance, st: State)
    ensures RunSingle(opt, a + b, inst, st) == RunSingle(opt, b, inst, RunSingle(opt, a, inst, st))
    decreases |b|
  {
    if b == [] {
      assert a + b == a;
    } else {
      var init, last := b[..|b| - 1], b[|b| - 1];
      LastOfAppend(a, b);
      calc {
        RunSingle(opt, a + b, inst, st);
        StepOn(opt, last, inst, RunSingle(opt, a + init, inst, st));
        { RunSingleAppend(opt, a, init, inst, st); }
        StepOn(opt, last, inst, RunSingle(opt, init, inst, RunSingle(opt, a, inst, st)));
      }
    }
  }

  /** An instance `optional` skips stays skipped: the chain changes nothing. */
  lemma {:induction false} RunSingleSkipped(opt: Optionality, steps: seq<Step>, inst: Instance, st: State)
    requires !Present(opt, Get(st.req, inst))
    ensures RunSingle(opt, steps, inst, st) == st
    decreases |steps|
  {
    if steps != [] {
      RunSingleSkipped(opt, steps[..|steps| - 1], inst, st);
    }
  }

  /** An item that never changes the request: a check, a bail, or a custom validator that leaves the body alone. */
  ghost predicate ReadOnly(step: Step) {
    match step
    case Sanitize(_) => false
    case Custom(fn) => forall v, r :: fn(v, r).Accept? ==> fn(v, r).body == r.body
    case _ => true
  }

  lemma ReadOnlyKeepsRequest(step: Step, inst: Instance, st: State)
    requires ReadOnly(step)
    ensures ApplyOne(step, inst, st).req == st.req
  {
    if step.Custom? {
      var v := Get(st.req, inst);
      var verdict := step.fn(v, st.req);
      if verdict.Accept? {
        assert verdict.body == st.req.body;
      }
    }
  }

  /** Read-only items on one instance leave the request as it was. */
  lemma {:induction false} RunSingleReadOnly(opt: Optionality, steps: seq<Step>, inst: Instance, st: State)
    requires forall i :: 0 <= i < |steps| ==> ReadOnly(steps[i])
    ensures RunSingle(opt, steps, inst, st).req == st.req
    decreases |steps|
  {
    if steps != [] {
      var before := RunSingle(opt, steps[..|steps| - 1], inst, st);
      RunSingleReadOnly(opt, steps[..|steps| - 1], inst, st);
      ReadOnlyKeepsRequest(steps[|steps| - 1], inst, before);
    }
  }

  /**
   * A `check(name)` chain whose items never change the request, over a
   * request holding `name` in at most one location, runs its items on that
   * single instance in order.
   */
  lemma {:induction false} CheckChainSingle(chain: Chain, steps: seq<Step>, st: State, loc: Location)
    requires chain.locations == AnyLocation && chain.target.Field?
    requires forall i :: 0 <= i < |steps| ==> ReadOnly(steps[i])
    requires var n := chain.target.name;
             forall other :: other != loc ==> Get(st.req, Instance(other, Key(n))).None?
    requires Get(st.req, Instance(loc, Key(chain.target.name))).None? ==> loc == Body
    ensures RunSteps(chain, steps, st) == RunSingle(chain.optionality, steps, Instance(loc, Key(chain.target.name)), st)
    decreases |steps|
  {
    if steps != [] {
      var inst := Instance(loc, Key(chain.target.name));
      var init := steps[..|steps| - 1];
      CheckChainSingle(chain, init, st, loc);
      var before := RunSingle(chain.optionality, init, inst, st);
      RunSingleReadOnly(chain.optionality, init, inst, st);
      CheckInstance(chain, before, loc);
      ApplyToOne(steps[|steps| - 1], inst, before);
    }
  }

  /** Standard validators and then a sanitizer on one instance holding no array: their failures, then the write. */
  lemma ChecksThenSanitizeRun(opt: Optionality, checks: seq<Step>, f: Option<Value> -> Value, inst: Instance, st: State)
    requires AllChecks(checks)
    requires var v := Get(st.req, inst); inst !in st.halted && Present(opt, v) && !(v.Some? && v.value.List?)
    ensures var v := Get(st.req, inst);
            RunSingle(opt, checks + [Sanitize(f)], inst, st)
            == st.(req := Set(st.req, inst, f(v)), errors := st.errors + Failures(checks, inst, v))
  {
    var v := Get(st.req, inst);
    RunSingleAppend(opt, checks, [Sanitize(f)], inst, st);
    ChecksOnly(opt, checks, inst, st);
    var mid := st.(errors := st.errors + Failures(checks, inst, v));
    SanitizeOnPlain(f, inst, mid);
    RunSingleOne(opt, Sanitize(f), inst, mid);
  }

  /** A one-location chain of standard validators and then one sanitizer, on a value that is not an array. */
  lemma ChecksThenSanitize(req: Request, loc: Location, name: string, opt: Optionality, checks: seq<Step>, f: Option<Value> -> Value)
    requires AllChecks(checks)
    requires var v := Get(req, Instance(loc, Key(name))); Present(opt, v) && !(v.Some? && v.value.List?)
    ensures var inst := Instance(loc, Key(name));
            var v := Get(req, inst);
            RunChain(Chain([loc], Field(name), opt, checks + [Sanitize(f)]), req)
            == Set(req, inst, f(v)).(errors := req.errors + Failures(checks, inst, v))
  {
    var chain := Chain([loc], Field(name), opt, checks + [Sanitize(f)]);
    var inst := Instance(loc, Key(name));
    var st := State(req, {}, []);
    var errs := Failures(checks, inst, Get(req, inst));
    SingleLocation(chain, chain.steps, st);
    ChecksThenSanitizeRun(opt, checks, f, inst, st);
    assert [] + errs == errs;
  }

  /** No element of `s` satisfies `p` exactly when `Filter` keeps none. */
  lemma {:induction false} FilterEmpty<T>(s: seq<T>, p: T -> bool)
    ensures Filter(s, p) == [] <==> forall i :: 0 <= i < |s| ==> !p(s[i])
    decreases |s|
  {
    if s != [] {
      FilterEmpty(s[..|s| - 1], p);
    }
  }

  /** A standard validator on an array records no error exactly when every element passes it. */
  lemma EachOnArray(ok: Option<Value> -> bool, msg: string, inst: Instance, items: seq<Value>)
    ensures EachErrors(ok, msg, inst, Some(List(items))) == [] <==> forall i :: 0 <= i < |items| ==> ok(Some(items[i]))
  {
    var elems := seq(|items|, (i: int) requires 0 <= i < |items| => Some(items[i]));
    var fails := (e: Option<Value>) => !ok(e);
    FilterEmpty(elems, fails);
    var bad := Filter(elems, fails);
    assert EachErrors(ok, msg, inst, Some(List(items))) == seq(|bad|, (i: int) requires 0 <= i < |bad| => ErrorAt(msg, inst, bad[i]));
    assert forall i :: 0 <= i < |elems| ==> elems[i] == Some(items[i]);
    assert (forall i :: 0 <= i < |elems| ==> !fails(elems[i])) <==> (forall i :: 0 <= i < |items| ==> ok(Some(items[i])));
  }

  /** A standard validator on one instance adds the errors `EachErrors` gives for its value. */
  lemma EachApplied(check: Step, inst: Instance, st: State)
    requires check.Each?
    ensures ApplyOne(check, inst, st) == st.(errors := st.errors + EachErrors(check.ok, check.message, inst, Get(st.req, inst)))
  {
  }

  /** The errors a list of standard validators records on one value, an array or not, validator by validator. */
  function AllErrors(checks: seq<Step>, inst: Instance, v: Option<Value>): (r: seq<FieldError>)
    requires AllChecks(checks)
    ensures r == [] <==> forall i :: 0 <= i < |checks| ==> EachErrors(checks[i].ok, checks[i].message, inst, v) == []
    decreases |checks|
  {
    if checks == [] then []
    else
      var init := checks[..|checks| - 1];
      var last := checks[|checks| - 1];
      var earlier := AllErrors(init, inst, v);
      var e := EachErrors(last.ok, last.message, inst, v);
      NoErrorsSplit(checks, inst, v, earlier, e);
      earlier + e
  }

  /** The validators before the last record nothing and the last records nothing, exactly when none records anything. */
  lemma NoErrorsSplit(checks: seq<Step>, inst: Instance, v: Option<Value>, earlier: seq<FieldError>, e: seq<FieldError>)
    requires AllChecks(checks) && checks != []
    requires earlier == [] <==> forall i :: 0 <= i < |checks| - 1 ==> EachErrors(checks[i].ok, checks[i].message, inst, v) == []
    requires e == EachErrors(checks[|checks| - 1].ok, checks[|checks| - 1].message, inst, v)
    ensures earlier + e == [] <==> forall i :: 0 <= i < |checks| ==> EachErrors(checks[i].ok, checks[i].message, inst, v) == []
  {
    assert |earlier + e| == |earlier| + |e|;
  }

  /** Standard validators on one instance, an array or not: their errors are recorded in order and nothing else changes. */
  lemma {:induction false} ChecksOnAny(opt: Optionality, checks: seq<Step>, inst: Instance, st: State)
    requires AllChecks(checks)
    requires inst !in st.halted && Present(opt, Get(st.req, inst))
    ensures RunSingle(opt, checks, inst, st) == st.(errors := st.errors + AllErrors(checks, inst, Get(st.req, inst)))
    decreases |checks|
  {
    var v := Get(st.req, inst);
    if checks == [] {
      assert st.errors + [] == st.errors;
    } else {
      var init := checks[..|checks| - 1];
      var last := checks[|checks| - 1];
      assert AllChecks(init);
      ChecksOnAny(opt, init, inst, st);
      var earlier := AllErrors(init, inst, v);
      var before := st.(errors := st.errors + earlier);
      var e := EachErrors(last.ok, last.message, inst, v);
      assert StepOn(opt, last, inst, before) == before.(errors := before.errors + e) by {
        EachApplied(last, inst, before);
      }
      AppendAssoc(st.errors, earlier, e);
    }
  }

  /**
   * A one-location chain of standard validators and then one sanitizer, on
   * any value: the validators' errors (element by element on an array), and
   * the value sanitized element by element.
   */
  lemma ChecksThenSanitizeAny(req: Request, loc: Location, name: string, opt: Optionality, checks: seq<Step>, f: Option<Value> -> Value)
    requires AllChecks(checks)
    requires Present(opt, Get(req, Instance(loc, Key(name))))
    ensures var inst := Instance(loc, Key(name));
            var v := Get(req, inst);
            RunChain(Chain([loc], Field(name), opt, checks + [Sanitize(f)]), req)
            == Set(req, inst, SanitizeValue(f, v)).(errors := req.errors + AllErrors(checks, inst, v))
  {
    var chain := Chain([loc], Field(name), opt, checks + [Sanitize(f)]);
    var inst := Instance(loc, Key(name));
    var v := Get(req, inst);
    var st := State(req, {}, []);
    var errs := AllErrors(checks, inst, v);
    SingleLocation(chain, chain.steps, st);
    RunSingleAppend(opt, checks, [Sanitize(f)], inst, st);
    ChecksOnAny(opt, checks, inst, st);
    var mid := st.(errors := errs);
    assert st.errors + errs == errs;
    RunSingleOne(opt, Sanitize(f), inst, mid);
    assert [] + errs == errs;
  }

  /** What a custom validator's verdict does to a chain's state on one instance. */
  function AfterCustom(verdict: Verdict, inst: Instance, v: Option<Value>, st: State): State {
    match verdict
    case Accept(body) => st.(req := st.req.(body := body))
    case Reject(msg) => st.(errors := st.errors + [ErrorAt(msg, inst, v)])
  }

  /** Optionally `bail()`, then a custom validator, on an instance that is neither halted nor skipped. */
  lemma BailThenCustom(opt: Optionality, bail: bool, fn: (Option<Value>, Request) -> Verdict, inst: Instance, st: State)
    requires inst !in st.halted && Present(opt, Get(st.req, inst))
    ensures RunSingle(opt, (if bail then [Bail] else []) + [Custom(fn)], inst, st)
            == if bail && st.errors != [] then st.(halted := st.halted + {inst})
               else AfterCustom(fn(Get(st.req, inst), st.req), inst, Get(st.req, inst), st)
  {
    if bail {
      assert [Bail] + [Custom(fn)] == [Bail, Custom(fn)];
      RunSingleAppend(opt, [Bail], [Custom(fn)], inst, st);
      RunSingleOne(opt, Bail, inst, st);
      var after := if st.errors != [] then st.(halted := st.halted + {inst}) else st;
      RunSingleOne(opt, Custom(fn), inst, after);
    } else {
      assert [] + [Custom(fn)] == [Custom(fn)];
      RunSingleOne(opt, Custom(fn), inst, st);
    }
  }

  /**
   * Standard validators, a sanitizer, optionally `bail()`, and a custom
   * validator on one instance holding no array: the custom validator sees the
   * sanitized value and the request holding it, and is skipped after a
   * failure only when the bail is there.
   */
  lemma SanitizedCustomRun(opt: Optionality, checks: seq<Step>, f: Option<Value> -> Value, bail: bool,
                           fn: (Option<Value>, Request) -> Verdict, loc: Location, name: string, st: State)
    requires AllChecks(checks)
    requires var v := Get(st.req, Instance(loc, Key(name)));
             && Instance(loc, Key(name)) !in st.halted && Present(opt, v) && Present(opt, Some(f(v)))
             && !(v.Some? && v.value.List?)
    ensures var inst := Instance(loc, Key(name));
            var v := Get(st.req, inst);
            var mid := st.(req := Set(st.req, inst, f(v)), errors := st.errors + Failures(checks, inst, v));
            RunSingle(opt, checks + [Sanitize(f)] + (if bail then [Bail] else []) + [Custom(fn)], inst, st)
            == if bail && mid.errors != [] then mid.(halted := mid.halted + {inst})
               else AfterCustom(fn(Some(f(v)), mid.req), inst, Some(f(v)), mid)
  {
    var inst := Instance(loc, Key(name));
    var v := Get(st.req, inst);
    var w := f(v);
    var mid := st.(req := Set(st.req, inst, w), errors := st.errors + Failures(checks, inst, v));
    var head := checks + [Sanitize(f)];
    var tail := (if bail then [Bail] else []) + [Custom(fn)];
    assert head + (if bail then [Bail] else []) + [Custom(fn)] == head + tail;
    RunSingleAppend(opt, head, tail, inst, st);
    ChecksThenSanitizeRun(opt, checks, f, inst, st);
    SetKey(st.req, loc, name, w);
    BailThenCustom(opt, bail, fn, inst, mid);
  }

  /**
   * A one-location chain of one standard validator, a sanitizer, optionally
   * `bail()`, and a custom validator that leaves the body alone, on a value
   * that is not an array and that neither it nor its sanitized form is
   * skipped: the check's failure, the sanitized value written back, and the
   * custom validator's rejection of that value unless a bail stopped it.
   */
  lemma SanitizedCustomChain(req: Request, name: string, opt: Optionality, check: Step, f: Option<Value> -> Value,
                             bail: bool, fn: (Option<Value>, Request) -> Verdict)
    requires check.Each? && ReadOnly(Custom(fn))
    requires var v := Get(req, Instance(Body, Key(name)));
             Present(opt, v) && Present(opt, Some(f(v))) && !(v.Some? && v.value.List?)
    ensures var inst := Instance(Body, Key(name));
            var v := Get(req, inst);
            var e := Failure(check, inst, v);
            var written := req.(body := req.body[name := f(v)]);
            RunChain(Chain([Body], Field(name), opt, [check, Sanitize(f)] + (if bail then [Bail] else []) + [Custom(fn)]), req)
            == written.(errors := req.errors + e + if bail && e != [] then [] else Rejection(fn(Some(f(v)), written), inst, Some(f(v))))
  {
    var inst := Instance(Body, Key(name));
    var v := Get(req, inst);
    var w := f(v);
    var e := Failure(check, inst, v);
    var written := req.(body := req.body[name := w]);
    var steps := [check, Sanitize(f)] + (if bail then [Bail] else []) + [Custom(fn)];
    var chain := Chain([Body], Field(name), opt, steps);
    var st := State(req, {}, []);
    SingleLocation(chain, steps, st);
    SanitizedCustomState(req, name, opt, check, f, bail, fn);
    var rest := if bail && e != [] then [] else Rejection(fn(Some(w), written), inst, Some(w));
    AppendAssoc(req.errors, e, rest);
  }

  /** The run of `SanitizedCustomChain`'s items on the field's one instance, from a fresh chain state. */
  lemma SanitizedCustomState(req: Request, name: string, opt: Optionality, check: Step, f: Option<Value> -> Value,
                             bail: bool, fn: (Option<Value>, Request) -> Verdict)
    requires check.Each? && ReadOnly(Custom(fn))
    requires var v := Get(req, Instance(Body, Key(name)));
             Present(opt, v) && Present(opt, Some(f(v))) && !(v.Some? && v.value.List?)
    ensures var inst := Instance(Body, Key(name));
            var v := Get(req, inst);
            var e := Failure(check, inst, v);
            var written := req.(body := req.body[name := f(v)]);
            var r := RunSingle(opt, [check, Sanitize(f)] + (if bail then [Bail] else []) + [Custom(fn)], inst, State(req, {}, []));
            && r.req == written
            && r.errors == e + if bail && e != [] then [] else Rejection(fn(Some(f(v)), written), inst, Some(f(v)))
  {
    var inst := Instance(Body, Key(name));
    var v := Get(req, inst);
    var w := f(v);
    var e := Failure(check, inst, v);
    var written := req.(body := req.body[name := w]);
    var steps := [check, Sanitize(f)] + (if bail then [Bail] else []) + [Custom(fn)];
    var st := State(req, {}, []);
    assert steps == [check] + [Sanitize(f)] + (if bail then [Bail] else []) + [Custom(fn)];
    SanitizedCustomRun(opt, [check], f, bail, fn, Body, name, st);
    FailuresOne(check, inst, v);
    SetKey(req, Body, name, w);
    assert [] + e == e;
    var mid := st.(req := written, errors := e);
    CustomAfterChecks(fn(Some(w), written), bail, inst, Some(w), mid, RunSingle(opt, steps, inst, st));
  }

  /** The state a bail or a read-only custom verdict leaves after the checks recorded `mid.errors`. */
  lemma CustomAfterChecks(verdict: Verdict, bail: bool, inst: Instance, v: Option<Value>, mid: State, r: State)
    requires verdict.Accept? ==> verdict.body == mid.req.body
    requires r == if bail && mid.errors != [] then mid.(halted := mid.halted + {inst}) else AfterCustom(verdict, inst, v, mid)
    ensures r.req == mid.req
    ensures r.errors == mid.errors + if bail && mid.errors != [] then [] else Rejection(verdict, inst, v)
  {
    if bail && mid.errors != [] {
      assert mid.errors + [] == mid.errors;
    }
  }

  /** Concatenation regroups freely. */
  lemma AppendAssoc<T>(x: seq<T>, y: seq<T>, z: seq<T>)
    ensures x + (y + z) == x + y + z
  {
  }

  /** A one-location chain of a single standard validator, on a value that is not an array: its failure, unless skipped. */
  lemma SingleCheck(req: Request, loc: Location, name: string, opt: Optionality, check: Step)
    requires check.Each?
    requires var v := Get(req, Instance(loc, Key(name))); !(v.Some? && v.value.List?)
    ensures var inst := Instance(loc, Key(name));
            var v := Get(req, inst);
            RunChain(Chain([loc], Field(name), opt, [check]), req)
            == req.(errors := req.errors + if Present(opt, v) then Failure(check, inst, v) else [])
  {
    var chain := Chain([loc], Field(name), opt, [check]);
    var inst := Instance(loc, Key(name));
    var st := State(req, {}, []);
    var v := Get(req, inst);
    SingleLocation(chain, chain.steps, st);
    RunSingleOne(opt, check, inst, st);
    EachOnPlain(check, inst, st);
    var errs := if Present(opt, v) then Failure(check, inst, v) else [];
    var after := RunSingle(opt, [check], inst, st);
    assert after.req == req && after.errors == [] + errs;
    assert [] + errs == errs;
  }

  /** A one-location chain whose value `optional` skips changes nothing and records nothing. */
  lemma SkippedChain(req: Request, loc: Location, name: string, opt: Optionality, steps: seq<Step>)
    requires !Present(opt, Get(req, Instance(loc, Key(name))))
    ensures RunChain(Chain([loc], Field(name), opt, steps), req) == req
  {
    var chain := Chain([loc], Field(name), opt, steps);
    SingleLocation(chain, steps, State(req, {}, []));
    RunSingleSkipped(opt, steps, Instance(loc, Key(name)), State(req, {}, []));
    assert req.errors + [] == req.errors;
  }

  /** A `check(name)` chain of read-only items, on a request holding `name` in at most one location. */
  lemma CheckChainRun(chain: Chain, req: Request, loc: Location)
    requires chain.locations == AnyLocation && chain.target.Field?
    requires forall i :: 0 <= i < |chain.steps| ==> ReadOnly(chain.steps[i])
    requires var n := chain.target.name;
             forall other :: other != loc ==> Get(req, Instance(other, Key(n))).None?
    requires Get(req, Instance(loc, Key(chain.target.name))).None? ==> loc == Body
    ensures var st := RunSingle(chain.optionality, chain.steps, Instance(loc, Key(chain.target.name)), State(req, {}, []));
            RunChain(chain, req) == st.req.(errors := req.errors + st.errors)
  {
    CheckChainSingle(chain, chain.steps, State(req, {}, []), loc);
  }

  /** The error a custom validator's verdict records: its message, when it rejects. */
  function Rejection(verdict: Verdict, inst: Instance, v: Option<Value>): (r: seq<FieldError>)
    ensures r == [] <==> verdict.Accept?
  {
    if verdict.Reject? then [ErrorAt(verdict.message, inst, v)] else []
  }

  /**
   * A `check(name)` chain holding, after an optional `bail()`, one custom
   * validator that leaves the body alone, over a request holding `name` in
   * at most one location (the body when in none): the validator's rejection,
   * if any, is added and nothing else changes.
   */
  lemma CheckCustomRun(chain: Chain, req: Request, loc: Location, bail: bool, fn: (Option<Value>, Request) -> Verdict)
    requires chain.locations == AnyLocation && chain.target.Field?
    requires chain.steps == (if bail then [Bail] else []) + [Custom(fn)]
    requires ReadOnly(Custom(fn))
    requires var n := chain.target.name;
             forall other :: other != loc ==> Get(req, Instance(other, Key(n))).None?
    requires Get(req, Instance(loc, Key(chain.target.name))).None? ==> loc == Body
    ensures var inst := Instance(loc, Key(chain.target.name));
            var v := Get(req, inst);
            RunChain(chain, req)
            == req.(errors := req.errors + if Present(chain.optionality, v) then Rejection(fn(v, req), inst, v) else [])
  {
    var inst := Instance(loc, Key(chain.target.name));
    var v := Get(req, inst);
    var errs := if Present(chain.optionality, v) then Rejection(fn(v, req), inst, v) else [];
    assert forall i :: 0 <= i < |chain.steps| ==> ReadOnly(chain.steps[i]);
    CheckChainRun(chain, req, loc);
    CustomOnFresh(chain.optionality, bail, fn, inst, req);
    assert [] + errs == errs;
  }

  /** An optional `bail()` and a custom validator that leaves the body alone, on one instance of a fresh chain. */
  lemma CustomOnFresh(opt: Optionality, bail: bool, fn: (Option<Value>, Request) -> Verdict, inst: Instance, req: Request)
    requires ReadOnly(Custom(fn))
    ensures var v := Get(req, inst);
            var r := RunSingle(opt, (if bail then [Bail] else []) + [Custom(fn)], inst, State(req, {}, []));
            r.req == req && r.errors == if Present(opt, v) then Rejection(fn(v, req), inst, v) else []
  {
    var v := Get(req, inst);
    var st := State(req, {}, []);
    if Present(opt, v) {
      BailThenCustom(opt, bail, fn, inst, st);
      var verdict := fn(v, req);
      if verdict.Accept? {
        assert verdict.body == req.body;
      }
    } else {
      RunSingleSkipped(opt, (if bail then [Bail] else []) + [Custom(fn)], inst, st);
    }
  }

  /** Standard validators, each followed by `bail()`. */
  function Guarded(guards: seq<Step>): (r: seq<Step>)
    ensures |r| == 2 * |guards|
    decreases |guards|
  {
    if guards == [] then [] else Guarded(guards[..|guards| - 1]) + [guards[|guards| - 1], Bail]
  }

  /** The error of the first guard the value fails, if any: `bail()` stops the instance there. */
  function GuardError(guards: seq<Step>, inst: Instance, v: Option<Value>): (r: seq<FieldError>)
    requires AllChecks(guards)
    ensures |r| <= 1
    ensures r == [] <==> forall i :: 0 <= i < |guards| ==> guards[i].ok(v)
    decreases |guards|
  {
    if guards == [] then []
    else
      var first := GuardError(guards[..|guards| - 1], inst, v);
      if first != [] then first else Failure(guards[|guards| - 1], inst, v)
  }

  lemma GuardErrorOne(g: Step, inst: Instance, v: Option<Value>)
    requires g.Each?
    ensures GuardError([g], inst, v) == Failure(g, inst, v)
  {
    assert [g][..0] == [];
  }

  /** Two guards: the second is reached only when the first passes. */
  lemma GuardErrorTwo(g0: Step, g1: Step, inst: Instance, v: Option<Value>)
    requires g0.Each? && g1.Each?
    ensures GuardError([g0, g1], inst, v) == if !g0.ok(v) then Failure(g0, inst, v) else Failure(g1, inst, v)
  {
    assert [g0, g1][..1] == [g0];
    GuardErrorOne(g0, inst, v);
  }

  /** Nothing runs on a halted instance. */
  lemma {:induction false} RunSingleHalted(opt: Optionality, steps: seq<Step>, inst: Instance, st: State)
    requires inst in st.halted
    ensures RunSingle(opt, steps, inst, st) == st
    decreases |steps|
  {
    if steps != [] {
      RunSingleHalted(opt, steps[..|steps| - 1], inst, st);
    }
  }

  /** A guard and its bail on an instance of a chain with no errors yet. */
  lemma GuardStep(opt: Optionality, c: Step, inst: Instance, st: State)
    requires c.Each? && st.errors == []
    requires var v := Get(st.req, inst); inst !in st.halted && Present(opt, v) && !(v.Some? && v.value.List?)
    ensures var v := Get(st.req, inst);
            RunSingle(opt, [c, Bail], inst, st)
            == if c.ok(v) then st else st.(errors := Failure(c, inst, v), halted := st.halted + {inst})
  {
    assert [c, Bail] == [c] + [Bail];
    RunSingleAppend(opt, [c], [Bail], inst, st);
    RunSingleOne(opt, c, inst, st);
    EachOnPlain(c, inst, st);
    var after := ApplyOne(c, inst, st);
    RunSingleOne(opt, Bail, inst, after);
  }

  /** Guards with bails on an instance of a chain with no errors yet: the first failure is recorded and halts the instance. */
  lemma {:induction false} GuardedRun(opt: Optionality, guards: seq<Step>, inst: Instance, st: State)
    requires AllChecks(guards) && st.errors == []
    requires var v := Get(st.req, inst); inst !in st.halted && Present(opt, v) && !(v.Some? && v.value.List?)
    ensures var e := GuardError(guards, inst, Get(st.req, inst));
            RunSingle(opt, Guarded(guards), inst, st) == if e == [] then st else st.(errors := e, halted := st.halted + {inst})
    decreases |guards|
  {
    if guards != [] {
      var init, last := guards[..|guards| - 1], guards[|guards| - 1];
      var v := Get(st.req, inst);
      GuardedRun(opt, init, inst, st);
      RunSingleAppend(opt, Guarded(init), [last, Bail], inst, st);
      var mid := RunSingle(opt, Guarded(init), inst, st);
      if GuardError(init, inst, v) != [] {
        RunSingleHalted(opt, [last, Bail], inst, mid);
      } else {
        GuardStep(opt, last, inst, st);
      }
    }
  }

  lemma {:induction false} GuardedReadOnly(guards: seq<Step>)
    requires AllChecks(guards)
    ensures forall i :: 0 <= i < |Guarded(guards)| ==> ReadOnly(Guarded(guards)[i])
    decreases |guards|
  {
    if guards != [] {
      var init := guards[..|guards| - 1];
      GuardedReadOnly(init);
      var g := Guarded(guards);
      assert g == Guarded(init) + [guards[|guards| - 1], Bail];
      forall i | 0 <= i < |g|
        ensures ReadOnly(g[i])
      {
        if i < |Guarded(init)| {
          assert g[i] == Guarded(init)[i];
        }
      }
    }
  }

  /**
   * Guards with bails and then a custom validator that leaves the body alone,
   * on one instance of a fresh chain: the first failing guard's error, or
   * else the validator's rejection.
   */
  lemma GuardedCustomOnFresh(opt: Optionality, guards: seq<Step>, fn: (Option<Value>, Request) -> Verdict, inst: Instance, req: Request)
    requires AllChecks(guards) && ReadOnly(Custom(fn))
    requires var v := Get(req, inst); !(v.Some? && v.value.List?)
    ensures var v := Get(req, inst);
            var e := GuardError(guards, inst, v);
            var r := RunSingle(opt, Guarded(guards) + [Custom(fn)], inst, State(req, {}, []));
            r.req == req && r.errors == if !Present(opt, v) then [] else if e != [] then e else Rejection(fn(v, req), inst, v)
  {
    var v := Get(req, inst);
    var st := State(req, {}, []);
    var steps := Guarded(guards) + [Custom(fn)];
    if Present(opt, v) {
      RunSingleAppend(opt, Guarded(guards), [Custom(fn)], inst, st);
      GuardedRun(opt, guards, inst, st);
      var mid := RunSingle(opt, Guarded(guards), inst, st);
      if GuardError(guards, inst, v) != [] {
        RunSingleHalted(opt, [Custom(fn)], inst, mid);
      } else {
        RunSingleOne(opt, Custom(fn), inst, st);
        var verdict := fn(v, req);
        if verdict.Accept? {
          assert verdict.body == req.body;
        }
      }
    } else {
      RunSingleSkipped(opt, steps, inst, st);
    }
  }

  /**
   * A `check(name)` chain of (after an optional leading `bail()`) guards
   * with bails and a custom validator that leaves the body alone, over a
   * request holding `name` in at most one location (the body when in none):
   * it adds the first failing guard's error, or else the validator's
   * rejection, and changes nothing else.
   */
  lemma CheckGuardedRun(chain: Chain, req: Request, loc: Location, lead: bool, guards: seq<Step>, fn: (Option<Value>, Request) -> Verdict)
    requires chain.locations == AnyLocation && chain.target.Field?
    requires AllChecks(guards) && ReadOnly(Custom(fn))
    requires chain.steps == (if lead then [Bail] else []) + Guarded(guards) + [Custom(fn)]
    requires var n := chain.target.name;
             forall other :: other != loc ==> Get(req, Instance(other, Key(n))).None?
    requires Get(req, Instance(loc, Key(chain.target.name))).None? ==> loc == Body
    requires var v := Get(req, Instance(loc, Key(chain.target.name))); !(v.Some? && v.value.List?)
    ensures var inst := Instance(loc, Key(chain.target.name));
            var v := Get(req, inst);
            var e := GuardError(guards, inst, v);
            RunChain(chain, req)
            == req.(errors := req.errors + if !Present(chain.optionality, v) then [] else if e != [] then e else Rejection(fn(v, req), inst, v))
  {
    var inst := Instance(loc, Key(chain.target.name));
    var st := State(req, {}, []);
    var rest := Guarded(guards) + [Custom(fn)];
    var r := RunSingle(chain.optionality, chain.steps, inst, st);
    assert r == RunSingle(chain.optionality, rest, inst, st) by {
      assert chain.steps == (if lead then [Bail] else []) + rest;
      LeadingBail(chain.optionality, lead, rest, inst, st);
    }
    GuardedCustomOnFresh(chain.optionality, guards, fn, inst, req);
    GuardedChainReadOnly(lead, guards, fn);
    CheckChainRun(chain, req, loc);
  }

  lemma GuardedChainReadOnly(lead: bool, guards: seq<Step>, fn: (Option<Value>, Request) -> Verdict)
    requires AllChecks(guards) && ReadOnly(Custom(fn))
    ensures var steps := (if lead then [Bail] else []) + Guarded(guards) + [Custom(fn)];
            forall i :: 0 <= i < |steps| ==> ReadOnly(steps[i])
  {
    var head := if lead then [Bail] else [];
    var g := Guarded(guards);
    var steps := head + g + [Custom(fn)];
    GuardedReadOnly(guards);
    forall i | 0 <= i < |steps|
      ensures ReadOnly(steps[i])
    {
      if |head| <= i < |head| + |g| {
        assert steps[i] == g[i - |head|];
      }
    }
  }

  /** A leading `bail()` on a chain with no errors yet does nothing. */
  lemma LeadingBail(opt: Optionality, lead: bool, rest: seq<Step>, inst: Instance, st: State)
    requires st.errors == []
    ensures RunSingle(opt, (if lead then [Bail] else []) + rest, inst, st) == RunSingle(opt, rest, inst, st)
  {
    if lead {
      RunSingleAppend(opt, [Bail], rest, inst, st);
      BailOnClean(opt, inst, st);
    } else {
      assert [] + rest == rest;
    }
  }

  /** `bail()` on a chain with no errors yet leaves the state as it is. */
  lemma BailOnClean(opt: Optionality, inst: Instance, st: State)
    requires st.errors == []
    ensures RunSingle(opt, [Bail], inst, st) == st
  {
    RunSingleOne(opt, Bail, inst, st);
    assert ApplyOne(Bail, inst, st) == st;
  }

  /**
   * A `check(name)` chain of standard validators only, over a request holding
   * `name` in at most one location (the body when in none) and not as an
   * array: its failures, in item order, are added and nothing else changes.
   */
  lemma CheckChainChecks(chain: Chain, req: Request, loc: Location)
    requires chain.locations == AnyLocation && chain.target.Field? && chain.optionality == Required
    requires AllChecks(chain.steps)
    requires var n := chain.target.name;
             forall other :: other != loc ==> Get(req, Instance(other, Key(n))).None?
    requires Get(req, Instance(loc, Key(chain.target.name))).None? ==> loc == Body
    requires var v := Get(req, Instance(loc, Key(chain.target.name))); !(v.Some? && v.value.List?)
    ensures var inst := Instance(loc, Key(chain.target.name));
            RunChain(chain, req) == req.(errors := req.errors + Failures(chain.steps, inst, Get(req, inst)))
  {
    var inst := Instance(loc, Key(chain.target.name));
    var st := State(req, {}, []);
    var errs := Failures(chain.steps, inst, Get(req, inst));
    CheckChainRun(chain, req, loc);
    ChecksOnly(Required, chain.steps, inst, st);
    assert [] + errs == errs;
  }

  /** The path as express-validator reports it: `name` or `name[i]`. */
  function PathText(p: Path): (r: string)
    ensures |r| >= |p.name|
  {
    match p
    case Key(n) => n
    case Item(n, i) => n + "[" + ShowNat(i) + "]"
  }

  function LocationText(loc: Location): string {
    match loc
    case Body => "body"
    case Params => "params"
    case Query => "query"
  }
}
