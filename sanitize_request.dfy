/**
 * `middleware/sanitizeRequest.js`: every value in the parsed body, query and
 * path parameters that is not a non-null object is replaced, in place, by
 * what `mongoSanitize` makes of it; nested objects (and arrays, which
 * `for...in` walks by their index keys) are walked, never replaced.
 * `mongoSanitize` is a function parameter.
 */
module SanitizeRequest {
  import opened Wrappers
  import opened JsValues

  /**
   * A value `typeof` does not call a non-null object: a leaf of the walk,
   * and all that is ever handed to `mongoSanitize`.
   */
  type Primitive = v: Value | !v.List? && !v.Obj? witness Null

  /**
   * A parsed request part as a value: a value that is not a non-null object
   * (`null` included), or an object of entries. An array is an object keyed
   * by its indices, as `for...in` sees it.
   */
  datatype Tree = Leaf(value: Primitive) | Branch(entries: map<string, Tree>)

  /** What the walk makes of a tree: every leaf replaced by `mongoSanitize` of it, every object kept with its keys. */
  function Sanitized(t: Tree, mongoSanitize: Primitive -> Primitive): (r: Tree)
    ensures t.Leaf? <==> r.Leaf?
    ensures t.Leaf? ==> r.value == mongoSanitize(t.value)
    ensures t.Branch? ==> r.entries.Keys == t.entries.Keys
  {
    match t
    case Leaf(v) => Leaf(mongoSanitize(v))
    case Branch(m) => Branch(map k | k in m :: Sanitized(m[k], mongoSanitize))
  }

  /** The subtree reached by following `path` key by key, if every key is there. */
  function Lookup(t: Tree, path: seq<string>): Option<Tree>
    decreases |path|
  {
    if path == [] then Some(t)
    else if t.Branch? && path[0] in t.entries then Lookup(t.entries[path[0]], path[1..])
    else None
  }

  /**
   * Along every path the walk keeps the tree as it was: the same paths lead
   * somewhere, an object stays an object with the same keys (it is never
   * handed to `mongoSanitize`), and a leaf, `null` included, becomes
   * `mongoSanitize` of it.
   */
  lemma {:induction false} SanitizedAt(t: Tree, mongoSanitize: Primitive -> Primitive, path: seq<string>)
    ensures var before := Lookup(t, path);
            var after := Lookup(Sanitized(t, mongoSanitize), path);
            && (before.None? <==> after.None?)
            && (before.Some? && before.value.Leaf? ==> after == Some(Leaf(mongoSanitize(before.value.value))))
            && (before.Some? && before.value.Branch? ==> after.value.Branch? && after.value.entries.Keys == before.value.entries.Keys)
    decreases |path|
  {
    if path != [] && t.Branch? && path[0] in t.entries {
      SanitizedAt(t.entries[path[0]], mongoSanitize, path[1..]);
    }
  }

  /** A tree with its values forgotten: the keys at every level. */
  datatype Shape = Hole | Node(entries: map<string, Shape>)

  function ShapeOf(t: Tree): Shape {
    match t
    case Leaf(_) => Hole
    case Branch(m) => Node(map k | k in m :: ShapeOf(m[k]))
  }

  /** The walk keeps the key set at every level and the tree's shape. */
  lemma {:induction false} SanitizedKeepsShape(t: Tree, mongoSanitize: Primitive -> Primitive)
    ensures ShapeOf(Sanitized(t, mongoSanitize)) == ShapeOf(t)
  {
    match t
    case Leaf(_) =>
    case Branch(m) =>
      forall k | k in m
        ensures ShapeOf(Sanitized(m[k], mongoSanitize)) == ShapeOf(m[k])
      {
        SanitizedKeepsShape(m[k], mongoSanitize);
      }
      var r := Sanitized(t, mongoSanitize);
      assert ShapeOf(r).entries == ShapeOf(t).entries;
  }

  /** An entry of an object in memory: a value that is not a non-null object, or a nested object. */
  datatype Entry = Plain(value: Primitive) | Nested(obj: JsObject)

  /**
   * An object of a parsed request part. The walk only ever reassigns plain
   * entries, so which key holds which nested object is fixed (`children`),
   * and the nested objects form a tree: no object is reachable twice.
   */
  class JsObject {
    var entries: map<string, Entry>
    ghost const children: map<string, JsObject>
    ghost const Repr: set<object>
    ghost const depth: nat

    ghost predicate Valid()
      reads Repr
      decreases depth
    {
      && this in Repr
      && (forall k :: k in entries && entries[k].Nested? ==> k in children && entries[k].obj == children[k])
      && (forall k :: k in children ==> k in entries && entries[k] == Nested(children[k]))
      && (forall k :: k in children ==>
            && children[k] in Repr && children[k].Repr <= Repr && this !in children[k].Repr
            && children[k].depth < depth && children[k].Valid())
      && (forall k, j :: k in children && j in children && k != j ==> children[k].Repr !! children[j].Repr)
    }

    /** The object as a value. */
    ghost function Contents(): Tree
      reads Repr
      requires Valid()
      decreases depth, 1
    {
      Branch(map k | k in entries :: EntryTree(k))
    }

    /** The value of one entry: the plain value, or the nested object's contents. */
    ghost function EntryTree(k: string): Tree
      reads Repr
      requires Valid() && k in entries
      decreases depth, 0
    {
      match entries[k]
      case Plain(v) => Leaf(v)
      case Nested(_) => children[k].Contents()
    }

    /** An object of plain entries only, as the JSON parser makes it. */
    constructor Flat(values: map<string, Primitive>)
      ensures Valid() && fresh(Repr)
      ensures Contents() == Branch(map k | k in values :: Leaf(values[k]))
    {
      entries := map k | k in values :: Plain(values[k]);
      children := map[];
      Repr := {this};
      depth := 0;
      new;
      assert Contents().entries == (map k | k in values :: Leaf(values[k]));
    }

    /**
     * `sanitizeObject(obj)`: for each key, a nested object is walked and
     * left in place, and any other value is replaced by `mongoSanitize` of
     * it. Every entry is handled on its own, so the order of the keys does
     * not matter.
     */
    method SanitizeObject(mongoSanitize: Primitive -> Primitive)
      requires Valid()
      modifies Repr
      ensures Valid()
      ensures Contents() == Sanitized(old(Contents()), mongoSanitize)
      decreases depth, 1
    {
      ghost var before := Contents().entries;
      var keys := entries.Keys;
      assert forall k :: k in keys ==> EntryTree(k) == before[k];
      while keys != {}
        invariant Valid()
        invariant entries.Keys == before.Keys && keys <= entries.Keys
        invariant forall k :: k in entries && k !in keys ==> EntryTree(k) == Sanitized(before[k], mongoSanitize)
        invariant forall k :: k in keys ==> EntryTree(k) == before[k]
        decreases keys
      {
        var k :| k in keys;
        SanitizeEntry(k, mongoSanitize);
        keys := keys - {k};
      }
      AllEntriesSanitized(before, mongoSanitize);
    }

    /** Every entry sanitized is the object sanitized. */
    lemma AllEntriesSanitized(before: map<string, Tree>, mongoSanitize: Primitive -> Primitive)
      requires Valid() && entries.Keys == before.Keys
      requires forall k :: k in entries ==> EntryTree(k) == Sanitized(before[k], mongoSanitize)
      ensures Contents() == Sanitized(Branch(before), mongoSanitize)
    {
      assert Contents().entries == Sanitized(Branch(before), mongoSanitize).entries;
    }

    /** One turn of the `for...in` loop: the entry at `k` is sanitized and every other entry is left as it was. */
    method SanitizeEntry(k: string, mongoSanitize: Primitive -> Primitive)
      requires Valid() && k in entries
      modifies Repr
      ensures Valid()
      ensures entries.Keys == old(entries.Keys)
      ensures EntryTree(k) == Sanitized(old(EntryTree(k)), mongoSanitize)
      ensures forall j :: j in entries && j != k ==> EntryTree(j) == old(EntryTree(j))
      decreases depth, 0
    {
      match entries[k] {
        case Nested(c) =>
          assert c == children[k];
          ChildFrame(k);
          c.SanitizeObject(mongoSanitize);
        case Plain(v) =>
          entries := entries[k := Plain(mongoSanitize(v))];
      }
    }

    /** The nested object at `k` shares nothing with this object or its other nested objects. */
    lemma ChildFrame(k: string)
      requires Valid() && k in children
      ensures this !in children[k].Repr
      ensures forall j :: j in children && j != k ==> children[j].Repr !! children[k].Repr
    {
    }
  }

  /** The objects a request part may change: none when the part is not walked. */
  ghost function PartRepr(part: Option<JsObject>): set<object> {
    if part.Some? then part.value.Repr else {}
  }

  ghost predicate PartValid(part: Option<JsObject>)
    reads PartRepr(part)
  {
    part.Some? ==> part.value.Valid()
  }

  /**
   * `sanitizeRequest(req, res, next)`: the body, the query and the path
   * parameters are each walked when they are a non-null object (`Some`),
   * then `next()` is called, once. The three parts are separate trees, as
   * the request parsers build them.
   */
  method SanitizeRequest(body: Option<JsObject>, query: Option<JsObject>, params: Option<JsObject>,
                         mongoSanitize: Primitive -> Primitive) returns (nextCalls: nat)
    requires PartValid(body) && PartValid(query) && PartValid(params)
    requires PartRepr(body) !! PartRepr(query) && PartRepr(body) !! PartRepr(params) && PartRepr(query) !! PartRepr(params)
    modifies PartRepr(body), PartRepr(query), PartRepr(params)
    ensures PartValid(body) && PartValid(query) && PartValid(params)
    ensures body.Some? ==> body.value.Contents() == Sanitized(old(body.value.Contents()), mongoSanitize)
    ensures query.Some? ==> query.value.Contents() == Sanitized(old(query.value.Contents()), mongoSanitize)
    ensures params.Some? ==> params.value.Contents() == Sanitized(old(params.value.Contents()), mongoSanitize)
    ensures nextCalls == 1
  {
    if body.Some? {
      body.value.SanitizeObject(mongoSanitize);
    }
    if query.Some? {
      query.value.SanitizeObject(mongoSanitize);
    }
    if params.Some? {
      params.value.SanitizeObject(mongoSanitize);
    }
    nextCalls := 1;
  }
}
