/**
 * The in-place code of src/shared/interceptors/logging.interceptor.ts on heap objects:
 * a value is cloned and the clone's sensitive fields are overwritten, while the caller's
 * objects (which may be shared between several places) are left as they are.
 */
module RedactionHeap {
  import opened Redaction

  /** A JavaScript value: a primitive, or a reference to an object or array. */
  datatype Value = VNull | VBool(b: bool) | VNum(n: real) | VStr(s: string) | VRef(node: Node)

  class Node {
    const isArray: bool
    var items: seq<Value>
    var fields: map<string, Value>
    ghost var Repr: set<Node>  // the nodes of the tree below, this one included

    constructor (isArray: bool, items: seq<Value>, fields: map<string, Value>, ghost below: set<Node>)
      ensures this.isArray == isArray && this.items == items && this.fields == fields
      ensures Repr == below + {this}
    {
      this.isArray, this.items, this.fields := isArray, items, fields;
      Repr := below + {this};
    }
  }

  ghost function Footprint(v: Value): set<Node>
    reads if v.VRef? then {v.node} else {}
  {
    if v.VRef? then v.node.Repr else {}
  }

  /** A child reference stays inside its parent's nodes and never leads back to the parent. */
  ghost predicate Below(parent: Node, child: Value)
    reads parent, if child.VRef? then {child.node} else {}
  {
    child.VRef? ==> child.node in child.node.Repr && child.node.Repr <= parent.Repr && parent !in child.node.Repr
  }

  ghost predicate SeparateItems(n: Node)
    reads n, n.Repr
  {
    && n in n.Repr
    && (forall i :: 0 <= i < |n.items| ==> n.items[i].VRef? ==> n.items[i].node in n.Repr)
    && (forall i :: 0 <= i < |n.items| ==> Below(n, n.items[i]))
    && (forall i, k :: 0 <= i < k < |n.items| ==> Footprint(n.items[i]) !! Footprint(n.items[k]))
  }

  ghost predicate SeparateFields(n: Node)
    reads n, n.Repr
  {
    && n in n.Repr
    && (forall k :: k in n.fields ==> n.fields[k].VRef? ==> n.fields[k].node in n.Repr)
    && (forall k :: k in n.fields ==> Below(n, n.fields[k]))
    && (forall k, l :: k in n.fields && l in n.fields && k != l ==> Footprint(n.fields[k]) !! Footprint(n.fields[l]))
  }

  /** v is a tree of nodes, no two parts of it sharing one, that spells out the JSON value j. */
  ghost predicate Tree(v: Value, j: Json)
    reads if v.VRef? then {v.node} + v.node.Repr else {}
    decreases j
  {
    match j
    case Null => v == VNull
    case Bool(b) => v == VBool(b)
    case Num(n) => v == VNum(n)
    case Str(s) => v == VStr(s)
    case Arr(js) =>
      && v.VRef? && v.node.isArray && SeparateItems(v.node) && |v.node.items| == |js|
      && forall i :: 0 <= i < |js| ==> Tree(v.node.items[i], js[i])
    case Obj(js) =>
      && v.VRef? && !v.node.isArray && SeparateFields(v.node) && v.node.fields.Keys == js.Keys
      && forall k :: k in js ==> Tree(v.node.fields[k], js[k])
  }

  /** v spells out j with nodes of S; nodes may be shared. */
  ghost predicate Spells(v: Value, j: Json, S: set<Node>)
    reads S
    decreases j
  {
    match j
    case Null => v == VNull
    case Bool(b) => v == VBool(b)
    case Num(n) => v == VNum(n)
    case Str(s) => v == VStr(s)
    case Arr(js) =>
      && v.VRef? && v.node in S && v.node.isArray && |v.node.items| == |js|
      && forall i :: 0 <= i < |js| ==> Spells(v.node.items[i], js[i], S)
    case Obj(js) =>
      && v.VRef? && v.node in S && !v.node.isArray && v.node.fields.Keys == js.Keys
      && forall k :: k in js ==> Spells(v.node.fields[k], js[k], S)
  }

  /** Object.keys: every key once, in some order. */
  method ObjectKeys(m: map<string, Value>) returns (keys: seq<string>)
    ensures forall k :: k in keys <==> k in m
    ensures forall i, l :: 0 <= i < l < |keys| ==> keys[i] != keys[l]
  {
    keys := [];
    var rest := m.Keys;
    while rest != {}
      invariant rest <= m.Keys
      invariant forall k :: k in keys <==> k in m && k !in rest
      invariant forall i, l :: 0 <= i < l < |keys| ==> keys[i] != keys[l]
      decreases rest
    {
      var k :| k in rest;
      keys, rest := keys + [k], rest - {k};
    }
  }

  method RedactSensitiveFields(obj: Value, sensitiveFields: seq<string>, ghost j: Json)
    requires Tree(obj, j)
    modifies Footprint(obj)`fields
    ensures Tree(obj, Redact(j, sensitiveFields))
    decreases j, 2
  {
    RedactionKeepsShape(j, sensitiveFields);
    if !obj.VRef? {
      return;
    }
    if obj.node.isArray {
      RedactItems(obj, sensitiveFields, j);
    } else {
      RedactFields(obj, sensitiveFields, j);
    }
  }

  /** The array branch: every item in turn. */
  method RedactItems(obj: Value, sensitiveFields: seq<string>, ghost j: Json)
    requires Tree(obj, j) && j.Arr?
    modifies Footprint(obj)`fields
    ensures Tree(obj, Redact(j, sensitiveFields))
    decreases j, 1
  {
    ghost var js := j.items;
    ghost var r := Redact(j, sensitiveFields).items;
    for i := 0 to |obj.node.items|
      invariant Tree(obj, Arr(js)) && |js| == |j.items|
      invariant forall k :: 0 <= k < |js| ==> js[k] == if k < i then r[k] else j.items[k]
    {
      RedactItem(obj, i, sensitiveFields, js);
      js := js[i := r[i]];
    }
    assert js == r;
  }

  method RedactItem(obj: Value, i: nat, sensitiveFields: seq<string>, ghost js: seq<Json>)
    requires Tree(obj, Arr(js)) && i < |js|
    modifies Footprint(obj)`fields
    ensures Tree(obj, Arr(js[i := Redact(js[i], sensitiveFields)]))
    decreases js[i], 3
  {
    RedactSensitiveFields(obj.node.items[i], sensitiveFields, js[i]);
  }

  /** The object branch. */
  method RedactFields(obj: Value, sensitiveFields: seq<string>, ghost j: Json)
    requires Tree(obj, j) && j.Obj?
    modifies Footprint(obj)`fields
    ensures Tree(obj, Redact(j, sensitiveFields))
    decreases j, 1
  {
    var keys := ObjectKeys(obj.node.fields);
    RedactKeys(obj, keys, sensitiveFields, j);
  }

  /** m has the entries of `new` at the first i keys and those of `start` at the others. */
  ghost predicate Upto(m: map<string, Json>, start: map<string, Json>, new': map<string, Json>, keys: seq<string>, i: nat)
    requires i <= |keys| && m.Keys == start.Keys == new'.Keys
    requires forall n :: 0 <= n < |keys| ==> keys[n] in m
  {
    && (forall n :: 0 <= n < i ==> m[keys[n]] == new'[keys[n]])
    && (forall n :: i <= n < |keys| ==> m[keys[n]] == start[keys[n]])
  }

  lemma UptoNext(m: map<string, Json>, start: map<string, Json>, new': map<string, Json>, keys: seq<string>, i: nat)
    requires i < |keys| && m.Keys == start.Keys == new'.Keys
    requires forall k :: k in keys <==> k in m
    requires forall i, l :: 0 <= i < l < |keys| ==> keys[i] != keys[l]
    requires Upto(m, start, new', keys, i)
    ensures m[keys[i]] == start[keys[i]]
    ensures Upto(m[keys[i] := new'[keys[i]]], start, new', keys, i + 1)
  {}

  /** Every key in turn. */
  method RedactKeys(obj: Value, keys: seq<string>, sensitiveFields: seq<string>, ghost j: Json)
    requires Tree(obj, j) && j.Obj?
    requires forall k :: k in keys <==> k in j.fields
    requires forall i, l :: 0 <= i < l < |keys| ==> keys[i] != keys[l]
    modifies Footprint(obj)`fields
    ensures Tree(obj, Redact(j, sensitiveFields))
    decreases j, 0
  {
    hide Tree, Redact;
    RedactionKeepsShape(j, sensitiveFields);
    ghost var js, r := j.fields, Redact(j, sensitiveFields).fields;
    for i := 0 to |keys|
      invariant Tree(obj, Obj(js)) && js.Keys == j.fields.Keys
      invariant Upto(js, j.fields, r, keys, i)
    {
      UptoNext(js, j.fields, r, keys, i);
      RedactedField(j, keys[i], sensitiveFields);
      assert js[keys[i]] == j.fields[keys[i]] < j;
      RedactField(obj, keys[i], sensitiveFields, js);
      js := js[keys[i] := r[keys[i]]];
    }
    assert forall k :: k in js ==> k in keys && js[k] == r[k];
    assert js == r;
  }

  method RedactField(obj: Value, key: string, sensitiveFields: seq<string>, ghost js: map<string, Json>)
    requires Tree(obj, Obj(js)) && key in js
    modifies Footprint(obj)`fields
    ensures Tree(obj, Obj(js[key := if Sensitive(key, sensitiveFields) then Str(REDACTED)
                                    else Redact(js[key], sensitiveFields)]))
    decreases js[key], 4
  {
    if Sensitive(key, sensitiveFields) {
      Overwrite(obj, key, js);
    } else if obj.node.fields[key].VRef? {
      RedactBelow(obj, key, sensitiveFields, js);
    } else {
      RedactionKeepsShape(js[key], sensitiveFields);
      assert js[key := js[key]] == js;
    }
  }

  method Overwrite(obj: Value, key: string, ghost js: map<string, Json>)
    requires Tree(obj, Obj(js)) && key in js
    modifies obj.node`fields
    ensures Tree(obj, Obj(js[key := Str(REDACTED)]))
  {
    obj.node.fields := obj.node.fields[key := VStr(REDACTED)];
  }

  method RedactBelow(obj: Value, key: string, sensitiveFields: seq<string>, ghost js: map<string, Json>)
    requires Tree(obj, Obj(js)) && key in js && obj.node.fields[key].VRef?
    modifies Footprint(obj)`fields
    ensures Tree(obj, Obj(js[key := Redact(js[key], sensitiveFields)]))
    decreases js[key], 3
  {
    hide Tree, Redact;
    ObjectTree(obj, js);
    var child := obj.node.fields[key];
    RedactSensitiveFields(child, sensitiveFields, js[key]);
    ObjectTree(obj, js[key := Redact(js[key], sensitiveFields)]);
  }

  /** An object is a tree exactly when its fields are separate trees. */
  lemma ObjectTree(obj: Value, js: map<string, Json>)
    ensures Tree(obj, Obj(js)) <==>
              && obj.VRef? && !obj.node.isArray && SeparateFields(obj.node) && obj.node.fields.Keys == js.Keys
              && forall k :: k in js ==> Tree(obj.node.fields[k], js[k])
  {}

  /** An array is a tree exactly when its items are separate trees. */
  lemma ArrayTree(v: Value, js: seq<Json>)
    ensures Tree(v, Arr(js)) <==>
              && v.VRef? && v.node.isArray && SeparateItems(v.node) && |v.node.items| == |js|
              && forall i :: 0 <= i < |js| ==> Tree(v.node.items[i], js[i])
  {}

  // ---- the clone ---------------------------------------------------------------------------

  ghost predicate FreshCopy(c: Value, j: Json, below: set<Node>)
    reads if c.VRef? then {c.node} + c.node.Repr else {}
  {
    Tree(c, j) && Footprint(c) <= below && (c.VRef? ==> c.node in c.node.Repr)
  }

  /**
   * The effect of JSON.parse(JSON.stringify(v)): a tree of new nodes with the same content, a
   * node reached twice being copied twice. Nothing that existed is modified.
   */
  method Clone(v: Value, ghost j: Json, ghost S: set<Node>) returns (c: Value)
    requires Spells(v, j, S)
    ensures Tree(c, j) && fresh(Footprint(c)) && (c.VRef? ==> c.node in c.node.Repr)
    decreases j, 2
  {
    if !v.VRef? {
      c := v;
    } else if v.node.isArray {
      c := CloneArray(v, j, S);
    } else {
      c := CloneObject(v, j, S);
    }
  }

  method CloneArray(v: Value, ghost j: Json, ghost S: set<Node>) returns (c: Value)
    requires Spells(v, j, S) && j.Arr?
    ensures Tree(c, j) && fresh(Footprint(c)) && (c.VRef? ==> c.node in c.node.Repr)
    decreases j, 0
  {
    hide Tree;
    var items: seq<Value> := [];
    ghost var below: set<Node> := {};
    for i := 0 to |v.node.items|
      invariant |items| == i && fresh(below)
      invariant forall k :: 0 <= k < i ==> FreshCopy(items[k], j.items[k], below)
      invariant forall k, l :: 0 <= k < l < i ==> Footprint(items[k]) !! Footprint(items[l])
    {
      var item := Clone(v.node.items[i], j.items[i], S);
      items, below := items + [item], below + Footprint(item);
    }
    var node := new Node(true, items, map[], below);
    c := VRef(node);
    ArrayTree(c, j.items);
  }

  method CloneObject(v: Value, ghost j: Json, ghost S: set<Node>) returns (c: Value)
    requires Spells(v, j, S) && j.Obj?
    ensures Tree(c, j) && fresh(Footprint(c)) && (c.VRef? ==> c.node in c.node.Repr)
    decreases j, 1
  {
    hide Tree;
    var keys := ObjectKeys(v.node.fields);
    var fields, below := CloneFields(v.node, keys, j, S);
    var node := new Node(false, [], fields, below);
    c := VRef(node);
    ObjectTree(c, j.fields);
  }

  method CloneFields(n: Node, keys: seq<string>, ghost j: Json, ghost S: set<Node>)
    returns (fields: map<string, Value>, ghost below: set<Node>)
    requires j.Obj? && n.fields.Keys == j.fields.Keys && forall k :: k in j.fields ==> Spells(n.fields[k], j.fields[k], S)
    requires forall k :: k in keys <==> k in j.fields
    ensures fields.Keys == j.fields.Keys && fresh(below)
    ensures forall k :: k in j.fields ==> FreshCopy(fields[k], j.fields[k], below)
    ensures forall k, l :: k in j.fields && l in j.fields && k != l ==> Footprint(fields[k]) !! Footprint(fields[l])
    decreases j, 0
  {
    hide Tree, Spells;
    fields, below := map[], {};
    for i := 0 to |keys|
      invariant fresh(below) && fields.Keys <= j.fields.Keys
      invariant forall n :: 0 <= n < i ==> keys[n] in fields
      invariant forall k :: k in fields ==> FreshCopy(fields[k], j.fields[k], below)
      invariant forall k, l :: k in fields && l in fields && k != l ==> Footprint(fields[k]) !! Footprint(fields[l])
    {
      var key := keys[i];
      var child := Clone(n.fields[key], j.fields[key], S);
      assert Footprint(child) !! below;
      assert forall k :: k in fields ==> FreshCopy(fields[k], j.fields[k], below);
      fields, below := fields[key := child], below + Footprint(child);
    }
  }

  // ---- sanitizeData ------------------------------------------------------------------------

  /** JavaScript falsiness of a JSON value. */
  predicate Falsy(v: Value) {
    v == VNull || v == VBool(false) || v == VNum(0.0) || v == VStr("")
  }

  /**
   * The result spells out the redaction of what data spelled out, on new nodes only. The empty
   * modifies clause says that every object of the caller is left unchanged.
   */
  method SanitizeData(data: Value, ghost j: Json, ghost S: set<Node>) returns (sanitized: Value)
    requires Spells(data, j, S)
    ensures Tree(sanitized, Redact(j, SENSITIVE_FIELDS))
    ensures fresh(Footprint(sanitized))
    ensures Spells(data, j, S)
    ensures Falsy(data) ==> sanitized == data
  {
    if Falsy(data) {
      return data;
    }
    sanitized := Clone(data, j, S);
    RedactSensitiveFields(sanitized, SENSITIVE_FIELDS, j);
  }
}
