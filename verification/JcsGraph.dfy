// serializeValue on JavaScript object graphs: the shared `seen` set, cycles, and every value kind
// the serializer rejects.
module JcsGraph {
  import opened Wrappers
  import opened Jcs

  type Ref = nat

  datatype JsValue =
    | JNull
    | JBool(b: bool)
    | JString(s: Text)
    | JNumber
    | JBigint
    | JUndefined
    | JFunction
    | JSymbol
    | JRef(ref: Ref)
    // A hole of a sparse array: map() skips it and join() prints nothing for it.
    | JHole

  datatype JsField = JsField(key: Text, value: JsValue)

  // OtherNode: a Date, Map, Set or class instance.
  datatype Node = ArrayNode(items: seq<JsValue>) | PlainNode(fields: seq<JsField>) | OtherNode

  type Heap = map<Ref, Node>

  datatype ErrorCode = NumberForbidden | UnsupportedType | Circular | LoneSurrogateCode | NonPlainObject

  type Outcome = Result<Text, ErrorCode>

  ghost predicate ValidHeap(heap: Heap) {
    forall r <- heap ::
      match heap[r]
      case ArrayNode(items) => forall v <- items :: InHeap(heap, v)
      case PlainNode(fields) =>
        && (forall f <- fields :: InHeap(heap, f.value) && !f.value.JHole?)
        && (forall i, j :: 0 <= i < j < |fields| ==> fields[i].key != fields[j].key)
      case OtherNode => true
  }

  predicate InHeap(heap: Heap, v: JsValue) { v.JRef? ==> v.ref in heap }

  // ---- the serializer as a function of what `seen` holds ----

  ghost function QuoteOr(s: Text): Outcome {
    if WellFormed(s) then Ok(Quote(s)) else Err(LoneSurrogateCode)
  }

  function InsertJs(f: JsField, fs: seq<JsField>): seq<JsField> {
    if fs == [] then [f]
    else if Less(fs[0].key, f.key) then [fs[0]] + InsertJs(f, fs[1..])
    else [f] + fs
  }

  function SortJs(fs: seq<JsField>): seq<JsField> {
    if fs == [] then [] else InsertJs(fs[0], SortJs(fs[1..]))
  }

  lemma SortJsMembers(fs: seq<JsField>)
    ensures multiset(SortJs(fs)) == multiset(fs)
    ensures forall f :: f in SortJs(fs) <==> f in fs
  {
    if fs != [] {
      assert fs == [fs[0]] + fs[1..];
      SortJsMembers(fs[1..]);
      InsertJsMembers(fs[0], SortJs(fs[1..]));
    }
    forall f ensures f in SortJs(fs) <==> f in fs {
      assert f in SortJs(fs) <==> f in multiset(SortJs(fs));
    }
  }

  lemma {:induction false} InsertJsMembers(f: JsField, fs: seq<JsField>)
    ensures multiset(InsertJs(f, fs)) == multiset{f} + multiset(fs)
    decreases |fs|
  {
    if fs != [] {
      assert fs == [fs[0]] + fs[1..];
      if Less(fs[0].key, f.key) { InsertJsMembers(f, fs[1..]); }
    }
  }

  ghost function Serialize(heap: Heap, v: JsValue, seen: set<Ref>): Outcome
    decreases |heap.Keys - seen|, 0, 0
  {
    match v
    case JNull => Ok(NULL)
    case JBool(b) => Ok(if b then TRUE else FALSE)
    case JString(s) => QuoteOr(s)
    case JNumber => Err(NumberForbidden)
    case JBigint => Err(NumberForbidden)
    case JUndefined => Err(UnsupportedType)
    case JFunction => Err(UnsupportedType)
    case JSymbol => Err(UnsupportedType)
    case JHole => Ok([])
    case JRef(r) =>
      if r in seen then Err(Circular)
      else if r !in heap then Err(UnsupportedType)
      else
        Shrinks(heap, seen, r);
        match heap[r]
        case ArrayNode(items) => Wrap(LBRACKET, SerializeItems(heap, items, seen + {r}), RBRACKET)
        case PlainNode(fields) => Wrap(LBRACE, SerializeFields(heap, SortJs(fields), seen + {r}), RBRACE)
        case OtherNode => Err(NonPlainObject)
  }

  lemma Shrinks(heap: Heap, seen: set<Ref>, r: Ref)
    requires r in heap && r !in seen
    ensures |heap.Keys - (seen + {r})| < |heap.Keys - seen|
  {
    assert heap.Keys - seen == (heap.Keys - (seen + {r})) + {r};
  }

  function Wrap(open: CodeUnit, body: Outcome, close: CodeUnit): Outcome {
    if body.Ok? then Ok([open] + body.value + [close]) else body
  }

  function Join(first: Text, rest: Text, last: bool): Text {
    if last then first else first + [COMMA] + rest
  }

  // map() then join(","): the first fault in order stops it.
  ghost function SerializeItems(heap: Heap, items: seq<JsValue>, seen: set<Ref>): Outcome
    decreases |heap.Keys - seen|, 1, |items|
  {
    if items == [] then Ok([])
    else
      var first := Serialize(heap, items[0], seen);
      if first.Err? then first
      else
        var rest := SerializeItems(heap, items[1..], seen);
        if rest.Err? then rest else Ok(Join(first.value, rest.value, |items| == 1))
  }

  ghost function SerializeField(heap: Heap, f: JsField, seen: set<Ref>): Outcome
    decreases |heap.Keys - seen|, 1, 0
  {
    var key := QuoteOr(f.key);
    if key.Err? then key
    else
      var value := Serialize(heap, f.value, seen);
      if value.Err? then value else Ok(key.value + [COLON] + value.value)
  }

  ghost function SerializeFields(heap: Heap, fields: seq<JsField>, seen: set<Ref>): Outcome
    decreases |heap.Keys - seen|, 2, |fields|
  {
    if fields == [] then Ok([])
    else
      var first := SerializeField(heap, fields[0], seen);
      if first.Err? then first
      else
        var rest := SerializeFields(heap, fields[1..], seen);
        if rest.Err? then rest else Ok(Join(first.value, rest.value, |fields| == 1))
  }

  // ---- the serializer itself, over one shared set ----

  class SeenSet {
    var refs: set<Ref>
    constructor ()
      ensures refs == {}
    {
      refs := {};
    }
  }

  class Serializer {
    const heap: Heap
    const seen: SeenSet

    constructor (heap: Heap)
      ensures this.heap == heap && fresh(seen) && seen.refs == {}
    {
      this.heap := heap;
      seen := new SeenSet();
    }

    // Adds the object on the way in and deletes it on the way out, whether it returns or throws.
    method SerializeValue(v: JsValue) returns (r: Outcome)
      requires InHeap(heap, v) && ValidHeap(heap)
      modifies seen
      ensures seen.refs == old(seen.refs)
      ensures r == Serialize(heap, v, seen.refs)
      decreases |heap.Keys - seen.refs|, 0, 1
    {
      match v {
        case JNull => return Ok(NULL);
        case JBool(b) => return Ok(if b then TRUE else FALSE);
        case JString(s) => r := SerializeText(s);
        case JNumber => return Err(NumberForbidden);
        case JBigint => return Err(NumberForbidden);
        case JUndefined => return Err(UnsupportedType);
        case JFunction => return Err(UnsupportedType);
        case JSymbol => return Err(UnsupportedType);
        case JHole => return Ok([]);
        case JRef(ref) =>
          if ref in seen.refs {
            return Err(Circular);
          }
          r := SerializeObject(ref);
      }
    }

    // The part between adding the object and deleting it.
    method SerializeObject(ref: Ref) returns (r: Outcome)
      requires ref in heap && ref !in seen.refs && ValidHeap(heap)
      modifies seen
      ensures seen.refs == old(seen.refs)
      ensures r == Serialize(heap, JRef(ref), seen.refs)
      decreases |heap.Keys - seen.refs|, 0, 0
    {
      Shrinks(heap, seen.refs, ref);
      seen.refs := seen.refs + {ref};
      match heap[ref] {
        case ArrayNode(items) =>
          r := SerializeArray(items);
          r := Wrap(LBRACKET, r, RBRACKET);
        case PlainNode(fields) =>
          SortJsMembers(fields);
          r := SerializeRecord(SortJs(fields));
          r := Wrap(LBRACE, r, RBRACE);
        case OtherNode => r := Err(NonPlainObject);
      }
      seen.refs := seen.refs - {ref};
    }

    method SerializeText(s: Text) returns (r: Outcome)
      ensures r == QuoteOr(s)
    {
      var quoted := SerializeString(s);
      return if quoted.Quoted? then Ok(quoted.out) else Err(LoneSurrogateCode);
    }

    method SerializeArray(items: seq<JsValue>) returns (r: Outcome)
      requires ValidHeap(heap) && forall v <- items :: InHeap(heap, v)
      modifies seen
      ensures seen.refs == old(seen.refs)
      ensures r == SerializeItems(heap, items, seen.refs)
      decreases |heap.Keys - seen.refs|, 1, 0
    {
      var out: Text := [];
      var i := 0;
      assert items[0..] == items;
      while i < |items|
        invariant 0 <= i <= |items|
        invariant seen.refs == old(seen.refs) && (i == 0 ==> out == [])
        invariant ItemsSoFar(heap, items, seen.refs, i, out)
      {
        ItemsStep(heap, items, seen.refs, i, out);
        var piece := SerializeValue(items[i]);
        if piece.Err? {
          return piece;
        }
        out := if i == 0 then piece.value else out + [COMMA] + piece.value;
        i := i + 1;
      }
      return Ok(out);
    }

    method SerializeRecord(fields: seq<JsField>) returns (r: Outcome)
      requires ValidHeap(heap) && forall f <- fields :: InHeap(heap, f.value)
      modifies seen
      ensures seen.refs == old(seen.refs)
      ensures r == SerializeFields(heap, fields, seen.refs)
      decreases |heap.Keys - seen.refs|, 1, 0
    {
      var out: Text := [];
      var i := 0;
      assert fields[0..] == fields;
      while i < |fields|
        invariant 0 <= i <= |fields|
        invariant seen.refs == old(seen.refs) && (i == 0 ==> out == [])
        invariant FieldsSoFar(heap, fields, seen.refs, i, out)
      {
        FieldsStep(heap, fields, seen.refs, i, out);
        var key := SerializeText(fields[i].key);
        if key.Err? {
          return key;
        }
        var value := SerializeValue(fields[i].value);
        if value.Err? {
          return value;
        }
        var piece := key.value + [COLON] + value.value;
        out := if i == 0 then piece else out + [COMMA] + piece;
        i := i + 1;
      }
      return Ok(out);
    }
  }

  // What the loop has printed, followed by the pieces still to come.
  function Continue(out: Text, done: nat, rest: Outcome, finished: bool): Outcome {
    if rest.Err? then rest
    else if done == 0 then rest
    else if finished then Ok(out)
    else Ok(out + [COMMA] + rest.value)
  }

  lemma ContinueStep(out: Text, done: nat, piece: Text, rest: Outcome, last: bool)
    ensures Continue(out, done, if rest.Err? then rest else Ok(Join(piece, rest.value, last)), false)
      == Continue(if done == 0 then piece else out + [COMMA] + piece, done + 1, rest, last)
  {
    if rest.Ok? && done > 0 && !last {
      assert out + [COMMA] + (piece + [COMMA] + rest.value) == out + [COMMA] + piece + [COMMA] + rest.value;
    }
  }

  // The loops' invariants: what is printed of the first `i`, and what the rest will do.
  ghost predicate ItemsSoFar(heap: Heap, items: seq<JsValue>, seen: set<Ref>, i: nat, out: Text) {
    && i <= |items|
    && SerializeItems(heap, items, seen) == Continue(out, i, SerializeItems(heap, items[i..], seen), i == |items|)
  }

  ghost predicate FieldsSoFar(heap: Heap, fields: seq<JsField>, seen: set<Ref>, i: nat, out: Text) {
    && i <= |fields|
    && SerializeFields(heap, fields, seen)
       == Continue(out, i, SerializeFields(heap, fields[i..], seen), i == |fields|)
  }

  lemma ItemsStep(heap: Heap, items: seq<JsValue>, seen: set<Ref>, i: nat, out: Text)
    requires i < |items| && ItemsSoFar(heap, items, seen, i, out)
    ensures var piece := Serialize(heap, items[i], seen);
      if piece.Err? then SerializeItems(heap, items, seen) == piece
      else ItemsSoFar(heap, items, seen, i + 1, if i == 0 then piece.value else out + [COMMA] + piece.value)
  {
    assert items[i..][0] == items[i] && items[i..][1..] == items[i + 1..];
    var piece := Serialize(heap, items[i], seen);
    if piece.Ok? { ContinueStep(out, i, piece.value, SerializeItems(heap, items[i + 1..], seen), i + 1 == |items|); }
  }

  lemma FieldsStep(heap: Heap, fields: seq<JsField>, seen: set<Ref>, i: nat, out: Text)
    requires i < |fields| && FieldsSoFar(heap, fields, seen, i, out)
    ensures var piece := SerializeField(heap, fields[i], seen);
      if piece.Err? then SerializeFields(heap, fields, seen) == piece
      else FieldsSoFar(heap, fields, seen, i + 1, if i == 0 then piece.value else out + [COMMA] + piece.value)
  {
    assert fields[i..][0] == fields[i] && fields[i..][1..] == fields[i + 1..];
    var piece := SerializeField(heap, fields[i], seen);
    if piece.Ok? { ContinueStep(out, i, piece.value, SerializeFields(heap, fields[i + 1..], seen), i + 1 == |fields|); }
  }

  // ---- the tree a graph unfolds to ----

  // The tree `t` has the shape of the graph under `v`, shared objects repeated.
  ghost predicate Unfolds(heap: Heap, v: JsValue, t: Value)
    decreases t
  {
    match (v, t)
    case (JNull, Null) => true
    case (JBool(b), Bool(c)) => b == c
    case (JString(s), Str(u)) => s == u
    case (JRef(r), Arr(items)) =>
      && r in heap && heap[r].ArrayNode? && |heap[r].items| == |items|
      && forall i :: 0 <= i < |items| ==> Unfolds(heap, heap[r].items[i], items[i])
    case (JRef(r), Obj(fields)) =>
      && r in heap && heap[r].PlainNode? && |heap[r].fields| == |fields|
      && forall i :: 0 <= i < |fields| ==>
           heap[r].fields[i].key == fields[i].key && Unfolds(heap, heap[r].fields[i].value, fields[i].value)
    case (_, _) => false
  }

  function Size(t: Value): nat
    decreases t, 1
  {
    match t
    case Arr(items) => 1 + SizeItems(items)
    case Obj(fields) => 1 + SizeFields(fields)
    case _ => 1
  }

  function SizeItems(items: seq<Value>): (n: nat)
    ensures forall i :: 0 <= i < |items| ==> Size(items[i]) <= n
    decreases items, 0
  {
    if items == [] then 0 else Size(items[0]) + SizeItems(items[1..])
  }

  function SizeFields(fields: seq<Field>): (n: nat)
    ensures forall i :: 0 <= i < |fields| ==> Size(fields[i].value) <= n
    decreases fields, 0
  {
    if fields == [] then 0 else Size(fields[0].value) + SizeFields(fields[1..])
  }

  lemma {:induction false} UnfoldsOnce(heap: Heap, v: JsValue, t: Value, u: Value)
    requires Unfolds(heap, v, t) && Unfolds(heap, v, u)
    ensures t == u
    decreases t
  {
    match (t, u)
    case (Arr(xs), Arr(ys)) =>
      forall i | 0 <= i < |xs| ensures xs[i] == ys[i] { UnfoldsOnce(heap, heap[v.ref].items[i], xs[i], ys[i]); }
    case (Obj(fs), Obj(gs)) =>
      forall i | 0 <= i < |fs| ensures fs[i] == gs[i] {
        UnfoldsOnce(heap, heap[v.ref].fields[i].value, fs[i].value, gs[i].value);
      }
    case (_, _) =>
  }

  // Fields in the order printed, with their unfoldings.
  ghost predicate FieldsUnfold(heap: Heap, js: seq<JsField>, fs: seq<Field>) {
    |js| == |fs| && forall i :: 0 <= i < |js| ==> js[i].key == fs[i].key && Unfolds(heap, js[i].value, fs[i].value)
  }

  lemma {:induction false} InsertUnfolds(heap: Heap, f: JsField, js: seq<JsField>, g: Field, fs: seq<Field>)
    requires FieldsUnfold(heap, js, fs) && f.key == g.key && Unfolds(heap, f.value, g.value)
    ensures FieldsUnfold(heap, InsertJs(f, js), Insert(g, fs))
  {
    if js != [] {
      assert js[0].key == fs[0].key && Unfolds(heap, js[0].value, fs[0].value);
      if Less(js[0].key, f.key) { InsertUnfolds(heap, f, js[1..], g, fs[1..]); }
    }
  }

  lemma {:induction false} SortUnfolds(heap: Heap, js: seq<JsField>, fs: seq<Field>)
    requires FieldsUnfold(heap, js, fs)
    ensures FieldsUnfold(heap, SortJs(js), SortFields(fs))
  {
    if js != [] {
      SortUnfolds(heap, js[1..], fs[1..]);
      InsertUnfolds(heap, js[0], SortJs(js[1..]), fs[0], SortFields(fs[1..]));
    }
  }

  // Sorting and normalizing commute: the key decides the order, not the value.
  lemma InsertNormal(f: Field, fs: seq<Field>)
    ensures NormalFields(Insert(f, fs)) == Insert(Field(f.key, Normal(f.value)), NormalFields(fs))
  {
    if fs != [] {
      if Less(fs[0].key, f.key) {
        InsertNormal(f, fs[1..]);
        assert Insert(f, fs)[1..] == Insert(f, fs[1..]);
        assert NormalFields(fs)[1..] == NormalFields(fs[1..]);
      } else {
        assert ([f] + fs)[1..] == fs;
      }
    }
  }

  lemma {:induction false} SortNormal(fs: seq<Field>)
    ensures NormalFields(SortFields(fs)) == SortFields(NormalFields(fs))
  {
    if fs != [] {
      SortNormal(fs[1..]);
      InsertNormal(fs[0], SortFields(fs[1..]));
      assert NormalFields(fs)[1..] == NormalFields(fs[1..]);
    }
  }

  // ---- a graph that unfolds prints as its tree ----

  // Objects being printed are too large to occur inside a tree of this size.
  ghost predicate SeenAbove(heap: Heap, seen: set<Ref>, n: nat) {
    forall r, t :: r in seen && Unfolds(heap, JRef(r), t) ==> Size(t) > n
  }

  ghost predicate ItemsUnfold(heap: Heap, vs: seq<JsValue>, ts: seq<Value>) {
    |vs| == |ts| && forall i :: 0 <= i < |vs| ==> Unfolds(heap, vs[i], ts[i])
  }

  lemma SeenAlso(heap: Heap, seen: set<Ref>, r: Ref, t: Value, n: nat)
    requires SeenAbove(heap, seen, n) && Unfolds(heap, JRef(r), t) && 0 < Size(t) <= n
    ensures r !in seen && SeenAbove(heap, seen + {r}, Size(t) - 1)
  {
    forall q, u | q in seen + {r} && Unfolds(heap, JRef(q), u) ensures Size(u) > Size(t) - 1 {
      if q == r { UnfoldsOnce(heap, JRef(r), t, u); }
    }
  }

  lemma {:induction false} UnfoldedPrints(heap: Heap, v: JsValue, t: Value, seen: set<Ref>, n: nat)
    requires Unfolds(heap, v, t) && StringsOk(t) && Size(t) <= n && SeenAbove(heap, seen, n)
    ensures Serialize(heap, v, seen) == Ok(Canonical(t))
    decreases n, 0, 0
  {
    match t
    case Arr(items) =>
      SeenAlso(heap, seen, v.ref, t, n);
      ItemsPrint(heap, heap[v.ref].items, items, seen + {v.ref}, Size(t) - 1);
    case Obj(fields) =>
      SeenAlso(heap, seen, v.ref, t, n);
      SortUnfolds(heap, heap[v.ref].fields, fields);
      SortKeeps(fields);
      forall f | f in SortFields(fields) ensures f in fields { assert f in multiset(SortFields(fields)); }
      FieldsPrint(heap, SortJs(heap[v.ref].fields), SortFields(fields), seen + {v.ref}, Size(t) - 1);
      SortNormal(fields);
    case _ =>
  }

  lemma {:induction false} ItemsPrint(heap: Heap, vs: seq<JsValue>, ts: seq<Value>, seen: set<Ref>, n: nat)
    requires ItemsUnfold(heap, vs, ts) && SeenAbove(heap, seen, n)
    requires forall i :: 0 <= i < |ts| ==> StringsOk(ts[i]) && Size(ts[i]) <= n
    ensures SerializeItems(heap, vs, seen) == Ok(PrintItems(NormalItems(ts)))
    decreases n, 1, |ts|
  {
    if ts != [] {
      UnfoldedPrints(heap, vs[0], ts[0], seen, n);
      ItemsPrint(heap, vs[1..], ts[1..], seen, n);
      assert NormalItems(ts)[1..] == NormalItems(ts[1..]);
    }
  }

  lemma {:induction false} FieldsPrint(heap: Heap, js: seq<JsField>, fs: seq<Field>, seen: set<Ref>, n: nat)
    requires FieldsUnfold(heap, js, fs) && SeenAbove(heap, seen, n)
    requires forall f <- fs :: WellFormed(f.key) && StringsOk(f.value) && Size(f.value) <= n
    ensures SerializeFields(heap, js, seen) == Ok(PrintFields(NormalFields(fs)))
    decreases n, 1, |fs|
  {
    if fs != [] {
      assert fs[0] in fs && js[0].key == fs[0].key;
      UnfoldedPrints(heap, js[0].value, fs[0].value, seen, n);
      FieldsPrint(heap, js[1..], fs[1..], seen, n);
      assert NormalFields(fs)[1..] == NormalFields(fs[1..]);
    }
  }

  // ---- paths, cycles and faults ----

  ghost predicate Child(heap: Heap, v: JsValue, w: JsValue) {
    v.JRef? && v.ref in heap &&
    match heap[v.ref]
    case ArrayNode(items) => w in items
    case PlainNode(fields) => exists f <- fields :: f.value == w
    case OtherNode => false
  }

  // A way from the first value to the last through arrays and objects.
  ghost predicate IsPath(heap: Heap, p: seq<JsValue>) {
    p != [] && forall i :: 0 <= i < |p| - 1 ==> Child(heap, p[i], p[i + 1])
  }

  // The path comes back to an object it has been to.
  ghost predicate Returns(p: seq<JsValue>) {
    exists i, j :: 0 <= i < j < |p| && p[i].JRef? && p[i] == p[j]
  }

  ghost predicate HasCycle(heap: Heap, v: JsValue) {
    exists p :: IsPath(heap, p) && p[0] == v && Returns(p)
  }

  ghost predicate Reaches(heap: Heap, v: JsValue, w: JsValue) {
    exists p :: IsPath(heap, p) && p[0] == v && p[|p| - 1] == w
  }

  // What is wrong with a value whatever surrounds it.
  ghost function FaultOf(heap: Heap, v: JsValue): Option<ErrorCode> {
    match v
    case JString(s) => if WellFormed(s) then None else Some(LoneSurrogateCode)
    case JNumber => Some(NumberForbidden)
    case JBigint => Some(NumberForbidden)
    case JUndefined => Some(UnsupportedType)
    case JFunction => Some(UnsupportedType)
    case JSymbol => Some(UnsupportedType)
    case JRef(r) =>
      if r !in heap then Some(UnsupportedType)
      else (
        match heap[r]
        case OtherNode => Some(NonPlainObject)
        case PlainNode(fields) =>
          if forall f <- fields :: WellFormed(f.key) then None else Some(LoneSurrogateCode)
        case ArrayNode(_) => None
      )
    case _ => None
  }

  ghost predicate HasFault(heap: Heap, v: JsValue, code: ErrorCode) {
    exists w :: Reaches(heap, v, w) && FaultOf(heap, w) == Some(code)
  }

  lemma {:induction false} ItemsOk(heap: Heap, items: seq<JsValue>, seen: set<Ref>)
    requires SerializeItems(heap, items, seen).Ok?
    ensures forall w <- items :: Serialize(heap, w, seen).Ok?
  {
    if items != [] {
      ItemsOk(heap, items[1..], seen);
      assert items == [items[0]] + items[1..];
    }
  }

  lemma {:induction false} FieldsOk(heap: Heap, fields: seq<JsField>, seen: set<Ref>)
    requires SerializeFields(heap, fields, seen).Ok?
    ensures forall f <- fields :: WellFormed(f.key) && Serialize(heap, f.value, seen).Ok?
  {
    if fields != [] {
      FieldsOk(heap, fields[1..], seen);
      assert fields == [fields[0]] + fields[1..];
    }
  }

  // A value that prints has no fault of its own, and all its children print inside it.
  lemma OkInside(heap: Heap, v: JsValue, seen: set<Ref>)
    requires Serialize(heap, v, seen).Ok?
    ensures FaultOf(heap, v).None?
    ensures v.JRef? ==> v.ref !in seen
    ensures forall w :: Child(heap, v, w) ==> Serialize(heap, w, seen + {v.ref}).Ok?
  {
    if v.JRef? && v.ref !in seen && v.ref in heap {
      match heap[v.ref]
      case ArrayNode(items) => ItemsOk(heap, items, seen + {v.ref});
      case PlainNode(fields) =>
        SortJsMembers(fields);
        FieldsOk(heap, SortJs(fields), seen + {v.ref});
      case OtherNode =>
    }
  }

  // From a value that prints, every path is free of faults and never meets an object twice.
  lemma {:induction false} OkPath(heap: Heap, p: seq<JsValue>, seen: set<Ref>)
    requires IsPath(heap, p) && Serialize(heap, p[0], seen).Ok?
    ensures forall i :: 0 <= i < |p| ==> FaultOf(heap, p[i]).None? && (p[i].JRef? ==> p[i].ref !in seen)
    ensures !Returns(p)
    decreases |p|
  {
    OkInside(heap, p[0], seen);
    if |p| > 1 {
      assert Child(heap, p[0], p[1]);
      var rest := p[1..];
      assert IsPath(heap, rest) by {
        forall i | 0 <= i < |rest| - 1 ensures Child(heap, rest[i], rest[i + 1]) {
          assert Child(heap, p[i + 1], p[i + 1 + 1]);
        }
      }
      OkPath(heap, rest, seen + {p[0].ref});
      forall i | 0 < i < |p|
        ensures FaultOf(heap, p[i]).None? && (p[i].JRef? ==> p[i].ref !in seen + {p[0].ref})
      {
        assert p[i] == rest[i - 1];
      }
      forall i, j | 0 <= i < j < |p| && p[i].JRef? ensures p[i] != p[j] {
        if i > 0 { assert p[i] == rest[i - 1] && p[j] == rest[j - 1]; }
      }
    }
  }

  lemma PrependPath(heap: Heap, v: JsValue, p: seq<JsValue>)
    requires IsPath(heap, p) && Child(heap, v, p[0])
    ensures IsPath(heap, [v] + p)
  {
    var q := [v] + p;
    forall i | 0 <= i < |q| - 1 ensures Child(heap, q[i], q[i + 1]) {
      if i > 0 { assert Child(heap, p[i - 1], p[i - 1 + 1]); }
    }
  }

  // Where an error comes from: a path to a value with that fault, or back to an object already open.
  ghost predicate Blames(heap: Heap, v: JsValue, seen: set<Ref>, code: ErrorCode, p: seq<JsValue>) {
    && IsPath(heap, p) && p[0] == v
    && var w := p[|p| - 1];
       || FaultOf(heap, w) == Some(code)
       || (code == Circular && w.JRef? && (w.ref in seen || Returns(p)))
  }

  lemma {:induction false} ErrBlames(heap: Heap, v: JsValue, seen: set<Ref>) returns (p: seq<JsValue>)
    requires Serialize(heap, v, seen).Err?
    ensures Blames(heap, v, seen, Serialize(heap, v, seen).error, p)
    decreases |heap.Keys - seen|, 0, 0
  {
    p := [v];
    if v.JRef? && v.ref !in seen && v.ref in heap && !heap[v.ref].OtherNode? {
      Shrinks(heap, seen, v.ref);
      var q;
      match heap[v.ref] {
        case ArrayNode(items) => q := ItemsBlame(heap, items, seen + {v.ref});
        case PlainNode(fields) =>
          SortJsMembers(fields);
          q := FieldsBlame(heap, SortJs(fields), seen + {v.ref});
      }
      if q != [] {
        BlamePasses(heap, v, seen, Serialize(heap, v, seen).error, q);
        p := [v] + q;
      }
    }
  }

  lemma BlamePasses(heap: Heap, v: JsValue, seen: set<Ref>, code: ErrorCode, q: seq<JsValue>)
    requires v.JRef? && q != [] && Child(heap, v, q[0]) && Blames(heap, q[0], seen + {v.ref}, code, q)
    ensures Blames(heap, v, seen, code, [v] + q)
  {
    PrependPath(heap, v, q);
    var p := [v] + q;
    assert p[|p| - 1] == q[|q| - 1];
    if Returns(q) {
      var i, j :| 0 <= i < j < |q| && q[i].JRef? && q[i] == q[j];
      assert p[i + 1] == p[j + 1];
    } else if q[|q| - 1] == v {
      assert p[0] == p[|p| - 1];
    }
  }

  lemma {:induction false} ItemsBlame(heap: Heap, items: seq<JsValue>, seen: set<Ref>) returns (p: seq<JsValue>)
    requires SerializeItems(heap, items, seen).Err?
    ensures p != [] && p[0] in items && Blames(heap, p[0], seen, SerializeItems(heap, items, seen).error, p)
    decreases |heap.Keys - seen|, 1, |items|
  {
    if Serialize(heap, items[0], seen).Err? {
      p := ErrBlames(heap, items[0], seen);
    } else {
      p := ItemsBlame(heap, items[1..], seen);
    }
  }

  // The empty path stands for an ill-formed key of the object itself.
  lemma {:induction false} FieldsBlame(heap: Heap, fields: seq<JsField>, seen: set<Ref>) returns (p: seq<JsValue>)
    requires SerializeFields(heap, fields, seen).Err?
    ensures p == [] ==> SerializeFields(heap, fields, seen).error == LoneSurrogateCode
    ensures p == [] ==> exists f <- fields :: !WellFormed(f.key)
    ensures p != [] ==> exists f <- fields :: f.value == p[0]
    ensures p != [] ==> Blames(heap, p[0], seen, SerializeFields(heap, fields, seen).error, p)
    decreases |heap.Keys - seen|, 1, |fields|
  {
    assert fields[0] in fields;
    if !WellFormed(fields[0].key) {
      p := [];
    } else if SerializeField(heap, fields[0], seen).Err? {
      p := ErrBlames(heap, fields[0].value, seen);
    } else {
      p := FieldsBlame(heap, fields[1..], seen);
      assert fields == [fields[0]] + fields[1..];
    }
  }

  // ---- what prints unfolds ----

  ghost predicate HoleFree(heap: Heap, v: JsValue) {
    forall w :: Reaches(heap, v, w) ==> !w.JHole?
  }

  lemma HoleFreeInside(heap: Heap, v: JsValue, w: JsValue)
    requires HoleFree(heap, v) && Child(heap, v, w)
    ensures HoleFree(heap, w)
  {
    forall u | Reaches(heap, w, u) ensures !u.JHole? {
      var p :| IsPath(heap, p) && p[0] == w && p[|p| - 1] == u;
      PrependPath(heap, v, p);
      assert ([v] + p)[|p|] == u;
      assert Reaches(heap, v, u);
    }
  }

  ghost predicate FieldPrints(heap: Heap, f: JsField, seen: set<Ref>) {
    WellFormed(f.key) && HoleFree(heap, f.value) && Serialize(heap, f.value, seen).Ok?
  }

  lemma {:induction false} OkUnfolds(heap: Heap, v: JsValue, seen: set<Ref>) returns (t: Value)
    requires Serialize(heap, v, seen).Ok? && HoleFree(heap, v)
    ensures Unfolds(heap, v, t) && StringsOk(t)
    decreases |heap.Keys - seen|, 0, 0
  {
    assert IsPath(heap, [v]) && [v][0] == v;
    assert Reaches(heap, v, v);
    OkInside(heap, v, seen);
    match v {
      case JNull => t := Null;
      case JBool(b) => t := Bool(b);
      case JString(s) => t := Str(s);
      case JRef(r) =>
        Shrinks(heap, seen, r);
        match heap[r] {
          case ArrayNode(items) =>
            forall w <- items ensures HoleFree(heap, w) && Serialize(heap, w, seen + {r}).Ok? {
              HoleFreeInside(heap, v, w);
            }
            var ts := ItemsHaveTrees(heap, items, seen + {r});
            t := Arr(ts);
          case PlainNode(fields) =>
            forall i | 0 <= i < |fields| ensures FieldPrints(heap, fields[i], seen + {r}) {
              assert fields[i] in fields && Child(heap, v, fields[i].value);
              HoleFreeInside(heap, v, fields[i].value);
            }
            var fs := FieldsHaveTrees(heap, fields, seen + {r});
            t := Obj(fs);
        }
    }
  }

  lemma {:induction false} ItemsHaveTrees(heap: Heap, items: seq<JsValue>, seen: set<Ref>) returns (ts: seq<Value>)
    requires forall w <- items :: HoleFree(heap, w) && Serialize(heap, w, seen).Ok?
    ensures ItemsUnfold(heap, items, ts)
    ensures forall i :: 0 <= i < |ts| ==> StringsOk(ts[i])
    decreases |heap.Keys - seen|, 1, |items|
  {
    ts := [];
    if items != [] {
      assert items[0] in items;
      var first := OkUnfolds(heap, items[0], seen);
      var rest := ItemsHaveTrees(heap, items[1..], seen);
      ts := [first] + rest;
    }
  }

  lemma {:induction false} FieldsHaveTrees(heap: Heap, fields: seq<JsField>, seen: set<Ref>) returns (fs: seq<Field>)
    requires forall i :: 0 <= i < |fields| ==> FieldPrints(heap, fields[i], seen)
    ensures FieldsUnfold(heap, fields, fs)
    ensures forall i :: 0 <= i < |fs| ==> WellFormed(fs[i].key) && StringsOk(fs[i].value)
    decreases |heap.Keys - seen|, 1, |fields|
  {
    fs := [];
    if fields != [] {
      assert FieldPrints(heap, fields[0], seen);
      var first := OkUnfolds(heap, fields[0].value, seen);
      var rest := FieldsHaveTrees(heap, fields[1..], seen);
      fs := [Field(fields[0].key, first)] + rest;
    }
  }

  // ---- main results ----

  // What stops the serializer is a fault or a cycle.
  lemma ErrIsExplained(heap: Heap, v: JsValue)
    requires Serialize(heap, v, {}).Err?
    ensures var code := Serialize(heap, v, {}).error; HasFault(heap, v, code) || (code == Circular && HasCycle(heap, v))
    ensures !HasFault(heap, v, Circular)
  {
    var p := ErrBlames(heap, v, {});
    assert Reaches(heap, v, p[|p| - 1]);
  }

  // What prints has neither.
  lemma OkIsClean(heap: Heap, v: JsValue, code: ErrorCode)
    requires Serialize(heap, v, {}).Ok?
    ensures !HasCycle(heap, v) && !HasFault(heap, v, code)
  {
    if HasCycle(heap, v) {
      var p :| IsPath(heap, p) && p[0] == v && Returns(p);
      OkPath(heap, p, {});
    }
    if HasFault(heap, v, code) {
      var w :| Reaches(heap, v, w) && FaultOf(heap, w) == Some(code);
      var p :| IsPath(heap, p) && p[0] == v && p[|p| - 1] == w;
      OkPath(heap, p, {});
    }
  }

  // A graph prints exactly if it has no cycle and no fault; what stops it is one of those.
  lemma GraphOutcome(heap: Heap, v: JsValue)
    ensures Serialize(heap, v, {}).Ok? <==> !HasCycle(heap, v) && forall code :: !HasFault(heap, v, code)
    ensures HasCycle(heap, v) && (forall code :: !HasFault(heap, v, code)) ==> Serialize(heap, v, {}) == Err(Circular)
    ensures Serialize(heap, v, {}) == Err(Circular) ==> HasCycle(heap, v)
  {
    if Serialize(heap, v, {}).Err? {
      ErrIsExplained(heap, v);
    } else {
      forall code: ErrorCode ensures !HasCycle(heap, v) && !HasFault(heap, v, code) { OkIsClean(heap, v, code); }
      assert !HasCycle(heap, v) by { OkIsClean(heap, v, Circular); }
    }
  }

  // ---- which error is reported ----

  // Nothing below the value stops the serializer while the objects in `open` are being printed.
  ghost predicate Clean(heap: Heap, v: JsValue, open: set<Ref>) {
    forall p: seq<JsValue> :: IsPath(heap, p) && p[0] == v ==>
      FaultOf(heap, p[|p| - 1]).None? && !Returns(p) && !(p[|p| - 1].JRef? && p[|p| - 1].ref in open)
  }

  lemma CleanIff(heap: Heap, v: JsValue, open: set<Ref>)
    ensures Serialize(heap, v, open).Ok? <==> Clean(heap, v, open)
  {
    if Serialize(heap, v, open).Ok? {
      forall p: seq<JsValue> | IsPath(heap, p) && p[0] == v
        ensures FaultOf(heap, p[|p| - 1]).None? && !Returns(p) && !(p[|p| - 1].JRef? && p[|p| - 1].ref in open)
      {
        OkPath(heap, p, open);
      }
    } else {
      var p := ErrBlames(heap, v, open);
    }
  }

  // The members of an object in the order they are printed; an item of an array has no key.
  function Members(heap: Heap, r: Ref): seq<JsField>
    requires r in heap
  {
    match heap[r]
    case ArrayNode(items) => seq(|items|, i requires 0 <= i < |items| => JsField([], items[i]))
    case PlainNode(fields) => SortJs(fields)
    case OtherNode => []
  }

  // All members before the i-th print, and so does the i-th key unless it is what fails.
  ghost predicate UpTo(heap: Heap, r: Ref, open: set<Ref>, i: nat, keyFails: bool)
    requires r in heap
  {
    && i < |Members(heap, r)| && (WellFormed(Members(heap, r)[i].key) <==> !keyFails)
    && forall j :: 0 <= j < i ==> WellFormed(Members(heap, r)[j].key) && Clean(heap, Members(heap, r)[j].value, open)
  }

  // The value itself stops the serializer, with everything that is printed before it printing.
  ghost predicate Stops(heap: Heap, v: JsValue, open: set<Ref>, code: ErrorCode) {
    if v.JRef? && v.ref in open then code == Circular
    else if v.JRef? && v.ref in heap && !heap[v.ref].OtherNode? then
      code == LoneSurrogateCode && exists i: nat :: UpTo(heap, v.ref, open + {v.ref}, i, true)
    else FaultOf(heap, v) == Some(code)
  }

  // The path leads to the first problem in the order of printing, a cycle or a fault.
  ghost predicate First(heap: Heap, p: seq<JsValue>, open: set<Ref>, code: ErrorCode)
    decreases |p|
  {
    p != [] &&
    if |p| == 1 then Stops(heap, p[0], open, code)
    else
      && p[0].JRef? && p[0].ref in heap && p[0].ref !in open
      && (exists i: nat ::
            UpTo(heap, p[0].ref, open + {p[0].ref}, i, false) && Members(heap, p[0].ref)[i].value == p[1])
      && First(heap, p[1..], open + {p[0].ref}, code)
  }

  ghost function MemberOutcome(heap: Heap, f: JsField, open: set<Ref>): Outcome {
    if WellFormed(f.key) then Serialize(heap, f.value, open) else Err(LoneSurrogateCode)
  }

  // The first member that fails decides.
  lemma {:induction false} ItemsFail(heap: Heap, items: seq<JsValue>, open: set<Ref>, i: nat)
    requires i < |items| && Serialize(heap, items[i], open).Err?
    requires forall j :: 0 <= j < i ==> Serialize(heap, items[j], open).Ok?
    ensures SerializeItems(heap, items, open) == Serialize(heap, items[i], open)
    decreases i
  {
    if i > 0 { ItemsFail(heap, items[1..], open, i - 1); }
  }

  lemma {:induction false} FieldsFail(heap: Heap, fields: seq<JsField>, open: set<Ref>, i: nat)
    requires i < |fields| && MemberOutcome(heap, fields[i], open).Err?
    requires forall j :: 0 <= j < i ==> MemberOutcome(heap, fields[j], open).Ok?
    ensures SerializeFields(heap, fields, open) == MemberOutcome(heap, fields[i], open)
    decreases i
  {
    if i > 0 {
      assert MemberOutcome(heap, fields[0], open).Ok?;
      FieldsFail(heap, fields[1..], open, i - 1);
    }
  }

  lemma MembersFail(heap: Heap, r: Ref, open: set<Ref>, i: nat)
    requires r in heap && r !in open && i < |Members(heap, r)|
    requires MemberOutcome(heap, Members(heap, r)[i], open + {r}).Err?
    requires forall j :: 0 <= j < i ==> MemberOutcome(heap, Members(heap, r)[j], open + {r}).Ok?
    ensures Serialize(heap, JRef(r), open) == MemberOutcome(heap, Members(heap, r)[i], open + {r})
  {
    match heap[r]
    case ArrayNode(items) =>
      forall j | 0 <= j <= i
        ensures MemberOutcome(heap, Members(heap, r)[j], open + {r}) == Serialize(heap, items[j], open + {r})
      {
      }
      ItemsFail(heap, items, open + {r}, i);
    case PlainNode(fields) => FieldsFail(heap, SortJs(fields), open + {r}, i);
  }

  lemma UpToOk(heap: Heap, r: Ref, open: set<Ref>, i: nat, keyFails: bool)
    requires r in heap && UpTo(heap, r, open, i, keyFails)
    ensures forall j :: 0 <= j < i ==> MemberOutcome(heap, Members(heap, r)[j], open).Ok?
  {
    forall j | 0 <= j < i ensures MemberOutcome(heap, Members(heap, r)[j], open).Ok? {
      CleanIff(heap, Members(heap, r)[j].value, open);
    }
  }

  lemma StopsReports(heap: Heap, v: JsValue, open: set<Ref>, code: ErrorCode)
    requires Stops(heap, v, open, code)
    ensures Serialize(heap, v, open) == Err(code)
  {
    if v.JRef? && v.ref !in open && v.ref in heap && !heap[v.ref].OtherNode? {
      var i: nat :| UpTo(heap, v.ref, open + {v.ref}, i, true);
      UpToOk(heap, v.ref, open + {v.ref}, i, true);
      MembersFail(heap, v.ref, open, i);
    }
  }

  lemma {:induction false} FirstReports(heap: Heap, p: seq<JsValue>, open: set<Ref>, code: ErrorCode)
    requires First(heap, p, open, code)
    ensures Serialize(heap, p[0], open) == Err(code)
    decreases |p|
  {
    if |p| == 1 {
      StopsReports(heap, p[0], open, code);
    } else {
      var r := p[0].ref;
      FirstReports(heap, p[1..], open + {r}, code);
      var i: nat :| UpTo(heap, r, open + {r}, i, false) && Members(heap, r)[i].value == p[1];
      UpToOk(heap, r, open + {r}, i, false);
      MembersFail(heap, r, open, i);
    }
  }

  // The first member whose outcome is an error.
  lemma {:induction false} FirstFailing(heap: Heap, members: seq<JsField>, open: set<Ref>) returns (i: nat)
    requires exists k :: 0 <= k < |members| && MemberOutcome(heap, members[k], open).Err?
    ensures i < |members| && MemberOutcome(heap, members[i], open).Err?
    ensures forall j :: 0 <= j < i ==> MemberOutcome(heap, members[j], open).Ok?
    decreases |members|
  {
    if MemberOutcome(heap, members[0], open).Err? {
      i := 0;
    } else {
      var k :| 0 <= k < |members| && MemberOutcome(heap, members[k], open).Err?;
      assert members[1..][k - 1] == members[k];
      var rest := FirstFailing(heap, members[1..], open);
      i := rest + 1;
      forall j | 0 <= j < i ensures MemberOutcome(heap, members[j], open).Ok? {
        if j > 0 { assert members[1..][j - 1] == members[j]; }
      }
    }
  }

  lemma {:induction false} ItemsAllOk(heap: Heap, items: seq<JsValue>, open: set<Ref>)
    requires forall j :: 0 <= j < |items| ==> Serialize(heap, items[j], open).Ok?
    ensures SerializeItems(heap, items, open).Ok?
    decreases |items|
  {
    if items != [] { ItemsAllOk(heap, items[1..], open); }
  }

  lemma {:induction false} FieldsAllOk(heap: Heap, fields: seq<JsField>, open: set<Ref>)
    requires forall j :: 0 <= j < |fields| ==> MemberOutcome(heap, fields[j], open).Ok?
    ensures SerializeFields(heap, fields, open).Ok?
    decreases |fields|
  {
    if fields != [] {
      assert MemberOutcome(heap, fields[0], open).Ok?;
      FieldsAllOk(heap, fields[1..], open);
    }
  }

  lemma SomeMemberFails(heap: Heap, r: Ref, open: set<Ref>)
    requires r in heap && r !in open && !heap[r].OtherNode? && Serialize(heap, JRef(r), open).Err?
    ensures exists k :: 0 <= k < |Members(heap, r)| && MemberOutcome(heap, Members(heap, r)[k], open + {r}).Err?
  {
    var members := Members(heap, r);
    if forall k :: 0 <= k < |members| ==> MemberOutcome(heap, members[k], open + {r}).Ok? {
      match heap[r] {
        case ArrayNode(items) =>
          forall j | 0 <= j < |items| ensures Serialize(heap, items[j], open + {r}).Ok? {
            assert MemberOutcome(heap, members[j], open + {r}).Ok?;
          }
          ItemsAllOk(heap, items, open + {r});
        case PlainNode(fields) => FieldsAllOk(heap, SortJs(fields), open + {r});
      }
    }
  }

  lemma {:induction false} ReportsFirst(heap: Heap, v: JsValue, open: set<Ref>) returns (p: seq<JsValue>)
    requires Serialize(heap, v, open).Err?
    ensures p != [] && p[0] == v && First(heap, p, open, Serialize(heap, v, open).error)
    decreases |heap.Keys - open|
  {
    p := [v];
    if v.JRef? && v.ref !in open && v.ref in heap && !heap[v.ref].OtherNode? {
      var r := v.ref;
      Shrinks(heap, open, r);
      SomeMemberFails(heap, r, open);
      var i := FirstFailing(heap, Members(heap, r), open + {r});
      MembersFail(heap, r, open, i);
      forall j | 0 <= j < i
        ensures WellFormed(Members(heap, r)[j].key) && Clean(heap, Members(heap, r)[j].value, open + {r})
      {
        assert MemberOutcome(heap, Members(heap, r)[j], open + {r}).Ok?;
        CleanIff(heap, Members(heap, r)[j].value, open + {r});
      }
      if WellFormed(Members(heap, r)[i].key) {
        var q := ReportsFirst(heap, Members(heap, r)[i].value, open + {r});
        p := [v] + q;
        assert p[1..] == q && UpTo(heap, r, open + {r}, i, false);
      } else {
        assert UpTo(heap, r, open + {r}, i, true);
      }
    }
  }

  // The error reported is that of the first problem in the order of printing, cycle or fault.
  lemma FirstProblemIsReported(heap: Heap, v: JsValue, code: ErrorCode)
    ensures Serialize(heap, v, {}) == Err(code) <==> exists p :: p != [] && p[0] == v && First(heap, p, {}, code)
  {
    if Serialize(heap, v, {}) == Err(code) { var p := ReportsFirst(heap, v, {}); }
    if p :| p != [] && p[0] == v && First(heap, p, {}, code) { FirstReports(heap, p, {}, code); }
  }

  // Without holes, what prints is the canonical form of the tree the graph unfolds to.
  lemma PrintsItsTree(heap: Heap, v: JsValue, out: Text)
    requires HoleFree(heap, v)
    ensures Serialize(heap, v, {}) == Ok(out)
      <==> exists t :: Unfolds(heap, v, t) && StringsOk(t) && out == Canonical(t)
  {
    if Serialize(heap, v, {}) == Ok(out) {
      var t := OkUnfolds(heap, v, {});
      UnfoldedPrints(heap, v, t, {}, Size(t));
    }
    if t :| Unfolds(heap, v, t) && StringsOk(t) && out == Canonical(t) {
      UnfoldedPrints(heap, v, t, {}, Size(t));
    }
  }

  // What unfolds to a tree has no hole anywhere.
  lemma {:induction false} UnfoldsPath(heap: Heap, p: seq<JsValue>, t: Value)
    requires IsPath(heap, p) && Unfolds(heap, p[0], t)
    ensures !p[|p| - 1].JHole?
    decreases |p|
  {
    if |p| > 1 {
      assert Child(heap, p[0], p[1]);
      var rest := p[1..];
      forall i | 0 <= i < |rest| - 1 ensures Child(heap, rest[i], rest[i + 1]) {
        assert Child(heap, p[i + 1], p[i + 1 + 1]);
      }
      var u := ChildUnfolds(heap, p[0], p[1], t);
      UnfoldsPath(heap, rest, u);
    }
  }

  lemma ChildUnfolds(heap: Heap, v: JsValue, w: JsValue, t: Value) returns (u: Value)
    requires Unfolds(heap, v, t) && Child(heap, v, w)
    ensures Unfolds(heap, w, u)
  {
    match t {
      case Arr(items) =>
        var i :| 0 <= i < |items| && heap[v.ref].items[i] == w;
        u := items[i];
      case Obj(fields) =>
        var f :| f in heap[v.ref].fields && f.value == w;
        var i :| 0 <= i < |fields| && heap[v.ref].fields[i] == f;
        u := fields[i].value;
    }
  }

  // What prints is the canonical text of a tree the graph unfolds to exactly if no hole is reachable.
  lemma PrintsATreeExactly(heap: Heap, v: JsValue, out: Text)
    requires Serialize(heap, v, {}) == Ok(out)
    ensures (exists t :: Unfolds(heap, v, t) && out == Canonical(t)) <==> HoleFree(heap, v)
  {
    if t :| Unfolds(heap, v, t) && out == Canonical(t) {
      forall w | Reaches(heap, v, w) ensures !w.JHole? {
        var p :| IsPath(heap, p) && p[0] == v && p[|p| - 1] == w;
        UnfoldsPath(heap, p, t);
      }
    }
    if HoleFree(heap, v) {
      var t := OkUnfolds(heap, v, {});
      UnfoldedPrints(heap, v, t, {}, Size(t));
    }
  }

  // A hole prints nothing: one prints like an empty array, and two print a comma, which is the text of no value.
  lemma HolesPrintNothing(heap: Heap)
    requires 0 in heap && 1 in heap && heap[0] == ArrayNode([JHole]) && heap[1] == ArrayNode([JHole, JHole])
    ensures Serialize(heap, JRef(0), {}) == Ok(Canonical(Arr([])))
    ensures Serialize(heap, JRef(1), {}) == Ok([LBRACKET, COMMA, RBRACKET])
    ensures forall t :: Canonical(t) != [LBRACKET, COMMA, RBRACKET]
  {
    var nothing: Text := [];
    assert {} + {0} == {0} && {} + {1} == {1};
    HoleItems(heap, {0});
    HoleItems(heap, {1});
    assert [LBRACKET] + nothing + [RBRACKET] == [LBRACKET, RBRACKET];
    assert [LBRACKET] + [COMMA] + [RBRACKET] == [LBRACKET, COMMA, RBRACKET];
    forall t ensures Canonical(t) != [LBRACKET, COMMA, RBRACKET] { CommaIsNoValue(t); }
  }

  lemma HoleItems(heap: Heap, seen: set<Ref>)
    ensures SerializeItems(heap, [JHole], seen) == Ok([])
    ensures SerializeItems(heap, [JHole, JHole], seen) == Ok([COMMA])
  {
    var nothing: Text := [];
    assert [JHole][1..] == [] && [JHole, JHole][1..] == [JHole];
    assert SerializeItems(heap, [], seen) == Ok(nothing);
    assert SerializeItems(heap, [JHole], seen) == Ok(nothing);
    assert nothing + [COMMA] + nothing == [COMMA];
  }

  lemma CommaIsNoValue(t: Value)
    ensures Canonical(t) != [LBRACKET, COMMA, RBRACKET]
  {
    CanonicalRoundTrip(t);
    var s: Text := [LBRACKET, COMMA, RBRACKET];
    assert s[1..] == [COMMA, RBRACKET];
    assert ParseValue([COMMA, RBRACKET]).None?;
    assert ParseItems([COMMA, RBRACKET]).None?;
    assert ParseValue(s).None?;
  }

  // canonicalize: a fresh set for each call.
  method Canonicalize(heap: Heap, v: JsValue) returns (r: Outcome)
    requires ValidHeap(heap) && InHeap(heap, v)
    ensures r == Serialize(heap, v, {})
    ensures r.Ok? <==> !HasCycle(heap, v) && forall code :: !HasFault(heap, v, code)
    ensures r.Ok? && HoleFree(heap, v) ==> exists t :: Unfolds(heap, v, t) && StringsOk(t) && r.value == Canonical(t)
  {
    var serializer := new Serializer(heap);
    r := serializer.SerializeValue(v);
    GraphOutcome(heap, v);
    if r.Ok? && HoleFree(heap, v) { PrintsItsTree(heap, v, r.value); }
  }
}
