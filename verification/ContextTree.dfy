/** The shared context: a JSON tree, its merge with a patch, and which leaves a patch changes.
    Models xair/core/deep_merge.py and the tree half of xair/core/versioning.py. */
module ContextTree {
  import opened Wrappers

  type Key = string

  /** A path is the sequence of its segments; module DottedPaths relates it to the dotted string. */
  type Path = seq<Key>

  /** A JSON value. Integers and floats are kept apart because Python does, although both are numbers. */
  datatype Value =
    | Null
    | Bool(b: bool)
    | Int(n: int)
    | Float(r: real)
    | Str(s: string)
    | Arr(items: seq<Value>)
    | Obj(fields: map<Key, Value>)

  /** A context document or a patch: always an object. */
  type Tree = v: Value | v.Obj? witness Obj(map[])

  const EMPTY: Tree := Obj(map[])

  // ---------------------------------------------------------------- reading

  /** The value stored at a path, if every segment of it exists. */
  function Look(v: Value, p: Path): Option<Value> {
    if p == [] then Some(v)
    else if v.Obj? && p[0] in v.fields then Look(v.fields[p[0]], p[1..])
    else None
  }

  function LookIn(v: Option<Value>, p: Path): Option<Value> {
    if v.Some? then Look(v.value, p) else None
  }

  /** The reader's loop: walk down one segment at a time, stopping at the first one that is missing. */
  method GetPath(context: Tree, p: Path) returns (r: Option<Value>)
    ensures r == Look(context, p)
  {
    var node: Value := context;
    var i := 0;
    while i < |p|
      invariant 0 <= i <= |p|
      invariant Look(context, p) == Look(node, p[i..])
    {
      if !node.Obj? || p[i] !in node.fields {
        return None;
      }
      assert p[i..][1..] == p[i + 1..];
      node := node.fields[p[i]];
      i := i + 1;
    }
    return Some(node);
  }

  // ---------------------------------------------------------------- merging

  /** Recursive merge; the patch wins wherever the two sides are not both objects. */
  function Merge(base: Value, patch: Value): (m: Value)
    ensures patch.Obj? ==> m.Obj?
    decreases patch
  {
    if base.Obj? && patch.Obj? then
      Obj(map k | k in base.fields.Keys + patch.fields.Keys ::
        if k !in patch.fields then base.fields[k]
        else if k in base.fields then Merge(base.fields[k], patch.fields[k])
        else patch.fields[k])
    else patch
  }

  function MergeIn(base: Option<Value>, patch: Value): Value {
    if base.Some? then Merge(base.value, patch) else patch
  }

  /** The merge as it is computed: a copy of the base, updated key by key. */
  method DeepMerge(base: Tree, patch: Tree) returns (out: Tree)
    ensures out == Merge(base, patch)
    decreases patch
  {
    var fields := base.fields;
    var todo := patch.fields.Keys;
    ghost var whole := Merge(base, patch).fields;
    while todo != {}
      invariant todo <= patch.fields.Keys
      invariant fields.Keys == base.fields.Keys + (patch.fields.Keys - todo)
      invariant forall k :: k in fields && k !in todo ==> fields[k] == whole[k]
      invariant forall k :: k in todo && k in fields ==> k in base.fields && fields[k] == base.fields[k]
      decreases todo
    {
      var key :| key in todo;
      var val := patch.fields[key];
      assert key in whole && whole[key] == if key in base.fields then Merge(base.fields[key], val) else val;
      if key in fields && fields[key].Obj? && val.Obj? {
        var sub := DeepMerge(fields[key], val);
        fields := fields[key := sub];
      } else {
        fields := fields[key := val];
      }
      todo := todo - {key};
    }
    assert fields == whole;
    out := Obj(fields);
  }

  // ---------------------------------------------------------------- changes

  /** A leaf of a patch: anything but a non-empty object. */
  predicate IsLeaf(v: Value, p: Path) {
    if p == [] then !(v.Obj? && v.fields != map[])
    else v.Obj? && p[0] in v.fields && IsLeaf(v.fields[p[0]], p[1..])
  }

  /** The paths of the leaves of a patch. */
  function Leaves(v: Value): (ps: set<Path>)
    ensures forall p :: p in ps <==> IsLeaf(v, p)
  {
    if v.Obj? && v.fields != map[] then
      var ps := set k, q | k in v.fields && q in Leaves(v.fields[k]) :: [k] + q;
      assert forall p :: p in ps <==> IsLeaf(v, p) by {
        forall p ensures p in ps <==> IsLeaf(v, p) {
          if IsLeaf(v, p) {
            assert p == [p[0]] + p[1..];
          }
          if p in ps {
            var k, q :| k in v.fields && q in Leaves(v.fields[k]) && p == [k] + q;
            assert p[1..] == q;
          }
        }
      }
      ps
    else {[]}
  }

  /** Python's == on JSON values: numbers and booleans compare by value, also inside containers. */
  predicate PyEq(a: Value, b: Value) {
    if a.Arr? && b.Arr? then |a.items| == |b.items| && forall i | 0 <= i < |a.items| :: PyEq(a.items[i], b.items[i])
    else if a.Obj? && b.Obj? then a.fields.Keys == b.fields.Keys && forall k | k in a.fields :: PyEq(a.fields[k], b.fields[k])
    else if Numeric(a) && Numeric(b) then NumericValue(a) == NumericValue(b)
    else a == b
  }

  predicate Numeric(v: Value) { v.Bool? || v.Int? || v.Float? }

  function NumericValue(v: Value): real
    requires Numeric(v)
  {
    match v
    case Bool(b) => if b then 1.0 else 0.0
    case Int(n) => n as real
    case Float(r) => r
  }

  /** Numbers as the evaluator understands them: a Boolean is not a number. */
  predicate IsNumber(v: Value) { v.Int? || v.Float? }

  predicate SameType(a: Value, b: Value) {
    && a.Null? == b.Null? && a.Bool? == b.Bool? && a.Int? == b.Int? && a.Float? == b.Float?
    && a.Str? == b.Str? && a.Arr? == b.Arr? && a.Obj? == b.Obj?
  }

  /** Equality as the strictly typed evaluator sees it. */
  predicate SameValue(a: Value, b: Value) {
    if a.Bool? || b.Bool? then SameType(a, b) && PyEq(a, b)
    else if IsNumber(a) && IsNumber(b) then PyEq(a, b)
    else SameType(a, b) && PyEq(a, b)
  }

  /** Whether writing the leaf `v` over what the context holds now counts as a value change. */
  predicate Differs(cur: Option<Value>, v: Value) {
    if v == EMPTY && cur.Some? && cur.value.Obj? then false
    else cur.None? || !SameValue(cur.value, v)
  }

  predicate ChangedAt(base: Option<Value>, patch: Value, p: Path) {
    IsLeaf(patch, p) && Look(patch, p).Some? && Differs(LookIn(base, p), Look(patch, p).value)
  }

  ghost predicate IsChangeSet(ps: set<Path>, ctx: Tree, patch: Tree) {
    forall p :: p in ps <==> ChangedAt(Some(ctx), patch, p)
  }

  lemma ChangeSetExists(ctx: Tree, patch: Tree)
    ensures exists ps :: IsChangeSet(ps, ctx, patch)
  {
    var ps := set p | p in Leaves(patch) && ChangedAt(Some(ctx), patch, p);
    assert IsChangeSet(ps, ctx, patch);
  }

  /** The leaf paths of a patch whose value it changes. */
  ghost function ChangedPaths(ctx: Tree, patch: Tree): (ps: set<Path>)
    ensures forall p :: p in ps <==> ChangedAt(Some(ctx), patch, p)
  {
    ChangeSetExists(ctx, patch);
    var ps :| IsChangeSet(ps, ctx, patch);
    ps
  }

  /** The change detector's loop over the leaves of the patch. */
  method ComputeChangedPaths(ctx: Tree, patch: Tree) returns (out: set<Path>)
    ensures out == ChangedPaths(ctx, patch)
  {
    out := {};
    var todo := Leaves(patch);
    while todo != {}
      invariant todo <= Leaves(patch)
      invariant forall p :: p in out <==> p in Leaves(patch) - todo && ChangedAt(Some(ctx), patch, p)
      decreases todo
    {
      var p :| p in todo;
      LeafLook(patch, p);
      var v := Look(patch, p).value;
      var cur := GetPath(ctx, p);
      if v == EMPTY && cur.Some? && cur.value.Obj? {
        // there is nothing in it to merge
      } else if cur.None? || !SameValue(cur.value, v) {
        out := out + {p};
      }
      todo := todo - {p};
    }
  }

  lemma {:induction false} LeafLook(v: Value, p: Path)
    requires IsLeaf(v, p)
    ensures Look(v, p).Some?
    decreases |p|
  {
    if p != [] {
      LeafLook(v.fields[p[0]], p[1..]);
    }
  }

  /** Every value has a leaf at or below it. */
  lemma {:induction false} HasLeaf(v: Value) returns (p: Path)
    ensures IsLeaf(v, p)
    ensures v.Obj? && v.fields != map[] ==> p != []
    decreases v
  {
    if v.Obj? && v.fields != map[] {
      var k :| k in v.fields;
      var q := HasLeaf(v.fields[k]);
      p := [k] + q;
      assert p[1..] == q;
    } else {
      p := [];
    }
  }

  // ---------------------------------------------------------------- relatedness and the frame

  /** Equal, ancestor or descendant. The empty path stands for "reads nothing" and is related to nothing. */
  predicate Related(a: Path, b: Path) {
    a != [] && b != [] && (a <= b || b <= a)
  }

  /** Some path of `changed` is related to `p`. */
  predicate Touches(changed: set<Path>, p: Path) {
    exists q {:trigger Related(q, p)} :: q in changed && Related(q, p)
  }

  /** Two lookups no predicate can tell apart. */
  predicate SameSight(a: Option<Value>, b: Option<Value>) {
    match (a, b)
    case (None, None) => true
    case (Some(x), Some(y)) => (x.Obj? && y.Obj?) || SameValue(x, y)
    case _ => false
  }

  lemma {:induction false} PyEqReflexive(v: Value)
    ensures PyEq(v, v)
    decreases v
  {
    match v
    case Arr(x) =>
      forall i | 0 <= i < |x| ensures PyEq(x[i], x[i]) { PyEqReflexive(x[i]); }
    case Obj(x) =>
      forall k | k in x ensures PyEq(x[k], x[k]) { PyEqReflexive(x[k]); }
    case _ =>
  }

  lemma SameSightReflexive(v: Option<Value>)
    ensures SameSight(v, v)
  {
    if v.Some? {
      PyEqReflexive(v.value);
    }
  }

  /** The frame property below one node: a path that no changed leaf is above, at or below
      looks the same before and after the merge. */
  lemma {:induction false} FrameAt(base: Option<Value>, patch: Value, p: Path)
    requires forall q :: ChangedAt(base, patch, q) ==> !(p <= q) && !(q <= p)
    ensures SameSight(LookIn(base, p), Look(MergeIn(base, patch), p))
    decreases |p|
  {
    SameSightReflexive(LookIn(base, p));
    if !patch.Obj? || patch.fields == map[] {
      assert IsLeaf(patch, []) && [] <= p;
      assert !ChangedAt(base, patch, []);
      if base.Some? && base.value.Obj? && patch.Obj? {
        assert Merge(base.value, patch).fields == base.value.fields;
      }
    } else if base.None? || !base.value.Obj? {
      if p == [] {
        var q := HasLeaf(patch);
        LeafLook(patch, q);
        assert ChangedAt(base, patch, q);
      } else if p[0] in patch.fields {
        FrameBelow(None, base, patch, p);
      }
    } else if p != [] && p[0] in patch.fields {
      var sub := if p[0] in base.value.fields then Some(base.value.fields[p[0]]) else None;
      FrameBelow(sub, base, patch, p);
    }
  }

  lemma {:induction false} FrameBelow(sub: Option<Value>, base: Option<Value>, patch: Value, p: Path)
    requires p != [] && patch.Obj? && p[0] in patch.fields
    requires forall q :: q != [] && q[0] == p[0] ==> LookIn(base, q) == LookIn(sub, q[1..])
    requires forall q :: ChangedAt(base, patch, q) ==> !(p <= q) && !(q <= p)
    ensures SameSight(LookIn(sub, p[1..]), Look(MergeIn(sub, patch.fields[p[0]]), p[1..]))
    decreases |p|, 0
  {
    var k := p[0];
    forall q | ChangedAt(sub, patch.fields[k], q)
      ensures !(p[1..] <= q) && !(q <= p[1..])
    {
      var kq := [k] + q;
      assert kq[1..] == q;
      assert ChangedAt(base, patch, kq);
      assert p == [k] + p[1..];
    }
    FrameAt(sub, patch.fields[k], p[1..]);
  }

  /** Frame: a path related to no changed path looks the same to every predicate after the merge. */
  lemma Frame(ctx: Tree, patch: Tree, p: Path)
    requires p != []
    requires !Touches(ChangedPaths(ctx, patch), p)
    ensures SameSight(Look(ctx, p), Look(Merge(ctx, patch), p))
  {
    forall q | ChangedAt(Some(ctx), patch, q)
      ensures !(p <= q) && !(q <= p)
    {
      assert q in ChangedPaths(ctx, patch) && !Related(q, p);
    }
    FrameAt(Some(ctx), patch, p);
  }

  /** What a merge leaves at a leaf of the patch: the patch's value, or the object an empty object met. */
  lemma {:induction false} LeafAfterMerge(base: Option<Value>, patch: Value, p: Path)
    requires IsLeaf(patch, p) && Look(patch, p).Some?
    ensures var v := Look(patch, p).value;
            var w := Look(MergeIn(base, patch), p);
            if v == EMPTY then w.Some? && w.value.Obj? else w == Some(v)
    decreases |p|
  {
    if p != [] {
      var k := p[0];
      var sub := if base.Some? && base.value.Obj? && k in base.value.fields then Some(base.value.fields[k]) else None;
      LeafAfterMerge(sub, patch.fields[k], p[1..]);
    }
  }

  /** A rewrite with the same values is no change: applying a patch twice changes nothing the second time. */
  lemma RewriteChangesNothing(ctx: Tree, patch: Tree)
    ensures ChangedPaths(Merge(ctx, patch), patch) == {}
  {
    forall p | p in Leaves(patch)
      ensures !ChangedAt(Some(Merge(ctx, patch)), patch, p)
    {
      LeafLook(patch, p);
      LeafAfterMerge(Some(ctx), patch, p);
      PyEqReflexive(Look(patch, p).value);
    }
  }

  /** Every reported change is one: what the path held before and what it holds after differ. */
  lemma ChangedIsReal(ctx: Tree, patch: Tree, p: Path)
    requires p in ChangedPaths(ctx, patch)
    ensures !SameSight(Look(ctx, p), Look(Merge(ctx, patch), p))
  {
  }

  // ---------------------------------------------------------------- what counts as a change

  /** What is left of a value when numbers, and inside containers Booleans too, are taken for the real they
      count as: the reference the equality below is measured against. */
  datatype Plain = PNull | PNumber(r: real) | PStr(s: string) | PArr(items: seq<Plain>) | PObj(fields: map<Key, Plain>)

  function Plainly(v: Value): Plain {
    match v
    case Null => PNull
    case Bool(b) => PNumber(if b then 1.0 else 0.0)
    case Int(n) => PNumber(n as real)
    case Float(r) => PNumber(r)
    case Str(s) => PStr(s)
    case Arr(items) => PArr(seq(|items|, i requires 0 <= i < |items| => Plainly(items[i])))
    case Obj(fields) => PObj(map k | k in fields :: Plainly(fields[k]))
  }

  /** Python's equality identifies exactly the values that are plainly the same. */
  lemma {:induction false} PyEqIsPlain(a: Value, b: Value)
    ensures PyEq(a, b) <==> Plainly(a) == Plainly(b)
    decreases a
  {
    if a.Arr? && b.Arr? {
      ItemsArePlain(a, b);
    } else if a.Obj? && b.Obj? {
      FieldsArePlain(a, b);
    }
  }

  lemma {:induction false} ItemsArePlain(a: Value, b: Value)
    requires a.Arr? && b.Arr?
    ensures PyEq(a, b) <==> Plainly(a) == Plainly(b)
    decreases a, 0
  {
    var x, y := Plainly(a).items, Plainly(b).items;
    forall i | 0 <= i < |x| && i < |y| ensures PyEq(a.items[i], b.items[i]) <==> x[i] == y[i] {
      PyEqIsPlain(a.items[i], b.items[i]);
    }
    if PyEq(a, b) {
      assert x == y;
    } else if |x| == |y| {
      var i :| 0 <= i < |x| && !PyEq(a.items[i], b.items[i]);
      assert x[i] != y[i];
    }
  }

  lemma {:induction false} FieldsArePlain(a: Value, b: Value)
    requires a.Obj? && b.Obj?
    ensures PyEq(a, b) <==> Plainly(a) == Plainly(b)
    decreases a, 0
  {
    var x, y := Plainly(a).fields, Plainly(b).fields;
    assert x.Keys == a.fields.Keys && y.Keys == b.fields.Keys;
    forall k | k in x && k in y ensures PyEq(a.fields[k], b.fields[k]) <==> x[k] == y[k] {
      PyEqIsPlain(a.fields[k], b.fields[k]);
    }
    if PyEq(a, b) {
      assert x == y;
    } else if x.Keys == y.Keys {
      var k :| k in x && !PyEq(a.fields[k], b.fields[k]);
      assert x[k] != y[k];
    }
  }

  /** The kinds a value can have for the evaluator: integers and floats are one kind, Booleans another. */
  datatype Kind = NullKind | BoolKind | NumberKind | StrKind | ArrKind | ObjKind

  function KindOf(v: Value): Kind {
    match v
    case Null => NullKind
    case Bool(_) => BoolKind
    case Int(_) => NumberKind
    case Float(_) => NumberKind
    case Str(_) => StrKind
    case Arr(_) => ArrKind
    case Obj(_) => ObjKind
  }

  /** Exactly what is reported as a change: a leaf of the patch whose path held nothing before, a value of
      another kind, or a plainly different one. So writing 1.0 over 1 is none, writing true over 1 is one. An
      empty object is a change unless it meets an object. */
  lemma ChangedMeans(ctx: Tree, patch: Tree, p: Path)
    ensures p in ChangedPaths(ctx, patch) <==>
              && IsLeaf(patch, p) && Look(patch, p).Some?
              && var was, v := Look(ctx, p), Look(patch, p).value;
                 || was.None?
                 || KindOf(was.value) != KindOf(v)
                 || (!v.Obj? && Plainly(was.value) != Plainly(v))
  {
    if IsLeaf(patch, p) {
      LeafLook(patch, p);
      LeafIsFlat(patch, p);
      if Look(ctx, p).Some? {
        PyEqIsPlain(Look(ctx, p).value, Look(patch, p).value);
      }
    }
  }

  lemma {:induction false} LeafIsFlat(v: Value, p: Path)
    requires IsLeaf(v, p) && Look(v, p).Some?
    ensures Look(v, p).value.Obj? ==> Look(v, p).value == EMPTY
    decreases |p|
  {
    if p != [] {
      LeafIsFlat(v.fields[p[0]], p[1..]);
    }
  }

  /** The same for the scalars, spelled out. */
  lemma ScalarChange(ctx: Tree, patch: Tree, p: Path)
    requires IsLeaf(patch, p) && Look(patch, p).Some? && Look(ctx, p).Some?
    ensures var was, v := Look(ctx, p).value, Look(patch, p).value;
            && (forall m, n :: was == Int(m) && v == Int(n) ==> (p in ChangedPaths(ctx, patch) <==> m != n))
            && (forall m, r :: (was == Int(m) && v == Float(r)) || (was == Float(r) && v == Int(m)) ==>
                  (p in ChangedPaths(ctx, patch) <==> m as real != r))
            && (forall q, r :: was == Float(q) && v == Float(r) ==> (p in ChangedPaths(ctx, patch) <==> q != r))
            && (forall a, b :: was == Bool(a) && v == Bool(b) ==> (p in ChangedPaths(ctx, patch) <==> a != b))
            && (forall s, t :: was == Str(s) && v == Str(t) ==> (p in ChangedPaths(ctx, patch) <==> s != t))
            && (was.Bool? != v.Bool? ==> p in ChangedPaths(ctx, patch))
  {
    ChangedMeans(ctx, patch, p);
  }
}
