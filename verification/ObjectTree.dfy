/**
 Kubernetes objects as mutable trees of Go maps and slices, and the pruning deep copy of
 internal/render/diff.go: deepCopyMap, deepCopyValue and stripServerSideNoise.
 */
module ObjectTree {
  import opened Wrappers

  datatype Atom = Null | Bool(b: bool) | Int(i: int) | Float(r: real) | Str(s: string)

  /** A value of Go's `interface{}`: a scalar, a map reference or a slice, the last two possibly nil. */
  datatype Value = Scalar(atom: Atom) | MapVal(node: MapNode?) | ListVal(items: array?<Value>)

  class MapNode {
    var entries: map<string, Value>

    constructor ()
      ensures entries == map[]
    {
      entries := map[];
    }
  }

  /** What a tree says, without its object identities. */
  datatype Json =
    | JAtom(atom: Atom)
    | JNilMap
    | JMap(fields: map<string, Json>)
    | JNilList
    | JList(items: seq<Json>)

  // ---------- trees in the heap ----------

  /**
   A finite unfolding of a heap value that remembers which objects it goes through:
   `objects` are all the maps and slices at or below the node.
   */
  datatype Shape =
    | SAtom(atom: Atom)
    | SNilMap
    | SMap(node: MapNode, kids: map<string, Shape>, objects: set<object>)
    | SNilList
    | SList(cells: array<Value>, elems: seq<Shape>, objects: set<object>)

  function Root(h: Shape): Value {
    match h
    case SAtom(a) => Scalar(a)
    case SNilMap => MapVal(null)
    case SMap(node, _, _) => MapVal(node)
    case SNilList => ListVal(null)
    case SList(cells, _, _) => ListVal(cells)
  }

  /** The maps and slices a tree consists of. */
  function Nodes(h: Shape): set<object> {
    if h.SMap? || h.SList? then h.objects else {}
  }

  /** The heap holds this tree now. */
  ghost predicate Holds(h: Shape)
    reads Nodes(h)
    decreases h
  {
    match h
    case SMap(node, kids, objects) =>
      && node in objects
      && node.entries.Keys == kids.Keys
      && forall k | k in kids :: Nodes(kids[k]) <= objects && node.entries[k] == Root(kids[k]) && Holds(kids[k])
    case SList(cells, elems, objects) =>
      && cells in objects
      && cells.Length == |elems|
      && forall i: nat | i < |elems| :: Nodes(elems[i]) <= objects && cells[i] == Root(elems[i]) && Holds(elems[i])
    case _ => true
  }

  ghost function Content(h: Shape): Json {
    match h
    case SAtom(a) => JAtom(a)
    case SNilMap => JNilMap
    case SMap(_, kids, _) => JMap(map k | k in kids :: Content(kids[k]))
    case SNilList => JNilList
    case SList(_, elems, _) => JList(seq(|elems|, i requires 0 <= i < |elems| => Content(elems[i])))
  }

  /** No map or slice is reached along two ways. */
  ghost predicate IsTree(h: Shape) {
    match h
    case SMap(node, kids, _) =>
      && (forall k | k in kids :: IsTree(kids[k]) && node !in Nodes(kids[k]))
      && (forall k, k' | k in kids && k' in kids && k != k' :: Nodes(kids[k]) !! Nodes(kids[k']))
    case SList(cells, elems, _) =>
      && (forall i | 0 <= i < |elems| :: IsTree(elems[i]) && cells !in Nodes(elems[i]))
      && (forall i, j | 0 <= i < j < |elems| :: Nodes(elems[i]) !! Nodes(elems[j]))
    case _ => true
  }

  // ---------- what copying and stripping do to the content ----------

  /** The copy of a nil slice is an empty slice; everything else is copied as it is. */
  function Copied(j: Json): Json {
    match j
    case JMap(fields) => JMap(map k | k in fields :: Copied(fields[k]))
    case JNilList => JList([])
    case JList(items) => JList(seq(|items|, i requires 0 <= i < |items| => Copied(items[i])))
    case _ => j
  }

  /** The metadata fields that the API server fills in. */
  const NOISE: seq<string> := [
    "managedFields", "uid", "resourceVersion", "generation", "creationTimestamp", "selfLink", "finalizers"
  ]

  function NoiseSet(): set<string> {
    set f | f in NOISE
  }

  function StripMetadata(fields: map<string, Json>): map<string, Json> {
    if "metadata" in fields && fields["metadata"].JMap?
    then fields["metadata" := JMap(fields["metadata"].fields - NoiseSet())]
    else fields
  }

  function Strip(j: Json): Json {
    match j
    case JMap(fields) => JMap(StripMetadata(fields) - {"status"})
    case _ => j
  }

  /** What stripServerSideNoise returns for an object. */
  function Cleaned(j: Json): Json {
    Strip(Copied(j))
  }

  /** The value at the end of a path of field names. */
  function At(j: Json, path: seq<string>): Option<Json>
    decreases |path|
  {
    if path == [] then Some(j)
    else if j.JMap? && path[0] in j.fields then At(j.fields[path[0]], path[1..])
    else None
  }

  /** The path leads into `status` or into one of the seven metadata fields. */
  predicate Noisy(path: seq<string>) {
    path != [] &&
    (path[0] == "status" || (|path| >= 2 && path[0] == "metadata" && path[1] in NOISE))
  }

  /** Stripping removes exactly `status` and the seven metadata fields: every other path keeps its value. */
  lemma StripRemovesExactly(j: Json, path: seq<string>)
    requires path != [] && path != ["metadata"]
    ensures At(Strip(j), path) == if j.JMap? && Noisy(path) then None else At(j, path)
  {
    if j.JMap? && path[0] == "metadata" && "metadata" in j.fields && j.fields["metadata"].JMap? {
      var md := j.fields["metadata"].fields;
      var rest := path[1..];
      assert Strip(j).fields["metadata"] == JMap(md - NoiseSet());
      assert At(Strip(j), path) == At(JMap(md - NoiseSet()), rest);
      assert rest != [];
    }
  }

  /**
   Field by field, and by name: `status` goes, and of the metadata exactly the seven fields
   that the API server fills in.  Every other field stays, labels and annotations included,
   and so do other fields of those names elsewhere in the object.
   */
  lemma StripFieldByField(j: Json, f: string, path: seq<string>)
    requires j.JMap?
    ensures At(Strip(j), ["status"] + path) == None
    ensures f != "status" && f != "metadata" ==> At(Strip(j), [f] + path) == At(j, [f] + path)
    ensures f == "managedFields" || f == "uid" || f == "resourceVersion" || f == "generation"
            || f == "creationTimestamp" || f == "selfLink" || f == "finalizers" ==>
              At(Strip(j), ["metadata", f] + path) == None
    ensures f != "managedFields" && f != "uid" && f != "resourceVersion" && f != "generation"
            && f != "creationTimestamp" && f != "selfLink" && f != "finalizers" ==>
              At(Strip(j), ["metadata", f] + path) == At(j, ["metadata", f] + path)
    ensures At(Strip(j), ["metadata"]).Some? <==> At(j, ["metadata"]).Some?
  {
    NoiseByName(f);
    assert (["status"] + path)[0] == "status" && ([f] + path)[0] == f;
    var long := ["metadata", f] + path;
    assert long[0] == "metadata" && long[1] == f && |long| >= 2;
    StripRemovesExactly(j, ["status"] + path);
    StripRemovesExactly(j, long);
    if f != "metadata" { StripRemovesExactly(j, [f] + path); }
  }

  lemma NoiseByName(f: string)
    ensures f in NOISE <==>
            f == "managedFields" || f == "uid" || f == "resourceVersion" || f == "generation"
            || f == "creationTimestamp" || f == "selfLink" || f == "finalizers"
  {
  }

  lemma {:induction false} CopiedIdempotent(j: Json)
    ensures Copied(Copied(j)) == Copied(j)
  {
    match j {
      case JMap(fields) =>
        forall k | k in fields ensures Copied(Copied(fields[k])) == Copied(fields[k]) {
          CopiedIdempotent(fields[k]);
        }
        assert Copied(Copied(j)).fields == Copied(j).fields;
      case JList(items) =>
        forall i | 0 <= i < |items| ensures Copied(Copied(items[i])) == Copied(items[i]) {
          CopiedIdempotent(items[i]);
        }
        assert Copied(Copied(j)).items == Copied(j).items;
      case _ =>
    }
  }

  /** No nil slice occurs anywhere. */
  predicate NoNilList(j: Json) {
    match j
    case JNilList => false
    case JMap(fields) => forall k | k in fields :: NoNilList(fields[k])
    case JList(items) => forall i | 0 <= i < |items| :: NoNilList(items[i])
    case _ => true
  }

  /** A copy equals its original if and only if no nil slice occurs in it; a nil slice alone does not. */
  lemma {:induction false} CopyIsEqual(j: Json)
    ensures Copied(j) == j <==> NoNilList(j)
    ensures Copied(JNilList) != JNilList
  {
    match j {
      case JMap(fields) =>
        forall k | k in fields ensures Copied(fields[k]) == fields[k] <==> NoNilList(fields[k]) {
          CopyIsEqual(fields[k]);
        }
        if NoNilList(j) {
          assert Copied(j).fields == fields;
        } else {
          var k :| k in fields && !NoNilList(fields[k]);
          assert Copied(j).fields[k] != fields[k];
        }
      case JList(items) =>
        forall i | 0 <= i < |items| ensures Copied(items[i]) == items[i] <==> NoNilList(items[i]) {
          CopyIsEqual(items[i]);
        }
        if NoNilList(j) {
          assert Copied(j).items == items;
        } else {
          var i :| 0 <= i < |items| && !NoNilList(items[i]);
          assert Copied(j).items[i] != items[i];
        }
      case _ =>
    }
  }

  lemma CopiedStrip(j: Json)
    ensures Copied(Strip(j)) == Strip(Copied(j))
  {
    if j.JMap? {
      var fields := j.fields;
      var fields' := Copied(j).fields;
      if "metadata" in fields && fields["metadata"].JMap? {
        var md := fields["metadata"].fields;
        assert fields'["metadata"] == Copied(fields["metadata"]);
        assert Copied(JMap(md - NoiseSet())).fields == Copied(JMap(md)).fields - NoiseSet();
      }
      assert Copied(JMap(StripMetadata(fields))).fields == StripMetadata(fields');
      assert Copied(Strip(j)).fields == StripMetadata(fields') - {"status"};
    }
  }

  /** Stripping a stripped object changes nothing. */
  lemma CleanedIdempotent(j: Json)
    ensures Cleaned(Cleaned(j)) == Cleaned(j)
  {
    CopiedStrip(Copied(j));
    CopiedIdempotent(j);
    var c := Copied(j);
    if c.JMap? {
      if "metadata" in c.fields && c.fields["metadata"].JMap? {
        assert c.fields["metadata"].fields - NoiseSet() - NoiseSet() == c.fields["metadata"].fields - NoiseSet();
      }
      assert Strip(Strip(c)).fields == Strip(c).fields;
    }
  }

  // ---------- the copying code ----------

  /** All these trees are in the heap, within `used`. */
  ghost predicate KidsHold(kids: map<string, Shape>, used: set<object>)
    reads used
  {
    forall k | k in kids :: Nodes(kids[k]) <= used && Holds(kids[k])
  }

  /** A tree with the copied content of another. */
  ghost predicate IsCopy(h: Shape, src: Shape) {
    IsTree(h) && Content(h) == Copied(Content(src))
  }

  /** The trees are disjoint copies of those of `src` under the same keys. */
  ghost predicate KidsCopied(kids: map<string, Shape>, src: map<string, Shape>) {
    && (forall k | k in kids :: k in src && IsCopy(kids[k], src[k]))
    && (forall k, k' | k in kids && k' in kids && k != k' :: Nodes(kids[k]) !! Nodes(kids[k']))
  }

  function Roots(kids: map<string, Shape>): map<string, Value> {
    map k | k in kids :: Root(kids[k])
  }

  lemma AddKidHolds(kids: map<string, Shape>, used: set<object>, k: string, kid: Shape)
    requires KidsHold(kids, used) && k !in kids && Holds(kid)
    ensures KidsHold(kids[k := kid], used + Nodes(kid))
  {
  }

  lemma AddKidCopied(kids: map<string, Shape>, used: set<object>, src: map<string, Shape>, k: string, kid: Shape)
    requires KidsCopied(kids, src) && k !in kids
    requires forall n | n in kids :: Nodes(kids[n]) <= used
    requires k in src && IsCopy(kid, src[k])
    requires Nodes(kid) !! used
    ensures KidsCopied(kids[k := kid], src)
    ensures Roots(kids[k := kid]) == Roots(kids)[k := Root(kid)]
  {
    var all := kids[k := kid];
    assert all[k] == kid && forall n | n in kids :: all[n] == kids[n];
  }

  lemma KidsMakeTree(node: MapNode, kids: map<string, Shape>, used: set<object>, h: Shape)
    requires h.SMap? && kids.Keys == h.kids.Keys && KidsCopied(kids, h.kids) && KidsHold(kids, used)
    requires node !in used && node.entries == Roots(kids)
    ensures Holds(SMap(node, kids, used + {node})) && IsCopy(SMap(node, kids, used + {node}), h)
  {
    forall k | k in kids ensures IsTree(kids[k]) && Content(kids[k]) == Copied(Content(h.kids[k])) {
      assert IsCopy(kids[k], h.kids[k]);
    }
    assert Content(SMap(node, kids, used + {node})).fields == Copied(Content(h)).fields;
  }

  /** deepCopyMap.  The copy is made of new objects only, so it shares no map or slice with anything older. */
  method DeepCopyMap(m: MapNode?, ghost h: Shape) returns (out: MapNode?, ghost h': Shape)
    requires Holds(h) && Root(h) == MapVal(m)
    ensures Holds(h') && Root(h') == MapVal(out)
    ensures Content(h') == Copied(Content(h))
    ensures IsTree(h') && fresh(Nodes(h'))
    decreases h, 1
  {
    if m == null {
      return null, SNilMap;
    }
    out := new MapNode();
    ghost var kids: map<string, Shape> := map[];
    ghost var used: set<object> := {};
    var todo := m.entries.Keys;
    while todo != {}
      invariant fresh(out) && fresh(used) && out !in used
      invariant todo <= h.kids.Keys && kids.Keys == h.kids.Keys - todo
      invariant out.entries == Roots(kids)
      invariant KidsHold(kids, used) && KidsCopied(kids, h.kids)
      decreases todo
    {
      var k :| k in todo;
      todo := todo - {k};
      kids, used := CopyEntry(out, k, m.entries[k], h, kids, used);
    }
    h' := SMap(out, kids, used + {out});
    KidsMakeTree(out, kids, used, h);
  }

  /** One turn of deepCopyMap's loop: copies the value of one key into the new map. */
  method CopyEntry(out: MapNode, k: string, v: Value, ghost h: Shape, ghost kids: map<string, Shape>,
                   ghost used: set<object>)
    returns (ghost kids': map<string, Shape>, ghost used': set<object>)
    requires h.SMap? && k in h.kids && k !in kids
    requires Holds(h.kids[k]) && Root(h.kids[k]) == v
    requires out !in used && out.entries == Roots(kids)
    requires KidsHold(kids, used) && KidsCopied(kids, h.kids)
    modifies out
    ensures used <= used' && fresh(used' - used) && out !in used'
    ensures kids'.Keys == kids.Keys + {k} && out.entries == Roots(kids')
    ensures KidsHold(kids', used') && KidsCopied(kids', h.kids)
    decreases h, 0
  {
    var v';
    ghost var kid;
    v', kid := DeepCopyValue(v, h.kids[k]);
    AddKidHolds(kids, used, k, kid);
    AddKidCopied(kids, used, h.kids, k, kid);
    kids', used' := kids[k := kid], used + Nodes(kid);
    out.entries := out.entries[k := v'];
  }

  /** deepCopyValue. */
  method DeepCopyValue(v: Value, ghost h: Shape) returns (out: Value, ghost h': Shape)
    requires Holds(h) && Root(h) == v
    ensures Holds(h') && Root(h') == out
    ensures Content(h') == Copied(Content(h))
    ensures IsTree(h') && fresh(Nodes(h'))
    decreases h, 2
  {
    match v {
      case MapVal(m) =>
        var c;
        c, h' := DeepCopyMap(m, h);
        out := MapVal(c);
      case ListVal(items) =>
        var c;
        c, h' := DeepCopyList(items, h);
        out := ListVal(c);
      case Scalar(_) =>
        out, h' := v, h;
    }
  }

  /** The slice case of deepCopyValue; a nil slice has no elements, and its copy is not nil. */
  method DeepCopyList(items: array?<Value>, ghost h: Shape) returns (out: array<Value>, ghost h': Shape)
    requires Holds(h) && Root(h) == ListVal(items)
    ensures Holds(h') && Root(h') == ListVal(out)
    ensures Content(h') == Copied(Content(h))
    ensures IsTree(h') && fresh(Nodes(h'))
    decreases h, 0
  {
    if items == null {
      out := new Value[0];
      h' := SList(out, [], {out});
      return;
    }
    out := new Value[items.Length](_ => Scalar(Null));
    ghost var elems: seq<Shape> := [];
    ghost var used: set<object> := {};
    for i := 0 to items.Length
      invariant |elems| == i && i <= |h.elems|
      invariant fresh(out) && fresh(used) && out !in used
      invariant forall j | 0 <= j < i :: Nodes(elems[j]) <= used && out[j] == Root(elems[j]) && Holds(elems[j])
      invariant ElemsCopied(elems, h.elems)
    {
      var v;
      ghost var elem;
      v, elem := DeepCopyValue(items[i], h.elems[i]);
      out[i] := v;
      AddElemCopied(elems, h.elems, elem, used);
      elems, used := elems + [elem], used + Nodes(elem);
    }
    h' := SList(out, elems, used + {out});
    ElemsMakeTree(out, elems, used, h);
  }

  /** The trees are disjoint copies of the first ones of `src`. */
  ghost predicate ElemsCopied(elems: seq<Shape>, src: seq<Shape>) {
    && |elems| <= |src|
    && (forall j | 0 <= j < |elems| :: IsCopy(elems[j], src[j]))
    && Disjoint(elems)
  }

  ghost predicate Disjoint(elems: seq<Shape>) {
    forall j, j' | 0 <= j < j' < |elems| :: Nodes(elems[j]) !! Nodes(elems[j'])
  }

  lemma AddDisjoint(elems: seq<Shape>, elem: Shape, used: set<object>)
    requires Disjoint(elems) && Nodes(elem) !! used
    requires forall j | 0 <= j < |elems| :: Nodes(elems[j]) <= used
    ensures Disjoint(elems + [elem])
  {
  }

  lemma AddElemCopied(elems: seq<Shape>, src: seq<Shape>, elem: Shape, used: set<object>)
    requires ElemsCopied(elems, src) && |elems| < |src|
    requires forall j | 0 <= j < |elems| :: Nodes(elems[j]) <= used
    requires IsCopy(elem, src[|elems|]) && Nodes(elem) !! used
    ensures ElemsCopied(elems + [elem], src)
  {
    AddDisjoint(elems, elem, used);
    forall j | 0 <= j < |elems| + 1 ensures IsCopy((elems + [elem])[j], src[j]) {
      assert (elems + [elem])[j] == if j < |elems| then elems[j] else elem;
    }
  }

  lemma ElemsMakeTree(cells: array<Value>, elems: seq<Shape>, used: set<object>, h: Shape)
    requires h.SList? && |elems| == |h.elems|
    requires cells !in used
    requires ElemsCopied(elems, h.elems) && forall j | 0 <= j < |elems| :: Nodes(elems[j]) <= used
    ensures IsTree(SList(cells, elems, used + {cells}))
    ensures Content(SList(cells, elems, used + {cells})) == Copied(Content(h))
  {
    forall j | 0 <= j < |elems| ensures IsTree(elems[j]) && Content(elems[j]) == Copied(Content(h.elems[j])) {
      assert IsCopy(elems[j], h.elems[j]);
    }
    assert Content(SList(cells, elems, used + {cells})).items == Copied(Content(h)).items;
  }

  // ---------- the pruning code ----------

  /** The tree without some keys of its top map. */
  function WithoutKeys(h: Shape, keys: set<string>): Shape
    requires h.SMap?
  {
    SMap(h.node, h.kids - keys, h.objects)
  }

  /** The tree without the noise fields of its metadata map, if it has one. */
  function WithoutNoise(h: Shape): Shape
    requires h.SMap?
  {
    if "metadata" in h.kids && h.kids["metadata"].SMap?
    then SMap(h.node, h.kids["metadata" := WithoutKeys(h.kids["metadata"], NoiseSet())], h.objects)
    else h
  }

  lemma WithoutKeysTree(h: Shape, keys: set<string>)
    requires h.SMap? && IsTree(h)
    ensures IsTree(WithoutKeys(h, keys))
    ensures Content(WithoutKeys(h, keys)) == JMap(Content(h).fields - keys)
  {
    assert Content(WithoutKeys(h, keys)).fields == Content(h).fields - keys;
  }

  lemma WithoutNoiseIsTree(h: Shape)
    requires h.SMap? && IsTree(h)
    ensures IsTree(WithoutNoise(h))
  {
    if "metadata" in h.kids && h.kids["metadata"].SMap? {
      WithoutKeysTree(h.kids["metadata"], NoiseSet());
      var kids := WithoutNoise(h).kids;
      assert forall k | k in kids :: Nodes(kids[k]) == Nodes(h.kids[k]) && IsTree(kids[k]);
    }
  }

  lemma WithoutNoiseContent(h: Shape)
    requires h.SMap? && IsTree(h)
    ensures Content(WithoutNoise(h)) == JMap(StripMetadata(Content(h).fields))
  {
    if "metadata" in h.kids && h.kids["metadata"].SMap? {
      WithoutKeysTree(h.kids["metadata"], NoiseSet());
      assert Content(WithoutNoise(h)).fields == StripMetadata(Content(h).fields);
    }
  }

  /** Deletes the seven noise fields from a metadata map. */
  method DeleteNoise(md: MapNode)
    modifies md
    ensures md.entries == old(md.entries) - NoiseSet()
  {
    for i := 0 to |NOISE|
      invariant md.entries == old(md.entries) - set f | f in NOISE[..i]
    {
      md.entries := md.entries - {NOISE[i]};
      assert NOISE[..i + 1] == NOISE[..i] + [NOISE[i]];
    }
    assert NOISE[..|NOISE|] == NOISE;
  }

  /** Prunes the metadata map of a tree in place, when there is one and it is not nil. */
  method PruneMetadata(cp: MapNode, ghost h: Shape)
    requires Holds(h) && IsTree(h) && Root(h) == MapVal(cp)
    modifies Nodes(h)
    ensures Holds(WithoutNoise(h))
  {
    if "metadata" in cp.entries && cp.entries["metadata"].MapVal? && cp.entries["metadata"].node != null {
      ghost var kid := h.kids["metadata"];
      assert kid.SMap? && Nodes(kid) <= Nodes(h);
      DeleteNoise(cp.entries["metadata"].node);
      assert Holds(WithoutKeys(kid, NoiseSet()));
    }
  }

  method DeleteStatus(cp: MapNode, ghost h: Shape)
    requires Holds(h) && IsTree(h) && Root(h) == MapVal(cp)
    modifies cp
    ensures Holds(WithoutKeys(h, {"status"}))
  {
    cp.entries := cp.entries - {"status"};
  }

  /** stripServerSideNoise: a new tree, disjoint from the argument, which is left as it was. */
  method StripServerSideNoise(o: MapNode?, ghost h: Shape) returns (cp: MapNode?, ghost h': Shape)
    requires Holds(h) && Root(h) == MapVal(o)
    ensures unchanged(Nodes(h))
    ensures Holds(h') && Root(h') == MapVal(cp)
    ensures Content(h') == Cleaned(Content(h))
    ensures IsTree(h') && fresh(Nodes(h'))
  {
    cp, h' := DeepCopyMap(o, h);
    if cp != null {
      WithoutNoiseIsTree(h');
      WithoutNoiseContent(h');
      PruneMetadata(cp, h');
      WithoutKeysTree(WithoutNoise(h'), {"status"});
      DeleteStatus(cp, WithoutNoise(h'));
      h' := WithoutKeys(WithoutNoise(h'), {"status"});
    }
  }
}
