/**
 * Resolving a dotted field path (Fields.findField) and flattening the field tree into a table
 * from full path to field (Fields.listFields).
 */
module Fields {
  import opened Wrappers
  import opened JavaStrings
  import opened Trades
  import opened TradeFields
  import opened ComplexField

  /** The name of the prefix walked so far: p, then ".seg" for every segment, in order. */
  function Dotted(p: string, segs: seq<string>): string
    decreases |segs|
  {
    if segs == [] then p else Dotted(p + "." + segs[0], segs[1..])
  }

  /** Walking segments from an accessor, one child lookup per segment; None when a step fails. */
  function Descend(vs: VillagerSchema, acc: Accessor, segs: seq<string>): Option<Accessor>
    decreases |segs|
  {
    if segs == [] then Some(acc)
    else if acc.field.Leaf? then None
    else match GetFieldWrapped(vs, acc, segs[0])
      case None => None
      case Some(child) => Descend(vs, child, segs[1..])
  }

  /**
   * The walk of findField with its error messages: at each segment the current accessor must be
   * complex and must have the child; pathName names the prefix resolved so far.
   */
  function Walk(vs: VillagerSchema, acc: Accessor, segs: seq<string>, pathName: string, path: string): Result<Accessor>
    decreases |segs|
  {
    if segs == [] then Ok(acc)
    else if acc.field.Leaf? then Err("Can't access " + path + " because " + pathName + " does not have fields")
    else match GetFieldWrapped(vs, acc, segs[0])
      case None => Err(pathName + " does not have field " + segs[0])
      case Some(child) => Walk(vs, child, segs[1..], pathName + "." + segs[0], path)
  }

  /** The accessor resolution starts from: the given complex field, or the root when none is given. */
  function Start(root: Option<Accessor>): Accessor {
    if root.None? then ROOT_FIELD else root.value
  }

  /**
   * findField: in non-recursive mode one lookup of the whole path; in recursive mode the walk over
   * the path cut at its dots, refusing to hand back the root itself.
   */
  function Resolve(vs: VillagerSchema, root: Option<Accessor>, path: string, recursive: bool): Result<Accessor>
    requires root.Some? ==> root.value.field.Complex?
  {
    var start := Start(root);
    if !recursive then
      match GetFieldWrapped(vs, start, path)
      case None => Err("Can't access " + path + " because it does not exist")
      case Some(f) => Ok(f)
    else
      var segs := SplitOnDots(path);
      var w := Walk(vs, start, segs, "root", path);
      if w.Ok? && w.value == ROOT_FIELD then Err(Dotted("root", segs) + " does not have field " + path)
      else w
  }

  /** findField, as the loop the source runs. */
  method FindField(vs: VillagerSchema, root: Option<Accessor>, path: string, recursive: bool) returns (r: Result<Accessor>)
    requires root.Some? ==> root.value.field.Complex?
    ensures r == Resolve(vs, root, path, recursive)
  {
    var start := if root.None? then ROOT_FIELD else root.value;
    if !recursive {
      var field := GetFieldWrapped(vs, start, path);
      if field.None? {
        return Err("Can't access " + path + " because it does not exist");
      }
      return Ok(field.value);
    }
    var paths := SplitOnDots(path);
    var field := start;
    var pathName := "root";
    var i := 0;
    while i < |paths|
      invariant 0 <= i <= |paths|
      invariant Walk(vs, start, paths, "root", path) == Walk(vs, field, paths[i..], pathName, path)
      invariant Dotted("root", paths) == Dotted(pathName, paths[i..])
      invariant pathName == Dotted("root", paths[..i])
    {
      var child := paths[i];
      assert paths[i..][1..] == paths[i + 1..];
      DottedPrefixStep(paths, i);
      if field.field.Complex? {
        var next := GetFieldWrapped(vs, field, child);
        if next.None? {
          return Err(pathName + " does not have field " + child);
        }
        field := next.value;
      } else {
        return Err("Can't access " + path + " because " + pathName + " does not have fields");
      }
      pathName := pathName + "." + child;
      i := i + 1;
    }
    if field == ROOT_FIELD {
      return Err(pathName + " does not have field " + path);
    }
    return Ok(field);
  }

  /** The name of the first i + 1 segments is the name of the first i, then ".segment". */
  lemma DottedPrefixStep(paths: seq<string>, i: nat)
    requires i < |paths|
    ensures Dotted("root", paths[..i + 1]) == Dotted("root", paths[..i]) + "." + paths[i]
  {
    assert paths[..i + 1] == paths[..i] + [paths[i]];
    DottedSnoc("root", paths[..i], paths[i]);
  }

  /** One more segment on the prefix name. */
  lemma {:induction false} DottedSnoc(p: string, segs: seq<string>, s: string)
    ensures Dotted(p, segs + [s]) == Dotted(p, segs) + "." + s
    decreases |segs|
  {
    if segs != [] {
      assert (segs + [s])[1..] == segs[1..] + [s];
      DottedSnoc(p + "." + segs[0], segs[1..], s);
    }
  }

  /** The walk succeeds exactly when every segment is found, and then it ends where the descent ends. */
  lemma {:induction false} WalkIsDescend(vs: VillagerSchema, acc: Accessor, segs: seq<string>, pathName: string, path: string)
    ensures Walk(vs, acc, segs, pathName, path).Ok? <==> Descend(vs, acc, segs).Some?
    ensures Walk(vs, acc, segs, pathName, path).Ok? ==> Walk(vs, acc, segs, pathName, path).value == Descend(vs, acc, segs).value
    decreases |segs|
  {
    if segs != [] && acc.field.Complex? {
      match GetFieldWrapped(vs, acc, segs[0])
      case None =>
      case Some(child) => WalkIsDescend(vs, child, segs[1..], pathName + "." + segs[0], path);
    }
  }

  /** A successful descent has consumed every segment: the accessor's path is extended by all of them. */
  lemma {:induction false} DescendPath(vs: VillagerSchema, acc: Accessor, segs: seq<string>)
    requires Descend(vs, acc, segs).Some?
    ensures Descend(vs, acc, segs).value.path == acc.path + segs
    decreases |segs|
  {
    if segs != [] {
      var child := GetFieldWrapped(vs, acc, segs[0]).value;
      DescendPath(vs, child, segs[1..]);
      assert acc.path + [segs[0]] + segs[1..] == acc.path + segs;
    }
  }

  /** Descending through a prefix and then the rest is descending through the whole. */
  lemma {:induction false} DescendAppend(vs: VillagerSchema, acc: Accessor, segs: seq<string>, more: seq<string>)
    requires Descend(vs, acc, segs).Some?
    ensures Descend(vs, acc, segs + more) == Descend(vs, Descend(vs, acc, segs).value, more)
    decreases |segs|
  {
    if segs == [] {
      assert segs + more == more;
    } else {
      var child := GetFieldWrapped(vs, acc, segs[0]).value;
      assert (segs + more)[0] == segs[0];
      assert (segs + more)[1..] == segs[1..] + more;
      assert Descend(vs, acc, segs) == Descend(vs, child, segs[1..]);
      assert Descend(vs, acc, segs + more) == Descend(vs, child, segs[1..] + more);
      DescendAppend(vs, child, segs[1..], more);
    }
  }

  /**
   * A failed walk fails at a segment k: every segment before it was found, and the message names
   * the prefix "root.seg1…seg(k-1)" and says either that it has no fields or that segment k is not
   * one of them.
   */
  lemma {:induction false} WalkFailsAt(vs: VillagerSchema, acc: Accessor, segs: seq<string>, pathName: string, path: string)
    returns (k: nat)
    requires Walk(vs, acc, segs, pathName, path).Err?
    ensures k < |segs| && Descend(vs, acc, segs[..k]).Some?
    ensures var f := Descend(vs, acc, segs[..k]).value;
      var e := Walk(vs, acc, segs, pathName, path).error;
      (f.field.Leaf? && e == "Can't access " + path + " because " + Dotted(pathName, segs[..k]) + " does not have fields") ||
      (f.field.Complex? && GetFieldWrapped(vs, f, segs[k]).None? && e == Dotted(pathName, segs[..k]) + " does not have field " + segs[k])
    decreases |segs|
  {
    if acc.field.Leaf? || GetFieldWrapped(vs, acc, segs[0]).None? {
      k := 0;
      assert segs[..0] == [];
    } else {
      var child := GetFieldWrapped(vs, acc, segs[0]).value;
      var j := WalkFailsAt(vs, child, segs[1..], pathName + "." + segs[0], path);
      k := j + 1;
      assert segs[..k] == [segs[0]] + segs[1..][..j];
      assert segs[..k][1..] == segs[1..][..j];
      assert segs[k] == segs[1..][j];
    }
  }

  /** f is found from acc by descending the names f's path adds to acc's path. */
  predicate Reached(vs: VillagerSchema, acc: Accessor, f: Accessor) {
    && |acc.path| <= |f.path|
    && f.path[..|acc.path|] == acc.path
    && Descend(vs, acc, f.path[|acc.path|..]) == Some(f)
  }

  /** Reaching is transitive: a field found below a field found from acc is found from acc. */
  lemma ReachedTrans(vs: VillagerSchema, a: Accessor, b: Accessor, c: Accessor)
    requires Reached(vs, a, b) && Reached(vs, b, c)
    ensures Reached(vs, a, c)
  {
    var n, m := |a.path|, |b.path|;
    assert c.path[..n] == a.path by { assert c.path[..n] == c.path[..m][..n]; }
    assert c.path[n..] == b.path[n..] + c.path[m..] by { assert c.path == c.path[..m] + c.path[m..]; }
    DescendAppend(vs, a, b.path[n..], c.path[m..]);
  }

  /** Whatever findField returns, in either mode, is reached from where it started. */
  lemma ResolveReaches(vs: VillagerSchema, root: Option<Accessor>, path: string, recursive: bool)
    requires root.Some? ==> root.value.field.Complex?
    requires Resolve(vs, root, path, recursive).Ok?
    ensures Reached(vs, Start(root), Resolve(vs, root, path, recursive).value)
  {
    var start, f := Start(root), Resolve(vs, root, path, recursive).value;
    if recursive {
      ResolveRecursiveOk(vs, root, path);
      assert f.path[|start.path|..] == SplitOnDots(path);
    } else {
      assert f.path[|start.path|..] == [path];
      assert Descend(vs, f, []) == Some(f);
    }
  }

  /** A null root is the same as the root field. */
  lemma NullRootIsRootField(vs: VillagerSchema, path: string, recursive: bool)
    ensures Resolve(vs, None, path, recursive) == Resolve(vs, Some(ROOT_FIELD), path, recursive)
  {
  }

  /** Non-recursive mode fails with "does not exist" exactly when the one lookup of the whole path fails. */
  lemma ResolveNonRecursive(vs: VillagerSchema, root: Option<Accessor>, path: string)
    requires root.Some? ==> root.value.field.Complex?
    ensures var r := Resolve(vs, root, path, false);
      && (r.Err? <==> GetField(vs, Start(root).field.ns, path).None?)
      && (r.Err? ==> r.error == "Can't access " + path + " because it does not exist")
      && (r.Ok? ==> r.value.path == Start(root).path + [path])
  {
  }

  /**
   * A successful recursive resolution found every segment of the path in turn, and it is never
   * the root itself.
   */
  lemma ResolveRecursiveOk(vs: VillagerSchema, root: Option<Accessor>, path: string)
    requires root.Some? ==> root.value.field.Complex?
    requires Resolve(vs, root, path, true).Ok?
    ensures Descend(vs, Start(root), SplitOnDots(path)) == Some(Resolve(vs, root, path, true).value)
    ensures Resolve(vs, root, path, true).value.path == Start(root).path + SplitOnDots(path)
    ensures Resolve(vs, root, path, true).value != ROOT_FIELD
  {
    var segs := SplitOnDots(path);
    WalkIsDescend(vs, Start(root), segs, "root", path);
    DescendPath(vs, Start(root), segs);
  }

  /** A failed recursive resolution names the first segment that could not be resolved. */
  lemma ResolveRecursiveErr(vs: VillagerSchema, root: Option<Accessor>, path: string)
    returns (k: nat)
    requires root.Some? ==> root.value.field.Complex?
    requires Walk(vs, Start(root), SplitOnDots(path), "root", path).Err?
    ensures k < |SplitOnDots(path)|
    ensures var segs := SplitOnDots(path);
      var f := Descend(vs, Start(root), segs[..k]);
      var e := Resolve(vs, root, path, true).error;
      && Resolve(vs, root, path, true).Err?
      && k < |segs| && f.Some?
      && ((f.value.field.Leaf? && e == "Can't access " + path + " because " + Dotted("root", segs[..k]) + " does not have fields") ||
          (f.value.field.Complex? && GetFieldWrapped(vs, f.value, segs[k]).None? &&
           e == Dotted("root", segs[..k]) + " does not have field " + segs[k]))
  {
    k := WalkFailsAt(vs, Start(root), SplitOnDots(path), "root", path);
  }

  /** The villager schema of the examples: one writable string attribute. */
  const EXAMPLE_SCHEMA: VillagerSchema := VillagerSchema([Attribute("type", StringClass, false)], true)

  /** The segments of "villager.type" lead, one lookup at a time, to the villager's type attribute. */
  lemma WalkNestedExample(path: string)
    ensures Walk(EXAMPLE_SCHEMA, ROOT_FIELD, ["villager", "type"], "root", path) ==
      Ok(Accessor(["villager", "type"], Leaf(StringClass, VillagerAttribute("type"), false)))
  {
    WrappedRootChild(EXAMPLE_SCHEMA, "villager");
    var villager := Accessor(["villager"], FIELDS["villager"]);
    var typ := Accessor(["villager", "type"], Leaf(StringClass, VillagerAttribute("type"), false));
    assert FindAttribute(EXAMPLE_SCHEMA.attributes, "type") == Some(0);
    assert villager.path + ["type"] == typ.path;
    assert GetFieldWrapped(EXAMPLE_SCHEMA, villager, "type") == Some(typ);
    assert ["villager", "type"][1..] == ["type"];
  }

  /** A segment below a leaf fails at that segment, and so does an unknown first segment. */
  lemma WalkFailureExamples(path: string)
    ensures Walk(EXAMPLE_SCHEMA, ROOT_FIELD, ["uses", "x"], "root", path).Err?
    ensures Walk(EXAMPLE_SCHEMA, ROOT_FIELD, ["price"], "root", path).Err?
  {
    WrappedRootChild(EXAMPLE_SCHEMA, "uses");
    WrappedRootChild(EXAMPLE_SCHEMA, "price");
    assert ["uses", "x"][1..] == ["x"];
  }

  /** The same text in non-recursive mode is one name, and FIELDS has no such key. */
  lemma ResolveWholePathExample()
    ensures Resolve(EXAMPLE_SCHEMA, None, "villager.type", false).Err?
  {
  }

  /** A path made only of dots has no segments, so the walk ends on the root, which is refused. */
  lemma ResolveDotsOnlyExample()
    ensures Resolve(EXAMPLE_SCHEMA, None, ".", true).Err?
    ensures Walk(EXAMPLE_SCHEMA, ROOT_FIELD, SplitOnDots("."), "root", ".") == Ok(ROOT_FIELD)
  {
    SplitDotOnlyExample();
  }

  /**
   * A key, field pair of a listing below root: the key is path followed by the segments from
   * root to the field, the field is reached by descending those segments, and it is a leaf or a
   * complex field that does not list its children.
   */
  predicate ListedUnder(vs: VillagerSchema, root: Accessor, path: string, key: string, f: Accessor) {
    && Reached(vs, root, f)
    && key == Dotted(path, f.path[|root.path|..])
    && (f.field.Leaf? || Listing(vs, f.field.ns).None?)
  }

  /** A top-level pair: listed under the FIELDS entry its path starts with, with that key as path. */
  predicate ListedAtTop(vs: VillagerSchema, key: string, f: Accessor) {
    && |f.path| > 0
    && f.path[0] in FIELDS
    && ListedUnder(vs, Accessor([f.path[0]], FIELDS[f.path[0]]), f.path[0], key, f)
  }

  /**
   * listFields: with a null root, every entry of FIELDS under its key, complex ones expanded; with
   * a complex root, the listing of its children under "path.key", complex ones expanded; a root
   * that does not list its children stands for itself under path.
   */
  function ListFields(vs: VillagerSchema, root: Option<Accessor>, path: string): (r: map<string, Accessor>)
    requires root.Some? ==> root.value.field.Complex?
    ensures root.Some? ==> forall k :: k in r ==> ListedUnder(vs, root.value, path, k, r[k])
    ensures root.None? ==> forall k :: k in r ==> ListedAtTop(vs, k, r[k])
    ensures root.None? ==> forall key :: key in FIELDS ==> TopEntry(vs, key).Keys <= r.Keys
    ensures root.None? ==> forall key :: key in FIELDS && FIELDS[key].Leaf? ==> key in r
    ensures root.Some? && Listing(vs, root.value.field.ns).None? ==> r == map[path := root.value]
    ensures root.Some? && Listing(vs, root.value.field.ns).Some? ==>
      forall name :: name in Listing(vs, root.value.field.ns).value && GetField(vs, root.value.field.ns, name).Some? ==>
        ChildEntry(vs, root.value, path, name).Keys <= r.Keys
    decreases if root.None? then 3 else Height(root.value.field), 2, 0
  {
    if root.None? then
      FieldNamesAreTheTable();
      ListTop(vs, FIELD_NAMES)
    else
      var ns := root.value.field.ns;
      match Listing(vs, ns)
      case None =>
        assert root.value.path[|root.value.path|..] == [];
        map[path := root.value]
      case Some(names) =>
        ListedNamesResolve(vs, ns);
        ListNames(vs, root.value, path, names)
  }

  /** The FIELDS entries named by keys, with complex ones expanded under their key. */
  function ListTop(vs: VillagerSchema, keys: seq<string>): (r: map<string, Accessor>)
    ensures forall k :: k in r ==> ListedAtTop(vs, k, r[k])
    ensures forall key :: key in keys && key in FIELDS ==> TopEntry(vs, key).Keys <= r.Keys
    decreases 3, 1, |keys|
  {
    if keys == [] then map[]
    else
      var rest := ListTop(vs, keys[1..]);
      if keys[0] !in FIELDS then rest else TopEntry(vs, keys[0]) + rest
  }

  /** One FIELDS entry under its key: a leaf as itself, a complex field expanded. */
  function TopEntry(vs: VillagerSchema, key: string): (r: map<string, Accessor>)
    requires key in FIELDS
    ensures forall k :: k in r ==> ListedAtTop(vs, k, r[k])
    ensures forall k :: k in r ==> |r[k].path| > 0 && r[k].path[0] == key
    ensures FIELDS[key].Leaf? ==> r == map[key := Accessor([key], FIELDS[key])]
    ensures FIELDS[key].Complex? && Listing(vs, FIELDS[key].ns).None? ==> r == map[key := Accessor([key], FIELDS[key])]
    ensures FIELDS[key].Complex? && Listing(vs, FIELDS[key].ns).Some? ==>
      forall name :: name in Listing(vs, FIELDS[key].ns).value && GetField(vs, FIELDS[key].ns, name).Some? ==>
        ChildEntry(vs, Accessor([key], FIELDS[key]), key, name).Keys <= r.Keys
    decreases 3, 0
  {
    var acc := Accessor([key], FIELDS[key]);
    if acc.field.Complex? then
      var head := ListFields(vs, Some(acc), key);
      assert forall k :: k in head ==> ListedAtTop(vs, k, head[k]) && head[k].path[0] == key by {
        forall k | k in head
          ensures ListedAtTop(vs, k, head[k]) && head[k].path[0] == key
        {
          ListedUnderEntry(vs, key, k, head[k]);
        }
      }
      head
    else
      ListedUnderEntry(vs, key, key, acc);
      map[key := acc]
  }

  /** A pair listed under the FIELDS entry key, keyed from key, is a top-level pair under key. */
  lemma ListedUnderEntry(vs: VillagerSchema, key: string, k: string, f: Accessor)
    requires key in FIELDS
    requires ListedUnder(vs, Accessor([key], FIELDS[key]), key, k, f) ||
             (FIELDS[key].Leaf? && k == key && f == Accessor([key], FIELDS[key]))
    ensures ListedAtTop(vs, k, f)
    ensures f.path[0] == key
  {
    var acc := Accessor([key], FIELDS[key]);
    if f == acc && k == key && acc.field.Leaf? {
      assert f.path[1..] == [];
    }
    assert f.path[..1] == [key];
  }

  /** The children called names of a listed complex root, complex ones expanded, under "path.name". */
  function ListNames(vs: VillagerSchema, root: Accessor, path: string, names: seq<string>): (r: map<string, Accessor>)
    requires root.field.Complex?
    requires forall j :: 0 <= j < |names| ==> GetField(vs, root.field.ns, names[j]).Some?
    ensures forall k :: k in r ==> ListedUnder(vs, root, path, k, r[k])
    ensures forall name :: name in names && GetField(vs, root.field.ns, name).Some? ==>
      ChildEntry(vs, root, path, name).Keys <= r.Keys
    decreases Height(root.field), 1, |names|
  {
    if names == [] then map[]
    else ChildEntry(vs, root, path, names[0]) + ListNames(vs, root, path, names[1..])
  }

  /** One child of a complex root under "path.name": a leaf as itself, a complex child expanded. */
  function ChildEntry(vs: VillagerSchema, root: Accessor, path: string, name: string): (r: map<string, Accessor>)
    requires root.field.Complex? && GetField(vs, root.field.ns, name).Some?
    ensures forall k :: k in r ==> ListedUnder(vs, root, path, k, r[k])
    ensures forall k :: k in r ==> |r[k].path| > |root.path| && r[k].path[|root.path|] == name
    ensures GetField(vs, root.field.ns, name).value.Leaf? ==>
      r == map[path + "." + name := Accessor(root.path + [name], GetField(vs, root.field.ns, name).value)]
    decreases Height(root.field), 0
  {
    var child := GetFieldWrapped(vs, root, name).value;
    var childPath := path + "." + name;
    var head := if child.field.Complex? then ListFields(vs, Some(child), childPath) else map[childPath := child];
    assert forall k :: k in head ==> ListedUnder(vs, root, path, k, head[k]) && |head[k].path| > |root.path| && head[k].path[|root.path|] == name by {
      forall k | k in head
        ensures ListedUnder(vs, root, path, k, head[k]) && |head[k].path| > |root.path| && head[k].path[|root.path|] == name
      {
        ListedUnderChild(vs, root, path, name, child, k, head[k]);
      }
    }
    head
  }

  /** An entry listed under a child, or the child itself as a leaf, is listed under its parent. */
  lemma ListedUnderChild(vs: VillagerSchema, root: Accessor, path: string, name: string, child: Accessor, key: string, f: Accessor)
    requires root.field.Complex? && GetFieldWrapped(vs, root, name) == Some(child)
    requires (child.field.Leaf? && key == path + "." + name && f == child) ||
             ListedUnder(vs, child, path + "." + name, key, f)
    ensures ListedUnder(vs, root, path, key, f)
    ensures |f.path| > |root.path| && f.path[|root.path|] == name
  {
    var n := |root.path|;
    assert child.path == root.path + [name];
    if child.field.Leaf? && key == path + "." + name && f == child {
      assert f.path[n..] == [name];
      assert Descend(vs, child, []) == Some(child);
    } else {
      var tail := f.path[n + 1..];
      assert f.path[..n + 1] == root.path + [name];
      assert f.path[..n] == root.path by { assert f.path[..n] == f.path[..n + 1][..n]; }
      assert f.path[n..] == [name] + tail by { assert f.path == f.path[..n + 1] + tail; }
      assert ([name] + tail)[1..] == tail;
      assert Dotted(path, [name] + tail) == Dotted(path + "." + name, tail);
      assert Descend(vs, root, [name] + tail) == Descend(vs, child, tail);
    }
  }
}
