/**
 * A complex field: a field whose value has named fields of its own. getField looks a child up by
 * name in the complex field's namespace; getFieldWrapped composes the child onto the accessor
 * that reached the complex field, or answers null.
 */
module ComplexField {
  import opened Wrappers
  import opened Trades
  import opened TradeFields

  /** How deep the tree under a field can go: a leaf has no children, the villager only leaves. */
  function Height(f: Field): nat {
    if f.Leaf? then 0 else if f.ns == VillagerSpace then 1 else 2
  }

  /** The first attribute of the villager namespace with the given name, if any. */
  function FindAttribute(attrs: seq<Attribute>, name: string): (r: Option<nat>)
    ensures r.Some? ==> r.value < |attrs| && attrs[r.value].name == name
    ensures r.Some? ==> forall j :: 0 <= j < r.value ==> attrs[j].name != name
    ensures r.None? ==> forall j :: 0 <= j < |attrs| ==> attrs[j].name != name
  {
    if attrs == [] then None
    else if attrs[0].name == name then Some(0)
    else match FindAttribute(attrs[1..], name)
      case None => None
      case Some(k) => Some(k + 1)
  }

  /**
   * getField: the child called name of a complex field with namespace ns, or null. The trade
   * namespace is the FIELDS table; a villager attribute is a leaf writing that attribute.
   */
  function GetField(vs: VillagerSchema, ns: Namespace, name: string): (r: Option<Field>)
    ensures r.Some? ==> Height(r.value) < Height(Complex(OtherClass(""), ns, true))
    ensures ns == TradeSpace ==> (r.Some? <==> name in FIELDS)
    ensures ns == VillagerSpace ==>
      (r.Some? <==> exists j :: 0 <= j < |vs.attributes| && vs.attributes[j].name == name)
  {
    match ns
    case TradeSpace => if name in FIELDS then Some(FIELDS[name]) else None
    case VillagerSpace =>
      match FindAttribute(vs.attributes, name)
      case None => None
      case Some(k) =>
        var a := vs.attributes[k];
        Some(Leaf(a.clazz, VillagerAttribute(name), a.readOnly))
  }

  /** getFields: the names a complex field lists, or null when it does not list them. */
  function Listing(vs: VillagerSchema, ns: Namespace): Option<seq<string>> {
    match ns
    case TradeSpace => Some(FIELD_NAMES)
    case VillagerSpace =>
      if vs.listed then Some(seq(|vs.attributes|, j requires 0 <= j < |vs.attributes| => vs.attributes[j].name))
      else None
  }

  /** The root's children are exactly the keys of FIELDS, and it lists exactly those, in any context. */
  lemma RootChildrenAreTheTable(vs: VillagerSchema, name: string)
    ensures GetField(vs, ROOT_FIELD.field.ns, name) == if name in FIELDS then Some(FIELDS[name]) else None
    ensures Listing(vs, ROOT_FIELD.field.ns).Some?
    ensures name in Listing(vs, ROOT_FIELD.field.ns).value <==> name in FIELDS
  {
    FieldNamesAreTheTable();
  }

  /** Every name a complex field lists resolves to a child. */
  lemma ListedNamesResolve(vs: VillagerSchema, ns: Namespace)
    requires Listing(vs, ns).Some?
    ensures forall k :: 0 <= k < |Listing(vs, ns).value| ==> GetField(vs, ns, Listing(vs, ns).value[k]).Some?
  {
    var names := Listing(vs, ns).value;
    forall k | 0 <= k < |names|
      ensures GetField(vs, ns, names[k]).Some?
    {
      if ns == TradeSpace {
        FieldNamesAreTheTable();
        assert names[k] in FIELD_NAMES;
      } else {
        assert vs.attributes[k].name == names[k];
      }
    }
  }

  /**
   * getFieldWrapped: null exactly when getField is null, and otherwise the child composed onto
   * the accessor of this complex field (its path extended by the child's name).
   */
  function GetFieldWrapped(vs: VillagerSchema, a: Accessor, name: string): (r: Option<Accessor>)
    requires a.field.Complex?
    ensures r.None? <==> GetField(vs, a.field.ns, name).None?
    ensures r.Some? ==> r.value.path == a.path + [name] && Height(r.value.field) < Height(a.field)
    ensures r.Some? ==> r.value.field == GetField(vs, a.field.ns, name).value
  {
    match GetField(vs, a.field.ns, name)
    case None => None
    case Some(child) => Some(Accessor(a.path + [name], child))
  }

  /**
   * Composition on reading: a child of the villager reads the villager the parent reads, then the
   * child's attribute of it.
   */
  lemma ComposedGet(vs: VillagerSchema, parent: Accessor, name: string, t: Trade)
    requires parent.field.Complex? && parent.field.ns == VillagerSpace
    requires GetFieldWrapped(vs, parent, name).Some?
    ensures Readable(parent.field, t) && Readable(GetFieldWrapped(vs, parent, name).value.field, t)
    ensures Get(GetFieldWrapped(vs, parent, name).value, t) == AttributeValue(Get(parent, t).attributes, name)
  {
  }

  /**
   * Composition on writing: a writable child of the villager writes into the villager the parent
   * reads, and nothing but that attribute changes; a read-only child writes nothing.
   */
  lemma ComposedSet(vs: VillagerSchema, parent: Accessor, name: string, t: Trade, v: Value)
    requires parent.field.Complex? && parent.field.ns == VillagerSpace
    requires GetFieldWrapped(vs, parent, name).Some?
    requires Settable(GetFieldWrapped(vs, parent, name).value, t, v)
    ensures var c := GetFieldWrapped(vs, parent, name).value;
      Set(c, t, v) == if c.field.readOnly then t else t.(villager := Get(parent, t).attributes[name := v])
  {
  }

  /** getFieldWrapped on the root is the FIELDS table with the key as the path. */
  lemma WrappedRootChild(vs: VillagerSchema, name: string)
    ensures GetFieldWrapped(vs, ROOT_FIELD, name) ==
      if name in FIELDS then Some(Accessor([name], FIELDS[name])) else None
  {
    assert ROOT_FIELD.path + [name] == [name];
  }
}
