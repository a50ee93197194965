/**
 * The "set" action of a rule: compiling configuration text into a value transformer for a field
 * of a given type (ActionSet.getTransformer), compiling a nested configuration section into a
 * flat list of actions (ActionSet.parse), and running one action on a trade (ActionSet.accept).
 */
module ActionSet {
  import opened Wrappers
  import opened JavaStrings
  import opened Trades
  import opened TradeFields
  import opened ComplexField
  import opened Fields

  /**
   * A compiled value-to-value function: a constant, an integer operator applied to an Integer,
   * or an integer operator applied to the amount of a copy of an item stack.
   */
  datatype Transformer =
    | Constant(value: Value)
    | IntOperator(op: int -> int)
    | AmountOperator(op: int -> int)

  /** Whether applying the transformer to v succeeds (no unboxing or cast failure). */
  predicate Accepts(tr: Transformer, v: Value) {
    match tr
    case Constant(_) => true
    case IntOperator(_) => v.IntV?
    case AmountOperator(_) => v.ItemV?
  }

  /** The transformer applied to a field's current value. */
  function Apply(tr: Transformer, v: Value): (r: Value)
    requires Accepts(tr, v)
    ensures tr.Constant? ==> r == tr.value
    ensures tr.IntOperator? ==> r == IntV(tr.op(v.i))
    ensures tr.AmountOperator? ==> r.ItemV? && r.item.kind == v.item.kind && r.item.maxStackSize == v.item.maxStackSize
    ensures tr.AmountOperator? ==> r == ItemV(v.item.(amount := tr.op(v.item.amount)))
  {
    match tr
    case Constant(c) => c
    case IntOperator(op) => IntV(op(v.i))
    case AmountOperator(op) => ItemV(v.item.(amount := op(v.item.amount)))
  }

  /**
   * The transformer produces values of the field's type: an operator only for Integer or
   * ItemStack fields, a constant of the field's type or null.
   */
  predicate Typed(tr: Transformer, clazz: Clazz) {
    match tr
    case Constant(v) => Fits(v, clazz) || v.Null?
    case IntOperator(_) => clazz == IntegerClass
    case AmountOperator(_) => clazz == ItemStackClass
  }

  /** The message for a type the compiler does not handle. */
  function Unsupported(clazz: Clazz): string {
    "Don't know how to handle field of type " + SimpleName(clazz)
  }

  /**
   * getTransformer: a null input is the type's default (false, 0 or null); otherwise the trimmed
   * input is read by the grammar of the field's type. Operator expressions are recognised by ops,
   * whose grammar is not part of this model.
   */
  function GetTransformer(clazz: Clazz, input: Option<string>, ops: string -> Option<int -> int>): (r: Result<Transformer>)
    ensures r.Ok? ==> Typed(r.value, clazz)
    ensures input.None? ==> r.Ok? && r.value.Constant?
    ensures input.Some? && clazz.OtherClass? ==> r == Err(Unsupported(clazz))
  {
    if input.None? then
      Ok(Constant(match clazz
        case BooleanClass => BoolV(false)
        case IntegerClass => IntV(0)
        case _ => Null))
    else
      var trimmed := Trim(input.value);
      match clazz
      case BooleanClass => Ok(Constant(BoolV(ParseBoolean(trimmed))))
      case StringClass => Ok(Constant(StrV(trimmed)))
      case IntegerClass =>
        (match ops(trimmed)
         case Some(f) => Ok(IntOperator(f))
         case None =>
           match ParseInt(trimmed)
           case Some(n) => Ok(Constant(IntV(n)))
           case None => Err("Invalid comparison expression or integer " + trimmed))
      case ItemStackClass =>
        if StartsWith(trimmed, "amount") then
          match ops(Trim(trimmed[6..]))
          case Some(f) => Ok(AmountOperator(f))
          case None => Err("Invalid comparison expression " + trimmed)
        else Err(Unsupported(clazz))
      case OtherClass(_) => Err(Unsupported(clazz))
  }

  /** A null input gives the type's default: false for Boolean, 0 for Integer, null otherwise. */
  lemma NullInputDefaults(clazz: Clazz, ops: string -> Option<int -> int>)
    ensures var r := GetTransformer(clazz, None, ops);
      && (clazz == BooleanClass ==> r == Ok(Constant(BoolV(false))))
      && (clazz == IntegerClass ==> r == Ok(Constant(IntV(0))))
      && (clazz != BooleanClass && clazz != IntegerClass ==> r == Ok(Constant(Null)))
  {
  }

  /**
   * A Boolean input is the constant true exactly when the trimmed text spells "true" in any case,
   * and false otherwise; a String input is the constant trimmed text.
   */
  lemma BooleanAndStringInputs(text: string, ops: string -> Option<int -> int>)
    ensures GetTransformer(BooleanClass, Some(text), ops) == Ok(Constant(BoolV(ParseBoolean(Trim(text)))))
    ensures GetTransformer(BooleanClass, Some(text), ops) == Ok(Constant(BoolV(true))) <==>
      (|Trim(text)| == 4 && forall i :: 0 <= i < 4 ==> LowerAscii(Trim(text)[i]) == "true"[i])
    ensures GetTransformer(StringClass, Some(text), ops) == Ok(Constant(StrV(Trim(text))))
  {
  }

  /**
   * An Integer input is tried as an operator expression first, then as a literal int, and is an
   * error only when it is neither.
   */
  lemma IntegerAttemptOrder(text: string, ops: string -> Option<int -> int>)
    ensures var t := Trim(text); var r := GetTransformer(IntegerClass, Some(text), ops);
      && (ops(t).Some? ==> r == Ok(IntOperator(ops(t).value)))
      && (ops(t).None? && ParseInt(t).Some? ==> r == Ok(Constant(IntV(ParseInt(t).value))))
      && (ops(t).None? && ParseInt(t).None? ==> r == Err("Invalid comparison expression or integer " + t))
  {
  }

  /** Any Java int written in decimal compiles to that constant when it is not an operator expression. */
  lemma IntegerLiteralInput(n: nat, ops: string -> Option<int -> int>)
    requires n <= INT_MAX && ops(Decimal(n)).None?
    ensures GetTransformer(IntegerClass, Some(Decimal(n)), ops) == Ok(Constant(IntV(n)))
  {
    ParseIntRoundTrip(n);
    var ds := Decimal(n);
    assert LeadingTrimmable(ds) == 0;
    assert TrailingTrimmable(ds) == 0;
    assert Trim(ds) == ds;
  }

  /**
   * An ItemStack input must start with "amount" and the trimmed rest must be an operator
   * expression; the result rewrites only the amount. Any other text is an unsupported type.
   */
  lemma ItemStackAmountOnly(text: string, ops: string -> Option<int -> int>)
    ensures var t := Trim(text); var r := GetTransformer(ItemStackClass, Some(text), ops);
      && (r.Ok? <==> StartsWith(t, "amount") && ops(Trim(t[6..])).Some?)
      && (r.Ok? ==> r.value == AmountOperator(ops(Trim(t[6..])).value))
      && (!StartsWith(t, "amount") ==> r == Err(Unsupported(ItemStackClass)))
      && (StartsWith(t, "amount") && ops(Trim(t[6..])).None? ==> r == Err("Invalid comparison expression " + t))
  {
  }

  /** A constant transformer applied twice gives what it gave once. */
  lemma ConstantIdempotent(tr: Transformer, v: Value)
    requires tr.Constant?
    ensures Apply(tr, Apply(tr, v)) == Apply(tr, v)
  {
  }

  /** A typed transformer keeps a value of the field's type in that type (or makes it null). */
  lemma TypedPreservesFit(tr: Transformer, clazz: Clazz, v: Value)
    requires Typed(tr, clazz) && Fits(v, clazz) && Accepts(tr, v)
    ensures Fits(Apply(tr, v), clazz) || Apply(tr, v).Null?
  {
  }

  /** One compiled "set" action: a description, the field it writes, and the transformer. */
  datatype ActionSet = ActionSet(desc: string, field: Accessor, transformer: Transformer)

  /** What accept needs not to throw: the field reads, the transformer takes it, the setter takes the result. */
  predicate CanApply(a: ActionSet, t: Trade) {
    && Readable(a.field.field, t)
    && Accepts(a.transformer, Get(a.field, t))
    && Settable(a.field, t, Apply(a.transformer, Get(a.field, t)))
  }

  /** accept on a trade: read the field, transform the value, write it back through the same field. */
  function ApplyAction(a: ActionSet, t: Trade): Trade
    requires CanApply(a, t)
  {
    Set(a.field, t, Apply(a.transformer, Get(a.field, t)))
  }

  /** accept, on the trade wrapper. */
  method Accept(a: ActionSet, trade: TradeWrapper)
    requires CanApply(a, trade.State())
    modifies trade, trade.villager
    ensures trade.State() == ApplyAction(a, old(trade.State()))
    ensures trade.villager.recipes == old(trade.villager.recipes)
  {
    var oldValue := Get(a.field, trade.State());
    var newValue := Apply(a.transformer, oldValue);
    trade.SetField(a.field, newValue);
  }

  /**
   * An action with a constant transformer on a leaf is idempotent: running it twice leaves the
   * trade as running it once.
   */
  lemma ConstantActionIdempotent(a: ActionSet, t: Trade)
    requires a.transformer.Constant? && CanApply(a, t)
    ensures CanApply(a, ApplyAction(a, t))
    ensures ApplyAction(a, ApplyAction(a, t)) == ApplyAction(a, t)
  {
    var v := a.transformer.value;
    SetIdempotent(a.field, t, v);
    var t1 := Set(a.field, t, v);
    if !a.field.field.readOnly {
      assert Readable(a.field.field, t1) by {
        if a.field.field.Leaf? && a.field.field.slot.Ingredient? {
          assert |t1.recipe.ingredients| == |t.recipe.ingredients|;
        }
      }
    }
  }

  /**
   * An action changes only the slots its field's write touches: every other leaf reads the same,
   * and the removal flag is untouched.
   */
  lemma ActionFrame(a: ActionSet, t: Trade, b: Accessor)
    requires CanApply(a, t) && Readable(b.field, t) && b.field.Leaf?
    requires b.field.slot !in Touched(a.field, Apply(a.transformer, Get(a.field, t)))
    ensures Readable(b.field, ApplyAction(a, t)) && Get(b, ApplyAction(a, t)) == Get(b, t)
    ensures ApplyAction(a, t).remove == t.remove
  {
    SetFrame(a.field, b, t, Apply(a.transformer, Get(a.field, t)));
  }

  /** A configuration value: a nested section, a scalar (as its text), or null. */
  datatype ConfigValue = Section(entries: seq<Entry>) | Scalar(text: string) | NullValue

  /** One key of a section with its value, in the order the section lists them. */
  datatype Entry = Entry(key: string, value: ConfigValue)

  /** The value's toString, as it appears in an action's description. */
  function Describe(v: ConfigValue): string {
    match v
    case Scalar(text) => text
    case NullValue => "null"
    case Section(_) => "{...}"
  }

  /** What a parse yields: the actions in order, and the warnings logged on the way. */
  datatype Compiled = Compiled(actions: seq<ActionSet>, warnings: seq<string>)

  /** Every action is reached from base and carries a transformer typed for its field. */
  predicate WellCompiled(vs: VillagerSchema, base: Accessor, actions: seq<ActionSet>) {
    forall i :: 0 <= i < |actions| ==>
      Reached(vs, base, actions[i].field) && Typed(actions[i].transformer, actions[i].field.field.clazz)
  }

  /**
   * The private parse over a section: the entries in order, each compiled on its own and the
   * results concatenated. A transformer error aborts the whole parse.
   */
  function ParseEntries(vs: VillagerSchema, ops: string -> Option<int -> int>, base: Option<Accessor>,
                        baseName: string, entries: seq<Entry>): (r: Result<Compiled>)
    requires base.Some? ==> base.value.field.Complex?
    ensures r.Ok? ==> WellCompiled(vs, Start(base), r.value.actions)
    decreases entries, 2
  {
    if entries == [] then Ok(Compiled([], []))
    else Then(ParseEntry(vs, ops, base, baseName, entries[0]), ParseEntries(vs, ops, base, baseName, entries[1..]))
  }

  /** One result followed by another: the first error wins, otherwise actions and warnings concatenate. */
  function Then(first: Result<Compiled>, second: Result<Compiled>): Result<Compiled> {
    match first
    case Err(msg) => Err(msg)
    case Ok(a) =>
      match second
      case Err(msg) => Err(msg)
      case Ok(b) => Ok(Compiled(a.actions + b.actions, a.warnings + b.warnings))
  }

  lemma ThenAssociates(a: Result<Compiled>, b: Result<Compiled>, c: Result<Compiled>)
    ensures Then(a, Then(b, c)) == Then(Then(a, b), c)
  {
    if a.Ok? && b.Ok? && c.Ok? {
      assert a.value.actions + (b.value.actions + c.value.actions) == (a.value.actions + b.value.actions) + c.value.actions;
      assert a.value.warnings + (b.value.warnings + c.value.warnings) == (a.value.warnings + b.value.warnings) + c.value.warnings;
    }
  }

  lemma ThenEmpty(r: Result<Compiled>)
    ensures Then(Ok(Compiled([], [])), r) == r
  {
    if r.Ok? {
      assert [] + r.value.actions == r.value.actions && [] + r.value.warnings == r.value.warnings;
    }
  }

  /** One entry: a key that does not resolve is skipped with a warning; otherwise see ParseResolved. */
  function ParseEntry(vs: VillagerSchema, ops: string -> Option<int -> int>, base: Option<Accessor>,
                      baseName: string, e: Entry): (r: Result<Compiled>)
    requires base.Some? ==> base.value.field.Complex?
    ensures r.Ok? ==> WellCompiled(vs, Start(base), r.value.actions)
    decreases e, 1
  {
    var found := Resolve(vs, base, e.key, true);
    if found.Err? then Ok(Compiled([], [found.error + "! Skipping."]))
    else
      var name := if base.Some? then baseName + "." + e.key else e.key;
      var r := ParseResolved(vs, ops, name, found.value, e.value);
      ResolveReaches(vs, base, e.key, true);
      if r.Ok? then
        NestedReached(vs, Start(base), found.value, r.value.actions);
        r
      else r
  }

  /**
   * An entry whose key resolved to f, named name: a section on a leaf is skipped with a warning;
   * a section on a complex field is parsed with f as the base; anything else is one action.
   */
  function ParseResolved(vs: VillagerSchema, ops: string -> Option<int -> int>, name: string, f: Accessor,
                         v: ConfigValue): (r: Result<Compiled>)
    ensures r.Ok? ==> WellCompiled(vs, f, r.value.actions)
    decreases v, 0
  {
    match v
    case Section(inner) =>
      if f.field.Leaf? then Ok(Compiled([], ["Field " + name + " does not have inner fields! Skipping."]))
      else ParseEntries(vs, ops, Some(f), name, inner)
    case _ =>
      var r := CompileScalar(ops, name, f, v);
      ReachedSelf(vs, f);
      r
  }

  /** A scalar (or null) on field f: a warning if f is read-only, then its one action or the transformer's error. */
  function CompileScalar(ops: string -> Option<int -> int>, name: string, f: Accessor, v: ConfigValue): (r: Result<Compiled>)
    requires !v.Section?
    ensures var tr := GetTransformer(f.field.clazz, if v.Scalar? then Some(v.text) else None, ops);
      && (r.Ok? <==> tr.Ok?)
      && (r.Ok? ==> r.value.actions == [ActionSet(name + " to " + Describe(v), f, tr.value)])
      && (r.Ok? && f.field.readOnly ==>
            r.value.warnings == ["Field " + name + " is read-only! Assigning new values to it will have no effect."])
      && (r.Ok? && !f.field.readOnly ==> r.value.warnings == [])
  {
    var warnings := if f.field.readOnly then ["Field " + name + " is read-only! Assigning new values to it will have no effect."] else [];
    var input := if v.Scalar? then Some(v.text) else None;
    match GetTransformer(f.field.clazz, input, ops)
    case Err(msg) => Err(msg)
    case Ok(tr) => Ok(Compiled([ActionSet(name + " to " + Describe(v), f, tr)], warnings))
  }

  /** Actions well compiled below f, with f reached from base, are well compiled below base. */
  lemma NestedReached(vs: VillagerSchema, base: Accessor, f: Accessor, actions: seq<ActionSet>)
    requires Reached(vs, base, f) && WellCompiled(vs, f, actions)
    ensures WellCompiled(vs, base, actions)
  {
    forall i | 0 <= i < |actions|
      ensures Reached(vs, base, actions[i].field)
    {
      ReachedTrans(vs, base, f, actions[i].field);
    }
  }

  /** Every field is reached from itself. */
  lemma ReachedSelf(vs: VillagerSchema, f: Accessor)
    ensures Reached(vs, f, f)
  {
    assert f.path[|f.path|..] == [];
  }

  /** The public parse: a top-level section, resolved from the root. */
  function Parse(vs: VillagerSchema, ops: string -> Option<int -> int>, entries: seq<Entry>): (r: Result<Compiled>)
    ensures r.Ok? ==> WellCompiled(vs, ROOT_FIELD, r.value.actions)
  {
    ParseEntries(vs, ops, None, "", entries)
  }

  /**
   * The output is flat and in entry order: parsing two runs of entries is parsing each and
   * concatenating, and the first error wins.
   */
  lemma {:induction false} ParseAppend(vs: VillagerSchema, ops: string -> Option<int -> int>, base: Option<Accessor>,
                                       baseName: string, xs: seq<Entry>, ys: seq<Entry>)
    requires base.Some? ==> base.value.field.Complex?
    ensures ParseEntries(vs, ops, base, baseName, xs + ys) ==
      Then(ParseEntries(vs, ops, base, baseName, xs), ParseEntries(vs, ops, base, baseName, ys))
    decreases |xs|
  {
    if xs == [] {
      assert xs + ys == ys;
      ThenEmpty(ParseEntries(vs, ops, base, baseName, ys));
    } else {
      assert (xs + ys)[0] == xs[0];
      assert (xs + ys)[1..] == xs[1..] + ys;
      ParseAppend(vs, ops, base, baseName, xs[1..], ys);
      ThenAssociates(ParseEntry(vs, ops, base, baseName, xs[0]), ParseEntries(vs, ops, base, baseName, xs[1..]),
                     ParseEntries(vs, ops, base, baseName, ys));
    }
  }

  /** A key that does not resolve yields no action, one warning, and its siblings are still parsed. */
  lemma SkipUnresolved(vs: VillagerSchema, ops: string -> Option<int -> int>, base: Option<Accessor>,
                       baseName: string, e: Entry, rest: seq<Entry>)
    requires base.Some? ==> base.value.field.Complex?
    requires Resolve(vs, base, e.key, true).Err?
    ensures ParseEntry(vs, ops, base, baseName, e) == Ok(Compiled([], [Resolve(vs, base, e.key, true).error + "! Skipping."]))
    ensures var r := ParseEntries(vs, ops, base, baseName, rest);
      ParseEntries(vs, ops, base, baseName, [e] + rest) ==
        if r.Err? then r
        else Ok(Compiled(r.value.actions, [Resolve(vs, base, e.key, true).error + "! Skipping."] + r.value.warnings))
  {
    ParseEntriesCons(vs, ops, base, baseName, e, rest);
    var r := ParseEntries(vs, ops, base, baseName, rest);
    if r.Ok? {
      assert [] + r.value.actions == r.value.actions;
    }
  }

  /** A section on a leaf field yields no action and one warning. */
  lemma SkipSectionOnLeaf(vs: VillagerSchema, ops: string -> Option<int -> int>, base: Option<Accessor>,
                          baseName: string, key: string, inner: seq<Entry>)
    requires base.Some? ==> base.value.field.Complex?
    requires Resolve(vs, base, key, true).Ok? && Resolve(vs, base, key, true).value.field.Leaf?
    ensures var name := if base.Some? then baseName + "." + key else key;
      ParseEntry(vs, ops, base, baseName, Entry(key, Section(inner))) ==
        Ok(Compiled([], ["Field " + name + " does not have inner fields! Skipping."]))
  {
  }

  /** A section on a complex field is the parse of the inner section, based on that field and named under it. */
  lemma NestedSection(vs: VillagerSchema, ops: string -> Option<int -> int>, base: Option<Accessor>,
                      baseName: string, key: string, inner: seq<Entry>)
    requires base.Some? ==> base.value.field.Complex?
    requires Resolve(vs, base, key, true).Ok? && Resolve(vs, base, key, true).value.field.Complex?
    ensures var name := if base.Some? then baseName + "." + key else key;
      ParseEntry(vs, ops, base, baseName, Entry(key, Section(inner))) ==
        ParseEntries(vs, ops, Some(Resolve(vs, base, key, true).value), name, inner)
  {
  }

  /**
   * A scalar on a resolved field is compiled by CompileScalar under its full name: one action
   * on that field, also when the field is read-only, or the transformer's error.
   */
  lemma ScalarEntry(vs: VillagerSchema, ops: string -> Option<int -> int>, base: Option<Accessor>,
                    baseName: string, key: string, v: ConfigValue)
    requires base.Some? ==> base.value.field.Complex?
    requires Resolve(vs, base, key, true).Ok? && !v.Section?
    ensures var name := if base.Some? then baseName + "." + key else key;
      ParseEntry(vs, ops, base, baseName, Entry(key, v)) == CompileScalar(ops, name, Resolve(vs, base, key, true).value, v)
  {
  }

  /** A transformer error in any entry aborts the parse of every section containing it after well-parsed entries. */
  lemma TransformerErrorAborts(vs: VillagerSchema, ops: string -> Option<int -> int>, base: Option<Accessor>,
                               baseName: string, before: seq<Entry>, e: Entry, after: seq<Entry>)
    requires base.Some? ==> base.value.field.Complex?
    requires ParseEntry(vs, ops, base, baseName, e).Err?
    ensures ParseEntries(vs, ops, base, baseName, before + [e] + after).Err?
    ensures ParseEntries(vs, ops, base, baseName, before).Ok? ==>
      ParseEntries(vs, ops, base, baseName, before + [e] + after) == ParseEntry(vs, ops, base, baseName, e)
  {
    ParseAppend(vs, ops, base, baseName, before, [e] + after);
    assert before + [e] + after == before + ([e] + after);
    ParseEntriesCons(vs, ops, base, baseName, e, after);
  }

  /** A section starting with e: e's result, then the rest's. */
  lemma ParseEntriesCons(vs: VillagerSchema, ops: string -> Option<int -> int>, base: Option<Accessor>,
                         baseName: string, e: Entry, rest: seq<Entry>)
    requires base.Some? ==> base.value.field.Complex?
    ensures ParseEntries(vs, ops, base, baseName, [e] + rest) ==
      Then(ParseEntry(vs, ops, base, baseName, e), ParseEntries(vs, ops, base, baseName, rest))
  {
    assert ([e] + rest)[0] == e && ([e] + rest)[1..] == rest;
  }
}
