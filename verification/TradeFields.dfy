/**
 * The field table of a trade (Fields.FIELDS and Fields.ROOT_FIELD) and what reading and writing
 * each field does to the trade, including the split-or-cap rule for ingredients
 * (Fields.setIngredient). The trade wrapper is the mutable facade that the setters update.
 */
module TradeFields {
  import opened Trades

  /** The part of a trade a leaf field reads and writes. */
  datatype Slot =
    | ApplyDiscounts
    | MaxUses
    | Uses
    | AwardExperience
    | VillagerExperience
    | Ingredient(index: nat)
    | ResultStack
    | VillagerAttribute(name: string)

  /** The two namespaces of the table: the trade itself, and the villager nested in it. */
  datatype Namespace = TradeSpace | VillagerSpace

  /**
   * A field: a leaf with a value type and a slot, or a complex field exposing a namespace of
   * children. A field without a setter is read-only.
   */
  datatype Field =
    | Leaf(clazz: Clazz, slot: Slot, readOnly: bool)
    | Complex(clazz: Clazz, ns: Namespace, readOnly: bool)

  /**
   * A field reached from the trade: the names walked from the root, and the field found there.
   * Composing with a child (andThen) appends the child's name.
   */
  datatype Accessor = Accessor(path: seq<string>, field: Field)

  /** One field of the villager namespace. */
  datatype Attribute = Attribute(name: string, clazz: Clazz, readOnly: bool)

  /**
   * The villager namespace: its fields in listing order, and whether it lists them at all
   * (getFields may answer null).
   */
  datatype VillagerSchema = VillagerSchema(attributes: seq<Attribute>, listed: bool)

  /** The table of top-level fields, keyed by the name used in configuration. */
  const FIELDS: map<string, Field> := map[
    "apply-discounts" := Leaf(BooleanClass, ApplyDiscounts, false),
    "max-uses" := Leaf(IntegerClass, MaxUses, false),
    "uses" := Leaf(IntegerClass, Uses, false),
    "award-experience" := Leaf(BooleanClass, AwardExperience, false),
    "villager-experience" := Leaf(IntegerClass, VillagerExperience, false),
    "ingredient-0" := Leaf(ItemStackClass, Ingredient(0), false),
    "ingredient-1" := Leaf(ItemStackClass, Ingredient(1), false),
    "result" := Leaf(ItemStackClass, ResultStack, false),
    "villager" := Complex(OtherClass("Villager"), VillagerSpace, true)
  ]

  /** The keys of FIELDS in the order the table was built (the order its key set iterates). */
  const FIELD_NAMES: seq<string> := [
    "apply-discounts", "max-uses", "uses", "award-experience", "villager-experience",
    "ingredient-0", "ingredient-1", "result", "villager"
  ]

  /** The implicit root: the trade itself, complex, with no setter. */
  const ROOT_FIELD: Accessor := Accessor([], Complex(OtherClass("TradeWrapper"), TradeSpace, true))

  lemma FieldNamesAreTheTable()
    ensures forall k :: k in FIELD_NAMES <==> k in FIELDS
    ensures forall i, j :: 0 <= i < j < |FIELD_NAMES| ==> FIELD_NAMES[i] != FIELD_NAMES[j]
  {
  }

  function Min(a: int, b: int): int {
    if a <= b then a else b
  }

  /**
   * The ingredient list after writing stack into slot index. A stack over its maximum size is
   * never stored as is: in slot 0 it is split into a full stack and a second stack of at most
   * one more full stack in slot 1; in slot 1 it is cut down to a full stack.
   */
  function IngredientsAfterSet(index: nat, stacks: seq<Item>, stack: Item): (r: seq<Item>)
    requires index < |stacks|
    requires stack.amount > stack.maxStackSize ==> 2 <= |stacks|
    ensures |r| == |stacks|
    ensures forall j :: 0 <= j < |r| && j != index && j != 1 ==> r[j] == stacks[j]
    ensures stack.amount > stack.maxStackSize ==> r[1].amount <= stack.maxStackSize
  {
    if stack.amount > stack.maxStackSize then
      var clone := stack.(amount := stack.maxStackSize);
      if index == 0 then
        var remainder := Min(stack.amount - stack.maxStackSize, stack.maxStackSize);
        stacks[0 := clone][1 := stack.(amount := remainder)]
      else
        stacks[1 := clone]
    else
      stacks[index := stack]
  }

  /** The three cases of writing an ingredient. */
  lemma SetIngredientCases(index: nat, stacks: seq<Item>, stack: Item)
    requires index < |stacks|
    requires stack.amount > stack.maxStackSize ==> 2 <= |stacks|
    ensures stack.amount <= stack.maxStackSize ==>
      IngredientsAfterSet(index, stacks, stack) == stacks[index := stack]
    ensures stack.amount > stack.maxStackSize && index == 0 ==>
      IngredientsAfterSet(index, stacks, stack) == stacks[0 := stack.(amount := stack.maxStackSize)]
        [1 := stack.(amount := Min(stack.amount - stack.maxStackSize, stack.maxStackSize))]
    ensures stack.amount > stack.maxStackSize && index != 0 ==>
      IngredientsAfterSet(index, stacks, stack) == stacks[1 := stack.(amount := stack.maxStackSize)]
  {
  }

  /**
   * Splitting an oversized first ingredient keeps as many items as two full stacks can hold,
   * and both halves are the same kind of item as the stack written.
   */
  lemma SplitKeepsUpToTwoStacks(stacks: seq<Item>, stack: Item)
    requires 2 <= |stacks| && stack.amount > stack.maxStackSize
    ensures var r := IngredientsAfterSet(0, stacks, stack);
      && r[0].amount + r[1].amount == Min(stack.amount, 2 * stack.maxStackSize)
      && r[0].kind == r[1].kind == stack.kind
  {
  }

  /** Whether the setter of slot accepts v without a cast or unboxing failure. */
  predicate SlotTakes(slot: Slot, v: Value, clazz: Clazz) {
    match slot
    case ApplyDiscounts => v.BoolV?
    case AwardExperience => v.BoolV?
    case MaxUses => v.IntV?
    case Uses => v.IntV?
    case VillagerExperience => v.IntV?
    case Ingredient(_) => v.ItemV?
    case ResultStack => v.ItemV?
    case VillagerAttribute(_) => Fits(v, clazz)
  }

  /** Reading the field does not throw: an ingredient slot must exist; the root is never read. */
  predicate Readable(f: Field, t: Trade) {
    match f
    case Leaf(_, slot, _) => slot.Ingredient? ==> slot.index < |t.recipe.ingredients|
    case Complex(_, ns, _) => ns == VillagerSpace
  }

  /** Writing v through the field does not throw (a read-only field ignores every write). */
  predicate Settable(a: Accessor, t: Trade, v: Value) {
    a.field.readOnly ||
    (a.field.Leaf? && SlotTakes(a.field.slot, v, a.field.clazz) &&
     (a.field.slot.Ingredient? ==>
        a.field.slot.index < |t.recipe.ingredients| &&
        (v.item.amount > v.item.maxStackSize ==> 2 <= |t.recipe.ingredients|)))
  }

  /** An attribute as the villager's own getter reads it: null when the villager has none by that name. */
  function AttributeValue(attributes: map<string, Value>, name: string): Value {
    if name in attributes then attributes[name] else Null
  }

  /** The getter of the field, composed from the trade. */
  function Get(a: Accessor, t: Trade): Value
    requires Readable(a.field, t)
  {
    match a.field
    case Complex(_, _, _) => VillagerV(t.villager)
    case Leaf(_, slot, _) =>
      match slot
      case ApplyDiscounts => BoolV(t.recipe.priceMultiplier != 0.0)
      case MaxUses => IntV(t.recipe.maxUses)
      case Uses => IntV(t.recipe.uses)
      case AwardExperience => BoolV(t.recipe.experienceReward)
      case VillagerExperience => IntV(t.recipe.villagerExperience)
      case Ingredient(i) => ItemV(t.recipe.ingredients[i])
      case ResultStack => ItemV(t.recipe.result)
      case VillagerAttribute(n) => AttributeValue(t.villager, n)
  }

  /**
   * The setter of the field, composed from the trade. Writing the result builds a new recipe
   * that copies everything else from the old one.
   */
  function Set(a: Accessor, t: Trade, v: Value): Trade
    requires Settable(a, t, v)
  {
    if a.field.readOnly then t
    else
      var r := t.recipe;
      match a.field.slot
      case ApplyDiscounts => t.(recipe := r.(priceMultiplier := if v.b then 1.0 else 0.0))
      case MaxUses => t.(recipe := r.(maxUses := v.i))
      case Uses => t.(recipe := r.(uses := v.i))
      case AwardExperience => t.(recipe := r.(experienceReward := v.b))
      case VillagerExperience => t.(recipe := r.(villagerExperience := v.i))
      case Ingredient(i) => t.(recipe := r.(ingredients := IngredientsAfterSet(i, r.ingredients, v.item)))
      case ResultStack =>
        t.(recipe := MerchantRecipe(r.ingredients, v.item, r.uses, r.maxUses, r.experienceReward,
                                    r.villagerExperience, r.priceMultiplier))
      case VillagerAttribute(n) => t.(villager := t.villager[n := v])
  }

  /** The slots a write of v through a changes. */
  function Touched(a: Accessor, v: Value): set<Slot> {
    if a.field.readOnly || a.field.Complex? then {}
    else match a.field.slot
      case Ingredient(i) =>
        if v.ItemV? && v.item.amount > v.item.maxStackSize then
          (if i == 0 then {Ingredient(0), Ingredient(1)} else {Ingredient(1)})
        else {Ingredient(i)}
      case _ => {a.field.slot}
  }

  /** Writing the result replaces the result only: every other part of the recipe is copied over. */
  lemma SetResultKeepsRest(a: Accessor, t: Trade, v: Value)
    requires Settable(a, t, v) && a.field.Leaf? && a.field.slot == ResultStack && !a.field.readOnly
    ensures var r, prev := Set(a, t, v).recipe, t.recipe;
      && r.result == v.item && r.ingredients == prev.ingredients
      && r.uses == prev.uses && r.maxUses == prev.maxUses && r.experienceReward == prev.experienceReward
      && r.villagerExperience == prev.villagerExperience && r.priceMultiplier == prev.priceMultiplier
    ensures Set(a, t, v).villager == t.villager && Set(a, t, v).remove == t.remove
  {
  }

  /** Get after set: a leaf reads back what was written, unless an oversized stack was split. */
  lemma GetAfterSet(a: Accessor, t: Trade, v: Value)
    requires Settable(a, t, v) && a.field.Leaf? && !a.field.readOnly
    requires a.field.slot.Ingredient? ==> v.item.amount <= v.item.maxStackSize
    ensures Readable(a.field, Set(a, t, v))
    ensures Get(a, Set(a, t, v)) == v
  {
  }

  /** An oversized stack written to an ingredient slot reads back as a full stack. */
  lemma OversizedIngredientReadsFull(a: Accessor, t: Trade, v: Value)
    requires Settable(a, t, v) && a.field.Leaf? && !a.field.readOnly
    requires a.field.slot.Ingredient? && a.field.slot.index <= 1 && v.item.amount > v.item.maxStackSize
    ensures Readable(a.field, Set(a, t, v))
    ensures Get(a, Set(a, t, v)) == ItemV(v.item.(amount := v.item.maxStackSize))
  {
    SetIngredientCases(a.field.slot.index, t.recipe.ingredients, v.item);
  }

  /**
   * Only the touched slots change: every other leaf reads the same after the write, and the
   * removal flag is never written by a field.
   */
  lemma SetFrame(a: Accessor, b: Accessor, t: Trade, v: Value)
    requires Settable(a, t, v) && Readable(b.field, t)
    requires b.field.Leaf? && b.field.slot !in Touched(a, v)
    ensures Readable(b.field, Set(a, t, v))
    ensures Get(b, Set(a, t, v)) == Get(b, t)
    ensures Set(a, t, v).remove == t.remove
  {
    if !a.field.readOnly && a.field.slot.Ingredient? && b.field.slot.Ingredient? {
      var i, j := a.field.slot.index, b.field.slot.index;
      var stacks := t.recipe.ingredients;
      var r := IngredientsAfterSet(i, stacks, v.item);
      if v.item.amount > v.item.maxStackSize {
        assert j != 0 || i != 0;
        assert j != 1;
        assert r[j] == stacks[j];
      } else {
        assert j != i;
        assert r[j] == stacks[j];
      }
    }
  }

  /** Writing the same value twice is writing it once. */
  lemma SetIdempotent(a: Accessor, t: Trade, v: Value)
    requires Settable(a, t, v)
    ensures Settable(a, Set(a, t, v), v)
    ensures Set(a, Set(a, t, v), v) == Set(a, t, v)
  {
  }

  /**
   * The facade one trade offer is wrapped in while the rules run: the live villager it belongs to,
   * the offer (replaced when the result is written), and the pending-removal flag.
   */
  class TradeWrapper {
    const villager: Entity
    var recipe: MerchantRecipe
    var remove: bool

    constructor (villager: Entity, recipe: MerchantRecipe)
      ensures this.villager == villager && this.recipe == recipe && !remove
    {
      this.villager := villager;
      this.recipe := recipe;
      this.remove := false;
    }

    function State(): Trade
      reads this, villager
    {
      Trade(villager.attributes, recipe, remove)
    }

    /** Takes on a whole new state, as a rule's handler leaves it; the villager's offers stay. */
    method Assign(t: Trade)
      modifies this, villager
      ensures State() == t
      ensures villager.recipes == old(villager.recipes)
    {
      villager.attributes := t.villager;
      recipe := t.recipe;
      remove := t.remove;
    }

    /** Fields.setIngredient: copy the list, update one or two slots, store the copy. */
    method SetIngredient(index: nat, stack: Item)
      requires index < |recipe.ingredients|
      requires stack.amount > stack.maxStackSize ==> 2 <= |recipe.ingredients|
      modifies this
      ensures recipe == old(recipe).(ingredients := IngredientsAfterSet(index, old(recipe.ingredients), stack))
      ensures remove == old(remove)
    {
      var stacks := recipe.ingredients;
      if stack.amount > stack.maxStackSize {
        var clone := stack;
        if index == 0 {
          var remainder := Min(clone.amount - clone.maxStackSize, clone.maxStackSize);
          clone := clone.(amount := clone.maxStackSize);
          var extra := stack.(amount := remainder);
          stacks := stacks[0 := clone];
          stacks := stacks[1 := extra];
        } else {
          clone := clone.(amount := clone.maxStackSize);
          stacks := stacks[1 := clone];
        }
      } else {
        stacks := stacks[index := stack];
      }
      recipe := recipe.(ingredients := stacks);
    }

    /** Field.set on this wrapper: the setter of the field's slot, or nothing if it is read-only. */
    method SetField(a: Accessor, v: Value)
      requires Settable(a, State(), v)
      modifies this, villager
      ensures State() == Set(a, old(State()), v)
      ensures villager.recipes == old(villager.recipes)
    {
      if a.field.readOnly {
        return;
      }
      match a.field.slot
      case ApplyDiscounts =>
        recipe := recipe.(priceMultiplier := if v.b then 1.0 else 0.0);
      case MaxUses =>
        recipe := recipe.(maxUses := v.i);
      case Uses =>
        recipe := recipe.(uses := v.i);
      case AwardExperience =>
        recipe := recipe.(experienceReward := v.b);
      case VillagerExperience =>
        recipe := recipe.(villagerExperience := v.i);
      case Ingredient(i) =>
        SetIngredient(i, v.item);
      case ResultStack =>
        var oldRecipe := recipe;
        var newRecipe := MerchantRecipe(oldRecipe.ingredients, v.item, oldRecipe.uses, oldRecipe.maxUses,
                                        oldRecipe.experienceReward, oldRecipe.villagerExperience,
                                        oldRecipe.priceMultiplier);
        recipe := newRecipe;
      case VillagerAttribute(n) =>
        villager.attributes := villager.attributes[n := v];
    }
  }
}
