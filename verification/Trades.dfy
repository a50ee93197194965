/**
 * Plain records for the game objects the engine rewrites: an item stack, a merchant recipe
 * (one trade offer), the values a field can hold, the value types a field declares, and the
 * state a trade wrapper exposes. The live villager is an object, because every wrapper made
 * for it writes through to the same villager.
 */
module Trades {

  /** An item stack: what it is, how many, and how many fit in one stack. */
  datatype Item = Item(kind: string, amount: int, maxStackSize: int)

  /**
   * A trade offer: its ingredients (the host gives one or two; the type does not bound the count), its result, how often it has been used
   * and may be used, whether it rewards experience, how much experience it gives the villager,
   * and its price multiplier (zero when discounts are off).
   */
  datatype MerchantRecipe = MerchantRecipe(
    ingredients: seq<Item>,
    result: Item,
    uses: int,
    maxUses: int,
    experienceReward: bool,
    villagerExperience: int,
    priceMultiplier: real)

  /** The value type a field declares; it selects the grammar of its configuration text. */
  datatype Clazz = BooleanClass | IntegerClass | StringClass | ItemStackClass | OtherClass(simpleName: string)

  /** Class.getSimpleName, used in the "unsupported type" error. */
  function SimpleName(c: Clazz): string {
    match c
    case BooleanClass => "Boolean"
    case IntegerClass => "Integer"
    case StringClass => "String"
    case ItemStackClass => "ItemStack"
    case OtherClass(name) => name
  }

  /** A field's value, as the Java Object the transformers receive and return. */
  datatype Value =
    | BoolV(b: bool)
    | IntV(i: int)
    | StrV(s: string)
    | ItemV(item: Item)
    | VillagerV(attributes: map<string, Value>)
    | Null

  /** Whether v may stand in a variable of class c (a String may be null, an int or boolean not). */
  predicate Fits(v: Value, c: Clazz) {
    match c
    case BooleanClass => v.BoolV?
    case IntegerClass => v.IntV?
    case StringClass => v.StrV? || v.Null?
    case ItemStackClass => v.ItemV?
    case OtherClass(_) => true
  }

  /**
   * What a trade wrapper exposes: the state of its villager (named attributes), the offer, and
   * the pending-removal flag.
   */
  datatype Trade = Trade(villager: map<string, Value>, recipe: MerchantRecipe, remove: bool)

  /** An entity an event is about; only a villager has trades that the engine rewrites. */
  class Entity {
    const isVillager: bool
    var attributes: map<string, Value>
    var recipes: seq<MerchantRecipe>

    constructor (isVillager: bool, attributes: map<string, Value>, recipes: seq<MerchantRecipe>)
      ensures this.isVillager == isVillager && this.attributes == attributes && this.recipes == recipes
    {
      this.isVillager := isVillager;
      this.attributes := attributes;
      this.recipes := recipes;
    }
  }
}
