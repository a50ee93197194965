# BalancedVillagerTrades: the trade-rewriting engine, in Dafny

BalancedVillagerTrades is a server plugin that rewrites the offers ("trades") of villagers.
Configured rules select offers and apply actions to them. Each action names a field of the offer
by a dotted path, such as `max-uses` or `villager.type`, and gives a new value or an operator
expression for it. This project models the engine behind that, in four parts.

- **The field registry and the path resolver** (`Fields.java`, modules `TradeFields` and `Fields`).
  - `FIELDS` is the table of named, typed fields of a trade.
  - `ROOT_FIELD` is the implicit root whose children are the table.
  - `findField` walks a dotted path through the namespace tree. It fails at the first segment that
    cannot be followed, and the error names the prefix resolved so far.
  - `listFields` flattens the tree into a map from full path to leaf.
  - `setIngredient` splits an oversized first ingredient and caps an oversized second one.
  - The mutable trade wrapper is the class `TradeFields.TradeWrapper`, whose `SetField` is the
    setter of every field.
- **Child lookup and composition** (`ComplexField.java`, module `ComplexField`). `getField` looks
  a child up in a complex field's namespace. `getFieldWrapped` composes that child onto the
  accessor that reached the parent, or answers null.
- **The action compiler** (`ActionSet.java`, module `ActionSet`).
  - `getTransformer` turns a configuration string into a value-to-value transformer. The dispatch
    is by the field's type.
  - `parse` turns a nested configuration section into a flat, ordered list of actions plus the
    warnings it logs.
  - `accept` reads a field, transforms the value and writes it back.
- **The rule loops** (`Events.java`, module `Events`).
  - `onNewTrade` runs every rule on a wrapper around a new offer. A removed offer cancels the event.
  - `onInteract` runs every rule on a fresh wrapper for each existing offer. It rebuilds the
    villager's list from a copy and writes it back once.

Supporting modules:

- `Wrappers` holds `Option` and `Result`.
- `JavaStrings` holds the Java library behaviour the code relies on:
  - `String.trim`;
  - `String.split("\\.")`, including the dropping of trailing empty strings;
  - `Boolean.parseBoolean`;
  - `Integer.parseInt`.
- `Trades` holds the plain records that stand for the host's objects: items, recipes, field
  values, value classes and the villager entity.

A rule flagged `ignore-removed` is skipped once the offer is removed. The `continue` at
`Events.java:29-30` comes before `shouldHandle`, so that rule's predicate is never evaluated.
`Events.RunRules` reports, rule by rule, whether the predicate was evaluated, and
`Events.ConsultedIff` states when it is.

## Model

| member | source | states |
|---|---|---|
| JavaStrings.LeadingTrimmable | src/main/java/com/jacky8399/balancedvillagertrades/actions/ActionSet.java:88 | the count of leading characters `trim` removes: all of them are at most a space, and the next one is not |
| JavaStrings.TrailingTrimmable | src/main/java/com/jacky8399/balancedvillagertrades/actions/ActionSet.java:88 | the same for the trailing characters |
| JavaStrings.Trim | src/main/java/com/jacky8399/balancedvillagertrades/actions/ActionSet.java:88 | `trim` gives the contiguous middle of the input. Only characters at most a space are cut from either end, and the result neither starts nor ends with one |
| JavaStrings.TrimIdempotent | src/main/java/com/jacky8399/balancedvillagertrades/actions/ActionSet.java:88 | trimming twice is trimming once |
| JavaStrings.ParseBooleanExamples | src/main/java/com/jacky8399/balancedvillagertrades/actions/ActionSet.java:90 | `parseBoolean` accepts "true" in any case and rejects "yes", "1", " true" and "" |
| JavaStrings.ParseBoolean | src/main/java/com/jacky8399/balancedvillagertrades/actions/ActionSet.java:90 | `Boolean.parseBoolean`: true exactly when the text is four letters spelling "true" in any mix of cases |
| JavaStrings.ParseInt | src/main/java/com/jacky8399/balancedvillagertrades/actions/ActionSet.java:98 | `parseInt` succeeds only on text starting with a digit or a sign, and only within the 32-bit range |
| JavaStrings.Decimal | src/main/java/com/jacky8399/balancedvillagertrades/actions/ActionSet.java:98 | the decimal text of a number is a non-empty run of digits |
| JavaStrings.DecimalValue | src/main/java/com/jacky8399/balancedvillagertrades/actions/ActionSet.java:98 | the digits of the decimal text of n have the value n |
| JavaStrings.ParseIntRoundTrip | src/main/java/com/jacky8399/balancedvillagertrades/actions/ActionSet.java:98 | every 32-bit integer's decimal text, with "-" for a negative one, parses back to that integer |
| JavaStrings.SplitAll | src/main/java/com/jacky8399/balancedvillagertrades/utils/fields/Fields.java:82 | splitting at every dot gives at least one piece, and no piece contains a dot |
| JavaStrings.SplitAllJoin | src/main/java/com/jacky8399/balancedvillagertrades/utils/fields/Fields.java:82 | joining the pieces with dots gives the path back |
| JavaStrings.DropTrailingEmpty | src/main/java/com/jacky8399/balancedvillagertrades/utils/fields/Fields.java:82 | the result is a prefix of the pieces. Only empty pieces are dropped, and the last piece kept is non-empty |
| JavaStrings.SplitOnDots | src/main/java/com/jacky8399/balancedvillagertrades/utils/fields/Fields.java:82 | `split("\\.")`: no segment has a dot, and a path without a dot is its only segment. Otherwise trailing empty segments are removed |
| JavaStrings.SplitOnDotsRejoin | src/main/java/com/jacky8399/balancedvillagertrades/utils/fields/Fields.java:82 | the segments are the dot-pieces of the path minus trailing empty ones, and the pieces rejoin to the path |
| JavaStrings.SplitAllNoDot | src/main/java/com/jacky8399/balancedvillagertrades/utils/fields/Fields.java:82 | a path without a dot is one piece |
| JavaStrings.SplitAllFirstDot | src/main/java/com/jacky8399/balancedvillagertrades/utils/fields/Fields.java:82 | splitting at the first dot and then splitting the rest gives the same pieces |
| JavaStrings.SplitDotOnlyExample | src/main/java/com/jacky8399/balancedvillagertrades/utils/fields/Fields.java:82 | "." splits into no segments at all |
| TradeFields.FieldNamesAreTheTable | src/main/java/com/jacky8399/balancedvillagertrades/utils/fields/Fields.java:17-51 | the listed names are exactly the keys of `FIELDS`, without repetition |
| TradeFields.FIELDS | src/main/java/com/jacky8399/balancedvillagertrades/utils/fields/Fields.java:17-51 | the table: five boolean and integer recipe fields, two ingredient slots, the result, and the read-only complex `villager` |
| TradeFields.ROOT_FIELD | src/main/java/com/jacky8399/balancedvillagertrades/utils/fields/Fields.java:53-69 | the root: the trade itself, complex, read-only, whose namespace is the table |
| TradeFields.IngredientsAfterSet | src/main/java/com/jacky8399/balancedvillagertrades/utils/fields/Fields.java:132-151 | writing an ingredient keeps the list length and leaves every slot but the written one and slot 1 alone. An oversized stack never leaves more than a full stack in slot 1 |
| TradeFields.SetIngredientCases | src/main/java/com/jacky8399/balancedvillagertrades/utils/fields/Fields.java:134-148 | the three cases of `setIngredient`. A stack within its size replaces only its own slot. An oversized first stack becomes a full stack in slot 0 and `min(amount - max, max)` in slot 1. An oversized second stack is capped in slot 1 |
| TradeFields.SplitKeepsUpToTwoStacks | src/main/java/com/jacky8399/balancedvillagertrades/utils/fields/Fields.java:136-142 | splitting an oversized first stack keeps its kind in both slots, and the two amounts add up to the original capped at two full stacks |
| TradeFields.SetResultKeepsRest | src/main/java/com/jacky8399/balancedvillagertrades/utils/fields/Fields.java:39-49 | writing `result` builds a recipe that copies the ingredients, uses, max uses, experience flag, villager experience and price multiplier |
| TradeFields.GetAfterSet | src/main/java/com/jacky8399/balancedvillagertrades/utils/fields/Fields.java:18-38 | every writable leaf reads back the value written to it. This includes `apply-discounts`, whose multiplier is set to 1 or 0 and read as non-zero. A stack within its size written to an ingredient also reads back |
| TradeFields.OversizedIngredientReadsFull | src/main/java/com/jacky8399/balancedvillagertrades/utils/fields/Fields.java:134-146 | an oversized stack written to ingredient 0 or 1 reads back as a full stack |
| TradeFields.SetFrame | src/main/java/com/jacky8399/balancedvillagertrades/utils/fields/Fields.java:17-51 | a write changes only the slots it touches, and never the removal flag |
| TradeFields.SetIdempotent | src/main/java/com/jacky8399/balancedvillagertrades/utils/fields/Fields.java:17-51 | writing the same value twice is writing it once |
| TradeFields.Get | src/main/java/com/jacky8399/balancedvillagertrades/utils/fields/Fields.java:17-50 | each field's getter: `apply-discounts` reads the multiplier as non-zero, the other recipe fields read their attribute, an ingredient reads its slot, the villager reads its attributes |
| TradeFields.Set | src/main/java/com/jacky8399/balancedvillagertrades/utils/fields/Fields.java:17-49 | each field's setter: the multiplier becomes 1 or 0, a recipe attribute is replaced, an ingredient goes through the split-or-cap rule, the result gets a copied recipe; a read-only field writes nothing |
| TradeFields.TradeWrapper.Assign | src/main/java/com/jacky8399/balancedvillagertrades/Events.java:31-32 | a rule's effect replaces the wrapper's whole state, and the villager's offers stay as they were |
| TradeFields.TradeWrapper.SetIngredient | src/main/java/com/jacky8399/balancedvillagertrades/utils/fields/Fields.java:132-151 | the wrapper's recipe gets the ingredient list the split-or-cap rule gives from the old list. Nothing else changes |
| TradeFields.TradeWrapper.SetField | src/main/java/com/jacky8399/balancedvillagertrades/utils/fields/Fields.java:17-51 | the wrapper's state becomes the write of the value through the field, and the villager's offers are untouched |
| ComplexField.FindAttribute | src/main/java/com/jacky8399/balancedvillagertrades/utils/ComplexField.java:13-14 | the first attribute with the name, or none when no attribute has it |
| ComplexField.GetField | src/main/java/com/jacky8399/balancedvillagertrades/utils/ComplexField.java:13-14 | a child is found in the trade namespace iff the name is a key of `FIELDS`, and in the villager namespace iff an attribute has that name. A child is always lower in the tree |
| ComplexField.RootChildrenAreTheTable | src/main/java/com/jacky8399/balancedvillagertrades/utils/fields/Fields.java:53-63 | the root's children are exactly the entries of `FIELDS`, and it lists exactly those keys whatever the context |
| ComplexField.ListedNamesResolve | src/main/java/com/jacky8399/balancedvillagertrades/utils/fields/Fields.java:115-119 | every name a complex field lists is one of its children |
| ComplexField.Listing | src/main/java/com/jacky8399/balancedvillagertrades/utils/fields/Fields.java:61-63 | `getFields`: the root lists the keys of the table; the villager lists its attribute names, or null when it does not list them |
| ComplexField.GetFieldWrapped | src/main/java/com/jacky8399/balancedvillagertrades/utils/ComplexField.java:17-20 | null exactly when `getField` is null. Otherwise the result is that child, reached by the parent's path extended by the name |
| ComplexField.ComposedGet | src/main/java/com/jacky8399/balancedvillagertrades/utils/ComplexField.java:19 | reading a composed villager child reads the parent's villager, then the child's attribute of it |
| ComplexField.ComposedSet | src/main/java/com/jacky8399/balancedvillagertrades/utils/ComplexField.java:19 | writing a composed villager child writes that attribute of the parent's villager and nothing else; a read-only child writes nothing |
| ComplexField.WrappedRootChild | src/main/java/com/jacky8399/balancedvillagertrades/utils/fields/Fields.java:56-58 | a child of the root is the `FIELDS` entry with its key as path, or null |
| Fields.FindField | src/main/java/com/jacky8399/balancedvillagertrades/utils/fields/Fields.java:72-100 | the loop that walks the segments and grows `pathName` computes `Fields.Resolve` |
| Fields.Resolve | src/main/java/com/jacky8399/balancedvillagertrades/utils/fields/Fields.java:72-100 | `findField` as a function: one lookup in non-recursive mode, otherwise the walk over the split path, refusing the root itself |
| Fields.Walk | src/main/java/com/jacky8399/balancedvillagertrades/utils/fields/Fields.java:85-95 | the segment loop with its two error messages and the growing prefix name |
| Fields.Descend | src/main/java/com/jacky8399/balancedvillagertrades/utils/fields/Fields.java:85-95 | the same walk without messages: one child lookup per segment, failing on a leaf or a missing child |
| Fields.Start | src/main/java/com/jacky8399/balancedvillagertrades/utils/fields/Fields.java:73-74 | a null root stands for `ROOT_FIELD` |
| Fields.DottedSnoc | src/main/java/com/jacky8399/balancedvillagertrades/utils/fields/Fields.java:84-94 | appending ".segment" after each step keeps the path name equal to "root" followed by the segments walked so far, as `Fields.FindField`'s loop invariant states |
| Fields.DottedPrefixStep | src/main/java/com/jacky8399/balancedvillagertrades/utils/fields/Fields.java:84-94 | the name of the first i + 1 segments is the name of the first i followed by ".segment i", the step that keeps `FindField`'s `pathName` invariant |
| Fields.WalkIsDescend | src/main/java/com/jacky8399/balancedvillagertrades/utils/fields/Fields.java:85-95 | the walk succeeds iff the child-by-child descent succeeds, with the same field |
| Fields.DescendPath | src/main/java/com/jacky8399/balancedvillagertrades/utils/fields/Fields.java:85-95 | a field found by descending has the start's path extended by the segments |
| Fields.DescendAppend | src/main/java/com/jacky8399/balancedvillagertrades/utils/fields/Fields.java:85-95 | descending along two runs of segments is descending along the first, then along the second |
| Fields.WalkFailsAt | src/main/java/com/jacky8399/balancedvillagertrades/utils/fields/Fields.java:86-93 | a failed walk fails at a segment whose prefix was resolved. Either that field is a leaf ("does not have fields"), or it has no child of that name ("does not have field"). The message names the resolved prefix |
| Fields.ReachedTrans | src/main/java/com/jacky8399/balancedvillagertrades/utils/fields/Fields.java:85-95 | a field found below a field found from a start is found from that start |
| Fields.ResolveReaches | src/main/java/com/jacky8399/balancedvillagertrades/utils/fields/Fields.java:72-100 | every field `findField` returns is found by descending from the start |
| Fields.NullRootIsRootField | src/main/java/com/jacky8399/balancedvillagertrades/utils/fields/Fields.java:73-74 | a null root resolves exactly as `ROOT_FIELD` does |
| Fields.ResolveNonRecursive | src/main/java/com/jacky8399/balancedvillagertrades/utils/fields/Fields.java:76-80 | non-recursive mode does one lookup of the whole path. It fails with "Can't access … because it does not exist" iff that lookup is null |
| Fields.ResolveRecursiveOk | src/main/java/com/jacky8399/balancedvillagertrades/utils/fields/Fields.java:82-99 | a recursive success found every segment, its path is the start's plus the segments, and it is never `ROOT_FIELD` |
| Fields.ResolveRecursiveErr | src/main/java/com/jacky8399/balancedvillagertrades/utils/fields/Fields.java:85-93 | a failed walk makes `findField` fail at the first segment that cannot be followed, with the message naming "root.seg1…" |
| Fields.WalkNestedExample | src/main/java/com/jacky8399/balancedvillagertrades/utils/fields/Fields.java:85-95 | walking "villager" then "type" reaches the villager's type attribute |
| Fields.WalkFailureExamples | src/main/java/com/jacky8399/balancedvillagertrades/utils/fields/Fields.java:86-93 | walking past a leaf, and walking to an unknown name, fail |
| Fields.ResolveWholePathExample | src/main/java/com/jacky8399/balancedvillagertrades/utils/fields/Fields.java:76-80 | non-recursive mode does not follow dots: "villager.type" does not exist as one name |
| Fields.ResolveDotsOnlyExample | src/main/java/com/jacky8399/balancedvillagertrades/utils/fields/Fields.java:96-98 | "." walks to the root itself, which `findField` refuses |
| Fields.ListFields | src/main/java/com/jacky8399/balancedvillagertrades/utils/fields/Fields.java:103-130 | every listed pair is a field found below the root, keyed by `path` plus its dotted segments, and is a leaf or a complex field that does not list its children. Nothing is missed: with a null root every table entry's listing is included and every leaf entry is listed under its own name; with a listing root every child's listing is included. A complex root that lists nothing maps exactly `path` to itself |
| Fields.ListTop | src/main/java/com/jacky8399/balancedvillagertrades/utils/fields/Fields.java:104-113 | with a null root, every pair is under a `FIELDS` entry, keyed from that entry's name, and the listing of every named entry is included |
| Fields.TopEntry | src/main/java/com/jacky8399/balancedvillagertrades/utils/fields/Fields.java:106-111 | one table entry under a null root: every pair's path starts with that entry's name. A leaf, or a complex entry that lists nothing, is the single pair of its name and itself; a listing complex entry includes the listing of each of its children |
| Fields.ListedUnderEntry | src/main/java/com/jacky8399/balancedvillagertrades/utils/fields/Fields.java:106-111 | a pair listed under a table entry with its key as path, or a leaf entry itself under its key, is a top-level pair whose path starts with that key |
| Fields.ListNames | src/main/java/com/jacky8399/balancedvillagertrades/utils/fields/Fields.java:115-127 | every pair is listed under the root, and the listing of every named child is included |
| Fields.ChildEntry | src/main/java/com/jacky8399/balancedvillagertrades/utils/fields/Fields.java:118-126 | one child under "path.key": every pair is listed under the root and its path passes through that child; a leaf child is the single pair of "path.key" and itself |
| Fields.ListedUnderChild | src/main/java/com/jacky8399/balancedvillagertrades/utils/fields/Fields.java:119-124 | a pair listed under a child, or the leaf child itself, is listed under the parent, with its path passing through the child |
| ActionSet.Apply | src/main/java/com/jacky8399/balancedvillagertrades/actions/ActionSet.java:83-116 | a constant transformer gives its constant, and an integer operator gives the operator applied to the old integer. An amount operator gives a copy of the old stack with only the amount rewritten by the operator, so the kind and size limit are kept |
| ActionSet.GetTransformer | src/main/java/com/jacky8399/balancedvillagertrades/actions/ActionSet.java:80-120 | a compiled transformer suits the field's type. A null input always compiles to a constant. A non-null input for an unknown type fails with "Don't know how to handle field of type" |
| ActionSet.NullInputDefaults | src/main/java/com/jacky8399/balancedvillagertrades/actions/ActionSet.java:81-87 | null input gives the constant false for Boolean, 0 for Integer and null otherwise |
| ActionSet.BooleanAndStringInputs | src/main/java/com/jacky8399/balancedvillagertrades/actions/ActionSet.java:88-93 | Boolean input gives constant true iff the trimmed text is "true" ignoring case, else false. String input gives the trimmed text |
| ActionSet.IntegerAttemptOrder | src/main/java/com/jacky8399/balancedvillagertrades/actions/ActionSet.java:94-104 | Integer input tries the operator expression first, then a literal integer, then fails with "Invalid comparison expression or integer" |
| ActionSet.IntegerLiteralInput | src/main/java/com/jacky8399/balancedvillagertrades/actions/ActionSet.java:97-99 | a 32-bit decimal that is not an operator expression compiles to that constant |
| ActionSet.ItemStackAmountOnly | src/main/java/com/jacky8399/balancedvillagertrades/actions/ActionSet.java:105-119 | ItemStack input compiles iff it starts with "amount" and the trimmed rest is an operator expression, and then it rewrites the amount. A missing prefix fails as an unknown type, and a bad expression fails with "Invalid comparison expression" |
| ActionSet.ConstantIdempotent | src/main/java/com/jacky8399/balancedvillagertrades/actions/ActionSet.java:83-93 | a constant transformer applied twice is applied once |
| ActionSet.TypedPreservesFit | src/main/java/com/jacky8399/balancedvillagertrades/actions/ActionSet.java:80-120 | a transformer compiled for a type maps values of that type to that type, or to null |
| ActionSet.Accept | src/main/java/com/jacky8399/balancedvillagertrades/actions/ActionSet.java:36-39 | the wrapper's state becomes the field written with the transformer applied to the value read. The villager's offers are untouched |
| ActionSet.ApplyAction | src/main/java/com/jacky8399/balancedvillagertrades/actions/ActionSet.java:36-39 | `accept` on a trade: read the field, apply the transformer, write the result through the same field |
| ActionSet.ConstantActionIdempotent | src/main/java/com/jacky8399/balancedvillagertrades/actions/ActionSet.java:36-39 | accepting a constant action twice is accepting it once |
| ActionSet.ActionFrame | src/main/java/com/jacky8399/balancedvillagertrades/actions/ActionSet.java:36-39 | an action changes no slot but the ones its write touches, and never the removal flag |
| ActionSet.ParseEntries | src/main/java/com/jacky8399/balancedvillagertrades/actions/ActionSet.java:46-74 | every action compiled from a section is found from the section's base and carries a transformer suited to its field |
| ActionSet.ParseEntry | src/main/java/com/jacky8399/balancedvillagertrades/actions/ActionSet.java:49-72 | the same for one entry |
| ActionSet.ParseResolved | src/main/java/com/jacky8399/balancedvillagertrades/actions/ActionSet.java:59-72 | the same for a resolved field: every action is found from that field |
| ActionSet.CompileScalar | src/main/java/com/jacky8399/balancedvillagertrades/actions/ActionSet.java:66-72 | a scalar compiles iff its transformer does. It yields the one action "name to value" on the field, and it warns exactly when the field is read-only |
| ActionSet.Parse | src/main/java/com/jacky8399/balancedvillagertrades/actions/ActionSet.java:76-78 | every action of a configuration is found from the root and typed for its field |
| ActionSet.ParseAppend | src/main/java/com/jacky8399/balancedvillagertrades/actions/ActionSet.java:47-48 | the output is flat and in entry order: parsing two runs of entries concatenates their actions and warnings, and the first error wins |
| ActionSet.SkipUnresolved | src/main/java/com/jacky8399/balancedvillagertrades/actions/ActionSet.java:52-57 | a key that does not resolve is skipped with its message plus "! Skipping.", and the later entries are still parsed |
| ActionSet.SkipSectionOnLeaf | src/main/java/com/jacky8399/balancedvillagertrades/actions/ActionSet.java:59-63 | a section on a leaf is skipped with "Field … does not have inner fields! Skipping." |
| ActionSet.NestedSection | src/main/java/com/jacky8399/balancedvillagertrades/actions/ActionSet.java:58-65 | a section on a complex field is parsed with that field as base and "baseName.key" as name |
| ActionSet.ScalarEntry | src/main/java/com/jacky8399/balancedvillagertrades/actions/ActionSet.java:58-71 | a scalar on a resolved key compiles under the qualified name |
| ActionSet.TransformerErrorAborts | src/main/java/com/jacky8399/balancedvillagertrades/actions/ActionSet.java:52-70 | an entry whose transformer fails is not caught: the whole parse fails, whatever entries surround it. When the entries before it parse, the error is that entry's |
| Events.ConsultedList | src/main/java/com/jacky8399/balancedvillagertrades/Events.java:28-33 | there is one verdict per rule on whether its predicate was evaluated |
| Events.Step | src/main/java/com/jacky8399/balancedvillagertrades/Events.java:29-32 | one turn of the loop: a flagged rule on a removed offer is skipped; otherwise the effect runs when the predicate holds |
| Events.ApplyRules | src/main/java/com/jacky8399/balancedvillagertrades/Events.java:28-33 | the rules run in order, each on the state the previous ones left |
| Events.RunOffer | src/main/java/com/jacky8399/balancedvillagertrades/Events.java:48-54 | one offer on a fresh wrapper that is not removed, run through all rules |
| Events.ApplyRulesAppend | src/main/java/com/jacky8399/balancedvillagertrades/Events.java:28-33 | rules run in order: running two lists in turn is running their concatenation |
| Events.ConsultedIff | src/main/java/com/jacky8399/balancedvillagertrades/Events.java:29-31 | a rule's predicate is evaluated iff it does not ignore removed offers or the offer is not yet removed. A skipped rule changes nothing |
| Events.RemovalSticks | src/main/java/com/jacky8399/balancedvillagertrades/Events.java:28-33 | an offer removed before the rules stays removed when no rule's effect un-removes it |
| Events.Unskippable | src/main/java/com/jacky8399/balancedvillagertrades/Events.java:29-30 | the rules kept have no ignore-removed flag |
| Events.RemovedRunsOnlyUnskippable | src/main/java/com/jacky8399/balancedvillagertrades/Events.java:29-32 | on a removed offer, running all rules is running only those without the flag |
| Events.RunRules | src/main/java/com/jacky8399/balancedvillagertrades/Events.java:28-33 | the loop leaves the wrapper as the rules applied in order, and reports which predicates were evaluated |
| Events.OnNewTrade | src/main/java/com/jacky8399/balancedvillagertrades/Events.java:25-39 | for a villager, a removed offer cancels the event and keeps its recipe. Otherwise the event takes the wrapper's recipe. Any other entity is left untouched |
| Events.Rebuild | src/main/java/com/jacky8399/balancedvillagertrades/Events.java:47-60 | the rebuilt list is never longer than the offers |
| Events.OnInteract | src/main/java/com/jacky8399/balancedvillagertrades/Events.java:43-63 | for a villager, the offers become the rebuilt list. The list is edited as a copy and written back once at the end. Any other entity is left untouched |
| Events.ApplyRulesKeepsVillager | src/main/java/com/jacky8399/balancedvillagertrades/Events.java:49-54 | rules whose effects leave the villager alone leave it alone together |
| Events.IndependentOffers | src/main/java/com/jacky8399/balancedvillagertrades/Events.java:47-60 | when the rules leave the villager's attributes alone, rebuilding two runs of offers is rebuilding each and concatenating, so one offer's removal never affects another |
| Events.RebuildKeepsVillager | src/main/java/com/jacky8399/balancedvillagertrades/Events.java:47-60 | the villager's state is unchanged by a rebuild whose rules leave it alone |
| Events.NoRemovalKeepsAll | src/main/java/com/jacky8399/balancedvillagertrades/Events.java:47-60 | with no removals every offer is kept; when the rules leave the villager alone, each offer is kept in its place as the recipe its wrapper ended with |
| Events.AllRemovedKeepsNone | src/main/java/com/jacky8399/balancedvillagertrades/Events.java:55-59 | when every offer is removed the villager is left with none |

## Left out

- Composed accessors: a child takes its own read-only flag, not its parent's. This holds under
  the root as well as under the villager. `ROOT_FIELD` is read-only (its setter is null), yet
  `uses`, `max-uses` and the other table fields below it are writable. Likewise `villager.X` is
  writable when attribute X is, although `villager` itself is read-only, and
  `ActionSet.CompileScalar` warns for it only when X is read-only. The composition rule of
  `andThen` is not part of this model; this is the reading in which a write goes into the
  villager object the parent reads.
- The villager namespace holds only leaves: `ComplexField.GetField` never returns a complex
  child for it, so paths are at most two names deep.
- Java's 32-bit `int` arithmetic is not modelled. `IntV` values, amounts, uses and experience
  are unbounded integers; only `Integer.parseInt` is range-checked. Overflow inside an operator
  is part of the operator parameter.
- Operator expressions are not modelled. `OperatorUtils.getFunctionFromInput` is not part of this
  model, and its grammar is the parameter `ops`: a partial map from text to integer functions.
- The villager namespace is a parameter. `VillagerField`, `Field`, `FieldAccessor`, `andThen`
  and `emptyAccessor` are not part of this model. The villager's attributes, their types,
  read-only flags and whether it lists them form the parameter `VillagerSchema`. The `villager`
  field itself is taken to be read-only.
- `emptyAccessor(root)` is taken to stand for the root itself, so the `field == ROOT_FIELD` test
  fires only when no segment was walked from the null root. The model compares values, not
  object identity.
- `getFields(context)` does not depend on the context in the model: the root lists `FIELDS`
  whatever the context, and the villager's listing is fixed by the schema.
- The `ComplexField` constructor is the `Complex` constructor of `TradeFields.Field`. Class,
  getter and setter are fixed per namespace rather than passed in.
- The price multiplier is a `real` read only as zero or non-zero. Floating-point rounding is not
  modelled.
- Item cloning is value semantics. The model does not capture shared recipe objects or aliasing
  between a wrapper's recipe and the villager's list.
- Digits are ASCII only in `JavaStrings.ParseInt`. Java also accepts other Unicode digits.
- JavaStrings.ParseInt: returns no value on failure rather than a `NumberFormatException`
  message, since only success or failure reaches the caller.
- ListFields: where `Collectors.toMap` throws on a duplicate key or on a null value, the model
  does not fail: a later pair overwrites an earlier one under the same key. So the contracts
  state which keys are present, not which of two clashing fields a key ends up holding.
- ActionSet.Accept: a runtime exception inside `accept` is not modelled. That covers an index
  out of range, a failed cast and unboxing a null. The precondition `CanApply` rules these cases
  out.
- Warnings are lost on a hard error. `ActionSet.ParseEntries` returns only the error message
  when a transformer fails, although the source has already logged the warnings up to that
  point. This includes a read-only warning logged just before the failing transformer.
- ActionSet.Describe: renders a section value as "{...}". A section never reaches a scalar
  action, so the text is never used.
- Fields.WalkFailureExamples: states only that the walks fail, not the exact messages. Comparing
  long literal strings is too costly for the prover; `Fields.WalkFailsAt` states the messages in
  general.
- Fields.ResolveWholePathExample: states the failure only, for the same reason.
- Fields.ResolveDotsOnlyExample: states the failure only, for the same reason.
- TradeFields.IngredientsAfterSet: requires two ingredient slots for an oversized stack, and
  `ingredient-1` requires a second slot. The source throws an index exception otherwise.
- The predicates and effects of rules are not modelled. `Recipe` is not part of this model: a
  rule is its ignore-removed flag, an abstract predicate and an abstract effect on the wrapper.
  Effects cannot touch the villager's offer list.
- Host event mechanics are not modelled: listener registration, `ignoreCancelled` and the
  order in which handlers run.
- `Events.onTransform` is world and player I/O, floating-point distance, particles and an
  external reputation provider.
- Logging is modelled as the returned list of warning messages.
