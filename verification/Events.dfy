/**
 * The two places the rules run (Events.onNewTrade and Events.onInteract): every rule, in order,
 * on a fresh wrapper around one offer; the removal flag then vetoes a new offer or drops an
 * existing one from the villager's rebuilt list.
 */
module Events {
  import opened Trades
  import opened TradeFields

  /**
   * A configured rule as the loops see it: whether it is skipped once the offer is removed, the
   * predicate that selects offers, and its effect on the wrapper.
   */
  datatype Rule = Rule(ignoreRemoved: bool, shouldHandle: Trade -> bool, handle: Trade -> Trade)

  /** Whether the loop reaches the rule's predicate: not when the rule ignores removed offers and t is removed. */
  predicate Consults(rule: Rule, t: Trade) {
    !(rule.ignoreRemoved && t.remove)
  }

  /** One turn of the rule loop. */
  function Step(rule: Rule, t: Trade): Trade {
    if !Consults(rule, t) then t
    else if rule.shouldHandle(t) then rule.handle(t)
    else t
  }

  /** The rules applied in order to t. */
  function ApplyRules(rules: seq<Rule>, t: Trade): Trade
    decreases |rules|
  {
    if rules == [] then t else Step(rules[|rules| - 1], ApplyRules(rules[..|rules| - 1], t))
  }

  /** For each rule, in order, whether its predicate was evaluated. */
  function ConsultedList(rules: seq<Rule>, t: Trade): (c: seq<bool>)
    ensures |c| == |rules|
    decreases |rules|
  {
    if rules == [] then []
    else
      var n := |rules| - 1;
      ConsultedList(rules[..n], t) + [Consults(rules[n], ApplyRules(rules[..n], t))]
  }

  /** Running a list of rules and then another is running their concatenation. */
  lemma {:induction false} ApplyRulesAppend(a: seq<Rule>, b: seq<Rule>, t: Trade)
    ensures ApplyRules(a + b, t) == ApplyRules(b, ApplyRules(a, t))
    decreases |b|
  {
    if b == [] {
      assert a + b == a;
    } else {
      var n := |b| - 1;
      assert (a + b)[..|a + b| - 1] == a + b[..n];
      ApplyRulesAppend(a, b[..n], t);
    }
  }

  /**
   * Rule k's predicate is evaluated exactly when the rule does not ignore removed offers or the
   * offer is not removed by the time the loop reaches it; a rule that is skipped leaves the offer
   * as it is.
   */
  lemma {:induction false} ConsultedIff(rules: seq<Rule>, t: Trade, k: nat)
    requires k < |rules|
    ensures ConsultedList(rules, t)[k] <==> !(rules[k].ignoreRemoved && ApplyRules(rules[..k], t).remove)
    ensures !ConsultedList(rules, t)[k] ==> ApplyRules(rules[..k + 1], t) == ApplyRules(rules[..k], t)
    decreases |rules|
  {
    var n := |rules| - 1;
    assert rules[..k + 1][..k] == rules[..k];
    if k < n {
      assert rules[..n][..k] == rules[..k];
      assert rules[..n][..k + 1] == rules[..k + 1];
      ConsultedIff(rules[..n], t, k);
    }
  }

  /** No rule's effect un-removes an offer. */
  ghost predicate KeepsRemoval(rules: seq<Rule>) {
    forall k, s: Trade :: 0 <= k < |rules| && s.remove ==> rules[k].handle(s).remove
  }

  /** Once removed, an offer stays removed when no rule un-removes it. */
  lemma {:induction false} RemovalSticks(rules: seq<Rule>, t: Trade)
    requires KeepsRemoval(rules) && t.remove
    ensures ApplyRules(rules, t).remove
    decreases |rules|
  {
    if rules != [] {
      var n := |rules| - 1;
      assert KeepsRemoval(rules[..n]) by {
        forall k, s: Trade | 0 <= k < n && s.remove ensures rules[..n][k].handle(s).remove {
          assert rules[..n][k] == rules[k];
        }
      }
      RemovalSticks(rules[..n], t);
      assert rules[n].handle(ApplyRules(rules[..n], t)).remove;
    }
  }

  /** The rules that still run on a removed offer. */
  function Unskippable(rules: seq<Rule>): (r: seq<Rule>)
    ensures forall k :: 0 <= k < |r| ==> !r[k].ignoreRemoved
    decreases |rules|
  {
    if rules == [] then []
    else
      var n := |rules| - 1;
      Unskippable(rules[..n]) + (if rules[n].ignoreRemoved then [] else [rules[n]])
  }

  /** On a removed offer whose removal sticks, only the rules without ignoreRemoved have any effect. */
  lemma {:induction false} RemovedRunsOnlyUnskippable(rules: seq<Rule>, t: Trade)
    requires KeepsRemoval(rules) && t.remove
    ensures ApplyRules(rules, t) == ApplyRules(Unskippable(rules), t)
    decreases |rules|
  {
    if rules != [] {
      var n := |rules| - 1;
      assert KeepsRemoval(rules[..n]) by {
        forall k, s: Trade | 0 <= k < n && s.remove ensures rules[..n][k].handle(s).remove {
          assert rules[..n][k] == rules[k];
        }
      }
      RemovedRunsOnlyUnskippable(rules[..n], t);
      RemovalSticks(rules[..n], t);
      var u := Unskippable(rules[..n]);
      if rules[n].ignoreRemoved {
        assert Unskippable(rules) == u + [] == u;
      } else {
        ApplyRulesAppend(u, [rules[n]], t);
        assert [rules[n]][..0] == [];
        assert ApplyRules([rules[n]], ApplyRules(u, t)) == Step(rules[n], ApplyRules(u, t));
      }
    }
  }

  /** The rule loop run on a wrapper; it also reports, rule by rule, whether the predicate was evaluated. */
  method RunRules(rules: seq<Rule>, trade: TradeWrapper) returns (consulted: seq<bool>)
    modifies trade, trade.villager
    ensures trade.State() == ApplyRules(rules, old(trade.State()))
    ensures consulted == ConsultedList(rules, old(trade.State()))
    ensures trade.villager.recipes == old(trade.villager.recipes)
  {
    ghost var t0 := trade.State();
    consulted := [];
    var i := 0;
    while i < |rules|
      invariant 0 <= i <= |rules|
      invariant trade.State() == ApplyRules(rules[..i], t0)
      invariant consulted == ConsultedList(rules[..i], t0)
      invariant trade.villager.recipes == old(trade.villager.recipes)
    {
      var rule := rules[i];
      assert rules[..i + 1][..i] == rules[..i];
      if rule.ignoreRemoved && trade.remove {
        consulted := consulted + [false];
      } else {
        consulted := consulted + [true];
        var t := trade.State();
        if rule.shouldHandle(t) {
          trade.Assign(rule.handle(t));
        }
      }
      i := i + 1;
    }
    assert rules[..i] == rules;
  }

  /** The event raised when a villager gains a new offer; cancelling it drops the offer. */
  class AcquireTradeEvent {
    const entity: Entity
    var recipe: MerchantRecipe
    var cancelled: bool

    constructor (entity: Entity, recipe: MerchantRecipe)
      ensures this.entity == entity && this.recipe == recipe && !cancelled
    {
      this.entity := entity;
      this.recipe := recipe;
      this.cancelled := false;
    }
  }

  /** The event raised when a player right-clicks an entity. */
  class InteractEvent {
    const rightClicked: Entity

    constructor (rightClicked: Entity)
      ensures this.rightClicked == rightClicked
    {
      this.rightClicked := rightClicked;
    }
  }

  /**
   * onNewTrade: for a villager, the rules run on a wrapper around the new offer; a removed offer
   * cancels the event and leaves its recipe alone, otherwise the event takes the wrapper's recipe.
   * Any other entity is left untouched.
   */
  method OnNewTrade(e: AcquireTradeEvent, rules: seq<Rule>)
    modifies e, e.entity
    ensures var out := ApplyRules(rules, Trade(old(e.entity.attributes), old(e.recipe), false));
      && (e.entity.isVillager && out.remove ==> e.cancelled && e.recipe == old(e.recipe))
      && (e.entity.isVillager && !out.remove ==> e.recipe == out.recipe && e.cancelled == old(e.cancelled))
      && (e.entity.isVillager ==> e.entity.attributes == out.villager)
    ensures !e.entity.isVillager ==>
      e.recipe == old(e.recipe) && e.cancelled == old(e.cancelled) && e.entity.attributes == old(e.entity.attributes)
    ensures e.entity.recipes == old(e.entity.recipes)
  {
    if e.entity.isVillager {
      var trade := new TradeWrapper(e.entity, e.recipe);
      var _ := RunRules(rules, trade);
      if trade.remove {
        e.cancelled := true;
        return;
      }
      e.recipe := trade.recipe;
    }
  }

  /** The villager's offers rebuilt so far, and the villager's state after the wrappers that ran. */
  datatype Rebuilt = Rebuilt(kept: seq<MerchantRecipe>, villager: map<string, Value>)

  /** The outcome of the rules for one offer, on a fresh wrapper that is not removed. */
  function RunOffer(rules: seq<Rule>, villager: map<string, Value>, offer: MerchantRecipe): Trade {
    ApplyRules(rules, Trade(villager, offer, false))
  }

  /**
   * The offers processed in order, each on a fresh wrapper over the same villager: a removed one
   * is dropped, a kept one replaced by its wrapper's recipe.
   */
  function Rebuild(rules: seq<Rule>, villager: map<string, Value>, offers: seq<MerchantRecipe>): (r: Rebuilt)
    ensures |r.kept| <= |offers|
    decreases |offers|
  {
    if offers == [] then Rebuilt([], villager)
    else
      var n := |offers| - 1;
      var before := Rebuild(rules, villager, offers[..n]);
      var out := RunOffer(rules, before.villager, offers[n]);
      Rebuilt(if out.remove then before.kept else before.kept + [out.recipe], out.villager)
  }

  /**
   * onInteract: for a villager, a copy of its offers is edited in place, offer by offer, and
   * written back once at the end; the list is not touched while the rules run. Any other entity
   * is left untouched.
   */
  method OnInteract(e: InteractEvent, rules: seq<Rule>)
    modifies e.rightClicked
    ensures var r := Rebuild(rules, old(e.rightClicked.attributes), old(e.rightClicked.recipes));
      e.rightClicked.isVillager ==> e.rightClicked.recipes == r.kept && e.rightClicked.attributes == r.villager
    ensures !e.rightClicked.isVillager ==>
      e.rightClicked.recipes == old(e.rightClicked.recipes) && e.rightClicked.attributes == old(e.rightClicked.attributes)
  {
    if !e.rightClicked.isVillager {
      return;
    }
    var villager := e.rightClicked;
    var offers := villager.recipes;
    ghost var attrs := villager.attributes;
    var newRecipes := villager.recipes;
    var i := 0;
    ghost var k := 0;
    ghost var done := Rebuild(rules, attrs, offers[..0]);
    assert offers[..0] == [] && offers[0..] == offers;
    while i < |newRecipes|
      invariant 0 <= k <= |offers| && done == Rebuild(rules, attrs, offers[..k])
      invariant i == |done.kept| && newRecipes == done.kept + offers[k..]
      invariant villager.attributes == done.villager && villager.recipes == offers
      decreases |newRecipes| - i
    {
      SpliceAt(done.kept, offers[k..]);
      assert offers[k..][1..] == offers[k + 1..];
      var trade := new TradeWrapper(villager, newRecipes[i]);
      assert trade.State() == Trade(done.villager, offers[k], false);
      var _ := RunRules(rules, trade);
      ghost var out := trade.State();
      assert out == RunOffer(rules, done.villager, offers[k]);
      RebuildNext(rules, attrs, offers, k);
      if trade.remove {
        newRecipes := newRecipes[..i] + newRecipes[i + 1..];
      } else {
        newRecipes := newRecipes[i := trade.recipe];
        i := i + 1;
      }
      done := Rebuilt(if out.remove then done.kept else done.kept + [out.recipe], out.villager);
      k := k + 1;
    }
    assert offers[..k] == offers;
    villager.recipes := newRecipes;
  }

  /** One more offer processed: the shape of Rebuild on a prefix one longer. */
  lemma RebuildNext(rules: seq<Rule>, villager: map<string, Value>, offers: seq<MerchantRecipe>, k: nat)
    requires k < |offers|
    ensures var before := Rebuild(rules, villager, offers[..k]);
      var out := RunOffer(rules, before.villager, offers[k]);
      Rebuild(rules, villager, offers[..k + 1]) ==
        Rebuilt(if out.remove then before.kept else before.kept + [out.recipe], out.villager)
  {
    assert offers[..k + 1][..k] == offers[..k];
  }

  /** The edits the loop makes at the seam between the rebuilt offers and the unprocessed ones. */
  lemma SpliceAt(kept: seq<MerchantRecipe>, rest: seq<MerchantRecipe>)
    ensures |rest| > 0 ==> (kept + rest)[|kept|] == rest[0]
    ensures |rest| > 0 ==> (kept + rest)[..|kept|] + (kept + rest)[|kept| + 1..] == kept + rest[1..]
    ensures forall x :: |rest| > 0 ==> (kept + rest)[|kept| := x] == (kept + [x]) + rest[1..]
  {
  }

  /** Rules whose effects leave the villager's own state alone. */
  ghost predicate KeepsVillager(rules: seq<Rule>) {
    forall k, s: Trade :: 0 <= k < |rules| ==> rules[k].handle(s).villager == s.villager
  }

  lemma {:induction false} ApplyRulesKeepsVillager(rules: seq<Rule>, t: Trade)
    requires KeepsVillager(rules)
    ensures ApplyRules(rules, t).villager == t.villager
    decreases |rules|
  {
    if rules != [] {
      var n := |rules| - 1;
      assert KeepsVillager(rules[..n]) by {
        forall k, s: Trade | 0 <= k < n ensures rules[..n][k].handle(s).villager == s.villager {
          assert rules[..n][k] == rules[k];
        }
      }
      ApplyRulesKeepsVillager(rules[..n], t);
    }
  }

  /**
   * Offers are processed independently: when the rules leave the villager alone, rebuilding two
   * runs of offers is rebuilding each and concatenating, so an offer's removal never affects
   * another offer.
   */
  lemma {:induction false} IndependentOffers(rules: seq<Rule>, villager: map<string, Value>,
                                             a: seq<MerchantRecipe>, b: seq<MerchantRecipe>)
    requires KeepsVillager(rules)
    ensures Rebuild(rules, villager, a + b).kept == Rebuild(rules, villager, a).kept + Rebuild(rules, villager, b).kept
    ensures Rebuild(rules, villager, a + b).villager == villager
    decreases |b|
  {
    if b == [] {
      assert a + b == a;
      RebuildKeepsVillager(rules, villager, a);
    } else {
      var n := |b| - 1;
      assert (a + b)[..|a + b| - 1] == a + b[..n];
      assert (a + b)[|a + b| - 1] == b[n];
      IndependentOffers(rules, villager, a, b[..n]);
      RebuildKeepsVillager(rules, villager, b[..n]);
      ApplyRulesKeepsVillager(rules, Trade(villager, b[n], false));
    }
  }

  lemma {:induction false} RebuildKeepsVillager(rules: seq<Rule>, villager: map<string, Value>, offers: seq<MerchantRecipe>)
    requires KeepsVillager(rules)
    ensures Rebuild(rules, villager, offers).villager == villager
    decreases |offers|
  {
    if offers != [] {
      var n := |offers| - 1;
      RebuildKeepsVillager(rules, villager, offers[..n]);
      ApplyRulesKeepsVillager(rules, Trade(villager, offers[n], false));
    }
  }

  /**
   * When no offer is removed, every offer is kept; when the rules also leave the villager alone,
   * each is kept in its place as the recipe its wrapper ended with.
   */
  lemma {:induction false} NoRemovalKeepsAll(rules: seq<Rule>, villager: map<string, Value>, offers: seq<MerchantRecipe>)
    requires forall v: map<string, Value>, o: MerchantRecipe :: !RunOffer(rules, v, o).remove
    ensures |Rebuild(rules, villager, offers).kept| == |offers|
    ensures KeepsVillager(rules) ==>
      Rebuild(rules, villager, offers).kept ==
        seq(|offers|, i requires 0 <= i < |offers| => RunOffer(rules, villager, offers[i]).recipe)
    decreases |offers|
  {
    if offers != [] {
      var n := |offers| - 1;
      NoRemovalKeepsAll(rules, villager, offers[..n]);
      if KeepsVillager(rules) {
        RebuildKeepsVillager(rules, villager, offers[..n]);
        var kept := Rebuild(rules, villager, offers).kept;
        forall i | 0 <= i < |offers|
          ensures kept[i] == RunOffer(rules, villager, offers[i]).recipe
        {
          if i < n {
            assert offers[..n][i] == offers[i];
          }
        }
      }
    }
  }

  /** When every offer is removed, the villager is left with no offers. */
  lemma {:induction false} AllRemovedKeepsNone(rules: seq<Rule>, villager: map<string, Value>, offers: seq<MerchantRecipe>)
    requires forall v: map<string, Value>, o: MerchantRecipe :: RunOffer(rules, v, o).remove
    ensures Rebuild(rules, villager, offers).kept == []
    decreases |offers|
  {
    if offers != [] {
      AllRemovedKeepsNone(rules, villager, offers[..|offers| - 1]);
    }
  }
}
