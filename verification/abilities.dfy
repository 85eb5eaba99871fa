/**
 * The rule interpreter behind `can` and `cannot`: an ability is an ordered
 * list of grant and deny rules, and the last rule that applies to a query
 * decides it; when no rule applies the answer is a denial.
 */
module Abilities {
  import opened Outcomes
  import opened Catalogue

  /** `Deny` is an inverted rule, emitted by `cannot`. */
  datatype Effect = Allow | Deny

  /** The only condition the rule table uses: the instance's `ownerId` equals a fixed id. */
  datatype Condition = Unconditional | OwnerIdEquals(id: string)

  datatype Rule = Rule(effect: Effect, actions: set<Action>, subject: Subject, condition: Condition)

  /** A concrete record; its kind is read from its `__typename` field. */
  datatype Instance = Instance(typename: string, ownerId: Option<string>)

  /** What a query is about: a whole kind, or one record. */
  datatype Target = OfType(subject: Subject) | OfInstance(instance: Instance)

  datatype AppAbility = AppAbility(rules: seq<Rule>)

  /** The subject type a query is filed under. */
  function SubjectType(t: Target): string {
    match t
    case OfType(s) => SubjectName(s)
    case OfInstance(i) => i.typename
  }

  /** The rule names the queried action, directly or through the wildcard. */
  predicate CoversAction(r: Rule, a: Action) {
    a in r.actions || Manage in r.actions
  }

  /** The rule is about the queried kind, directly or through the wildcard. */
  predicate CoversSubject(r: Rule, t: Target) {
    r.subject == All || SubjectName(r.subject) == SubjectType(t)
  }

  /**
   * Whether the rule's condition holds. Against a bare kind, a conditional
   * rule is taken to hold when it grants (some record might satisfy it) and
   * to fail when it denies; against a record, the record is tested.
   */
  predicate ConditionHolds(r: Rule, t: Target) {
    match r.condition
    case Unconditional => true
    case OwnerIdEquals(id) =>
      match t
      case OfType(_) => r.effect == Allow
      case OfInstance(i) => i.ownerId == Some(id)
  }

  predicate Applies(r: Rule, a: Action, t: Target) {
    CoversAction(r, a) && CoversSubject(r, t) && ConditionHolds(r, t)
  }

  /** Index of the last rule that applies to the query. */
  function LastApplicable(rules: seq<Rule>, a: Action, t: Target): (r: Option<nat>)
    ensures r.Some? ==> r.value < |rules| && Applies(rules[r.value], a, t)
    ensures r.Some? ==> forall j :: r.value < j < |rules| ==> !Applies(rules[j], a, t)
    ensures r.None? ==> forall j :: 0 <= j < |rules| ==> !Applies(rules[j], a, t)
    decreases |rules|
  {
    if |rules| == 0 then None
    else if Applies(rules[|rules| - 1], a, t) then Some(|rules| - 1)
    else LastApplicable(rules[..|rules| - 1], a, t)
  }

  /** Rule `i` applies, grants, and no later rule applies. */
  predicate DecidingGrant(rules: seq<Rule>, i: int, a: Action, t: Target) {
    && 0 <= i < |rules|
    && Applies(rules[i], a, t)
    && rules[i].effect == Allow
    && forall j :: i < j < |rules| ==> !Applies(rules[j], a, t)
  }

  /** Last matching rule wins; no matching rule means deny. */
  function Can(ability: AppAbility, a: Action, t: Target): (r: bool)
    ensures r <==> exists i :: DecidingGrant(ability.rules, i, a, t)
    ensures (forall j :: 0 <= j < |ability.rules| ==> !Applies(ability.rules[j], a, t)) ==> !r
  {
    var rules := ability.rules;
    match LastApplicable(rules, a, t)
    case None => false
    case Some(k) =>
      assert forall i :: DecidingGrant(rules, i, a, t) ==> i == k;
      assert rules[k].effect == Allow ==> DecidingGrant(rules, k, a, t);
      rules[k].effect == Allow
  }

  /** Denied: every grant that applies is overridden by a later applicable rule. */
  function Cannot(ability: AppAbility, a: Action, t: Target): (r: bool)
    ensures r <==> forall i :: 0 <= i < |ability.rules| && Applies(ability.rules[i], a, t) && ability.rules[i].effect == Allow
                              ==> exists j :: i < j < |ability.rules| && Applies(ability.rules[j], a, t)
  {
    !Can(ability, a, t)
  }

  /** On a record, only the record's kind matters for rules without conditions. */
  lemma UnconditionalSeesOnlyTypename(rules: seq<Rule>, a: Action, i: Instance, s: Subject)
    requires forall k :: 0 <= k < |rules| ==> rules[k].condition == Unconditional
    requires i.typename == SubjectName(s)
    ensures Can(AppAbility(rules), a, OfInstance(i)) == Can(AppAbility(rules), a, OfType(s))
  {
  }
}
