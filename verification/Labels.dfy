/**
 Label selectors, as the API documents them: matchLabels is a conjunction of
 "key in {value}" and matchExpressions adds In, NotIn, Exists and DoesNotExist.
 */
module Labels {
  import opened Wrappers

  type LabelSet = map<string, string>

  datatype Operator = In | NotIn | Exists | DoesNotExist

  datatype Requirement = Requirement(key: string, op: Operator, values: set<string>)

  /** One entry of matchExpressions, with the operator still in its API spelling. */
  datatype Expression = Expression(key: string, operator: string, values: seq<string>)

  datatype LabelSelector = LabelSelector(matchLabels: LabelSet, matchExpressions: seq<Expression>)

  function ParseOperator(operator: string): Option<Operator> {
    if operator == "In" then Some(In)
    else if operator == "NotIn" then Some(NotIn)
    else if operator == "Exists" then Some(Exists)
    else if operator == "DoesNotExist" then Some(DoesNotExist)
    else None
  }

  /** In and NotIn need values; Exists and DoesNotExist must have none. */
  predicate ValidExpression(e: Expression) {
    match ParseOperator(e.operator)
    case None => false
    case Some(op) => (op.In? || op.NotIn?) == (e.values != [])
  }

  predicate ValidSelector(s: LabelSelector) {
    forall e :: e in s.matchExpressions ==> ValidExpression(e)
  }

  function ExpressionRequirement(e: Expression): Requirement
    requires ValidExpression(e)
  {
    Requirement(e.key, ParseOperator(e.operator).value, set v | v in e.values)
  }

  function MatchLabelsRequirements(m: LabelSet): set<Requirement> {
    set k | k in m :: Requirement(k, In, {m[k]})
  }

  function ExpressionRequirements(es: seq<Expression>): set<Requirement>
    requires forall e :: e in es ==> ValidExpression(e)
  {
    set e | e in es :: ExpressionRequirement(e)
  }

  /** The requirements of a selector, as a set: their order is irrelevant to matching. */
  function SelectorRequirements(s: LabelSelector): Result<set<Requirement>> {
    if ValidSelector(s)
    then Ok(MatchLabelsRequirements(s.matchLabels) + ExpressionRequirements(s.matchExpressions))
    else Err
  }

  predicate Matches(r: Requirement, labels: LabelSet) {
    match r.op
    case In => r.key in labels && labels[r.key] in r.values
    case NotIn => r.key in labels ==> labels[r.key] !in r.values
    case Exists => r.key in labels
    case DoesNotExist => r.key !in labels
  }

  predicate MatchesAll(rs: set<Requirement>, labels: LabelSet) {
    forall r :: r in rs ==> Matches(r, labels)
  }

  predicate ExpressionsHold(es: seq<Expression>, labels: LabelSet)
    requires forall e :: e in es ==> ValidExpression(e)
  {
    forall e :: e in es ==> Matches(ExpressionRequirement(e), labels)
  }

  /** `labels` carries every pair of `want`. */
  predicate Carries(labels: LabelSet, want: LabelSet) {
    forall k :: k in want ==> k in labels && labels[k] == want[k]
  }

  /** A selector matches exactly when its pairs are carried and its expressions hold. */
  lemma SelectorMeaning(s: LabelSelector, labels: LabelSet)
    requires ValidSelector(s)
    ensures MatchesAll(SelectorRequirements(s).value, labels)
            <==> Carries(labels, s.matchLabels) && ExpressionsHold(s.matchExpressions, labels)
  {
    var rs := SelectorRequirements(s).value;
    if MatchesAll(rs, labels) {
      forall k | k in s.matchLabels
        ensures k in labels && labels[k] == s.matchLabels[k]
      {
        assert Requirement(k, In, {s.matchLabels[k]}) in rs;
      }
      forall e | e in s.matchExpressions
        ensures Matches(ExpressionRequirement(e), labels)
      {
        assert ExpressionRequirement(e) in rs;
      }
    }
  }

  /** One entry of matchExpressions, by the operator as the API spells it. */
  lemma ExpressionMeaning(e: Expression, labels: LabelSet)
    ensures ValidExpression(e)
            <==> || ((e.operator == "In" || e.operator == "NotIn") && e.values != [])
                 || ((e.operator == "Exists" || e.operator == "DoesNotExist") && e.values == [])
    ensures ValidExpression(e) && e.operator == "In" ==>
              (Matches(ExpressionRequirement(e), labels) <==> e.key in labels && labels[e.key] in e.values)
    ensures ValidExpression(e) && e.operator == "NotIn" ==>
              (Matches(ExpressionRequirement(e), labels) <==> e.key !in labels || labels[e.key] !in e.values)
    ensures ValidExpression(e) && e.operator == "Exists" ==>
              (Matches(ExpressionRequirement(e), labels) <==> e.key in labels)
    ensures ValidExpression(e) && e.operator == "DoesNotExist" ==>
              (Matches(ExpressionRequirement(e), labels) <==> e.key !in labels)
  {
  }
}
