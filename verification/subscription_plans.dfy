/** The plans screen and its payment-method dialog: plans ordered by their
    monthly session limit, each plan's relation to the current one, the
    request each relation leads to, and the payment request the dialog
    confirms. While a request is pending review nothing can be chosen. */
module SubscriptionPlans {
  import opened Wrappers
  import opened Js
  import opened Sorting

  datatype Plan = Plan(id: string, name: string, monthlyLimit: int, price: int)

  /** The current subscription's plan, identified by its `_id`. */
  datatype CurrentPlan = CurrentPlan(dbId: string, monthlyLimit: int)

  function Limit(p: Plan): int {
    p.monthlyLimit
  }

  /** `sortedPlans`: fewest sessions first. */
  function SortedPlans(plans: seq<Plan>): (r: seq<Plan>)
    ensures multiset(r) == multiset(plans)
    ensures forall i, j | 0 <= i < j < |r| :: r[i].monthlyLimit <= r[j].monthlyLimit
  {
    SortBy(plans, Limit)
  }

  /** Plans with the same limit keep the order the server sent them in. */
  lemma SortedPlansStable(plans: seq<Plan>, limit: int)
    ensures WithKey(SortedPlans(plans), Limit, limit) == WithKey(plans, Limit, limit)
  {
    SortByStable(plans, Limit, limit);
  }

  datatype Relation = Same | Lower | Higher | New

  /** `getPlanRelation`. */
  function PlanRelation(plan: Plan, current: Option<CurrentPlan>): (r: Relation)
    ensures r == New <==> current.None?
    ensures r == Same <==> current.Some? && plan.id == current.value.dbId
    ensures r == Lower <==> current.Some? && plan.id != current.value.dbId && plan.monthlyLimit < current.value.monthlyLimit
    ensures r == Higher <==> current.Some? && plan.id != current.value.dbId && plan.monthlyLimit >= current.value.monthlyLimit
  {
    if current.None? then New
    else if plan.id == current.value.dbId then Same
    else if plan.monthlyLimit < current.value.monthlyLimit then Lower
    else Higher
  }

  /** `isPopular`: the eight-session plan. */
  predicate IsPopular(plan: Plan) {
    plan.monthlyLimit == 8
  }

  datatype Action = Renew | UpgradeCurrentMonth | UpgradeNextMonth | DowngradeNextMonth

  /** The button the user presses in a confirmation alert, or `Dismissed`. */
  datatype Answer = Dismissed | ConfirmRenewal | ForNextMonth | UpgradeNow(confirmed: bool)

  /** A plan card's press, through its alerts: the action the payment
      dialog opens with, or nothing. A pending request blocks everything;
      renewal and an immediate upgrade need a current subscription. */
  function ChooseAction(relation: Relation, hasPending: bool, hasCurrentSub: bool, answer: Answer): (a: Option<Action>)
    ensures hasPending ==> a.None?
    ensures a == Some(Renew) ==> relation == Same && hasCurrentSub && answer == ConfirmRenewal
    ensures a == Some(DowngradeNextMonth) <==> !hasPending && relation == Lower
    ensures a == Some(UpgradeCurrentMonth) ==> relation == Higher && hasCurrentSub && answer == UpgradeNow(true)
    ensures !hasPending && relation == New ==> a == Some(UpgradeNextMonth)
    ensures !hasPending && relation == Higher && !hasCurrentSub ==> a == Some(UpgradeNextMonth)
    ensures relation == Higher && hasCurrentSub ==> a in {None, Some(UpgradeNextMonth), Some(UpgradeCurrentMonth)}
  {
    if hasPending then None
    else
      match relation
      case Same =>
        if hasCurrentSub && answer == ConfirmRenewal then Some(Renew) else None
      case Lower => Some(DowngradeNextMonth)
      case Higher =>
        if !hasCurrentSub then Some(UpgradeNextMonth)
        else if answer == ForNextMonth then Some(UpgradeNextMonth)
        else if answer == UpgradeNow(true) then Some(UpgradeCurrentMonth)
        else None
      case New => Some(UpgradeNextMonth)
  }

  /** `actionLabel`. */
  function ActionLabel(r: Relation): string {
    match r
    case Same => "تمديد للشهر القادم"
    case Lower => "تخفيض للشهر القادم"
    case Higher => "ترقية"
    case New => "اختيار"
  }

  datatype Method = Cash | BankTransfer

  datatype PaymentRequest = PaymentRequest(planId: string, payment: Method, action: Action, proofUrl: Option<string>)

  /** The screen's selection: plan, action and whether the dialog is open. */
  datatype Selection = Selection(planId: Option<string>, action: Action, dialogOpen: bool)

  const InitialSelection := Selection(None, UpgradeNextMonth, false)

  /** `handleSelectPlan`. */
  function SelectPlan(s: Selection, hasPending: bool, planId: string, action: Action): (r: Selection)
    ensures hasPending ==> r == s
    ensures !hasPending ==> r == Selection(Some(planId), action, true)
  {
    if hasPending then s else Selection(Some(planId), action, true)
  }

  /** `handleConfirmPayment`: the request sent, and the selection after the
      server's answer. A success closes the dialog and forgets the plan; a
      failure only raises an alert. */
  function ConfirmPayment(s: Selection, payment: Method, proofUrl: Option<string>, succeeded: bool): (r: (Option<PaymentRequest>, Selection))
    ensures r.0.Some? <==> Truthy(s.planId, "")
    ensures r.0.Some? ==> r.0.value == PaymentRequest(s.planId.value, payment, s.action, proofUrl)
    ensures r.0.Some? && succeeded ==> !r.1.dialogOpen && r.1.planId.None?
    ensures r.0.None? || !succeeded ==> r.1 == s
  {
    if !Truthy(s.planId, "") then (None, s)
    else (Some(PaymentRequest(s.planId.value, payment, s.action, proofUrl)),
          if succeeded then s.(dialogOpen := false, planId := None) else s)
  }

  /** Choosing a plan and paying sends the request for that plan with the
      action its relation led to. */
  lemma ChoosingThenPayingSendsTheChoice(s: Selection, plan: Plan, current: Option<CurrentPlan>, hasCurrentSub: bool,
                                        answer: Answer, payment: Method, ok: bool)
    requires plan.id != ""
    requires ChooseAction(PlanRelation(plan, current), false, hasCurrentSub, answer).Some?
    ensures var a := ChooseAction(PlanRelation(plan, current), false, hasCurrentSub, answer).value;
      ConfirmPayment(SelectPlan(s, false, plan.id, a), payment, None, ok).0
        == Some(PaymentRequest(plan.id, payment, a, None))
  {
  }

  // ---------------------------------------------------------------------
  // PaymentMethodModal
  // ---------------------------------------------------------------------

  /** `requestedAction = 'upgrade_next_month'`: the default when the caller
      gives none. */
  function RequestedAction(given: Option<Action>): (a: Action)
    ensures given.Some? ==> a == given.value
    ensures given.None? ==> a == UpgradeNextMonth
  {
    Nullish(given, Some(UpgradeNextMonth)).value
  }

  /** The disclaimer that the amount is an estimate. */
  predicate ShowsEstimateNotice(given: Option<Action>) {
    RequestedAction(given) == UpgradeCurrentMonth
  }

  /** The confirm button is disabled without a method or while submitting. */
  predicate ConfirmDisabled(selected: Option<Method>, isLoading: bool) {
    selected.None? || isLoading
  }

  /** A press on the confirm button: the method handed to the screen, if
      any. No proof URL is passed. */
  function PressConfirm(selected: Option<Method>, isLoading: bool): (r: Option<(Method, Option<string>)>)
    ensures r.Some? <==> selected.Some? && !isLoading
    ensures r.Some? ==> r.value == (selected.value, None)
  {
    if ConfirmDisabled(selected, isLoading) then None
    else Some((selected.value, None))
  }

  /** `handleClose`: ignored while submitting; otherwise the method is
      cleared and the dialog closes. */
  function Close(selected: Option<Method>, isLoading: bool): (r: (Option<Method>, bool))
    ensures isLoading ==> r == (selected, false)
    ensures !isLoading ==> r == (None, true)
    ensures !isLoading ==> PressConfirm(r.0, false).None? && PressConfirm(r.0, true).None?
    ensures isLoading ==> PressConfirm(r.0, false) == PressConfirm(selected, false)
  {
    if isLoading then (selected, false) else (None, true)
  }

  /** Closing the dialog forgets the chosen method, so a confirm press
      right after it sends nothing; a close attempted while submitting is
      ignored and the chosen method can still be confirmed once the
      submission is over. */
  lemma CloseThenConfirm(selected: Option<Method>, isLoading: bool, laterLoading: bool)
    ensures !isLoading ==> Close(selected, isLoading).1 && PressConfirm(Close(selected, isLoading).0, laterLoading).None?
    ensures isLoading ==>
      !Close(selected, isLoading).1 && PressConfirm(Close(selected, isLoading).0, false) == PressConfirm(selected, false)
  {
  }

  /** The plans screen always hands the dialog its chosen action, so the
      estimate notice shows exactly when the user chose to upgrade now. */
  lemma EstimateNoticeOnlyForImmediateUpgrade(relation: Relation, hasCurrentSub: bool, answer: Answer)
    requires ChooseAction(relation, false, hasCurrentSub, answer).Some?
    ensures ShowsEstimateNotice(ChooseAction(relation, false, hasCurrentSub, answer)) <==>
      relation == Higher && hasCurrentSub && answer == UpgradeNow(true)
  {
  }
}
