/**
The policy account over time: a supplier that was removed stays out of every new
intent until it is added again, and no move exceeds the cap last set.
*/
module AccountHistory {
  import opened Wrappers
  import opened Ledger
  import Escrow
  import EscrowTheorems
  import opened PolicyAccount
  import opened Composition

  // ---- What one transaction does to the policy ----

  /** The transaction would approve `a`. */
  predicate Readds(step: Step, a: Address) {
    step.Signed? && Admin(AddSupplier(a)) in step.actions
  }

  predicate Recaps(step: Step) {
    step.Signed? && exists i :: 0 <= i < |step.actions| && step.actions[i].Admin? && step.actions[i].op.SetCap?
  }

  lemma {:induction false} ActionsLeaveOut(w: World, actions: seq<Action>, a: Address)
    requires a !in w.account.suppliers && Admin(AddSupplier(a)) !in actions && PerformAll(w, actions).Ok?
    ensures a !in PerformAll(w, actions).value.account.suppliers
    decreases |actions|
  {
    if actions != [] {
      hide Escrow.TryCreate, Escrow.TryTransfer;
      assert actions[0] in actions;
      ActionsLeaveOut(Perform(w, actions[0]).value, actions[1..], a);
    }
  }

  lemma {:induction false} ActionsKeepCap(w: World, actions: seq<Action>)
    requires PerformAll(w, actions).Ok?
    requires forall i :: 0 <= i < |actions| && actions[i].Admin? ==> !actions[i].op.SetCap?
    ensures PerformAll(w, actions).value.account.cap == w.account.cap
    decreases |actions|
  {
    if actions != [] {
      hide Escrow.TryCreate, Escrow.TryTransfer;
      ActionsKeepCap(Perform(w, actions[0]).value, actions[1..]);
    }
  }

  lemma {:induction false} ActionsSplit(w: World, before: seq<Action>, rest: seq<Action>)
    requires PerformAll(w, before + rest).Ok?
    ensures PerformAll(w, before).Ok? && PerformAll(w, before + rest) == PerformAll(PerformAll(w, before).value, rest)
    decreases |before|
  {
    if before == [] {
      assert before + rest == rest;
    } else {
      hide Perform;
      assert (before + rest)[1..] == before[1..] + rest;
      ActionsSplit(Perform(w, before[0]).value, before[1..], rest);
    }
  }

  /** A transaction that went through and removed `a` without adding it back leaves it unapproved. */
  lemma RemovalTakesEffect(w: World, before: seq<Action>, rest: seq<Action>, a: Address)
    requires PerformAll(w, before + [Admin(RemoveSupplier(a))] + rest).Ok? && Admin(AddSupplier(a)) !in rest
    ensures a !in PerformAll(w, before + [Admin(RemoveSupplier(a))] + rest).value.account.suppliers
  {
    hide PerformAll;
    var removal := [Admin(RemoveSupplier(a))];
    assert before + removal + rest == before + (removal + rest);
    ActionsSplit(w, before, removal + rest);
    var mid := PerformAll(w, before).value;
    ActionsSplit(mid, removal, rest);
    OneAdmin(mid, RemoveSupplier(a));
    AdministerExactly(mid.account, a, 0);
    ActionsLeaveOut(PerformAll(mid, removal).value, rest, a);
  }

  /** A transaction that went through and set the cap last to `cap` leaves exactly that cap. */
  lemma CapTakesEffect(w: World, before: seq<Action>, rest: seq<Action>, cap: int)
    requires PerformAll(w, before + [Admin(SetCap(cap))] + rest).Ok?
    requires forall i :: 0 <= i < |rest| && rest[i].Admin? ==> !rest[i].op.SetCap?
    ensures PerformAll(w, before + [Admin(SetCap(cap))] + rest).value.account.cap == cap
  {
    hide PerformAll;
    var setting := [Admin(SetCap(cap))];
    assert before + setting + rest == before + (setting + rest);
    ActionsSplit(w, before, setting + rest);
    var mid := PerformAll(w, before).value;
    ActionsSplit(mid, setting, rest);
    OneAdmin(mid, SetCap(cap));
    AdministerExactly(mid.account, "", cap);
    ActionsKeepCap(PerformAll(mid, setting).value, rest);
  }

  lemma OneAdmin(w: World, op: AdminOp)
    ensures PerformAll(w, [Admin(op)]) == Ok(w.(account := Administer(w.account, op)))
  {
    var actions := [Admin(op)];
    assert actions[1..] == [];
  }

  // ---- Over a run ----

  lemma StepLeavesOut(verify: (string, string, string) -> bool, w: World, step: Step, a: Address)
    requires a !in w.account.suppliers && !Readds(step, a)
    ensures a !in Do(verify, w, step).account.suppliers
  {
    hide Escrow.Apply, Answers, AllContexts, PerformAll;
    if step.Signed? && PerformAll(w, step.actions).Ok? { ActionsLeaveOut(w, step.actions, a); }
  }

  lemma StepKeepsCap(verify: (string, string, string) -> bool, w: World, step: Step)
    requires !Recaps(step)
    ensures Do(verify, w, step).account.cap == w.account.cap
  {
    hide Escrow.Apply, Answers, AllContexts, PerformAll;
    if step.Signed? && PerformAll(w, step.actions).Ok? { ActionsKeepCap(w, step.actions); }
  }

  /** The intents opened between `w` and `w'` on the account's own money. */
  ghost predicate OpenedFor(w: World, w': World, id: nat, a: Address) {
    && id in w'.escrow.intents && id !in w.escrow.intents
    && w'.escrow.intents[id].sme == w.account.self && w'.escrow.intents[id].supplier == a
  }

  /**
  Over any run that starts with `a` unapproved and never adds it: it stays
  unapproved, and no intent on the account's money names it.
  */
  lemma {:induction false} RemovedStaysOut(
    verify: (string, string, string) -> bool, b0: Balances, w: World, steps: seq<Step>, a: Address)
    requires Inv(b0, w) && AllAllowedSteps(w, steps) && a !in w.account.suppliers
    requires forall i :: 0 <= i < |steps| ==> !Readds(steps[i], a)
    ensures a !in Run(verify, w, steps).account.suppliers
    ensures forall id :: !OpenedFor(w, Run(verify, w, steps), id, a)
  {
    if steps != [] {
      hide Inv, Do, Allowed;
      var front, last := steps[..|steps| - 1], steps[|steps| - 1];
      var mid := Run(verify, w, front);
      RemovedStaysOut(verify, b0, w, front, a);
      RunKeeps(verify, b0, w, front);
      StepLeavesOut(verify, mid, last, a);
      assert Allowed(mid, last) by { SameAllowed(w, mid, last); }
      DoKeeps(verify, b0, mid, last);
      forall id ensures !OpenedFor(w, Run(verify, w, steps), id, a) {
        assert !OpenedFor(w, mid, id, a);
      }
    }
  }

  lemma SameAllowed(w: World, mid: World, step: Step)
    requires mid.escrow.vault == w.escrow.vault && mid.account.self == w.account.self && Allowed(w, step)
    ensures Allowed(mid, step)
  {
  }

  /** Over any run that does not set the cap, it stays what it was and no move out of the account exceeds it. */
  lemma {:induction false} LastCapHolds(verify: (string, string, string) -> bool, b0: Balances, w: World, steps: seq<Step>)
    requires Inv(b0, w) && AllAllowedSteps(w, steps)
    requires forall i :: 0 <= i < |steps| ==> !Recaps(steps[i])
    ensures var w' := Run(verify, w, steps);
            && w'.account.cap == w.account.cap && w.escrow.journal <= w'.escrow.journal
            && (forall j :: |w.escrow.journal| <= j < |w'.escrow.journal| ==>
                  var e := w'.escrow.journal[j];
                  e.Moved? && e.from == w.account.self ==> 0 <= e.amount <= w.account.cap)
  {
    if steps != [] {
      hide Inv, Do, Allowed;
      var front, last := steps[..|steps| - 1], steps[|steps| - 1];
      var mid := Run(verify, w, front);
      LastCapHolds(verify, b0, w, front);
      RunKeeps(verify, b0, w, front);
      StepKeepsCap(verify, mid, last);
      assert Allowed(mid, last) by { SameAllowed(w, mid, last); }
      DoKeeps(verify, b0, mid, last);
      var w' := Do(verify, mid, last);
      forall j | |w.escrow.journal| <= j < |w'.escrow.journal|
        ensures var e := w'.escrow.journal[j]; e.Moved? && e.from == w.account.self ==> 0 <= e.amount <= w.account.cap
      {
        if j < |mid.escrow.journal| {
          assert w'.escrow.journal[j] == mid.escrow.journal[j];
        } else {
          assert MoveWithin(mid.account, mid.escrow.vault, w'.escrow.journal[j]);
        }
      }
    }
  }
}
