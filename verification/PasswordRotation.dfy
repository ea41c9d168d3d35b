/** The one-off rotation of a restored role's password: passwordRotationTrigger of
    functions/database/service/pg_user.go. Times are seconds; a time that cannot be parsed reads as none. */
module PasswordRotation {
  import opened Wrappers

  /** An observed role: the trigger in its spec, and when its password last changed. */
  datatype Role = Role(trigger: Option<int>, lastChange: Option<int>)

  function Trigger(observed: Option<Role>, restored: bool): Option<int> {
    if observed.None? then None
    else if observed.value.trigger.Some? then observed.value.trigger
    else if !restored then None
    else
      match observed.value.lastChange
      case None => None
      case Some(time) => Some(time + 1)
  }

  /** The role between rounds, and whether its instance is restored from a snapshot. */
  datatype State = State(role: Option<Role>, restored: bool)

  /** A round that creates or updates the role. */
  predicate RoundStep(before: State, after: State) {
    && after.restored == before.restored
    && after.role.Some?
    && after.role.value.trigger == Trigger(before.role, before.restored)
    && (before.role.Some? ==> after.role.value.lastChange == before.role.value.lastChange)
  }

  /** The provider sets a first password, and a new one only when the trigger is later than the last change. */
  predicate ProviderStep(before: State, after: State) {
    && after.restored == before.restored && before.role.Some? && after.role.Some?
    && after.role.value.trigger == before.role.value.trigger
    && var was, now := before.role.value.lastChange, after.role.value.lastChange;
       if was.None? || (before.role.value.trigger.Some? && was.value < before.role.value.trigger.value)
       then now == was || (now.Some? && (was.Some? ==> now.value >= before.role.value.trigger.value))
       else now == was
  }

  predicate EditStep(before: State, after: State) { after.role == before.role }

  predicate Step(before: State, after: State) {
    after == before || RoundStep(before, after) || ProviderStep(before, after) || EditStep(before, after)
  }

  /** A stretch of a run in which the role is there. */
  predicate IsStretch(states: seq<State>) {
    && states != []
    && (forall r :: 0 <= r < |states| ==> states[r].role.Some?)
    && forall r :: 0 <= r < |states| - 1 ==> Step(states[r], states[r + 1])
  }

  /** Changes of an existing password. */
  function Rotations(states: seq<State>): nat
    requires forall r :: 0 <= r < |states| ==> states[r].role.Some?
  {
    if |states| < 2 then 0
    else
      var n := |states| - 1;
      Rotations(states[..n])
      + if states[n - 1].role.value.lastChange.Some?
            && states[n].role.value.lastChange != states[n - 1].role.value.lastChange
        then 1 else 0
  }

  /** Once set, the trigger stays. */
  lemma TriggerStays(before: State, after: State)
    requires Step(before, after) && before.role.Some? && after.role.Some? && before.role.value.trigger.Some?
    ensures after.role.value.trigger == before.role.value.trigger
  {}

  /** How many rotations a role has behind it: none while no trigger was set or passed. */
  lemma {:induction false} RotationsSoFar(states: seq<State>)
    requires IsStretch(states) && states[0].role.value.trigger.None?
    ensures var role := states[|states| - 1].role.value;
      && Rotations(states) <= 1
      && (Rotations(states) == 1 ==>
           role.trigger.Some? && role.lastChange.Some? && role.lastChange.value >= role.trigger.value)
  {
    if |states| > 1 {
      var n := |states| - 1;
      RotationsSoFar(states[..n]);
      assert states[..n][n - 1] == states[n - 1];
      assert Step(states[n - 1], states[n - 1 + 1]);
    }
  }

  /** However often rounds, provider and user take turns, a role that starts without a trigger has its password
      rotated at most once for as long as it exists. */
  lemma RotatedAtMostOnce(states: seq<State>)
    requires IsStretch(states) && states[0].role.value.trigger.None?
    ensures Rotations(states) <= 1
  {
    RotationsSoFar(states);
  }

  /** Round `r` sees a restored role whose password is known to have changed. */
  predicate SeesRestoredRole(states: seq<State>, r: int)
    requires forall i :: 0 <= i < |states| ==> states[i].role.Some?
  {
    && 0 <= r < |states| - 1 && RoundStep(states[r], states[r + 1])
    && states[r].restored && states[r].role.value.lastChange.Some?
  }

  lemma {:induction false} TriggerSince(states: seq<State>, start: nat, to: nat)
    requires IsStretch(states) && start <= to < |states| && states[start].role.value.trigger.Some?
    ensures states[to].role.value.trigger == states[start].role.value.trigger
  {
    if start < to {
      TriggerSince(states, start, to - 1);
      assert Step(states[to - 1], states[to - 1 + 1]);
      TriggerStays(states[to - 1], states[to]);
    }
  }

  lemma {:induction false} TriggerHasACause(states: seq<State>, n: nat) returns (r: nat)
    requires IsStretch(states) && n < |states|
    requires states[0].role.value.trigger.None? && states[n].role.value.trigger.Some?
    ensures r < n && SeesRestoredRole(states, r)
    ensures states[n].role.value.trigger == Some(states[r].role.value.lastChange.value + 1)
  {
    assert Step(states[n - 1], states[n - 1 + 1]);
    if states[n - 1].role.value.trigger.Some? {
      r := TriggerHasACause(states, n - 1);
      TriggerStays(states[n - 1], states[n]);
    } else {
      r := n - 1;
    }
  }

  /** In every stretch that starts without a trigger, one is set at the end exactly when some round saw a restored
      role with a known password change, and then it is one second after such a change. */
  lemma TriggerIsSetExactly(states: seq<State>)
    requires IsStretch(states) && states[0].role.value.trigger.None?
    ensures states[|states| - 1].role.value.trigger.Some? <==> exists r :: SeesRestoredRole(states, r)
    ensures states[|states| - 1].role.value.trigger.Some? ==>
      exists r :: SeesRestoredRole(states, r)
        && states[|states| - 1].role.value.trigger == Some(states[r].role.value.lastChange.value + 1)
  {
    var n := |states| - 1;
    if states[n].role.value.trigger.Some? {
      var r := TriggerHasACause(states, n);
    }
    forall r | SeesRestoredRole(states, r)
      ensures states[n].role.value.trigger.Some?
    {
      TriggerSince(states, r + 1, n);
    }
  }
}
