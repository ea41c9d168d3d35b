/** The readiness of a managed resource: GetCrossplaneReadyStatus of functions/common/base/util.go. */
module Readiness {
  import opened Sequencing

  /** A condition; one that is not an object has no type. */
  datatype Condition = Condition(kind: string, status: string)

  const READY_TYPE := "Ready"
  const SYNCED_TYPE := "Synced"
  const TRUE_STATUS := "True"

  predicate IsUnsynced(condition: Condition) { condition.kind == SYNCED_TYPE && condition.status != TRUE_STATUS }

  predicate HasUnsynced(conditions: seq<Condition>) {
    exists i :: 0 <= i < |conditions| && IsUnsynced(conditions[i])
  }

  predicate IsLastReady(conditions: seq<Condition>, i: int) {
    && 0 <= i < |conditions| && conditions[i].kind == READY_TYPE
    && forall k :: i < k < |conditions| ==> conditions[k].kind != READY_TYPE
  }

  /** Managed resources of the cloud providers are not ready until they say so. */
  function Default(provider: bool): Ready { if provider then ReadyFalse else ReadyTrue }

  ghost predicate IsStatus(conditions: seq<Condition>, provider: bool, ready: Ready) {
    && (HasUnsynced(conditions) ==> ready == ReadyFalse)
    && (!HasUnsynced(conditions) ==> forall i :: IsLastReady(conditions, i) ==>
         ready == if conditions[i].status == TRUE_STATUS then ReadyTrue else ReadyFalse)
    && (!HasUnsynced(conditions) && (forall i :: 0 <= i < |conditions| ==> conditions[i].kind != READY_TYPE) ==>
         ready == Default(provider))
  }

  /** An unsynced resource is not ready; otherwise the last Ready condition decides, and without one the
      default. */
  method GetCrossplaneReadyStatus(conditions: seq<Condition>, provider: bool) returns (ready: Ready)
    ensures IsStatus(conditions, provider, ready)
  {
    ready := ReadyUnspecified;
    ghost var last := -1;
    for i := 0 to |conditions|
      invariant forall k :: 0 <= k < i ==> !IsUnsynced(conditions[k])
      invariant -1 <= last < i && forall k :: last < k < i ==> conditions[k].kind != READY_TYPE
      invariant last == -1 <==> ready == ReadyUnspecified
      invariant last >= 0 ==> conditions[last].kind == READY_TYPE
      invariant last >= 0 ==> ready == if conditions[last].status == TRUE_STATUS then ReadyTrue else ReadyFalse
    {
      if conditions[i].kind == SYNCED_TYPE && conditions[i].status != TRUE_STATUS {
        assert IsUnsynced(conditions[i]);
        return ReadyFalse;
      }
      if conditions[i].kind != READY_TYPE {
        continue;
      }
      ready := if conditions[i].status == TRUE_STATUS then ReadyTrue else ReadyFalse;
      last := i;
    }
    if ready == ReadyUnspecified {
      ready := Default(provider);
    }
  }

  /** At most one condition of type Ready, up to repetition, as Kubernetes keeps them. */
  predicate OneReady(conditions: seq<Condition>) {
    forall i, k | 0 <= i < |conditions| && 0 <= k < |conditions|
      && conditions[i].kind == READY_TYPE && conditions[k].kind == READY_TYPE :: conditions[i] == conditions[k]
  }

  lemma {:induction false} LastReady(conditions: seq<Condition>, start: int) returns (i: int)
    requires 0 <= start < |conditions| && conditions[start].kind == READY_TYPE
    ensures IsLastReady(conditions, i)
    decreases |conditions| - start
  {
    if k :| start < k < |conditions| && conditions[k].kind == READY_TYPE {
      i := LastReady(conditions, k);
    } else {
      i := start;
    }
  }

  lemma StatusExactly(conditions: seq<Condition>, provider: bool, ready: Ready)
    requires OneReady(conditions) && IsStatus(conditions, provider, ready)
    ensures ready ==
      if exists c :: c in conditions && IsUnsynced(c) then ReadyFalse
      else if exists c :: c in conditions && c.kind == READY_TYPE && c.status == TRUE_STATUS then ReadyTrue
      else if exists c :: c in conditions && c.kind == READY_TYPE then ReadyFalse
      else Default(provider)
  {
    if c :| c in conditions && IsUnsynced(c) {
      var i :| 0 <= i < |conditions| && conditions[i] == c;
      assert HasUnsynced(conditions);
    } else if c :| c in conditions && c.kind == READY_TYPE {
      assert !HasUnsynced(conditions);
      var start :| 0 <= start < |conditions| && conditions[start] == c;
      var i := LastReady(conditions, start);
      assert conditions[i] == c;
    } else {
      assert !HasUnsynced(conditions);
    }
  }

  /** With one Ready condition, the order of the conditions does not matter. */
  lemma StatusIgnoresOrder(a: seq<Condition>, b: seq<Condition>, provider: bool, readyA: Ready, readyB: Ready)
    requires multiset(a) == multiset(b) && OneReady(a)
    requires IsStatus(a, provider, readyA) && IsStatus(b, provider, readyB)
    ensures readyA == readyB
  {
    forall c
      ensures c in a <==> c in b
    {
      assert c in multiset(a) <==> c in multiset(b);
    }
    forall i, k | 0 <= i < |b| && 0 <= k < |b| && b[i].kind == READY_TYPE && b[k].kind == READY_TYPE
      ensures b[i] == b[k]
    {
      assert b[i] in a && b[k] in a;
    }
    hide IsStatus;
    StatusExactly(a, provider, readyA);
    StatusExactly(b, provider, readyB);
  }
}
