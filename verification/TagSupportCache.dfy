/** The cache of which kinds have a tag field: supportsField of functions/common/base/tag.go, under any
    interleaving of its callers. */
module TagSupportCache {

  datatype Gvk = Gvk(group: string, version: string, kind: string)

  /** The key under which concurrent computations are merged. */
  function Name(gvk: Gvk): string { gvk.group + "/" + gvk.version + ", Kind=" + gvk.kind }

  /** A caller: the kind of its object, and what resolving the field in that object gives. */
  datatype Caller = Caller(gvk: Gvk, supports: bool)

  /** Where a caller is. */
  datatype Position =
    | Start
    | Missed
    | Waiting
    | Leading
    | Computing
    | Storing(result: bool)
    | Finishing(result: bool)
    | Done(result: bool)

  /** `flights` has the leader of each computation under way; `resolved` counts the computations of a kind. */
  datatype State = State(cache: map<Gvk, bool>, flights: map<string, nat>, at: seq<Position>, resolved: multiset<Gvk>)

  predicate IsFlying(position: Position) {
    position.Leading? || position.Computing? || position.Storing? || position.Finishing?
  }

  /** One atomic step of caller `t`. The end of a flight gives its result to everybody who waits for it. */
  function Next(callers: seq<Caller>, s: State, t: nat): (next: State)
    requires |s.at| == |callers| && t < |callers|
    ensures |next.at| == |callers|
  {
    var gvk := callers[t].gvk;
    match s.at[t]
    case Start => s.(at := s.at[t := if gvk in s.cache then Done(s.cache[gvk]) else Missed])
    case Missed =>
      if Name(gvk) in s.flights then s.(at := s.at[t := Waiting])
      else s.(flights := s.flights[Name(gvk) := t], at := s.at[t := Leading])
    case Leading => s.(at := s.at[t := if gvk in s.cache then Finishing(s.cache[gvk]) else Computing])
    case Computing => s.(at := s.at[t := Storing(callers[t].supports)], resolved := s.resolved + multiset{gvk})
    case Storing(r) => s.(cache := s.cache[gvk := r], at := s.at[t := Finishing(r)])
    case Finishing(r) => s.(flights := s.flights - {Name(gvk)}, at := Landed(callers, s.at, t, r))
    case Waiting => s
    case Done(_) => s
  }

  function Landed(callers: seq<Caller>, at: seq<Position>, t: nat, result: bool): (r: seq<Position>)
    requires |at| == |callers| && t < |callers|
    ensures |r| == |at|
  {
    seq(|at|, i requires 0 <= i < |at| =>
      if i == t || (at[i] == Waiting && Name(callers[i].gvk) == Name(callers[t].gvk)) then Done(result) else at[i])
  }

  function Initial(callers: seq<Caller>): (s: State)
    ensures |s.at| == |callers|
  {
    State(map[], map[], seq(|callers|, i => Start), multiset{})
  }

  /** The state after the callers took steps in the order of `schedule`. */
  function After(callers: seq<Caller>, schedule: seq<nat>): (s: State)
    requires forall i :: 0 <= i < |schedule| ==> schedule[i] < |callers|
    ensures |s.at| == |callers|
  {
    if schedule == [] then Initial(callers)
    else
      var before := After(callers, schedule[..|schedule| - 1]);
      assert forall i :: 0 <= i < |schedule| - 1 ==> schedule[..|schedule| - 1][i] == schedule[i];
      Next(callers, before, schedule[|schedule| - 1])
  }

  /** Different requested kinds have different keys. */
  predicate NamesTellKindsApart(callers: seq<Caller>) {
    forall i, j | 0 <= i < |callers| && 0 <= j < |callers| && Name(callers[i].gvk) == Name(callers[j].gvk) ::
      callers[i].gvk == callers[j].gvk
  }

  // ---- The invariant ----

  /** Who is in flight leads the flight of its key. */
  predicate FlyingLead(callers: seq<Caller>, s: State)
    requires |s.at| == |callers|
  {
    forall t :: 0 <= t < |callers| && IsFlying(s.at[t]) ==>
      Name(callers[t].gvk) in s.flights && s.flights[Name(callers[t].gvk)] == t
  }

  predicate LeadersFly(callers: seq<Caller>, s: State)
    requires |s.at| == |callers|
  {
    forall name :: name in s.flights ==>
      s.flights[name] < |callers| && IsFlying(s.at[s.flights[name]]) && Name(callers[s.flights[name]].gvk) == name
  }

  predicate WaitersHaveFlights(callers: seq<Caller>, s: State)
    requires |s.at| == |callers|
  {
    forall t :: 0 <= t < |callers| && s.at[t].Waiting? ==> Name(callers[t].gvk) in s.flights
  }

  predicate FlightsHold(callers: seq<Caller>, s: State)
    requires |s.at| == |callers|
  {
    FlyingLead(callers, s) && LeadersFly(callers, s) && WaitersHaveFlights(callers, s)
  }

  /** The cached value of some kind that shares the key of caller `t`. */
  predicate IsAnswer(callers: seq<Caller>, cache: map<Gvk, bool>, t: int, result: bool)
    requires 0 <= t < |callers|
  {
    exists u | 0 <= u < |callers| && Name(callers[u].gvk) == Name(callers[t].gvk) ::
      callers[u].gvk in cache && cache[callers[u].gvk] == result
  }

  /** What the position of a caller says about its kind. */
  predicate PositionHolds(callers: seq<Caller>, s: State, t: int)
    requires |s.at| == |callers| && 0 <= t < |callers|
  {
    var gvk := callers[t].gvk;
    match s.at[t]
    case Computing => gvk !in s.cache && s.resolved[gvk] == 0
    case Storing(r) => gvk !in s.cache && s.resolved[gvk] == 1 && r == callers[t].supports
    case Finishing(r) => gvk in s.cache && s.cache[gvk] == r
    case Done(r) => IsAnswer(callers, s.cache, t, r)
    case _ => true
  }

  /** The cached value was resolved from an object of that kind, once. */
  predicate CacheHolds(callers: seq<Caller>, s: State)
    requires |s.at| == |callers|
  {
    && (forall gvk :: gvk in s.cache ==>
         s.resolved[gvk] == 1 && exists t :: 0 <= t < |callers| && callers[t].gvk == gvk && callers[t].supports == s.cache[gvk])
    && (forall gvk :: gvk in s.resolved && gvk !in s.cache ==>
         s.resolved[gvk] == 1 && exists t :: 0 <= t < |callers| && callers[t].gvk == gvk && s.at[t].Storing?)
  }

  predicate Invariant(callers: seq<Caller>, s: State)
    requires |s.at| == |callers|
  {
    && FlightsHold(callers, s)
    && (forall t :: 0 <= t < |callers| ==> PositionHolds(callers, s, t))
    && CacheHolds(callers, s)
  }

  // Two callers of one kind are never both in flight.
  lemma OneLeader(callers: seq<Caller>, s: State, t: int, u: int)
    requires |s.at| == |callers| && FlightsHold(callers, s)
    requires 0 <= t < |callers| && 0 <= u < |callers| && IsFlying(s.at[t]) && IsFlying(s.at[u])
    requires callers[t].gvk == callers[u].gvk
    ensures t == u
  {
    hide Name;
  }

  lemma StepOfOthers(callers: seq<Caller>, s: State, t: nat, u: nat)
    requires |s.at| == |callers| && t < |callers| && u < |callers| && u != t
    ensures var next := Next(callers, s, t);
      next.at[u] == if s.at[t].Finishing? && s.at[u].Waiting? && Name(callers[u].gvk) == Name(callers[t].gvk)
                    then Done(s.at[t].result) else s.at[u]
  {
    hide Name;
  }

  /** What a step does to the cache and the count. */
  lemma Effects(callers: seq<Caller>, s: State, t: nat)
    requires |s.at| == |callers| && t < |callers|
    ensures var next, gvk := Next(callers, s, t), callers[t].gvk;
      && |next.at| == |callers|
      && next.cache == (if s.at[t].Storing? then s.cache[gvk := s.at[t].result] else s.cache)
      && next.resolved == (if s.at[t].Computing? then s.resolved + multiset{gvk} else s.resolved)
      && (next.at[t].Storing? <==> s.at[t].Computing?)
      && (s.at[t].Computing? ==> next.at[t] == Storing(callers[t].supports))
  {
    hide Name;
  }

  /** What a step does to the flights and to the caller itself. */
  lemma FlightEffects(callers: seq<Caller>, s: State, t: nat)
    requires |s.at| == |callers| && t < |callers|
    ensures var next, name, was := Next(callers, s, t), Name(callers[t].gvk), s.at[t];
      var starts := was.Missed? && name !in s.flights;
      && next.flights == (if starts then s.flights[name := t]
                          else if was.Finishing? then s.flights - {name} else s.flights)
      && (IsFlying(next.at[t]) <==> starts || (IsFlying(was) && !was.Finishing?))
      && (next.at[t].Waiting? <==> was.Waiting? || (was.Missed? && !starts))
  {
    hide Name;
  }

  lemma FlyingStillLead(callers: seq<Caller>, s: State, t: nat, u: nat)
    requires |s.at| == |callers| && t < |callers| && u < |callers| && FlyingLead(callers, s)
    requires IsFlying(Next(callers, s, t).at[u])
    ensures var next := Next(callers, s, t);
      Name(callers[u].gvk) in next.flights && next.flights[Name(callers[u].gvk)] == u
  {
    FlightEffects(callers, s, t);
    if u != t { StepOfOthers(callers, s, t, u); }
    hide Next;
    hide Name;
  }

  lemma LeaderStillFlies(callers: seq<Caller>, s: State, t: nat, name: string)
    requires |s.at| == |callers| && t < |callers| && LeadersFly(callers, s)
    requires name in Next(callers, s, t).flights
    ensures var next := Next(callers, s, t);
      next.flights[name] < |callers| && IsFlying(next.at[next.flights[name]])
      && Name(callers[next.flights[name]].gvk) == name
  {
    FlightEffects(callers, s, t);
    var u := Next(callers, s, t).flights[name];
    hide Next;
    hide Name;
    if u != t {
      assert name in s.flights && s.flights[name] == u;
      StepOfOthers(callers, s, t, u);
    }
  }

  lemma WaiterStillHasFlight(callers: seq<Caller>, s: State, t: nat, u: nat)
    requires |s.at| == |callers| && t < |callers| && u < |callers| && WaitersHaveFlights(callers, s)
    requires Next(callers, s, t).at[u].Waiting?
    ensures Name(callers[u].gvk) in Next(callers, s, t).flights
  {
    FlightEffects(callers, s, t);
    if u != t { StepOfOthers(callers, s, t, u); }
    hide Next;
    hide Name;
  }

  lemma FlightsAreKept(callers: seq<Caller>, s: State, t: nat)
    requires |s.at| == |callers| && t < |callers| && FlightsHold(callers, s)
    ensures FlightsHold(callers, Next(callers, s, t))
  {
    hide Name;
    hide Next;
    hide IsFlying;
    var next := Next(callers, s, t);
    forall u: nat | u < |callers| && IsFlying(next.at[u])
      ensures Name(callers[u].gvk) in next.flights && next.flights[Name(callers[u].gvk)] == u
    {
      FlyingStillLead(callers, s, t, u);
    }
    forall name | name in next.flights
      ensures next.flights[name] < |callers| && IsFlying(next.at[next.flights[name]])
      ensures Name(callers[next.flights[name]].gvk) == name
    {
      LeaderStillFlies(callers, s, t, name);
    }
    forall u: nat | u < |callers| && next.at[u].Waiting?
      ensures Name(callers[u].gvk) in next.flights
    {
      WaiterStillHasFlight(callers, s, t, u);
    }
  }

  lemma NothingResolvedYet(callers: seq<Caller>, s: State, t: nat)
    requires |s.at| == |callers| && t < |callers| && FlightsHold(callers, s) && CacheHolds(callers, s)
    requires s.at[t].Leading? && callers[t].gvk !in s.cache
    ensures callers[t].gvk !in s.resolved
  {
    hide Name;
    hide FlightsHold;
    if callers[t].gvk in s.resolved {
      var v :| 0 <= v < |callers| && callers[v].gvk == callers[t].gvk && s.at[v].Storing?;
      OneLeader(callers, s, t, v);
    }
  }

  lemma OwnPositionIsKept(callers: seq<Caller>, s: State, t: nat)
    requires |s.at| == |callers| && t < |callers| && Invariant(callers, s)
    ensures PositionHolds(callers, Next(callers, s, t), t)
  {
    assert PositionHolds(callers, s, t);
    if s.at[t].Leading? && callers[t].gvk !in s.cache {
      NothingResolvedYet(callers, s, t);
    }
    if callers[t].gvk in s.cache {
      CachedIsAnswer(callers, s.cache, t, t);
    }
    hide Name;
    hide FlightsHold;
    hide CacheHolds;
    hide Invariant;
    hide IsAnswer;
  }

  lemma CacheGrows(callers: seq<Caller>, s: State, t: nat)
    requires |s.at| == |callers| && t < |callers| && PositionHolds(callers, s, t)
    ensures forall gvk :: gvk in s.cache ==>
      gvk in Next(callers, s, t).cache && Next(callers, s, t).cache[gvk] == s.cache[gvk]
  {
    hide Name;
    hide IsAnswer;
  }

  lemma AnswerStays(callers: seq<Caller>, s: State, t: nat, v: nat, result: bool)
    requires |s.at| == |callers| && t < |callers| && v < |callers| && PositionHolds(callers, s, t)
    requires IsAnswer(callers, s.cache, v, result)
    ensures IsAnswer(callers, Next(callers, s, t).cache, v, result)
  {
    CacheGrows(callers, s, t);
    hide Name;
    hide Next;
    hide PositionHolds;
  }

  lemma CachedIsAnswer(callers: seq<Caller>, cache: map<Gvk, bool>, t: nat, v: nat)
    requires t < |callers| && v < |callers| && Name(callers[t].gvk) == Name(callers[v].gvk)
    requires callers[t].gvk in cache
    ensures IsAnswer(callers, cache, v, cache[callers[t].gvk])
  {
    hide Name;
  }

  lemma OtherPositionIsKept(callers: seq<Caller>, s: State, t: nat, u: nat)
    requires |s.at| == |callers| && t < |callers| && u < |callers| && t != u && FlightsHold(callers, s)
    requires PositionHolds(callers, s, t) && PositionHolds(callers, s, u)
    ensures PositionHolds(callers, Next(callers, s, t), u)
  {
    hide Next;
    hide Name;
    hide FlightsHold;
    hide IsAnswer;
    if callers[t].gvk == callers[u].gvk {
      NotBothFlying(callers, s, t, u);
    }
    StepOfOthers(callers, s, t, u);
    Effects(callers, s, t);
    if s.at[u].Done? {
      AnswerStays(callers, s, t, u, s.at[u].result);
    } else if Next(callers, s, t).at[u].Done? {
      CachedIsAnswer(callers, s.cache, t, u);
    }
  }

  lemma NotBothFlying(callers: seq<Caller>, s: State, t: int, u: int)
    requires |s.at| == |callers| && FlightsHold(callers, s)
    requires 0 <= t < |callers| && 0 <= u < |callers| && t != u && callers[t].gvk == callers[u].gvk
    ensures !(IsFlying(s.at[t]) && IsFlying(s.at[u]))
  {
    hide FlightsHold;
    if IsFlying(s.at[t]) && IsFlying(s.at[u]) {
      OneLeader(callers, s, t, u);
    }
  }

  lemma ResolvedIsKept(callers: seq<Caller>, s: State, t: nat, g: Gvk)
    requires |s.at| == |callers| && t < |callers| && PositionHolds(callers, s, t) && CacheHolds(callers, s)
    requires g in Next(callers, s, t).resolved && g !in Next(callers, s, t).cache
    ensures Next(callers, s, t).resolved[g] == 1
    ensures exists u :: 0 <= u < |callers| && callers[u].gvk == g && Next(callers, s, t).at[u].Storing?
  {
    Effects(callers, s, t);
    forall u: nat | u < |callers| && u != t && s.at[u].Storing?
      ensures Next(callers, s, t).at[u].Storing?
    {
      StepOfOthers(callers, s, t, u);
    }
    hide Next;
    hide Name;
    var next, gvk := Next(callers, s, t), callers[t].gvk;
    if g == gvk && s.at[t].Computing? {
      assert next.at[t].Storing?;
    } else {
      assert g in s.resolved && g !in s.cache;
      var u :| 0 <= u < |callers| && callers[u].gvk == g && s.at[u].Storing?;
      assert next.at[u].Storing?;
    }
  }

  lemma CachedIsKept(callers: seq<Caller>, s: State, t: nat, g: Gvk)
    requires |s.at| == |callers| && t < |callers| && PositionHolds(callers, s, t) && CacheHolds(callers, s)
    requires g in Next(callers, s, t).cache
    ensures Next(callers, s, t).resolved[g] == 1
    ensures exists u :: 0 <= u < |callers| && callers[u].gvk == g && callers[u].supports == Next(callers, s, t).cache[g]
  {
    Effects(callers, s, t);
    hide Next;
    hide Name;
    var next := Next(callers, s, t);
    if g in s.cache {
      var u :| 0 <= u < |callers| && callers[u].gvk == g && callers[u].supports == s.cache[g];
      assert callers[u].supports == next.cache[g];
    } else {
      assert callers[t].gvk == g && callers[t].supports == next.cache[g];
    }
  }

  lemma CacheIsKept(callers: seq<Caller>, s: State, t: nat)
    requires |s.at| == |callers| && t < |callers| && PositionHolds(callers, s, t) && CacheHolds(callers, s)
    ensures |Next(callers, s, t).at| == |callers| && CacheHolds(callers, Next(callers, s, t))
  {
    Effects(callers, s, t);
    var next := Next(callers, s, t);
    forall g | g in next.resolved && g !in next.cache
      ensures next.resolved[g] == 1 && exists u :: 0 <= u < |callers| && callers[u].gvk == g && next.at[u].Storing?
    {
      ResolvedIsKept(callers, s, t, g);
    }
    forall g | g in next.cache
      ensures next.resolved[g] == 1
      ensures exists u :: 0 <= u < |callers| && callers[u].gvk == g && callers[u].supports == next.cache[g]
    {
      CachedIsKept(callers, s, t, g);
    }
    hide Next;
    hide PositionHolds;
  }

  lemma StepKeepsInvariant(callers: seq<Caller>, s: State, t: nat)
    requires |s.at| == |callers| && t < |callers| && Invariant(callers, s)
    ensures |Next(callers, s, t).at| == |callers| && Invariant(callers, Next(callers, s, t))
  {
    hide Next;
    hide PositionHolds;
    hide FlightsHold;
    hide CacheHolds;
    FlightsAreKept(callers, s, t);
    assert PositionHolds(callers, s, t);
    CacheIsKept(callers, s, t);
    var next := Next(callers, s, t);
    forall u: nat | u < |callers|
      ensures PositionHolds(callers, next, u)
    {
      if u == t {
        OwnPositionIsKept(callers, s, t);
      } else {
        assert PositionHolds(callers, s, u);
        OtherPositionIsKept(callers, s, t, u);
      }
    }
  }

  lemma {:induction false} InvariantHolds(callers: seq<Caller>, schedule: seq<nat>)
    requires forall i :: 0 <= i < |schedule| ==> schedule[i] < |callers|
    ensures Invariant(callers, After(callers, schedule))
  {
    if schedule != [] {
      var start := schedule[..|schedule| - 1];
      InvariantHolds(callers, start);
      hide Invariant;
      hide Next;
      StepKeepsInvariant(callers, After(callers, start), schedule[|schedule| - 1]);
    } else {
      hide Name;
    }
  }

  // ---- What callers see ----

  /** Every caller that got an answer got the cached one of its kind. */
  predicate AnswersAreCached(callers: seq<Caller>, s: State)
    requires |s.at| == |callers|
  {
    forall t | 0 <= t < |callers| && s.at[t].Done? ::
      callers[t].gvk in s.cache && s.at[t].result == s.cache[callers[t].gvk]
  }

  lemma AnswerOfDone(callers: seq<Caller>, schedule: seq<nat>, t: nat)
    requires forall i :: 0 <= i < |schedule| ==> schedule[i] < |callers|
    requires t < |callers| && After(callers, schedule).at[t].Done?
    ensures IsAnswer(callers, After(callers, schedule).cache, t, After(callers, schedule).at[t].result)
  {
    InvariantHolds(callers, schedule);
    hide After;
    hide IsAnswer;
    assert PositionHolds(callers, After(callers, schedule), t);
  }

  lemma AnswerOfOneKind(callers: seq<Caller>, cache: map<Gvk, bool>, t: nat, result: bool)
    requires NamesTellKindsApart(callers) && t < |callers| && IsAnswer(callers, cache, t, result)
    ensures callers[t].gvk in cache && result == cache[callers[t].gvk]
  {
    hide Name;
  }

  /** Under every interleaving, no kind is resolved twice, and with different keys all callers of a kind get the
      cached answer. */
  lemma ResolvedAtMostOnce(callers: seq<Caller>, schedule: seq<nat>, gvk: Gvk)
    requires forall i :: 0 <= i < |schedule| ==> schedule[i] < |callers|
    ensures After(callers, schedule).resolved[gvk] <= 1
    ensures NamesTellKindsApart(callers) ==> AnswersAreCached(callers, After(callers, schedule))
  {
    InvariantHolds(callers, schedule);
    var s := After(callers, schedule);
    hide After;
    hide FlightsHold;
    hide IsAnswer;
    hide NamesTellKindsApart;
    if NamesTellKindsApart(callers) {
      forall t: nat | t < |callers| && s.at[t].Done?
        ensures callers[t].gvk in s.cache && s.at[t].result == s.cache[callers[t].gvk]
      {
        AnswerOfDone(callers, schedule, t);
        AnswerOfOneKind(callers, s.cache, t, s.at[t].result);
      }
    }
  }

  /** A cached value never changes. */
  lemma {:induction false} CachedValueStays(callers: seq<Caller>, schedule: seq<nat>, earlier: nat, gvk: Gvk)
    requires forall i :: 0 <= i < |schedule| ==> schedule[i] < |callers|
    requires earlier <= |schedule|
    requires gvk in After(callers, schedule[..earlier]).cache
    ensures gvk in After(callers, schedule).cache
    ensures After(callers, schedule).cache[gvk] == After(callers, schedule[..earlier]).cache[gvk]
    decreases |schedule|
  {
    hide PositionHolds;
    hide Next;
    if earlier == |schedule| {
      assert schedule[..earlier] == schedule;
    } else {
      var start := schedule[..|schedule| - 1];
      assert start[..earlier] == schedule[..earlier];
      CachedValueStays(callers, start, earlier, gvk);
      InvariantHolds(callers, start);
      CacheGrows(callers, After(callers, start), schedule[|schedule| - 1]);
    }
  }

  /** When the callers with one key agree on what resolving gives, the answer is the one computed without a
      cache. */
  lemma CachedIsUncached(callers: seq<Caller>, schedule: seq<nat>, t: nat)
    requires forall i :: 0 <= i < |schedule| ==> schedule[i] < |callers|
    requires t < |callers| && After(callers, schedule).at[t].Done?
    requires forall u | 0 <= u < |callers| && Name(callers[u].gvk) == Name(callers[t].gvk) ::
               callers[u].supports == callers[t].supports
    ensures After(callers, schedule).at[t].result == callers[t].supports
  {
    AnswerOfDone(callers, schedule, t);
    InvariantHolds(callers, schedule);
    var s := After(callers, schedule);
    hide After;
    hide FlightsHold;
    hide PositionHolds;
    hide Name;
    var u :| 0 <= u < |callers| && Name(callers[u].gvk) == Name(callers[t].gvk)
      && callers[u].gvk in s.cache && s.cache[callers[u].gvk] == s.at[t].result;
    var v :| 0 <= v < |callers| && callers[v].gvk == callers[u].gvk && callers[v].supports == s.cache[callers[u].gvk];
  }

  /** Nobody is stuck: while some caller has no answer, some caller can take a step. */
  lemma SomeCallerCanStep(callers: seq<Caller>, schedule: seq<nat>, t: nat) returns (u: nat)
    requires forall i :: 0 <= i < |schedule| ==> schedule[i] < |callers|
    requires t < |callers| && !After(callers, schedule).at[t].Done?
    ensures u < |callers| && Next(callers, After(callers, schedule), u) != After(callers, schedule)
  {
    InvariantHolds(callers, schedule);
    var s := After(callers, schedule);
    hide After;
    hide Name;
    u := if s.at[t].Waiting? then s.flights[Name(callers[t].gvk)] else t;
    assert u < |callers| && !s.at[u].Waiting? && !s.at[u].Done?;
    hide Invariant;
    Moves(callers, s, u);
  }

  lemma Moves(callers: seq<Caller>, s: State, u: nat)
    requires |s.at| == |callers| && u < |callers| && !s.at[u].Waiting? && !s.at[u].Done?
    ensures Next(callers, s, u) != s
  {
    hide Name;
    assert Next(callers, s, u).at[u] != s.at[u];
  }

  // ---- When kinds share a key ----

  /** No slash in group and version, and no comma in the version: the names Kubernetes admits. */
  predicate IsKubernetesKind(gvk: Gvk) {
    '/' !in gvk.group && '/' !in gvk.version && ',' !in gvk.version
  }

  lemma FirstMark(a: string, b: string, restA: string, restB: string, mark: char)
    requires mark !in a && mark !in b && a + [mark] + restA == b + [mark] + restB
    ensures a == b && restA == restB
  {
    var s := a + [mark] + restA;
    assert s[|a|] == mark && s[|b|] == mark;
    assert forall k :: 0 <= k < |a| ==> s[k] == a[k];
    assert forall k :: 0 <= k < |b| ==> s[k] == b[k];
    assert a == s[..|a|] && b == s[..|b|];
    assert restA == s[|a| + 1..] && restB == s[|b| + 1..];
  }

  /** Kinds with admitted names have different keys. */
  lemma NameIsInjective(a: Gvk, b: Gvk)
    requires IsKubernetesKind(a) && IsKubernetesKind(b) && Name(a) == Name(b)
    ensures a == b
  {
    var restA, restB := " Kind=" + a.kind, " Kind=" + b.kind;
    assert Name(a) == a.group + ['/'] + (a.version + [','] + restA);
    assert Name(b) == b.group + ['/'] + (b.version + [','] + restB);
    FirstMark(a.group, b.group, a.version + [','] + restA, b.version + [','] + restB, '/');
    FirstMark(a.version, b.version, restA, restB, ',');
    assert restA[6..] == a.kind && restB[6..] == b.kind;
  }

  ghost predicate Reachable(callers: seq<Caller>, s: State) {
    exists schedule: seq<nat> | (forall i :: 0 <= i < |schedule| ==> schedule[i] < |callers|) :: After(callers, schedule) == s
  }

  lemma ReachableNext(callers: seq<Caller>, s: State, t: nat)
    requires |s.at| == |callers| && t < |callers| && Reachable(callers, s)
    ensures Reachable(callers, Next(callers, s, t))
  {
    hide Next;
    var schedule: seq<nat> :| (forall i :: 0 <= i < |schedule| ==> schedule[i] < |callers|) && After(callers, schedule) == s;
    assert (schedule + [t])[..|schedule|] == schedule;
    assert After(callers, schedule + [t]) == Next(callers, s, t);
  }

  lemma InitialIsReachable(callers: seq<Caller>)
    ensures Reachable(callers, Initial(callers))
  {
    hide Initial;
    assert After(callers, []) == Initial(callers);
  }

  lemma Leads(callers: seq<Caller>, s: State, i: nat, j: nat) returns (next: State)
    requires s == Initial(callers) && i < |callers| && j < |callers| && i != j
    ensures next == Next(callers, Next(callers, s, i), i)
    ensures next.at[i] == Leading && next.at[j] == Start && next.cache == map[] && Name(callers[i].gvk) in next.flights
  {
    hide Name;
    var missed := Next(callers, s, i);
    assert missed.at[i] == Missed && missed.at[j] == Start && missed.cache == map[] && missed.flights == map[];
    next := Next(callers, missed, i);
  }

  lemma Joins(callers: seq<Caller>, s: State, i: nat, j: nat) returns (next: State)
    requires |s.at| == |callers| && i < |callers| && j < |callers| && i != j
    requires s.at[i] == Leading && s.at[j] == Start && s.cache == map[] && Name(callers[j].gvk) in s.flights
    ensures next == Next(callers, Next(callers, s, j), j)
    ensures next.at[i] == Leading && next.at[j] == Waiting && next.cache == map[]
  {
    hide Name;
    var missed := Next(callers, s, j);
    assert missed.at[i] == Leading && missed.at[j] == Missed && missed.cache == map[];
    assert Name(callers[j].gvk) in missed.flights;
    next := Next(callers, missed, j);
  }

  lemma Lands(callers: seq<Caller>, s: State, i: nat, j: nat) returns (next: State)
    requires |s.at| == |callers| && i < |callers| && j < |callers| && Name(callers[i].gvk) == Name(callers[j].gvk)
    requires s.at[i] == Leading && s.at[j] == Waiting && s.cache == map[]
    ensures next == Next(callers, Next(callers, Next(callers, Next(callers, s, i), i), i), i)
    ensures next.at[j] == Done(callers[i].supports) && next.cache.Keys == {callers[i].gvk}
  {
    hide Name;
    var computing := Next(callers, s, i);
    assert computing.at[i] == Computing && computing.at[j] == Waiting && computing.cache == map[];
    var storing := Next(callers, computing, i);
    assert storing.at[i] == Storing(callers[i].supports) && storing.at[j] == Waiting && storing.cache == map[];
    var finishing := Next(callers, storing, i);
    assert finishing.at[i] == Finishing(callers[i].supports) && finishing.at[j] == Waiting && finishing.cache.Keys == {callers[i].gvk};
    next := Next(callers, finishing, i);
  }

  /** Two callers with one key: the second joins the flight of the first, and gets its answer. */
  lemma JoinsTheOther(callers: seq<Caller>, i: nat, j: nat) returns (last: State)
    requires i < |callers| && j < |callers| && i != j && Name(callers[i].gvk) == Name(callers[j].gvk)
    ensures Reachable(callers, last) && |last.at| == |callers|
    ensures last.at[j] == Done(callers[i].supports) && last.cache.Keys == {callers[i].gvk}
  {
    hide Name;
    hide Next;
    hide Reachable;
    hide Initial;
    var s0 := Initial(callers);
    InitialIsReachable(callers);
    var s2 := Leads(callers, s0, i, j);
    ReachableNext(callers, s0, i);
    ReachableNext(callers, Next(callers, s0, i), i);
    var s4 := Joins(callers, s2, i, j);
    ReachableNext(callers, s2, j);
    ReachableNext(callers, Next(callers, s2, j), j);
    last := Lands(callers, s4, i, j);
    ReachableNext(callers, s4, i);
    ReachableNext(callers, Next(callers, s4, i), i);
    ReachableNext(callers, Next(callers, Next(callers, s4, i), i), i);
    ReachableNext(callers, Next(callers, Next(callers, Next(callers, s4, i), i), i), i);
  }

  ghost predicate AlwaysCached(callers: seq<Caller>) {
    forall s :: Reachable(callers, s) && |s.at| == |callers| ==> AnswersAreCached(callers, s)
  }

  lemma NotCached(callers: seq<Caller>, s: State, j: nat)
    requires |s.at| == |callers| && j < |callers| && s.at[j].Done? && callers[j].gvk !in s.cache
    ensures !AnswersAreCached(callers, s)
  {}

  lemma NotUncached(callers: seq<Caller>, s: State, j: nat)
    requires |s.at| == |callers| && j < |callers| && s.at[j] == Done(!callers[j].supports)
    ensures !AnswersAreUncached(callers, s)
  {}

  /** In every interleaving every answer is the cached one of its kind exactly when the requested kinds have
      different keys. */
  lemma AlwaysCachedExactly(callers: seq<Caller>)
    ensures AlwaysCached(callers) <==> NamesTellKindsApart(callers)
  {
    hide After;
    hide Name;
    hide AnswersAreCached;
    if NamesTellKindsApart(callers) {
      forall s | Reachable(callers, s) && |s.at| == |callers|
        ensures AnswersAreCached(callers, s)
      {
        var schedule: seq<nat> :| (forall i :: 0 <= i < |schedule| ==> schedule[i] < |callers|) && After(callers, schedule) == s;
        ResolvedAtMostOnce(callers, schedule, Gvk("", "", ""));
      }
    } else {
      var i: nat, j: nat :| i < |callers| && j < |callers| && Name(callers[i].gvk) == Name(callers[j].gvk)
        && callers[i].gvk != callers[j].gvk;
      hide Reachable;
      var last := JoinsTheOther(callers, i, j);
      NotCached(callers, last, j);
    }
  }

  // ---- When callers disagree ----

  predicate AnswersAreUncached(callers: seq<Caller>, s: State)
    requires |s.at| == |callers|
  {
    forall t :: 0 <= t < |callers| && s.at[t].Done? ==> s.at[t].result == callers[t].supports
  }

  ghost predicate AlwaysUncached(callers: seq<Caller>) {
    forall s :: Reachable(callers, s) && |s.at| == |callers| ==> AnswersAreUncached(callers, s)
  }

  /** Callers with one key agree on what resolving gives. */
  predicate KeysAgree(callers: seq<Caller>) {
    forall i, j | 0 <= i < |callers| && 0 <= j < |callers| && Name(callers[i].gvk) == Name(callers[j].gvk) ::
      callers[i].supports == callers[j].supports
  }

  /** Callers of one kind do. */
  predicate KindsAgree(callers: seq<Caller>) {
    forall i, j | 0 <= i < |callers| && 0 <= j < |callers| && callers[i].gvk == callers[j].gvk ::
      callers[i].supports == callers[j].supports
  }

  lemma KindsOfKeys(callers: seq<Caller>)
    requires NamesTellKindsApart(callers)
    ensures KeysAgree(callers) <==> KindsAgree(callers)
  {
    hide Name;
  }

  lemma UncachedWhenAgreed(callers: seq<Caller>, s: State)
    requires KeysAgree(callers) && Reachable(callers, s) && |s.at| == |callers|
    ensures AnswersAreUncached(callers, s)
  {
    hide After;
    hide Name;
    var schedule: seq<nat> :| (forall i :: 0 <= i < |schedule| ==> schedule[i] < |callers|) && After(callers, schedule) == s;
    forall t: nat | t < |callers| && s.at[t].Done?
      ensures s.at[t].result == callers[t].supports
    {
      CachedIsUncached(callers, schedule, t);
    }
  }

  /** In every interleaving all answers are the uncached ones exactly when the callers with one key agree, that is,
      when keys tell kinds apart, the callers of one kind. */
  lemma AlwaysUncachedExactly(callers: seq<Caller>)
    ensures AlwaysUncached(callers) <==> KeysAgree(callers)
    ensures NamesTellKindsApart(callers) ==> (AlwaysUncached(callers) <==> KindsAgree(callers))
  {
    hide Name;
    hide NamesTellKindsApart;
    hide KindsAgree;
    hide Reachable;
    hide AnswersAreUncached;
    if KeysAgree(callers) {
      forall s | Reachable(callers, s) && |s.at| == |callers|
        ensures AnswersAreUncached(callers, s)
      {
        UncachedWhenAgreed(callers, s);
      }
    } else {
      var i: nat, j: nat :| i < |callers| && j < |callers| && Name(callers[i].gvk) == Name(callers[j].gvk)
        && callers[i].supports != callers[j].supports;
      var last := JoinsTheOther(callers, i, j);
      NotUncached(callers, last, j);
    }
    if NamesTellKindsApart(callers) {
      KindsOfKeys(callers);
    }
  }
}
