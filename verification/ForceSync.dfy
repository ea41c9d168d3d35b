/** The debounced force-sync annotation: resolveForceSyncAnnotation of
    functions/database/service/instance_common.go. Times are nanoseconds, values seconds. */
module ForceSync {
  import opened Wrappers

  const SECOND := 1_000_000_000
  const DELAY := 10

  /** The annotation of an observed secret: absent, no number, or a number. */
  datatype Annotation = Absent | NoNumber | Value(seconds: int)

  datatype ExternalSecret = ExternalSecret(ready: bool, annotation: Annotation)

  function NewTimestamp(now: nat): nat { (now + DELAY * SECOND) / SECOND }

  /** The clock is read twice: `first` for a new value, `second` to see whether the old one has passed. */
  function Resolve(first: nat, second: nat, observed: Option<ExternalSecret>): Option<int> {
    match observed
    case None => Some(NewTimestamp(first))
    case Some(ExternalSecret(ready, annotation)) =>
      if ready then None
      else
        match annotation
        case Value(seconds) => if seconds * SECOND > second then Some(seconds) else Some(NewTimestamp(first))
        case _ => Some(NewTimestamp(first))
  }

  lemma NewTimestampAhead(now: nat, seconds: int)
    ensures NewTimestamp(now) - seconds >= DELAY <==> seconds * SECOND <= now
    ensures now < (NewTimestamp(now) - DELAY + 1) * SECOND && (NewTimestamp(now) - DELAY) * SECOND <= now
  {}

  /** A replaced value is at least ten seconds before the new one exactly when it had already passed at the
      first reading of the clock. A call that takes less than `k` seconds loses at most `k` of the ten. */
  lemma ReplacedAfterTheDelayExactly(first: nat, second: nat, seconds: int, k: nat)
    requires first <= second
    requires Resolve(first, second, Some(ExternalSecret(false, Value(seconds)))) != Some(seconds)
    ensures var value := Resolve(first, second, Some(ExternalSecret(false, Value(seconds)))).value;
      && (value - seconds >= DELAY <==> seconds * SECOND <= first)
      && (second < first + k * SECOND ==> value - seconds >= DELAY - k)
  {
    NewTimestampAhead(first, seconds);
    if second < first + k * SECOND {
      assert (seconds - k) * SECOND < first;
      NewTimestampAhead(first, seconds - k);
    }
  }

  /** A call that straddles the old value replaces it one second early. */
  lemma StraddlingCallIsEarly()
    ensures var (first, second) := (100 * SECOND - 1, 100 * SECOND);
      Resolve(first, second, Some(ExternalSecret(false, Value(100)))) == Some(109)
  {}

  // ---- Runs ----

  /** A round: its two clock readings and the value it emits. */
  datatype Round = Round(first: nat, second: nat, value: int)

  /** Rounds under a monotone clock in which the secret stays not ready and carries the value that the round
      before emitted; the first round saw whatever it saw. */
  ghost predicate IsRun(rounds: seq<Round>, seen: Option<ExternalSecret>) {
    && (seen.Some? ==> !seen.value.ready)
    && (rounds != [] ==> Resolve(rounds[0].first, rounds[0].second, seen) == Some(rounds[0].value))
    && (forall r :: 0 <= r < |rounds| ==> rounds[r].first <= rounds[r].second)
    && (forall r | 0 <= r < |rounds| - 1 ::
         && rounds[r].second <= rounds[r + 1].first
         && Resolve(rounds[r + 1].first, rounds[r + 1].second, Some(ExternalSecret(false, Value(rounds[r].value))))
            == Some(rounds[r + 1].value))
  }

  /** No round straddles the value it replaces. */
  ghost predicate NoneStraddles(rounds: seq<Round>) {
    forall r | 0 <= r < |rounds| - 1 && rounds[r].value * SECOND <= rounds[r + 1].second ::
      rounds[r].value * SECOND <= rounds[r + 1].first
  }

  /** Every call takes less than `k` seconds. */
  predicate CallsTakeLess(rounds: seq<Round>, k: nat) {
    forall r :: 0 <= r < |rounds| ==> rounds[r].second < rounds[r].first + k * SECOND
  }

  /** A new value is at least `gap` seconds after the one it replaces. */
  predicate AreApart(rounds: seq<Round>, gap: int) {
    forall r | 0 <= r < |rounds| - 1 && rounds[r].value != rounds[r + 1].value ::
      rounds[r + 1].value - rounds[r].value >= gap
  }

  function Replacements(rounds: seq<Round>): nat {
    if |rounds| < 2 then 0
    else
      Replacements(rounds[..|rounds| - 1])
      + if rounds[|rounds| - 1].value != rounds[|rounds| - 2].value then 1 else 0
  }

  lemma StepOfRun(rounds: seq<Round>, seen: Option<ExternalSecret>, r: nat)
    requires IsRun(rounds, seen) && r < |rounds| - 1
    ensures var before, after := rounds[r], rounds[r + 1];
      && after.first <= after.second && before.first <= after.first
      && Resolve(after.first, after.second, Some(ExternalSecret(false, Value(before.value)))) == Some(after.value)
  {
    hide Resolve;
    assert rounds[r].first <= rounds[r].second;
  }

  /** One replacement: fresh, and at least ten seconds later exactly when the old value had passed at the first
      reading. */
  lemma Replaced(before: Round, after: Round, k: nat)
    requires after.first <= after.second && before.value != after.value
    requires Resolve(after.first, after.second, Some(ExternalSecret(false, Value(before.value)))) == Some(after.value)
    ensures after.value == NewTimestamp(after.first) && before.value * SECOND <= after.second
    ensures after.value - before.value >= DELAY <==> before.value * SECOND <= after.first
    ensures after.second < after.first + k * SECOND ==> after.value - before.value >= DELAY - k
  {
    ReplacedAfterTheDelayExactly(after.first, after.second, before.value, k);
  }

  /** A call of less than nine seconds that sees the old value passed gives another. */
  lemma PassedIsReplaced(before: Round, after: Round)
    requires after.first <= after.second < after.first + (DELAY - 1) * SECOND
    requires Resolve(after.first, after.second, Some(ExternalSecret(false, Value(before.value)))) == Some(after.value)
    requires before.value * SECOND <= after.second
    ensures before.value != after.value
  {
    assert after.value == NewTimestamp(after.first);
    NewTimestampAhead(after.first, before.value - (DELAY - 1));
    assert (before.value - (DELAY - 1)) * SECOND < after.first;
  }

  lemma StraddledIsEarly(rounds: seq<Round>, seen: Option<ExternalSecret>, r: nat)
    requires IsRun(rounds, seen) && r < |rounds| - 1 && CallsTakeLess(rounds, DELAY - 1)
    requires rounds[r + 1].first < rounds[r].value * SECOND <= rounds[r + 1].second
    ensures rounds[r].value != rounds[r + 1].value && rounds[r + 1].value - rounds[r].value < DELAY
  {
    StepOfRun(rounds, seen, r);
    assert rounds[r + 1].second < rounds[r + 1].first + (DELAY - 1) * SECOND;
    hide IsRun;
    hide Resolve;
    PassedIsReplaced(rounds[r], rounds[r + 1]);
    Replaced(rounds[r], rounds[r + 1], 0);
  }

  lemma NotApart(rounds: seq<Round>, r: nat)
    requires r < |rounds| - 1 && rounds[r].value != rounds[r + 1].value
    requires rounds[r + 1].value - rounds[r].value < DELAY
    ensures !AreApart(rounds, DELAY)
  {}

  lemma GapsOfRun(rounds: seq<Round>, seen: Option<ExternalSecret>, k: nat)
    requires IsRun(rounds, seen)
    ensures NoneStraddles(rounds) ==> AreApart(rounds, DELAY)
    ensures CallsTakeLess(rounds, DELAY - 1) ==> (NoneStraddles(rounds) <==> AreApart(rounds, DELAY))
    ensures CallsTakeLess(rounds, k) ==> AreApart(rounds, DELAY - k)
  {
    forall r: nat | r < |rounds| - 1 && rounds[r].value != rounds[r + 1].value
      ensures rounds[r].value * SECOND <= rounds[r + 1].second
      ensures rounds[r + 1].value - rounds[r].value >= DELAY <==> rounds[r].value * SECOND <= rounds[r + 1].first
      ensures rounds[r + 1].second < rounds[r + 1].first + k * SECOND ==>
        rounds[r + 1].value - rounds[r].value >= DELAY - k
    {
      hide *;
      StepOfRun(rounds, seen, r);
      Replaced(rounds[r], rounds[r + 1], k);
    }
    if CallsTakeLess(rounds, DELAY - 1) && !NoneStraddles(rounds) {
      var r: nat :| r < |rounds| - 1 && rounds[r + 1].first < rounds[r].value * SECOND <= rounds[r + 1].second;
      hide *;
      StraddledIsEarly(rounds, seen, r);
      NotApart(rounds, r);
    }
    hide IsRun;
  }

  lemma {:induction false} ReplacementsAddUp(rounds: seq<Round>, gap: int)
    requires AreApart(rounds, gap) && rounds != []
    ensures gap * Replacements(rounds) <= rounds[|rounds| - 1].value - rounds[0].value
  {
    if |rounds| > 1 {
      var n := |rounds| - 1;
      assert AreApart(rounds[..n], gap);
      ReplacementsAddUp(rounds[..n], gap);
      assert rounds[..n][n - 1] == rounds[n - 1];
      if rounds[n].value != rounds[n - 1].value {
        assert rounds[n - 1 + 1].value - rounds[n - 1].value >= gap;
        OneMore(gap, Replacements(rounds[..n]));
      }
    }
  }

  lemma OneMore(gap: int, n: nat)
    ensures gap * (n + 1) == gap * n + gap
  {}

  /** In every run new values are at least ten seconds after the ones they replace if no round straddles one, and
      with calls shorter than nine seconds only then. With calls shorter than `k` seconds they are always at least
      ten minus `k` seconds after. Over a run the gaps add up. */
  lemma ReplacementsAreApart(rounds: seq<Round>, seen: Option<ExternalSecret>, k: nat)
    requires IsRun(rounds, seen) && rounds != []
    ensures NoneStraddles(rounds) ==> AreApart(rounds, DELAY)
    ensures CallsTakeLess(rounds, DELAY - 1) ==> (NoneStraddles(rounds) <==> AreApart(rounds, DELAY))
    ensures CallsTakeLess(rounds, k) ==> AreApart(rounds, DELAY - k)
    ensures var length := rounds[|rounds| - 1].value - rounds[0].value;
      && (NoneStraddles(rounds) ==> DELAY * Replacements(rounds) <= length)
      && (CallsTakeLess(rounds, k) ==> (DELAY - k) * Replacements(rounds) <= length)
  {
    hide *;
    GapsOfRun(rounds, seen, k);
    if AreApart(rounds, DELAY) {
      ReplacementsAddUp(rounds, DELAY);
    }
    if AreApart(rounds, DELAY - k) {
      ReplacementsAddUp(rounds, DELAY - k);
    }
  }

  lemma PrefixIsRun(rounds: seq<Round>, seen: Option<ExternalSecret>, n: nat, gap: int)
    requires IsRun(rounds, seen) && AreApart(rounds, gap) && n <= |rounds|
    ensures IsRun(rounds[..n], seen) && AreApart(rounds[..n], gap)
  {
    hide Resolve;
  }

  lemma ValueIsAhead(round: Round, observed: Option<ExternalSecret>)
    requires round.first <= round.second && Resolve(round.first, round.second, observed) == Some(round.value)
    ensures round.value * SECOND > round.first
  {
    NewTimestampAhead(round.first, round.value);
  }

  lemma FreshIsNear(first: nat, start: Round, length: nat)
    requires first <= start.first + length * SECOND && start.value * SECOND > start.first
    ensures NewTimestamp(first) - start.value <= length + DELAY - 1
  {
    NewTimestampAhead(first, 0);
    assert (NewTimestamp(first) - DELAY - length) * SECOND < start.value * SECOND;
  }

  lemma {:induction false} IntervalBound(rounds: seq<Round>, seen: Option<ExternalSecret>, gap: int, length: nat)
    requires IsRun(rounds, seen) && AreApart(rounds, gap) && rounds != []
    requires rounds[|rounds| - 1].first <= rounds[0].first + length * SECOND
    ensures gap * Replacements(rounds) <= length + DELAY - 1
  {
    if |rounds| > 1 {
      var n := |rounds| - 1;
      var last := rounds[n];
      PrefixIsRun(rounds, seen, n, gap);
      StepOfRun(rounds, seen, n - 1);
      if last.value == rounds[n - 1].value {
        hide IsRun;
        hide AreApart;
        hide Resolve;
        IntervalBound(rounds[..n], seen, gap, length);
      } else {
        ValueIsAhead(rounds[0], seen);
        hide IsRun;
        hide Resolve;
        ReplacementsAddUp(rounds, gap);
        Replaced(rounds[n - 1], last, 0);
        FreshIsNear(last.first, rounds[0], length);
      }
    }
  }

  /** While the secret stays not ready, an interval of `length` seconds sees at most one new value for every ten
      seconds begun if no round straddles one. In every run with calls shorter than a second it sees at most one for
      every full nine seconds and one more, and longer calls lower the nine by a second each. */
  lemma SyncsAreBounded(rounds: seq<Round>, seen: Option<ExternalSecret>, length: nat, k: nat)
    requires IsRun(rounds, seen) && rounds != []
    requires rounds[|rounds| - 1].first <= rounds[0].first + length * SECOND
    ensures NoneStraddles(rounds) ==> Replacements(rounds) <= (length + DELAY - 1) / DELAY
    ensures CallsTakeLess(rounds, 1) ==> Replacements(rounds) <= (length + DELAY - 1) / (DELAY - 1)
    ensures CallsTakeLess(rounds, k) ==> (DELAY - k) * Replacements(rounds) <= length + DELAY - 1
  {
    hide IsRun;
    hide AreApart;
    hide NoneStraddles;
    hide CallsTakeLess;
    hide Replacements;
    ReplacementsAreApart(rounds, seen, k);
    ReplacementsAreApart(rounds, seen, 1);
    if AreApart(rounds, DELAY) {
      IntervalBound(rounds, seen, DELAY, length);
    }
    if AreApart(rounds, DELAY - 1) {
      IntervalBound(rounds, seen, DELAY - 1, length);
    }
    if AreApart(rounds, DELAY - k) {
      IntervalBound(rounds, seen, DELAY - k, length);
    }
  }
}
