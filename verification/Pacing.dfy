/** When the rotation loop of src/transport/http/client/connection.rs may try to connect again. Times are in
    milliseconds. */
module Pacing {

  const RECONNECT_INTERVAL: nat := 3000
  const RECONNECT_DELAY: nat := 1000

  /** One iteration: when its timer was set for, when it really started, and when everything it did had ended (the
      failed attempt, or the whole time the loop served the connection). */
  datatype Attempt = Attempt(due: nat, start: nat, end: nat)

  function NextDue(a: Attempt): nat {
    if a.due + RECONNECT_INTERVAL < a.end + RECONNECT_DELAY then a.end + RECONNECT_DELAY else a.due + RECONNECT_INTERVAL
  }

  /** Attempt `k` was scheduled by its predecessor, if any; timers may fire late but never early. */
  predicate Scheduled(attempts: seq<Attempt>, k: nat)
    requires k < |attempts|
  {
    && attempts[k].due <= attempts[k].start <= attempts[k].end
    && (0 < k ==> attempts[k].due == NextDue(attempts[k - 1]))
  }

  ghost predicate Schedule(attempts: seq<Attempt>) {
    forall k :: 0 <= k < |attempts| ==> Scheduled(attempts, k)
  }

  lemma ScheduleGrows(attempts: seq<Attempt>, a: Attempt)
    requires Schedule(attempts) && Scheduled(attempts + [a], |attempts|)
    ensures Schedule(attempts + [a])
  {
    forall k | 0 <= k < |attempts|
      ensures Scheduled(attempts + [a], k)
    {
      assert Scheduled(attempts, k);
    }
  }

  /** The loop over a run of iterations that take `durations[k]` each and whose timers then fire `lateness[k]` late. */
  method HandleLoop(now: nat, durations: seq<nat>, lateness: seq<nat>) returns (attempts: seq<Attempt>)
    requires |durations| == |lateness|
    ensures |attempts| == |durations| && Schedule(attempts)
    ensures attempts != [] ==> attempts[0].due == attempts[0].start == now
    ensures forall k :: 0 <= k < |attempts| ==> attempts[k].end - attempts[k].start == durations[k]
    ensures forall k :: 0 < k < |attempts| ==> attempts[k].start == attempts[k].due + lateness[k - 1]
  {
    attempts := [];
    var nextReconnect: nat, time: nat := now, now;
    for k := 0 to |durations|
      invariant |attempts| == k && Schedule(attempts)
      invariant nextReconnect <= time
      invariant if k == 0 then time == nextReconnect == now
                else attempts[0].due == attempts[0].start == now && nextReconnect == NextDue(attempts[k - 1])
      invariant forall i :: 0 <= i < k ==> attempts[i].end - attempts[i].start == durations[i]
      invariant forall i :: 0 < i < k ==> attempts[i].start == attempts[i].due + lateness[i - 1]
      invariant 0 < k ==> time == nextReconnect + lateness[k - 1]
    {
      var due, start := nextReconnect, time;
      nextReconnect := nextReconnect + RECONNECT_INTERVAL;
      time := time + durations[k];
      ScheduleGrows(attempts, Attempt(due, start, time));
      attempts := attempts + [Attempt(due, start, time)];

      var nearestReconnect := time + RECONNECT_DELAY;
      if nextReconnect < nearestReconnect {
        nextReconnect := nearestReconnect;
      }
      time := nextReconnect + lateness[k];
    }
  }

  /** Over every stretch of every run: due times advance by at least three seconds an attempt. */
  lemma {:induction false} DueTimesAdvance(attempts: seq<Attempt>, i: nat, j: nat)
    requires Schedule(attempts) && i <= j < |attempts|
    ensures attempts[i].due + RECONNECT_INTERVAL * (j - i) <= attempts[j].due
    decreases j
  {
    if i == j {
    } else {
      DueTimesAdvance(attempts, i, j - 1);
      assert Scheduled(attempts, j) && Scheduled(attempts, j - 1);
    }
  }

  /** Exactly when the next attempt is due: three seconds after this one was, or one second after this one's end,
      whichever is later; so it is never put off for longer than one of the two asks for. */
  lemma NextIsDue(attempts: seq<Attempt>, i: nat)
    requires Schedule(attempts) && i + 1 < |attempts|
    ensures attempts[i + 1].due >= attempts[i].due + 3000 && attempts[i + 1].due >= attempts[i].end + 1000
    ensures attempts[i + 1].due == attempts[i].due + 3000 || attempts[i + 1].due == attempts[i].end + 1000
  {
    assert Scheduled(attempts, i + 1);
  }

  /** A run of attempts that fail within two seconds each of their due times keeps step: one every three seconds. */
  lemma {:induction false} QuickFailuresKeepStep(attempts: seq<Attempt>, i: nat, j: nat)
    requires Schedule(attempts) && i <= j < |attempts|
    requires forall k :: i <= k < j ==> attempts[k].end <= attempts[k].due + 2000
    ensures attempts[j].due == attempts[i].due + 3000 * (j - i)
    decreases j
  {
    if i < j {
      QuickFailuresKeepStep(attempts, i, j - 1);
      NextIsDue(attempts, j - 1);
    }
  }

  /** Attempts are at least three seconds apart each, over any stretch of any run, but for the lateness of the earlier
      one's timer; and each starts at least a second after everything the previous one did. */
  lemma AttemptsArePaced(attempts: seq<Attempt>, i: nat, j: nat)
    requires Schedule(attempts) && i < j < |attempts|
    ensures attempts[i].start + 3000 * (j - i) <= attempts[j].start + (attempts[i].start - attempts[i].due)
    ensures attempts[i].start == attempts[i].due ==> attempts[i].start + 3000 <= attempts[j].start
    ensures attempts[j - 1].end + 1000 <= attempts[j].start
  {
    DueTimesAdvance(attempts, i, j);
    assert Scheduled(attempts, i) && Scheduled(attempts, j) && Scheduled(attempts, j - 1);
  }
}
