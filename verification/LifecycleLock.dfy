/**
 The per-chat lifecycle mutex (`withLifecycleLock`): a chain of promises whose
 newest link is kept in a map and dropped from it when its holder releases.

 A ticket is one call of `withLifecycleLock`. Its `prev` is the promise it read
 from the map (`None` stands for `Promise.resolve()`), and its own stored promise
 is `previous.then(() => gate)`.
 */
module LifecycleLock {
  import opened Wrappers

  datatype Stage = Waiting | Holding | Released

  datatype Ticket<+O> = Ticket(prev: Option<nat>, stage: Stage, owner: O)

  /** `tail` is the map entry: the ticket whose stored promise the map holds. */
  datatype Lock<+O> = Lock(tickets: seq<Ticket<O>>, tail: Option<nat>)


  /** The stored promise of ticket i has resolved: the promise it hangs on did, and its gate opened. */
  predicate StoredResolved<O>(lock: Lock<O>, i: nat) {
    && i < |lock.tickets|
    && lock.tickets[i].stage.Released?
    && match lock.tickets[i].prev
       case None => true
       case Some(p) => p < i && StoredResolved(lock, p)
  }

  /** `await previous` of ticket i may return. */
  predicate MayEnter<O>(lock: Lock<O>, i: nat) {
    && i < |lock.tickets|
    && lock.tickets[i].stage.Waiting?
    && match lock.tickets[i].prev
       case None => true
       case Some(p) => StoredResolved(lock, p)
  }

  predicate Holds<O>(lock: Lock<O>, i: nat) {
    i < |lock.tickets| && lock.tickets[i].stage.Holding?
  }

  /** The synchronous start of `withLifecycleLock`. */
  function Request<O>(lock: Lock<O>, owner: O): (r: Lock<O>) {
    Lock(lock.tickets + [Ticket(lock.tail, Waiting, owner)], Some(|lock.tickets|))
  }

  /** `await previous` returns and `run` starts. */
  function Enter<O>(lock: Lock<O>, i: nat): (r: Lock<O>)
    requires MayEnter(lock, i)
  {
    lock.(tickets := lock.tickets[i := lock.tickets[i].(stage := Holding)])
  }

  /** The `finally` block: open the gate and drop the map entry when it is still ours. */
  function Release<O>(lock: Lock<O>, i: nat): (r: Lock<O>)
    requires Holds(lock, i)
  {
    Lock(lock.tickets[i := lock.tickets[i].(stage := Released)],
         if lock.tail == Some(i) then None else lock.tail)
  }

  ghost predicate ReleasedBelow<O>(tickets: seq<Ticket<O>>, i: nat)
    requires i <= |tickets|
  {
    forall k | 0 <= k < i :: tickets[k].stage.Released?
  }

  /** What every sequence of lock operations keeps. */
  ghost predicate LockInv<O>(lock: Lock<O>) {
    && (forall i | 0 <= i < |lock.tickets| ::
          lock.tickets[i].prev.Some? ==> lock.tickets[i].prev.value + 1 == i)
    && (forall i | 0 <= i < |lock.tickets| :: lock.tickets[i].prev.None? ==> ReleasedBelow(lock.tickets, i))
    && (forall i | 0 <= i < |lock.tickets| :: !lock.tickets[i].stage.Waiting? ==> ReleasedBelow(lock.tickets, i))
    && (lock.tail.None? ==> ReleasedBelow(lock.tickets, |lock.tickets|))
    && (lock.tail.Some? ==> lock.tail.value + 1 == |lock.tickets| && !lock.tickets[lock.tail.value].stage.Released?)
  }

  lemma RequestKeepsInv<O>(lock: Lock<O>, owner: O)
    requires LockInv(lock)
    ensures LockInv(Request(lock, owner))
  {
    var after := Request(lock, owner);
    forall i | 0 <= i < |after.tickets|
      ensures after.tickets[i].prev.None? || !after.tickets[i].stage.Waiting? ==> ReleasedBelow(after.tickets, i)
    {
      assert i < |lock.tickets| ==> after.tickets[i] == lock.tickets[i];
      assert forall k | 0 <= k < i :: after.tickets[k] == lock.tickets[k];
    }
  }

  /** A resolved stored promise means that nobody up to and including its ticket is still inside. */
  lemma {:induction false} ResolvedMeansReleased<O>(lock: Lock<O>, i: nat)
    requires LockInv(lock) && StoredResolved(lock, i)
    ensures ReleasedBelow(lock.tickets, i + 1)
  {
    assert !lock.tickets[i].stage.Waiting?;
  }

  lemma EnterKeepsInv<O>(lock: Lock<O>, i: nat)
    requires LockInv(lock) && MayEnter(lock, i)
    ensures LockInv(Enter(lock, i))
    ensures ReleasedBelow(lock.tickets, i)
  {
    if lock.tickets[i].prev.Some? {
      ResolvedMeansReleased(lock, lock.tickets[i].prev.value);
    }
    var after := Enter(lock, i);
    forall k | 0 <= k < |after.tickets|
      ensures after.tickets[k].prev.None? || !after.tickets[k].stage.Waiting? ==> ReleasedBelow(after.tickets, k)
    {
      assert k != i ==> after.tickets[k] == lock.tickets[k];
    }
  }

  lemma ReleaseKeepsInv<O>(lock: Lock<O>, i: nat)
    requires LockInv(lock) && Holds(lock, i)
    ensures LockInv(Release(lock, i))
  {
    var after := Release(lock, i);
    forall k | 0 <= k < |after.tickets|
      ensures after.tickets[k].prev.None? || !after.tickets[k].stage.Waiting? ==> ReleasedBelow(after.tickets, k)
    {
      assert k != i ==> after.tickets[k] == lock.tickets[k];
      if after.tickets[k].prev.None? || !after.tickets[k].stage.Waiting? {
        assert ReleasedBelow(lock.tickets, k);
      }
    }
  }

  /** Mutual exclusion: two calls are never inside `run` together. */
  lemma MutualExclusion<O>(lock: Lock<O>, i: nat, j: nat)
    requires LockInv(lock) && Holds(lock, i) && Holds(lock, j)
    ensures i == j
  {
    assert ReleasedBelow(lock.tickets, i) && ReleasedBelow(lock.tickets, j);
  }

  /** First come, first served: when a call enters, every earlier call has left and every later one waits. */
  lemma EntersInOrder<O>(lock: Lock<O>, i: nat)
    requires LockInv(lock) && MayEnter(lock, i)
    ensures forall k | 0 <= k < i :: lock.tickets[k].stage.Released?
    ensures forall k | i < k < |lock.tickets| :: lock.tickets[k].stage.Waiting?
  {
    EnterKeepsInv(lock, i);
    forall k | i < k < |lock.tickets|
      ensures lock.tickets[k].stage.Waiting?
    {
      assert !lock.tickets[k].stage.Waiting? ==> ReleasedBelow(lock.tickets, k);
    }
  }

  /** No wake-up is lost: the first call that has not left may always proceed. */
  lemma {:induction false} FirstUnreleasedMayEnter<O>(lock: Lock<O>, i: nat)
    requires LockInv(lock) && i < |lock.tickets|
    requires ReleasedBelow(lock.tickets, i) && lock.tickets[i].stage.Waiting?
    ensures MayEnter(lock, i)
  {
    if i > 0 {
      AllReleasedResolve(lock, i - 1);
    }
  }

  lemma {:induction false} AllReleasedResolve<O>(lock: Lock<O>, i: nat)
    requires LockInv(lock) && i < |lock.tickets|
    requires ReleasedBelow(lock.tickets, i + 1)
    ensures StoredResolved(lock, i)
  {
    if lock.tickets[i].prev.Some? {
      AllReleasedResolve(lock, i - 1);
    }
  }
}
