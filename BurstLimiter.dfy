/**
 * Per-user counter with burst allowance of 493819/b1.go: the count restarts
 * at 1 when more than a second has passed since the user's previous call and
 * otherwise grows by one on every call, admitted or not; a call is admitted
 * while the count is at most limit + burst.
 */
module BurstLimiter {
  import opened Wrappers
  import opened Clock

  /** The fields of one userLimit. */
  datatype Entry = Entry(lastCheck: int, requests: int)

  datatype Decision = Decision(allowed: bool, entry: Entry)

  /** The limit and burst the server is started with. */
  const ServerLimit: int := 5
  const ServerBurst: int := 1

  /** allow for one user as one atomic step; None is a user not seen before. */
  function Step(limit: int, burst: int, e: Option<Entry>, now: int): (d: Decision)
    ensures d.entry.lastCheck == now
    ensures e.None? ==> d.allowed && d.entry.requests == 1
    ensures e.Some? && now - e.value.lastCheck > Second ==> d.entry.requests == 1
    ensures e.Some? && now - e.value.lastCheck <= Second ==> d.entry.requests == e.value.requests + 1
    ensures e.Some? ==> (d.allowed <==> d.entry.requests <= limit + burst)
  {
    match e
    case None => Decision(true, Entry(now, 1))
    case Some(prev) =>
      var requests := if now - prev.lastCheck > Second then 1 else prev.requests + 1;
      Decision(requests <= limit + burst, Entry(now, requests))
  }

  /** Successive calls for one user at the given times. */
  function Run(limit: int, burst: int, e: Option<Entry>, times: seq<int>): (r: (seq<bool>, Option<Entry>))
    ensures |r.0| == |times|
    decreases |times|
  {
    if times == [] then ([], e)
    else
      var d := Step(limit, burst, e, times[0]);
      var rest := Run(limit, burst, Some(d.entry), times[1..]);
      ([d.allowed] + rest.0, rest.1)
  }

  /** No gap between successive calls exceeds one second. */
  predicate CloseTogether(times: seq<int>) {
    forall i | 0 < i < |times| :: times[i] - times[i - 1] <= Second
  }

  /**
   * While no gap exceeds a second, the count keeps growing: the i-th later
   * call sees requests + i + 1 and is admitted iff that is at most
   * limit + burst.
   */
  lemma {:induction false} RunCloseTogether(limit: int, burst: int, e: Entry, times: seq<int>)
    requires times != [] ==> times[0] - e.lastCheck <= Second
    requires CloseTogether(times)
    ensures forall i | 0 <= i < |times| ::
      Run(limit, burst, Some(e), times).0[i] <==> e.requests + i + 1 <= limit + burst
    decreases |times|
  {
    if times != [] {
      var d := Step(limit, burst, Some(e), times[0]);
      var tail := times[1..];
      assert forall i | 0 < i < |tail| :: tail[i] == times[i + 1] && tail[i - 1] == times[i];
      RunCloseTogether(limit, burst, d.entry, tail);
      var r := Run(limit, burst, Some(e), times);
      forall i | 0 < i < |times|
        ensures r.0[i] <==> e.requests + i + 1 <= limit + burst
      {
        assert r.0[i] == Run(limit, burst, Some(d.entry), tail).0[i - 1];
      }
    }
  }

  /**
   * A new user whose calls come at most a second apart gets exactly the
   * first limit + burst of them admitted, and every later one rejected,
   * however long the stream goes on.
   */
  lemma NewUserCloseTogether(limit: int, burst: int, times: seq<int>)
    requires CloseTogether(times)
    ensures forall i | 0 <= i < |times| ::
      Run(limit, burst, None, times).0[i] <==> (i == 0 || i + 1 <= limit + burst)
  {
    if times != [] {
      var d := Step(limit, burst, None, times[0]);
      var tail := times[1..];
      assert forall i | 0 < i < |tail| :: tail[i] == times[i + 1] && tail[i - 1] == times[i];
      RunCloseTogether(limit, burst, d.entry, tail);
      var r := Run(limit, burst, None, times);
      forall i | 0 < i < |times|
        ensures r.0[i] <==> i + 1 <= limit + burst
      {
        assert r.0[i] == Run(limit, burst, Some(d.entry), tail).0[i - 1];
      }
    }
  }

  /** With the server's (5, 1), the seventh call within one second is rejected. */
  lemma SeventhCallRejected()
    ensures Run(ServerLimit, ServerBurst, None, [0, 0, 0, 0, 0, 0, 0]).0
         == [true, true, true, true, true, true, false]
  {
    NewUserCloseTogether(ServerLimit, ServerBurst, [0, 0, 0, 0, 0, 0, 0]);
  }

  /** After a pause of more than a second a call is admitted whenever limit + burst >= 1. */
  lemma PauseRestarts(limit: int, burst: int, e: Entry, now: int)
    requires now - e.lastCheck > Second && limit + burst >= 1
    ensures Step(limit, burst, Some(e), now) == Decision(true, Entry(now, 1))
  {
  }

  /** userLimit */
  class UserLimit {
    var lastCheck: int
    var requests: int

    function Snapshot(): Entry
      reads this
    {
      Entry(lastCheck, requests)
    }

    constructor (lastCheck: int, requests: int)
      ensures Snapshot() == Entry(lastCheck, requests)
    {
      this.lastCheck := lastCheck;
      this.requests := requests;
    }
  }

  /** userRateLimiter: the limit, the burst and each user's counter. */
  class UserRateLimiter {
    var limit: int
    var burst: int
    var userLimits: map<string, UserLimit>

    ghost predicate Valid()
      reads this
    {
      forall a, b | a in userLimits && b in userLimits && a != b :: userLimits[a] != userLimits[b]
    }

    /** newUserRateLimiter */
    constructor (limit: int, burst: int)
      ensures Valid() && userLimits == map[]
      ensures this.limit == limit && this.burst == burst
    {
      this.limit := limit;
      this.burst := burst;
      userLimits := map[];
    }

    /** The user's entry before a call, None for a new user. */
    function Previous(userID: string): Option<Entry>
      reads this, userLimits.Values
    {
      if userID in userLimits then Some(userLimits[userID].Snapshot()) else None
    }

    method Allow(userID: string, now: int) returns (allowed: bool)
      requires Valid()
      modifies this, userLimits.Values
      ensures Valid()
      ensures limit == old(limit) && burst == old(burst)
      ensures userID in userLimits && userLimits == old(userLimits)[userID := userLimits[userID]]
      ensures userID in old(userLimits) ==> userLimits[userID] == old(userLimits)[userID]
      ensures userID !in old(userLimits) ==> fresh(userLimits[userID])
      ensures Step(limit, burst, old(Previous(userID)), now) == Decision(allowed, userLimits[userID].Snapshot())
      ensures forall k | k in old(userLimits) && k != userID ::
        userLimits[k].Snapshot() == old(userLimits[k].Snapshot())
    {
      if userID !in userLimits {
        var entry := new UserLimit(now, 1);
        userLimits := userLimits[userID := entry];
        return true;
      }
      var entry := userLimits[userID];
      if now - entry.lastCheck > Second {
        entry.requests := 1;
      } else {
        entry.requests := entry.requests + 1;
      }
      entry.lastCheck := now;
      allowed := entry.requests <= limit + burst;
    }
  }
}
