/**
 * One pass of the idle-network garbage collector
 * (NetworkOrchestrator.NetworkGarbageCollector.reallyRun).
 *
 * The map from network id to the time the network was first seen idle is
 * threaded explicitly: a pass takes the previous map and returns the next
 * one, together with the list of networks to shut down.  Readiness
 * (isNetworkReadyForGc) is the set of candidate ids the network model
 * reports ready at the time of the pass.
 */
module NetworkGc {

  import opened Base

  /** A candidate is due when it was seen idle before and the wait has elapsed. */
  predicate Due(prev: map<int, int>, id: int, now: int, wait: int)
  {
    id in prev && !(prev[id] > now - wait)
  }

  /** The candidates to shut down, in candidate order. */
  function ShutdownList(candidates: seq<int>, ready: set<int>, prev: map<int, int>, now: int, wait: int): (r: seq<int>)
    ensures |r| <= |candidates|
  {
    if candidates == [] then []
    else
      var id := candidates[|candidates| - 1];
      ShutdownList(candidates[..|candidates| - 1], ready, prev, now, wait) + if id in ready && Due(prev, id, now, wait) then [id] else []
  }

  /** A network is on the list exactly when it is a ready candidate that is due. */
  lemma {:induction false} ShutdownListMembers(candidates: seq<int>, ready: set<int>, prev: map<int, int>, now: int, wait: int)
    ensures forall id :: id in ShutdownList(candidates, ready, prev, now, wait)
                         <==> id in candidates && id in ready && Due(prev, id, now, wait)
  {
    if candidates != [] {
      var id := candidates[|candidates| - 1];
      var init := candidates[..|candidates| - 1];
      assert candidates == init + [id];
      ShutdownListMembers(init, ready, prev, now, wait);
    }
  }

  /** The first-idle map handed to the next pass. */
  function NextMap(candidates: seq<int>, ready: set<int>, prev: map<int, int>, now: int, wait: int): map<int, int>
  {
    map id | id in candidates && id in ready && !Due(prev, id, now, wait) :: if id in prev then prev[id] else now
  }

  lemma NextMapStep(c: seq<int>, id: int, ready: set<int>, prev: map<int, int>, now: int, wait: int)
    requires id !in c
    ensures NextMap(c + [id], ready, prev, now, wait)
         == if id in ready && !Due(prev, id, now, wait)
            then NextMap(c, ready, prev, now, wait)[id := if id in prev then prev[id] else now]
            else NextMap(c, ready, prev, now, wait)
  {
  }

  /** What one iteration of the pass adds, for the candidate at index k of a list without repeats. */
  lemma PassStep(candidates: seq<int>, k: nat, ready: set<int>, prev: map<int, int>, now: int, wait: int)
    requires k < |candidates|
    requires forall i, j :: 0 <= i < j < |candidates| ==> candidates[i] != candidates[j]
    ensures candidates[k] !in candidates[..k]
    ensures forall x :: x in candidates[..k + 1] <==> x in candidates[..k] || x == candidates[k]
    ensures ShutdownList(candidates[..k + 1], ready, prev, now, wait)
         == ShutdownList(candidates[..k], ready, prev, now, wait)
            + if candidates[k] in ready && Due(prev, candidates[k], now, wait) then [candidates[k]] else []
    ensures NextMap(candidates[..k + 1], ready, prev, now, wait)
         == if candidates[k] in ready && !Due(prev, candidates[k], now, wait)
            then NextMap(candidates[..k], ready, prev, now, wait)[candidates[k] := if candidates[k] in prev then prev[candidates[k]] else now]
            else NextMap(candidates[..k], ready, prev, now, wait)
  {
    var id := candidates[k];
    assert candidates[..k + 1][..k] == candidates[..k];
    forall j | 0 <= j < k ensures candidates[..k][j] != id { }
    assert candidates[..k + 1] == candidates[..k] + [id];
    NextMapStep(candidates[..k], id, ready, prev, now, wait);
  }

  /**
   * The loop body for one candidate: a ready network's recorded time is
   * taken out of the map, and the network is either kept as still free
   * (with that time, or now on a first sighting) or put on the shutdown list.
   */
  method Visit(id: int, ready: set<int>, now: int, wait: int, shutdownList: seq<int>, stillFree: map<int, int>,
               last: map<int, int>)
    returns (shutdownList': seq<int>, stillFree': map<int, int>, last': map<int, int>)
    ensures last' == if id in ready then last - {id} else last
    ensures shutdownList' == shutdownList + if id in ready && Due(last, id, now, wait) then [id] else []
    ensures stillFree' == if id in ready && !Due(last, id, now, wait)
                          then stillFree[id := if id in last then last[id] else now] else stillFree
  {
    shutdownList', stillFree', last' := shutdownList, stillFree, last;
    if id in ready {
      var time := if id in last then Some(last[id]) else None;
      last' := last - {id};
      match time {
        case None =>
          stillFree' := stillFree[id := now];
        case Some(t) =>
          if t > now - wait {
            stillFree' := stillFree[id := t];
          } else {
            shutdownList' := shutdownList + [id];
          }
      }
    }
  }

  /**
   * The pass itself, with the source's loop: skip networks that are not
   * ready, take the recorded time out of the previous map, and either
   * record the network as still free (first sighting: now; otherwise its
   * old time) or put it on the shutdown list.
   */
  method ReallyRun(candidates: seq<int>, ready: set<int>, prev: map<int, int>, now: int, wait: int)
    returns (shutdownList: seq<int>, stillFree: map<int, int>)
    requires forall i, j :: 0 <= i < j < |candidates| ==> candidates[i] != candidates[j]
    ensures shutdownList == ShutdownList(candidates, ready, prev, now, wait)
    ensures stillFree == NextMap(candidates, ready, prev, now, wait)
  {
    var last := prev;
    shutdownList := [];
    stillFree := map[];
    var k := 0;
    while k < |candidates|
      invariant 0 <= k <= |candidates|
      invariant shutdownList == ShutdownList(candidates[..k], ready, prev, now, wait)
      invariant forall j :: k <= j < |candidates| ==> (candidates[j] in last <==> candidates[j] in prev)
      invariant forall id :: id in last ==> id in prev && last[id] == prev[id]
      invariant stillFree == NextMap(candidates[..k], ready, prev, now, wait)
    {
      var id := candidates[k];
      PassStep(candidates, k, ready, prev, now, wait);
      assert id in last <==> id in prev;
      shutdownList, stillFree, last := Visit(id, ready, now, wait, shutdownList, stillFree, last);
      k := k + 1;
    }
    assert candidates[..k] == candidates;
  }

  /** The inputs of one pass: the candidate ids, those ready for GC, and the time. */
  datatype Pass = Pass(candidates: seq<int>, ready: set<int>, now: int)

  /** The first-idle map after running `passes` in order, starting from an empty map. */
  function MapAfter(passes: seq<Pass>, wait: int): map<int, int>
    decreases |passes|
  {
    if passes == [] then map[]
    else
      var p := passes[|passes| - 1];
      NextMap(p.candidates, p.ready, MapAfter(passes[..|passes| - 1], wait), p.now, wait)
  }

  /** The network was a ready candidate in every pass from `from` up to (excluding) `to`. */
  ghost predicate IdleThroughout(passes: seq<Pass>, id: int, from: int, to: int)
    requires 0 <= from <= to <= |passes|
  {
    forall j :: from <= j < to ==> id in passes[j].candidates && id in passes[j].ready
  }

  /**
   * The time recorded for a network is the time of the pass that began its
   * current unbroken run of idle passes: a pass in which the network was
   * not a ready candidate drops it, and the clock starts again.
   */
  lemma {:induction false} RecordedTimeStartsIdleRun(passes: seq<Pass>, wait: int, id: int)
    requires id in MapAfter(passes, wait)
    ensures exists k :: 0 <= k < |passes| && MapAfter(passes, wait)[id] == passes[k].now
                        && IdleThroughout(passes, id, k, |passes|)
  {
    var n := |passes|;
    var prefix := passes[..n - 1];
    var p := passes[n - 1];
    var m := MapAfter(prefix, wait);
    assert id in p.candidates && id in p.ready;
    if id in m {
      RecordedTimeStartsIdleRun(prefix, wait, id);
      var k :| 0 <= k < |prefix| && m[id] == prefix[k].now && IdleThroughout(prefix, id, k, |prefix|);
      assert MapAfter(passes, wait)[id] == passes[k].now;
      assert IdleThroughout(passes, id, k, n) by {
        forall j | k <= j < n ensures id in passes[j].candidates && id in passes[j].ready {
          if j < n - 1 { assert passes[j] == prefix[j]; }
        }
      }
    } else {
      assert MapAfter(passes, wait)[id] == passes[n - 1].now;
      assert IdleThroughout(passes, id, n - 1, n);
    }
  }

  /**
   * A network is shut down only after it has been a ready candidate in an
   * unbroken run of passes that began at least `wait` before the current
   * pass; in particular never on the pass that first sees it idle.
   */
  lemma ShutdownOnlyAfterWait(passes: seq<Pass>, p: Pass, wait: int, id: int)
    requires id in ShutdownList(p.candidates, p.ready, MapAfter(passes, wait), p.now, wait)
    ensures exists k :: 0 <= k < |passes| && p.now - passes[k].now >= wait
                        && IdleThroughout(passes + [p], id, k, |passes| + 1)
  {
    ShutdownListMembers(p.candidates, p.ready, MapAfter(passes, wait), p.now, wait);
    RecordedTimeStartsIdleRun(passes, wait, id);
    var k :| 0 <= k < |passes| && MapAfter(passes, wait)[id] == passes[k].now
             && IdleThroughout(passes, id, k, |passes|);
    var all := passes + [p];
    assert all[..|all| - 1] == passes;
    forall j | k <= j < |all| ensures id in all[j].candidates && id in all[j].ready {
      if j < |passes| { assert all[j] == passes[j]; }
    }
  }

  /**
   * Conversely, a network first seen idle at pass k and idle in every pass
   * since is kept with time passes[k].now while the wait has not elapsed ...
   */
  lemma {:induction false} IdleNetworkKeepsFirstTime(passes: seq<Pass>, wait: int, id: int, k: int, j: int)
    requires 0 <= k <= j < |passes|
    requires id !in MapAfter(passes[..k], wait)
    requires IdleThroughout(passes, id, k, j + 1)
    requires forall i :: k < i <= j ==> passes[i].now - passes[k].now < wait
    ensures id in MapAfter(passes[..j + 1], wait) && MapAfter(passes[..j + 1], wait)[id] == passes[k].now
    decreases j - k
  {
    var upto := passes[..j + 1];
    assert upto[..|upto| - 1] == passes[..j];
    assert upto[|upto| - 1] == passes[j];
    if j > k {
      IdleNetworkKeepsFirstTime(passes, wait, id, k, j - 1);
    }
  }

  /** ... and is shut down on the first pass at which it has. */
  lemma ShutdownOnFirstDuePass(passes: seq<Pass>, wait: int, id: int, k: int, n: int)
    requires 0 <= k < n < |passes|
    requires id !in MapAfter(passes[..k], wait)
    requires IdleThroughout(passes, id, k, n + 1)
    requires forall i :: k < i < n ==> passes[i].now - passes[k].now < wait
    requires passes[n].now - passes[k].now >= wait
    ensures id in ShutdownList(passes[n].candidates, passes[n].ready, MapAfter(passes[..n], wait), passes[n].now, wait)
  {
    IdleNetworkKeepsFirstTime(passes, wait, id, k, n - 1);
    assert passes[..n - 1 + 1] == passes[..n];
    ShutdownListMembers(passes[n].candidates, passes[n].ready, MapAfter(passes[..n], wait), passes[n].now, wait);
  }
}
