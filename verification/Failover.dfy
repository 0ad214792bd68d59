/**
 Which agents are connected, and who may fail over the runners of one that dropped (kuiper-forge/src/agent_registry.rs,
 `register`, `unregister` and `claim_failover`). Each of the three runs under the `disconnects` lock, so a run is a
 sequence of them.
 */
module Failover {

  datatype Links = Links(connected: set<string>, disconnects: map<string, nat>) {
    function Register(id: string): Links {
      Links(connected + {id}, disconnects - {id})
    }

    function Unregister(id: string, stamp: nat): Links {
      Links(connected - {id}, disconnects[id := stamp])
    }

    predicate CanClaim(id: string, stamp: nat) {
      id !in connected && id in disconnects && disconnects[id] == stamp
    }

    function Claim(id: string, stamp: nat): Links {
      if CanClaim(id, stamp) then Links(connected, disconnects - {id}) else this
    }
  }

  datatype Event = Register(id: string) | Unregister(id: string, stamp: nat) | Claim(id: string, stamp: nat)

  function After(events: seq<Event>): Links {
    if events == [] then Links({}, map[])
    else
      var before := After(events[..|events| - 1]);
      match events[|events| - 1]
      case Register(id) => before.Register(id)
      case Unregister(id, stamp) => before.Unregister(id, stamp)
      case Claim(id, stamp) => before.Claim(id, stamp)
  }

  /** Event `i` is a claim that returns true. */
  predicate Succeeds(events: seq<Event>, i: nat)
    requires i < |events|
  {
    events[i].Claim? && After(events[..i]).CanClaim(events[i].id, events[i].stamp)
  }

  lemma {:induction false} ConnectedHaveNoStamp(events: seq<Event>)
    ensures After(events).connected !! After(events).disconnects.Keys
  {
    if events != [] {
      ConnectedHaveNoStamp(events[..|events| - 1]);
    }
  }

  /** After event `j`, the drop of `id` stamped `stamp`: nobody has reconnected, dropped again or claimed it. */
  predicate StillDropped(events: seq<Event>, j: nat, id: string, stamp: nat) {
    && j < |events| && events[j] == Unregister(id, stamp)
    && forall k :: j < k < |events| ==>
         !(events[k] == Register(id) || (events[k].Unregister? && events[k].id == id) || events[k] == Claim(id, stamp))
  }

  lemma {:induction false} ClaimableIffStillDropped(events: seq<Event>, id: string, stamp: nat)
    ensures After(events).CanClaim(id, stamp) <==> exists j: nat :: StillDropped(events, j, id, stamp)
  {
    if events != [] {
      var n := |events| - 1;
      var prefix := events[..n];
      ClaimableIffStillDropped(prefix, id, stamp);
      assert forall j: nat :: j < n ==> prefix[j] == events[j];
      if j: nat :| StillDropped(events, j, id, stamp) {
        assert j < n ==> StillDropped(prefix, j, id, stamp);
      }
      if After(events).CanClaim(id, stamp) {
        if events[n] == Unregister(id, stamp) {
          assert StillDropped(events, n, id, stamp);
        } else {
          var j: nat :| StillDropped(prefix, j, id, stamp);
          assert StillDropped(events, j, id, stamp);
        }
      }
    }
  }

  /** A claim succeeds exactly when its disconnect happened, and since then the agent neither came back nor dropped
      again, and nobody else made this claim. */
  lemma ClaimSucceedsIff(events: seq<Event>, i: nat)
    requires i < |events| && events[i].Claim?
    ensures Succeeds(events, i) <==> exists j: nat :: StillDropped(events[..i], j, events[i].id, events[i].stamp)
  {
    ClaimableIffStillDropped(events[..i], events[i].id, events[i].stamp);
  }

  predicate DistinctStamps(events: seq<Event>) {
    forall i, j :: 0 <= i < j < |events| && events[i].Unregister? && events[j].Unregister? ==>
      events[i].stamp != events[j].stamp
  }

  /** No disconnect is claimed twice. */
  lemma ClaimedAtMostOnce(events: seq<Event>, i: nat, k: nat)
    requires DistinctStamps(events)
    requires i < k < |events| && events[i] == events[k] && events[i].Claim?
    ensures !(Succeeds(events, i) && Succeeds(events, k))
  {
    if Succeeds(events, i) {
      var id, stamp := events[i].id, events[i].stamp;
      ClaimSucceedsIff(events, i);
      ClaimSucceedsIff(events, k);
      var a: nat :| StillDropped(events[..i], a, id, stamp);
      assert events[a] == Unregister(id, stamp);
      forall b: nat ensures !StillDropped(events[..k], b, id, stamp) {
        assert events[..k][i] == Claim(id, stamp);
        assert b < k ==> events[..k][b] == events[b];
      }
    }
  }
}
