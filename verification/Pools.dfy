/**
 Fixed-capacity pools derived from the connected agents (kuiper-forge/src/agent_registry.rs, `PoolDefinition` and
 `normalize_labels`).
 */
module Pools {
  import opened Common
  import opened Text
  import opened Labels
  import opened Capacity

  // ---------- normalized labels ----------

  function Insert(x: string, sorted: seq<string>): seq<string> {
    if sorted == [] || AtMost(x, sorted[0]) then [x] + sorted else [sorted[0]] + Insert(x, sorted[1..])
  }

  function Sort(xs: seq<string>): seq<string> {
    if xs == [] then [] else Insert(xs[0], Sort(xs[1..]))
  }

  lemma {:induction false} InsertAdds(x: string, sorted: seq<string>)
    ensures multiset(Insert(x, sorted)) == multiset(sorted) + multiset{x}
  {
    if sorted != [] {
      assert sorted == [sorted[0]] + sorted[1..];
      InsertAdds(x, sorted[1..]);
    }
  }

  lemma {:induction false} SortPermutes(xs: seq<string>)
    ensures multiset(Sort(xs)) == multiset(xs)
  {
    if xs != [] {
      assert xs == [xs[0]] + xs[1..];
      SortPermutes(xs[1..]);
      InsertAdds(xs[0], Sort(xs[1..]));
    }
  }

  predicate Sorted(xs: seq<string>) {
    forall i, j :: 0 <= i < j < |xs| ==> AtMost(xs[i], xs[j])
  }

  lemma {:induction false} InsertIsSorted(x: string, xs: seq<string>)
    requires Sorted(xs)
    ensures Sorted(Insert(x, xs))
  {
    if xs != [] {
      AtMostIsTotal(x, xs[0]);
      forall y | y in xs ensures AtMost(xs[0], y) {
        AtMostIsTotal(xs[0], xs[0]);
      }
      if AtMost(x, xs[0]) {
        forall y | y in xs ensures AtMost(x, y) {
          AtMostIsTransitive(x, xs[0], y);
        }
      } else {
        InsertIsSorted(x, xs[1..]);
        InsertAdds(x, xs[1..]);
        var r := Insert(x, xs[1..]);
        forall y | y in r ensures AtMost(xs[0], y) {
          assert y in multiset(r);
        }
      }
    }
  }

  lemma {:induction false} SortIsSorted(xs: seq<string>)
    ensures Sorted(Sort(xs))
  {
    if xs != [] {
      SortIsSorted(xs[1..]);
      InsertIsSorted(xs[0], Sort(xs[1..]));
    }
  }

  lemma SameFirst(xs: seq<string>, ys: seq<string>)
    requires Sorted(xs) && Sorted(ys) && multiset(xs) == multiset(ys) && xs != [] && ys != []
    ensures xs[0] == ys[0]
  {
    assert ys[0] in multiset(xs) && xs[0] in multiset(ys);
    var i :| 0 <= i < |xs| && xs[i] == ys[0];
    var j :| 0 <= j < |ys| && ys[j] == xs[0];
    AtMostIsTotal(xs[0], xs[0]);
    AtMostIsAntisymmetric(xs[0], ys[0]);
  }

  lemma {:induction false} SortedIsUnique(xs: seq<string>, ys: seq<string>)
    requires Sorted(xs) && Sorted(ys) && multiset(xs) == multiset(ys)
    ensures xs == ys
  {
    assert |multiset(xs)| == |xs| && |multiset(ys)| == |ys|;
    if xs != [] {
      SameFirst(xs, ys);
      assert xs == [xs[0]] + xs[1..] && ys == [ys[0]] + ys[1..];
      assert multiset(xs[1..]) == multiset(xs) - multiset{xs[0]} == multiset(ys[1..]);
      SortedIsUnique(xs[1..], ys[1..]);
    }
  }

  /** Lowercased and sorted. */
  function NormalizeLabels(labels: seq<string>): seq<string> {
    Sort(LowerAll(labels))
  }

  /** Two agents share a legacy pool exactly when they have the same labels, in any order and letter case. */
  lemma SamePoolIffSameLabels(xs: seq<string>, ys: seq<string>)
    ensures NormalizeLabels(xs) == NormalizeLabels(ys) <==> multiset(LowerAll(xs)) == multiset(LowerAll(ys))
  {
    SortIsSorted(LowerAll(xs));
    SortIsSorted(LowerAll(ys));
    SortPermutes(LowerAll(xs));
    SortPermutes(LowerAll(ys));
    if multiset(LowerAll(xs)) == multiset(LowerAll(ys)) {
      SortedIsUnique(NormalizeLabels(xs), NormalizeLabels(ys));
    }
  }

  // ---------- pool keys ----------

  datatype PoolDefinition = PoolDefinition(labels: seq<string>, target: nat, agentId: Option<string>, setId: string) {
    function Key(): string {
      if setId == "" then Join(labels) else Join(labels) + "@" + setId
    }
  }

  function Join(labels: seq<string>): string {
    if labels == [] then ""
    else if |labels| == 1 then labels[0]
    else labels[0] + "," + Join(labels[1..])
  }

  predicate Plain(labels: seq<string>) {
    forall l :: l in labels ==> l != "" && ',' !in l && '@' !in l
  }

  /** Two strings that agree up to a mark that neither prefix contains have the same prefix and the same rest. */
  lemma CutAtMark(a: string, x: string, b: string, y: string, mark: char)
    requires mark !in a && mark !in b
    requires x == "" || x[0] == mark
    requires y == "" || y[0] == mark
    requires a + x == b + y
    ensures a == b && x == y
  {
    var s := a + x;
    assert forall i :: 0 <= i < |a| ==> s[i] == a[i];
    assert forall i :: 0 <= i < |b| ==> s[i] == b[i];
    assert x != "" ==> s[|a|] == mark;
    assert (b + y)[..|b|] == b && (b + y)[|b|..] == y;
    assert y != "" ==> (b + y)[|b|] == mark;
    assert |a| == |b|;
    assert s[..|a|] == a && s[|a|..] == x;
  }

  lemma {:induction false} JoinHasNoAt(labels: seq<string>)
    requires Plain(labels)
    ensures '@' !in Join(labels)
    ensures Join(labels) == "" <==> labels == []
  {
    if labels != [] {
      assert labels[0] in labels;
      JoinHasNoAt(labels[1..]);
    }
  }

  function AfterFirst(labels: seq<string>): string
    requires labels != []
  {
    if |labels| == 1 then "" else "," + Join(labels[1..])
  }

  lemma JoinIsHeadThenRest(labels: seq<string>)
    requires Plain(labels) && labels != []
    ensures Join(labels) == labels[0] + AfterFirst(labels)
    ensures ',' !in labels[0] && Plain(labels[1..])
    ensures AfterFirst(labels) == "" <==> |labels| == 1
    ensures |labels| > 1 ==> AfterFirst(labels)[0] == ',' && AfterFirst(labels)[1..] == Join(labels[1..])
  {
    assert labels[0] in labels;
  }

  lemma {:induction false} JoinIsInjective(xs: seq<string>, ys: seq<string>)
    requires Plain(xs) && Plain(ys) && Join(xs) == Join(ys)
    ensures xs == ys
  {
    JoinHasNoAt(xs);
    JoinHasNoAt(ys);
    if xs != [] {
      JoinIsHeadThenRest(xs);
      JoinIsHeadThenRest(ys);
      CutAtMark(xs[0], AfterFirst(xs), ys[0], AfterFirst(ys), ',');
      if |xs| > 1 {
        JoinIsInjective(xs[1..], ys[1..]);
      }
      assert xs == [xs[0]] + xs[1..] && ys == [ys[0]] + ys[1..];
    }
  }

  /** The key that runners of an explicit pool are counted by tells the pools of one agent apart. */
  lemma KeyIsInjective(p: PoolDefinition, q: PoolDefinition)
    requires Plain(p.labels) && Plain(q.labels)
    ensures p.Key() == q.Key() <==> p.labels == q.labels && p.setId == q.setId
  {
    if p.Key() == q.Key() {
      JoinHasNoAt(p.labels);
      JoinHasNoAt(q.labels);
      var x := if p.setId == "" then "" else "@" + p.setId;
      var y := if q.setId == "" then "" else "@" + q.setId;
      assert p.Key() == Join(p.labels) + x && q.Key() == Join(q.labels) + y;
      CutAtMark(Join(p.labels), x, Join(q.labels), y, '@');
      JoinIsInjective(p.labels, q.labels);
      assert p.setId != "" ==> x[1..] == p.setId;
      assert q.setId != "" ==> y[1..] == q.setId;
    }
  }

  /** The runners of these pools are counted together. */
  predicate SameKey(p: PoolDefinition, q: PoolDefinition) {
    p.agentId == q.agentId && if p.agentId.None? then p.labels == q.labels else p.Key() == q.Key()
  }

  predicate DistinctKeys(pools: seq<PoolDefinition>) {
    forall i, j :: 0 <= i < j < |pools| ==> !SameKey(pools[i], pools[j])
  }

  lemma DistinctKeysConcat(a: seq<PoolDefinition>, b: seq<PoolDefinition>)
    requires DistinctKeys(a) && DistinctKeys(b) && forall p, q :: p in a && q in b ==> !SameKey(p, q)
    ensures DistinctKeys(a + b)
  {
    forall i, j | 0 <= i < j < |a + b| ensures !SameKey((a + b)[i], (a + b)[j]) {
      if i < |a| <= j {
        assert a[i] in a && b[j - |a|] in b;
      }
    }
  }

  // ---------- which pools the agents make ----------

  predicate HasExplicitPools(a: Agent) {
    exists p :: p in a.capacity.labelSetPools && p != None
  }

  predicate InLegacyPool(a: Agent, labels: seq<string>) {
    !HasExplicitPools(a) && NormalizeLabels(a.labels) == labels
  }

  function PoolSize(a: Agent, i: nat): nat {
    if i < |a.capacity.labelSetPools| && a.capacity.labelSetPools[i].Some?
    then a.capacity.labelSetPools[i].value else 0
  }

  function ExplicitPool(id: string, a: Agent, i: nat): PoolDefinition
    requires i < |a.labelSets|
  {
    PoolDefinition(NormalizeLabels(a.labelSets[i]), PoolSize(a, i), Some(id),
                   if i < |a.capacity.labelSetIds| then a.capacity.labelSetIds[i] else "")
  }

  predicate IsPoolOf(id: string, a: Agent, i: nat, p: PoolDefinition) {
    i < |a.labelSets| && PoolSize(a, i) > 0 && p == ExplicitPool(id, a, i)
  }

  /** The explicit pools of one agent, in the order of its label sets. */
  function ExplicitPools(id: string, a: Agent, n: nat): seq<PoolDefinition>
    requires n <= |a.labelSets|
  {
    if n == 0 then [] else ExplicitPools(id, a, n - 1) + PoolAt(id, a, n - 1)
  }

  function PoolAt(id: string, a: Agent, i: nat): seq<PoolDefinition>
    requires i < |a.labelSets|
  {
    if PoolSize(a, i) > 0 then [ExplicitPool(id, a, i)] else []
  }

  predicate IsSomePoolOf(id: string, a: Agent, n: nat, p: PoolDefinition) {
    exists i: nat | i < n :: IsPoolOf(id, a, i, p)
  }

  lemma {:induction false} ExplicitPoolsAreTheSized(id: string, a: Agent, n: nat, p: PoolDefinition)
    requires n <= |a.labelSets|
    ensures p in ExplicitPools(id, a, n) <==> IsSomePoolOf(id, a, n, p)
  {
    if n > 0 {
      ExplicitPoolsAreTheSized(id, a, n - 1, p);
      InConcat(p, ExplicitPools(id, a, n - 1), PoolAt(id, a, n - 1));
      OneMoreSet(id, a, n - 1, p);
    }
  }

  lemma OneMoreSet(id: string, a: Agent, n: nat, p: PoolDefinition)
    ensures IsSomePoolOf(id, a, n + 1, p) <==> IsSomePoolOf(id, a, n, p) || IsPoolOf(id, a, n, p)
  {
  }

  lemma InConcat(p: PoolDefinition, xs: seq<PoolDefinition>, ys: seq<PoolDefinition>)
    ensures p in xs + ys <==> p in xs || p in ys
  {
  }

  /** What tells an agent's sized label sets apart: their labels and ids. */
  function SetMarks(a: Agent, n: nat): seq<(seq<string>, string)>
    requires n <= |a.labelSets|
  {
    if n == 0 then []
    else SetMarks(a, n - 1) + if PoolSize(a, n - 1) > 0 then [MarkOf(ExplicitPool("", a, n - 1))] else []
  }

  function MarkOf(p: PoolDefinition): (seq<string>, string) { (p.labels, p.setId) }

  lemma {:induction false} PoolsAreMarked(id: string, a: Agent, n: nat)
    requires n <= |a.labelSets|
    ensures |ExplicitPools(id, a, n)| == |SetMarks(a, n)|
    ensures forall k :: 0 <= k < |SetMarks(a, n)| ==>
              MarkOf(ExplicitPools(id, a, n)[k]) == SetMarks(a, n)[k] && ExplicitPools(id, a, n)[k].agentId == Some(id)
  {
    if n > 0 {
      PoolsAreMarked(id, a, n - 1);
      var before, marks := ExplicitPools(id, a, n - 1), SetMarks(a, n - 1);
      if PoolSize(a, n - 1) > 0 {
        assert MarkOf(ExplicitPool(id, a, n - 1)) == MarkOf(ExplicitPool("", a, n - 1));
        assert ExplicitPools(id, a, n) == before + [ExplicitPool(id, a, n - 1)];
        assert SetMarks(a, n) == marks + [MarkOf(ExplicitPool("", a, n - 1))];
      } else {
        assert ExplicitPools(id, a, n) == before && SetMarks(a, n) == marks;
      }
    }
  }

  /** With plain labels, the keys of an agent's own pools differ exactly if its sized label sets do, in labels or id. */
  lemma OwnKeysDifferIffSetsDo(id: string, a: Agent)
    requires forall m :: m in SetMarks(a, |a.labelSets|) ==> Plain(m.0)
    ensures DistinctKeys(ExplicitPools(id, a, |a.labelSets|)) <==> NoDuplicates(SetMarks(a, |a.labelSets|))
  {
    PoolsAreMarked(id, a, |a.labelSets|);
    MarksTellPoolsApart(id, ExplicitPools(id, a, |a.labelSets|), SetMarks(a, |a.labelSets|));
  }

  lemma MarksTellPoolsApart(id: string, pools: seq<PoolDefinition>, marks: seq<(seq<string>, string)>)
    requires |pools| == |marks| && forall m :: m in marks ==> Plain(m.0)
    requires forall k :: 0 <= k < |pools| ==> MarkOf(pools[k]) == marks[k] && pools[k].agentId == Some(id)
    ensures DistinctKeys(pools) <==> NoDuplicates(marks)
  {
    forall i, j | 0 <= i < j < |pools| ensures SameKey(pools[i], pools[j]) <==> marks[i] == marks[j] {
      assert marks[i] in marks && marks[j] in marks;
      KeyIsInjective(pools[i], pools[j]);
    }
  }

  /** What one agent adds to the pools: nothing, its ceiling to a shared legacy pool, or pools of its own. */
  datatype Offer = Nothing | Legacy(labels: seq<string>, ceiling: nat) | Own(pools: seq<PoolDefinition>)

  function OfferOf(a: Agent, id: string): Offer {
    if a.unavailable then Nothing
    else if HasExplicitPools(a) then Own(ExplicitPools(id, a, |a.labelSets|))
    else Legacy(NormalizeLabels(a.labels), a.CeilingFor(a.labels))
  }

  lemma OwnPoolsHaveAnAgent(a: Agent, id: string, p: PoolDefinition)
    ensures OfferOf(a, id).Own? && p in OfferOf(a, id).pools ==> p.agentId == Some(id)
  {
    ExplicitPoolsAreTheSized(id, a, |a.labelSets|, p);
  }

  /** The members of a legacy pool. */
  function Members(offers: map<string, Offer>, labels: seq<string>): (r: set<string>)
    ensures r <= offers.Keys
  {
    set id | id in offers && offers[id].Legacy? && offers[id].labels == labels
  }

  ghost function TotalCeiling(ids: set<string>, offers: map<string, Offer>): nat
    requires ids <= offers.Keys
  {
    if ids == {} then 0
    else
      var id :| id in ids;
      (if offers[id].Legacy? then offers[id].ceiling else 0) + TotalCeiling(ids - {id}, offers)
  }

  lemma {:induction false} TotalTakes(ids: set<string>, offers: map<string, Offer>, id: string)
    requires ids <= offers.Keys && id in ids
    ensures TotalCeiling(ids, offers)
            == (if offers[id].Legacy? then offers[id].ceiling else 0) + TotalCeiling(ids - {id}, offers)
  {
    var first :| first in ids && TotalCeiling(ids, offers)
      == (if offers[first].Legacy? then offers[first].ceiling else 0) + TotalCeiling(ids - {first}, offers);
    if first != id {
      TotalTakes(ids - {first}, offers, id);
      assert ids - {first} - {id} == ids - {id} - {first};
      TotalTakes(ids - {id}, offers, first);
    }
  }

  lemma {:induction false} TotalIsLocal(ids: set<string>, offers: map<string, Offer>, others: map<string, Offer>)
    requires ids <= offers.Keys && ids <= others.Keys
    requires forall id :: id in ids ==> offers[id] == others[id]
    ensures TotalCeiling(ids, offers) == TotalCeiling(ids, others)
  {
    if ids != {} {
      var id :| id in ids && TotalCeiling(ids, offers)
        == (if offers[id].Legacy? then offers[id].ceiling else 0) + TotalCeiling(ids - {id}, offers);
      TotalIsLocal(ids - {id}, offers, others);
      TotalTakes(ids, others, id);
    }
  }

  /** `p` is a pool that these agents make: the shared legacy pool of some of them, or one of an agent's own. */
  ghost predicate IsPool(offers: map<string, Offer>, p: PoolDefinition) {
    || IsLegacyPool(offers, p)
    || IsOwnPool(offers, p)
  }

  ghost predicate IsLegacyPool(offers: map<string, Offer>, p: PoolDefinition) {
    var members := Members(offers, p.labels);
    members != {} && p == PoolDefinition(p.labels, TotalCeiling(members, offers), None, "")
  }

  predicate IsOwnPool(offers: map<string, Offer>, p: PoolDefinition) {
    exists id :: id in offers && offers[id].Own? && p in offers[id].pools
  }

  /** What the loop over the agents has collected from those it has seen. */
  ghost predicate Collected(seen: map<string, Offer>, legacy: map<seq<string>, nat>, own: seq<PoolDefinition>) {
    && (forall k :: k in legacy <==> Members(seen, k) != {})
    && (forall k :: k in legacy ==> legacy[k] == TotalCeiling(Members(seen, k), seen))
    && (forall p :: p in own <==> IsOwnPool(seen, p))
  }

  lemma OtherKeysStay(seen: map<string, Offer>, id: string, offer: Offer, labels: seq<string>)
    requires id !in seen && !(offer.Legacy? && offer.labels == labels)
    ensures Members(seen[id := offer], labels) == Members(seen, labels)
    ensures TotalCeiling(Members(seen, labels), seen[id := offer]) == TotalCeiling(Members(seen, labels), seen)
  {
    assert Members(seen[id := offer], labels) == Members(seen, labels);
    TotalIsLocal(Members(seen, labels), seen, seen[id := offer]);
  }

  lemma OwnPoolsGrow(seen: map<string, Offer>, id: string, offer: Offer, p: PoolDefinition)
    requires id !in seen
    ensures IsOwnPool(seen[id := offer], p) <==> IsOwnPool(seen, p) || (offer.Own? && p in offer.pools)
  {
    assert forall x :: x in seen ==> x in seen[id := offer] && seen[id := offer][x] == seen[x];
    assert id in seen[id := offer];
  }

  lemma CollectUnshared(seen: map<string, Offer>, legacy: map<seq<string>, nat>, own: seq<PoolDefinition>,
                        id: string, offer: Offer)
    requires Collected(seen, legacy, own) && id !in seen && !offer.Legacy?
    ensures Collected(seen[id := offer], legacy, own + if offer.Own? then offer.pools else [])
  {
    forall k ensures k in legacy <==> Members(seen[id := offer], k) != {} { OtherKeysStay(seen, id, offer, k); }
    forall k | k in legacy ensures legacy[k] == TotalCeiling(Members(seen[id := offer], k), seen[id := offer]) {
      OtherKeysStay(seen, id, offer, k);
    }
    forall p { OwnPoolsGrow(seen, id, offer, p); }
  }

  lemma CollectLegacy(seen: map<string, Offer>, legacy: map<seq<string>, nat>, own: seq<PoolDefinition>,
                      id: string, offer: Offer)
    requires Collected(seen, legacy, own) && id !in seen && offer.Legacy?
    ensures var before := if offer.labels in legacy then legacy[offer.labels] else 0;
            Collected(seen[id := offer], legacy[offer.labels := before + offer.ceiling], own)
  {
    var key, more := offer.labels, seen[id := offer];
    var members := Members(seen, key);
    assert Members(more, key) == members + {id};
    TotalTakes(members + {id}, more, id);
    assert members + {id} - {id} == members;
    TotalIsLocal(members, seen, more);
    forall k | k != key
      ensures Members(more, k) == Members(seen, k)
      ensures TotalCeiling(Members(more, k), more) == TotalCeiling(Members(seen, k), seen)
    {
      OtherKeysStay(seen, id, offer, k);
    }
    forall p { OwnPoolsGrow(seen, id, offer, p); }
  }

  /** Every available agent without pools of its own belongs to exactly one legacy pool, and no other agent to any. */
  lemma LegacyPoolsPartition(agents: map<string, Agent>, offers: map<string, Offer>, id: string)
    requires id in agents && id in offers && offers[id] == OfferOf(agents[id], id)
    ensures forall labels :: id in Members(offers, labels) <==>
                             !agents[id].unavailable && InLegacyPool(agents[id], labels)
    ensures forall xs, ys :: id in Members(offers, xs) && id in Members(offers, ys) ==> xs == ys
    ensures (exists labels :: id in Members(offers, labels)) <==>
              !agents[id].unavailable && !HasExplicitPools(agents[id])
  {
    if !agents[id].unavailable && !HasExplicitPools(agents[id]) {
      assert id in Members(offers, NormalizeLabels(agents[id].labels));
    }
  }
}
