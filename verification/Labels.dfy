/**
 The agent's side of label matching (kuiper-agent-lib/src/labels.rs): which mapping a job's runner is created
 from, and the label sets advertised to the coordinator. Labels are ASCII.
 */
module Labels {
  import opened Common
  import opened Text

  datatype Mapping = Mapping(labels: seq<string>, id: string, pool: Option<nat>)

  datatype Capability = Capability(labels: seq<string>, id: string, pool: Option<nat>, isDefault: bool)

  predicate HasLabel(labels: seq<string>, wanted: string) {
    exists l :: l in labels && EqIgnoreCase(l, wanted)
  }

  /** The job names a label that this mapping adds to the base labels. */
  predicate Requests(base: seq<string>, m: Mapping, job: seq<string>) {
    exists j :: j in job && !HasLabel(base, j) && HasLabel(m.labels, j)
  }

  predicate Covered(base: seq<string>, m: Mapping, job: seq<string>) {
    forall j :: j in job ==> HasLabel(base, j) || HasLabel(m.labels, j)
  }

  predicate Applies(base: seq<string>, mappings: seq<Mapping>, job: seq<string>, i: nat) {
    i < |mappings| && Requests(base, mappings[i], job) && Covered(base, mappings[i], job)
  }

  /** Mappings are tried in order; one applies if it adds something the job asks for and leaves nothing it asks for
      out. */
  function SelectMapping(base: seq<string>, mappings: seq<Mapping>, job: seq<string>): (r: Option<nat>)
    ensures r.Some? ==> Applies(base, mappings, job, r.value) &&
                        forall j: nat :: j < r.value ==> !Applies(base, mappings, job, j)
    ensures r.None? ==> forall j: nat :: !Applies(base, mappings, job, j)
  {
    var applies := (i: nat) => Applies(base, mappings, job, i);
    assert forall j: nat :: applies(j) == Applies(base, mappings, job, j);
    FirstIndex(|mappings|, applies)
  }

  function Ids(mappings: seq<Mapping>): seq<string> {
    seq(|mappings|, i requires 0 <= i < |mappings| => mappings[i].id)
  }

  /** Index of the mapping a runner is created from, `None` for the default resource. */
  function MappingFor(base: seq<string>, baseId: string, mappings: seq<Mapping>, setId: string, job: seq<string>)
    : Option<nat>
  {
    if setId == "" then SelectMapping(base, mappings, job)
    else
      match IndexOf(Ids(mappings), setId)
      case Some(k) => Some(k)
      case None => if setId == baseId then None else SelectMapping(base, mappings, job)
  }

  function LowerAll(labels: seq<string>): (r: seq<string>)
    ensures |r| == |labels|
  {
    seq(|labels|, i requires 0 <= i < |labels| => Lower(labels[i]))
  }

  lemma LowerAllHasSame(labels: seq<string>, wanted: string)
    ensures HasLabel(LowerAll(labels), wanted) <==> HasLabel(labels, wanted)
  {
    var lowered := LowerAll(labels);
    if HasLabel(labels, wanted) {
      var i :| 0 <= i < |labels| && EqIgnoreCase(labels[i], wanted);
      LowerIsFolded(labels[i]);
      assert lowered[i] in lowered;
    }
    if HasLabel(lowered, wanted) {
      var i :| 0 <= i < |lowered| && EqIgnoreCase(lowered[i], wanted);
      LowerIsFolded(labels[i]);
      assert labels[i] in labels;
    }
  }

  /** One step of the loop that adds a mapping's labels to the base labels. */
  function AddLabel(labels: seq<string>, wanted: string): seq<string> {
    if HasLabel(labels, Lower(wanted)) then labels else labels + [Lower(wanted)]
  }

  function AddLabels(labels: seq<string>, extra: seq<string>): seq<string>
    decreases |extra|
  {
    if extra == [] then labels
    else AddLabel(AddLabels(labels, extra[..|extra| - 1]), extra[|extra| - 1])
  }

  lemma AddLabelHas(labels: seq<string>, added: string, wanted: string)
    ensures HasLabel(AddLabel(labels, added), wanted) <==> HasLabel(labels, wanted) || EqIgnoreCase(added, wanted)
  {
    LowerIsFolded(added);
    var r := AddLabel(labels, added);
    assert forall l :: l in labels ==> l in r;
    if EqIgnoreCase(added, wanted) && !HasLabel(labels, Lower(added)) {
      assert r[|labels|] in r;
    }
  }

  /** The advertised set holds exactly the base labels and the mapping's. */
  lemma {:induction false} AddLabelsHasBoth(labels: seq<string>, extra: seq<string>, wanted: string)
    ensures HasLabel(AddLabels(labels, extra), wanted) <==> HasLabel(labels, wanted) || HasLabel(extra, wanted)
    decreases |extra|
  {
    if extra != [] {
      var rest, last := extra[..|extra| - 1], extra[|extra| - 1];
      AddLabelsHasBoth(labels, rest, wanted);
      AddLabelHas(AddLabels(labels, rest), last, wanted);
      assert forall l :: l in extra <==> l in rest || l == last;
    }
  }

  /** Added labels repeat nothing, but the base labels are kept as they are: the set is free of repeats exactly when
      the base labels are. */
  lemma {:induction false} AddLabelsNoDuplicates(base: seq<string>, extra: seq<string>)
    ensures NoDuplicates(AddLabels(LowerAll(base), extra)) <==> NoDuplicates(LowerAll(base))
    ensures LowerAll(base) <= AddLabels(LowerAll(base), extra)
    ensures forall l :: l in AddLabels(LowerAll(base), extra) ==> Lower(l) == l
    decreases |extra|
  {
    if extra == [] {
      forall l | l in LowerAll(base) ensures Lower(l) == l {
        var i :| 0 <= i < |base| && LowerAll(base)[i] == l;
        LowerIsFolded(base[i]);
      }
    } else {
      var rest, last := extra[..|extra| - 1], extra[|extra| - 1];
      AddLabelsNoDuplicates(base, rest);
      LowerIsFolded(last);
      var before := AddLabels(LowerAll(base), rest);
      if !HasLabel(before, Lower(last)) {
        assert Lower(last) !in before;
        AppendNoDuplicates(before, Lower(last));
      }
    }
  }

  /** The `labels` vector built for one mapping's capability. */
  method BuildLabelSet(base: seq<string>, mapping: Mapping) returns (labels: seq<string>)
    ensures labels == AddLabels(LowerAll(base), mapping.labels)
    ensures forall l :: HasLabel(labels, l) <==> HasLabel(base, l) || HasLabel(mapping.labels, l)
  {
    labels := LowerAll(base);
    for i := 0 to |mapping.labels|
      invariant labels == AddLabels(LowerAll(base), mapping.labels[..i])
    {
      var lower := Lower(mapping.labels[i]);
      assert mapping.labels[..i + 1][..i] == mapping.labels[..i];
      if !HasLabel(labels, lower) {
        labels := labels + [lower];
      }
    }
    assert mapping.labels[..|mapping.labels|] == mapping.labels;
    forall l ensures HasLabel(labels, l) <==> HasLabel(base, l) || HasLabel(mapping.labels, l) {
      AddLabelsHasBoth(LowerAll(base), mapping.labels, l);
      LowerAllHasSame(base, l);
    }
  }

  predicate Explicit(mappings: seq<Mapping>) {
    exists m :: m in mappings && m.pool.Some?
  }

  function MappingCapability(base: seq<string>, m: Mapping, explicit: bool): Capability {
    Capability(AddLabels(LowerAll(base), m.labels), m.id,
               if explicit then Some(if m.pool.Some? then m.pool.value else 0) else None, false)
  }

  function Capabilities(base: seq<string>, baseId: string, mappings: seq<Mapping>): (r: seq<Capability>)
    ensures |r| == |mappings| + 1
  {
    seq(|mappings|, i requires 0 <= i < |mappings| => MappingCapability(base, mappings[i], Explicit(mappings)))
    + [Capability(LowerAll(base), baseId, if Explicit(mappings) then Some(0) else None, true)]
  }
}
