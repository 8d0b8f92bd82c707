/** The replay buffer: what each of its calls does to the partitions. */
module ReplayBuffer {
  import opened Options

  datatype Status = Running | Finished | Failure | Success

  /** A dictionary of tags; a tag that is absent is `None`. */
  datatype Tags = Tags(steps: Option<nat>, status: Option<Status>)

  type Partition = map<string, Tags>

  const NO_TAGS := Tags(None, None)

  function Newer<T>(a: Option<T>, b: Option<T>): Option<T> {
    if b.Some? then b else a
  }

  /** `a.update(b)`. */
  function Updated(a: Tags, b: Tags): Tags {
    Tags(Newer(a.steps, b.steps), Newer(a.status, b.status))
  }

  function TagsOf(p: Partition, key: string): Tags {
    if key in p then p[key] else NO_TAGS
  }

  /** Every item is merged into the entry of its key. */
  function Added(p: Partition, items: Partition): Partition {
    map k | k in p.Keys + items.Keys :: Updated(TagsOf(p, k), TagsOf(items, k))
  }

  function PartitionOf(partitions: map<string, Partition>, id: string): Partition {
    if id in partitions then partitions[id] else map[]
  }

  // ------------------------------------------------------------------ one scan of `sample`

  datatype Scan = Wait | Got(keys: seq<string>) | MissingTag

  /** Both tags that the scan reads are there. */
  predicate Tagged(t: Tags) {
    t.steps.Some? && t.status.Some?
  }

  predicate AllTagged(p: Partition) {
    forall k | k in p :: Tagged(p[k])
  }

  predicate IsOf(t: Tags, steps: Option<nat>, status: Status) {
    t.steps.Some? && t.steps == steps && t.status == Some(status)
  }

  /** The keys are exactly the successes of these steps, each once. */
  ghost predicate Collected(p: Partition, steps: Option<nat>, keys: seq<string>) {
    && (forall i, j | 0 <= i < j < |keys| :: keys[i] != keys[j])
    && forall k :: k in keys <==> k in p && IsOf(p[k], steps, Success)
  }

  /** What one scan may answer; the order of the entries is left open. */
  ghost predicate Scanned(p: Partition, steps: Option<nat>, out: Scan) {
    match out
    case Got(keys) =>
      && Collected(p, steps, keys)
      && forall k | k in p :: p[k].steps.Some? && !IsOf(p[k], steps, Running)
    case Wait => exists k :: k in p && IsOf(p[k], steps, Running)
    case MissingTag => !AllTagged(p)
  }

  /** Where every entry has its tags, a scan waits exactly as long as a prompt of the step runs. */
  lemma {:induction false} ScanWaitsForRunning(p: Partition, steps: Option<nat>, out: Scan)
    requires AllTagged(p) && Scanned(p, steps, out)
    ensures out != MissingTag
    ensures out == Wait <==> exists k :: k in p && IsOf(p[k], steps, Running)
  {
  }

  lemma {:induction false} EmptyOrMember(s: seq<string>)
    ensures s == [] || s[0] in s
  {
  }

  /** Called with a batch size instead of steps, `sample` answers at once with nothing. */
  lemma {:induction false} BatchSizeGivesNothing(p: Partition, out: Scan)
    requires AllTagged(p) && Scanned(p, None, out)
    ensures out == Got([])
  {
    EmptyOrMember(out.keys);
  }

  class Buffer {
    var partitions: map<string, Partition>

    constructor ()
      ensures partitions == map[]
    {
      partitions := map[];
    }

    method Add(id: string, items: Partition)
      modifies this
      ensures partitions == old(partitions)[id := Added(PartitionOf(old(partitions), id), items)]
    {
      var p := PartitionOf(partitions, id);
      ghost var before := p;
      var rest := items.Keys;
      while rest != {}
        invariant rest <= items.Keys && p.Keys == before.Keys + (items.Keys - rest)
        invariant forall k | k in p ::
                    p[k] == if k in rest then before[k] else Updated(TagsOf(before, k), TagsOf(items, k))
      {
        var k :| k in rest;
        if k !in p {
          p := p[k := NO_TAGS];
        }
        p := p[k := Updated(p[k], items[k])];
        rest := rest - {k};
      }
      assert p == Added(before, items);
      partitions := partitions[id := p];
    }

    method Remove(id: string, keys: seq<string>)
      modifies this
      ensures partitions == old(partitions)[id := PartitionOf(old(partitions), id) - (set k | k in keys)]
    {
      var p := PartitionOf(partitions, id);
      ghost var before := p;
      for i := 0 to |keys|
        invariant p == before - (set k | k in keys[..i])
      {
        assert keys[..i + 1] == keys[..i] + [keys[i]];
        if keys[i] in p {
          p := p - {keys[i]};
        }
      }
      assert keys[..|keys|] == keys;
      partitions := partitions[id := p];
    }

    /** The part of `sample` that runs under the lock; looking a partition up creates it. */
    method TrySample(id: string, steps: Option<nat>) returns (out: Scan)
      modifies this
      ensures partitions == old(partitions)[id := PartitionOf(old(partitions), id)]
      ensures Scanned(PartitionOf(old(partitions), id), steps, out)
    {
      var p := PartitionOf(partitions, id);
      partitions := partitions[id := p];
      var keys: seq<string> := [];
      var rest := p.Keys;
      while rest != {}
        invariant rest <= p.Keys
        invariant forall i, j | 0 <= i < j < |keys| :: keys[i] != keys[j]
        invariant forall k :: k in keys <==> k in p && k !in rest && IsOf(p[k], steps, Success)
        invariant forall k | k in p && k !in rest :: p[k].steps.Some? && !IsOf(p[k], steps, Running)
      {
        var k :| k in rest;
        var tag := p[k];
        if tag.steps.None? {
          return MissingTag;
        }
        if tag.steps == steps {
          if tag.status.None? {
            return MissingTag;
          }
          if tag.status.value.Running? {
            return Wait;
          } else if tag.status.value.Success? {
            keys := keys + [k];
          }
        }
        rest := rest - {k};
      }
      out := Got(keys);
    }
  }
}
