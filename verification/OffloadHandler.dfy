/** The handler itself: its fields, and its methods proved against the calls of `OffloadModel`. */
module OffloadHandler {
  import opened Arith
  import opened Options
  import opened OffloadModel

  /** A tag is a slot, or the tensor itself when it is not to be offloaded. */
  datatype Tag = Direct(t: Tensor) | Tagged(slot: Slot)

  class Handler {
    const groups: nat
    const layers: nat
    var currentGroup: nat
    var tensorCount: nat
    var tagToState: map<Slot, State>
    var tagToBuf: map<Slot, Option<Tensor>>
    var offloadedGroupCount: nat
    var layerWindowMap: map<nat, int>
    var groupOffloadMapping: map<nat, Host>
    /** The order of the streams; nothing reads it. */
    ghost var streams: Streams

    ghost function View(): Tables
      reads this
    {
      Tables(currentGroup, tensorCount, tagToState, tagToBuf, offloadedGroupCount, groupOffloadMapping, streams)
    }

    ghost function Settings(): Config
      reads this
    {
      Config(groups, layers, layerWindowMap)
    }

    constructor (groups: nat, layers: nat)
      ensures this.groups == groups && this.layers == layers
      ensures View() == Tables(0, 0, map[], map[], 0, map[], Streams(0, map[], {}, {}, {}, {}))
      ensures forall k: nat :: k in layerWindowMap <==> k < groups
      ensures forall k: nat | k < groups :: layerWindowMap[k] == WindowEnd(groups, layers, k)
      ensures 1 <= groups < layers ==> GoodWindow(Settings())
    {
      this.groups, this.layers := groups, layers;
      currentGroup, tensorCount := 0, 0;
      tagToState, tagToBuf := map[], map[];
      offloadedGroupCount := 0;
      groupOffloadMapping := map[];
      streams := Streams(0, map[], {}, {}, {}, {});
      new;
      layerWindowMap := BuildWindow(groups, layers);
    }

    /** `needOffload` is the answer of the checker. */
    method TensorPush(t: Tensor, needOffload: bool) returns (out: Outcome, tag: Tag)
      modifies this
      ensures layerWindowMap == old(layerWindowMap)
      ensures !needOffload ==> out == Fine && tag == Direct(t) && View() == old(View())
      ensures needOffload ==>
                var s := Slot(old(currentGroup), old(tensorCount));
                && tag == Tagged(s)
                && (if s in old(tagToState) then out == AssertionError
                    else out == Fine && View() == Push(Settings(), old(View()), t))
    {
      out := Fine;
      if needOffload {
        var s := Slot(currentGroup, tensorCount);
        tag := Tagged(s);
        tensorCount := tensorCount + 1;
        if s in tagToState {
          out := AssertionError;
          return;
        }
        tagToState := tagToState[s := OnDevice(t)];
        if currentGroup < groups {
          tagToBuf := tagToBuf[s := Some(t)];
        }
        streams := streams.(outSees := Min(streams.outSees, currentGroup));
      } else {
        tag := Direct(t);
      }
    }

    method TensorPop(tag: Tag) returns (out: Outcome, r: Option<Tensor>)
      modifies this
      ensures layerWindowMap == old(layerWindowMap)
      ensures tag.Direct? ==> out == Fine && r == Some(tag.t) && View() == old(View())
      ensures tag.Tagged? ==>
                if tag.slot !in old(tagToState) || old(tagToState)[tag.slot].Offloaded? then
                  out == AssertionError && r == None
                else
                  out == Fine && r == Some(old(tagToState)[tag.slot].t) && View() == Pop(old(View()), tag.slot)
    {
      out, r := Fine, None;
      match tag
      case Direct(t) => r := Some(t);
      case Tagged(s) =>
        if s !in tagToState {
          return AssertionError, None;
        }
        var state := tagToState[s];
        tagToState := tagToState - {s};
        tagToBuf := tagToBuf - {s};
        if state.Offloaded? {
          return AssertionError, None;
        }
        r := Some(state.t);
    }

    /** The first loop of `bulk_offload_group`: each tensor of the group is replaced by its key, and
        one tensor of each key is kept to be copied. */
    method CollectGroup(g: nat) returns (out: Outcome, found: map<Key, Tensor>)
      modifies this`tagToState
      ensures out == (if AllOnDevice(old(tagToState), g) then Fine else AssertionError)
      ensures out == Fine ==> tagToState == Replaced(old(tagToState), g)
      ensures out == Fine ==> HostOf(old(tagToState), g, map k | k in found :: found[k].data)
    {
      found := map[];
      ghost var before := tagToState;
      ghost var source: map<Key, Slot> := map[];
      var rest := tagToState.Keys;
      while rest != {}
        invariant rest <= before.Keys && tagToState.Keys == before.Keys
        invariant forall s | s in rest :: tagToState[s] == before[s]
        invariant forall s | s in before.Keys - rest && s.group == g ::
                    before[s].OnDevice? && KeyOf(before[s].t) in found
        invariant forall s | s in before.Keys - rest :: tagToState[s] == Replaced(before, g)[s]
        invariant found.Keys == source.Keys
        invariant forall k | k in found ::
                    var s := source[k];
                    && s in before && s.group == g && before[s].OnDevice?
                    && KeyOf(before[s].t) == k && before[s].t == found[k]
      {
        var s :| s in rest;
        var state := tagToState[s];
        if s.group == g {
          if state.Offloaded? {
            return AssertionError, map[];
          }
          var key := KeyOf(state.t);
          if key !in found {
            found := found[key := state.t];
            source := source[key := s];
          }
          tagToState := tagToState[s := Offloaded(key, state.t.shape)];
        }
        rest := rest - {s};
      }
      assert tagToState == Replaced(before, g);
      out := Fine;
    }

    /** The second loop of `bulk_offload_group`: the copies. */
    method CopyOut(found: map<Key, Tensor>) returns (host: Host)
      ensures host == map k | k in found :: found[k].data
    {
      host := map[];
      var rest := found.Keys;
      while rest != {}
        invariant rest <= found.Keys && host.Keys == found.Keys - rest
        invariant forall k | k in host :: host[k] == found[k].data
      {
        var k :| k in rest;
        host := host[k := found[k].data];
        rest := rest - {k};
      }
    }

    method BulkOffloadGroup(g: nat) returns (out: Outcome)
      modifies this`tagToState, this`groupOffloadMapping, this`streams
      ensures out == (if AllOnDevice(old(tagToState), g) then Fine else AssertionError)
      ensures out == Fine ==> BulkOffloaded(old(View()), View(), g)
    {
      var found;
      out, found := CollectGroup(g);
      if out == Fine {
        var host := CopyOut(found);
        groupOffloadMapping := groupOffloadMapping[g := host];
        streams := streams.(
          outAfter := streams.outAfter[g := streams.outSees],
          computeSeesOut := streams.computeSeesOut - {g}, reloadSeesOut := streams.reloadSeesOut - {g},
          inIssued := streams.inIssued - {g});
      }
    }

    /** The loop that drops the device references of a group. */
    method DropReferences(g: nat)
      modifies this`tagToBuf
      ensures tagToBuf == map s | s in old(tagToBuf) :: if s.group == g then None else old(tagToBuf)[s]
    {
      ghost var before := tagToBuf;
      var rest := tagToBuf.Keys;
      while rest != {}
        invariant rest <= before.Keys && tagToBuf.Keys == before.Keys
        invariant forall s | s in before ::
                    tagToBuf[s] == if s !in rest && s.group == g then None else before[s]
      {
        var s :| s in rest;
        if s.group == g {
          tagToBuf := tagToBuf[s := None];
        }
        rest := rest - {s};
      }
    }

    method SynchronizeOnGroupCommitForward() returns (out: Outcome)
      modifies this
      ensures layerWindowMap == old(layerWindowMap)
      ensures out != Fine ==> CommitForward(Settings(), old(View()), View(), out)
      ensures out == Fine ==> CommitForward(Settings(), old(View()), NextGroup(View()), out)
    {
      hide HostOf, Replaced, AllOnDevice;
      if currentGroup == 0 {
        streams := streams.(outSees := currentGroup + 1);
        out := BulkOffloadGroup(0);
        if out != Fine {
          return;
        }
      }
      ghost var a := View();
      if offloadedGroupCount !in layerWindowMap {
        assert WindowForward(Settings(), a, View(), LookupError);
        return LookupError;
      }
      if layerWindowMap[offloadedGroupCount] == currentGroup {
        DropReferences(offloadedGroupCount);
        streams := streams.(outSees := currentGroup + 1,
                            computeSeesOut := streams.computeSeesOut + streams.outAfter.Keys);
        assert View() == Dropped(a, offloadedGroupCount);
        if offloadedGroupCount < groups - 1 {
          out := BulkOffloadGroup(offloadedGroupCount + 1);
          if out != Fine {
            assert WindowForward(Settings(), a, View(), out);
            return;
          }
        }
        ghost var b := View();
        offloadedGroupCount := offloadedGroupCount + 1;
        assert NextGroup(View()) == NextGroup(b.(offloaded := a.offloaded + 1));
      }
      out := Fine;
      assert WindowForward(Settings(), a, NextGroup(View()), out);
    }

    method OnGroupCommitForward() returns (out: Outcome)
      modifies this
      ensures layerWindowMap == old(layerWindowMap)
      ensures CommitForward(Settings(), old(View()), View(), out)
    {
      out := SynchronizeOnGroupCommitForward();
      if out == Fine {
        currentGroup := currentGroup + 1;
        tensorCount := 0;
      }
    }

    /** The second loop of `bulk_reload_group`; `copies` are back on the device. */
    method RecoverGroup(g: nat, copies: Host) returns (out: Outcome)
      modifies this`tagToState
      ensures out == (if CopiesPresent(old(tagToState), g, copies) then Fine else LookupError)
      ensures out == Fine ==> Reloaded(old(tagToState), tagToState, g, copies)
    {
      ghost var before := tagToState;
      var rest := tagToState.Keys;
      while rest != {}
        invariant rest <= before.Keys && tagToState.Keys == before.Keys
        invariant forall s | s in rest :: tagToState[s] == before[s]
        invariant forall s | s in before.Keys - rest ::
                    if s.group == g && before[s].Offloaded?
                    then before[s].key in copies && tagToState[s].OnDevice?
                         && Recovered(tagToState[s].t, before[s].key, before[s].shape, copies)
                    else tagToState[s] == before[s]
      {
        var s :| s in rest;
        var state := tagToState[s];
        if s.group == g && state.Offloaded? {
          if state.key !in copies {
            return LookupError;
          }
          // The copy starts a storage of its own, somewhere.
          var address: nat :| true;
          tagToState := tagToState[
            s := OnDevice(Tensor(address, 0, state.key.dtype, state.shape, copies[state.key]))];
        }
        rest := rest - {s};
      }
      out := Fine;
    }

    method BulkReloadGroup(g: nat) returns (out: Outcome)
      modifies this`tagToState, this`groupOffloadMapping, this`streams
      ensures out == if g >= groups then AssertionError
                     else if g !in old(groupOffloadMapping)
                             || !CopiesPresent(old(tagToState), g, old(groupOffloadMapping)[g]) then LookupError
                     else Fine
      ensures out == Fine ==> BulkReloaded(old(View()), View(), g)
    {
      if g >= groups {
        return AssertionError;
      }
      if g !in groupOffloadMapping {
        return LookupError;
      }
      var copies := groupOffloadMapping[g];
      groupOffloadMapping := groupOffloadMapping - {g};
      out := RecoverGroup(g, copies);
      streams := streams.(inIssued := streams.inIssued + {g}, computeSeesIn := streams.computeSeesIn - {g});
    }

    method OnGroupCommitBackward() returns (out: Outcome)
      modifies this
      ensures layerWindowMap == old(layerWindowMap)
      ensures CommitBackward(Settings(), old(View()), View(), out)
    {
      if currentGroup == 0 {
        return AssertionError;
      }
      currentGroup := currentGroup - 1;
      if offloadedGroupCount == 0 || offloadedGroupCount - 1 !in layerWindowMap {
        return LookupError;
      }
      ghost var a := View();
      ghost var last := a;
      if layerWindowMap[offloadedGroupCount - 1] == currentGroup {
        streams := streams.(
          reloadSeesOut := streams.reloadSeesOut + streams.computeSeesOut,
          computeSeesIn := streams.computeSeesIn + streams.inIssued);
        assert View() == ReloadWaits(a);
        out := BulkReloadGroup(offloadedGroupCount - 1);
        if out != Fine {
          return;
        }
        ghost var b := View();
        offloadedGroupCount := offloadedGroupCount - (if offloadedGroupCount > 1 then 1 else 0);
        last := View();
        assert last == b.(offloaded := if a.offloaded > 1 then a.offloaded - 1 else a.offloaded);
      }
      if currentGroup == 0 {
        streams := streams.(computeSeesIn := streams.computeSeesIn + streams.inIssued);
        offloadedGroupCount := 0;
      }
      assert View() == EndOfPass(last);
      out := Fine;
    }
  }
}
