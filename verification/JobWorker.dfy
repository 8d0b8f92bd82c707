/** One worker by itself: the loops and file operations of the poller, and what they come to in the
    machine of all workers. */
module JobWorker {
  import opened Options
  import opened JobQueue

  /** The four directories. */
  datatype Files = Files(
    pending: map<string, Job>, running: map<string, Job>, done: map<string, Job>, failed: map<string, Job>)

  function FilesOf(s: World): Files {
    Files(s.pending, s.running, s.done, s.failed)
  }

  /** The first listed job that is still pending. */
  function FirstPending(f: Files, names: seq<string>): Option<string> {
    if names == [] then None
    else if names[0] in f.pending then Some(names[0])
    else FirstPending(f, names[1..])
  }

  function Moved(f: Files, name: string): Files
    requires name in f.pending
  {
    f.(pending := f.pending - {name}, running := f.running[name := f.pending[name]])
  }

  /** What the files look like after a job was handled: refused, or run to its end. */
  function Handled(f: Files, name: string, accepted: bool, end: End): Files
    requires name in f.running
  {
    var rest := f.(running := f.running - {name});
    if !accepted then rest.(failed := f.failed[name := Job(Failed, None, f.running[name].timedOut)])
    else
      var job := Job(StatusOf(end), Some(end.exit), end.timedOut);
      if StatusOf(end) == Done then rest.(done := f.done[name := job]) else rest.(failed := f.failed[name := job])
  }

  class Directories {
    var pending: map<string, Job>
    var running: map<string, Job>
    var done: map<string, Job>
    var failed: map<string, Job>

    ghost function View(): Files
      reads this
    {
      Files(pending, running, done, failed)
    }

    /** `claim_one_job`: the first of the listed jobs that is still there is moved. */
    method ClaimOneJob(names: seq<string>) returns (claimed: Option<string>)
      modifies this
      ensures claimed == FirstPending(old(View()), names)
      ensures claimed.Some? ==> claimed.value in old(pending)
      ensures View() == if claimed.Some? then Moved(old(View()), claimed.value) else old(View())
    {
      for i := 0 to |names|
        invariant View() == old(View())
        invariant FirstPending(View(), names) == FirstPending(View(), names[i..])
      {
        var name := names[i];
        if name in pending {
          running := running[name := pending[name]];
          pending := pending - {name};
          return Some(name);
        }
        assert names[i..][1..] == names[i + 1..];
      }
      claimed := None;
    }

    /** `atomic_write_json` on a claimed job. */
    method Write(name: string, job: Job)
      modifies this`running
      ensures running == old(running)[name := job]
    {
      running := running[name := job];
    }

    /** `fail_without_running`. */
    method FailWithoutRunning(name: string)
      requires name in running
      modifies this
      ensures View() == Handled(old(View()), name, false, End(0, false))
    {
      Write(name, running[name].(status := Failed, exit := None));
      failed := failed[name := running[name]];
      running := running - {name};
    }

    /** `run_job`; whether the job is valid and how its process ends are given. */
    method RunJob(name: string, valid: bool, end: End) returns (exit: Option<int>)
      requires name in running
      modifies this
      ensures exit == if valid then Some(end.exit) else None
      ensures View() == Handled(old(View()), name, valid, end)
    {
      if !valid {
        FailWithoutRunning(name);
        return None;
      }
      Write(name, running[name].(status := Running));
      var status := if end.timedOut || end.exit != 0 then Failed else Done;
      Write(name, running[name].(status := status, exit := Some(end.exit), timedOut := end.timedOut));
      if status == Done {
        done := done[name := running[name]];
      } else {
        failed := failed[name := running[name]];
      }
      running := running - {name};
      exit := Some(end.exit);
    }
  }

  /** The states that a list of steps goes through. */
  ghost predicate Takes(s: World, events: seq<Event>, t: World)
    decreases |events|
  {
    if events == [] then t == s else Enabled(s, events[0]) && Takes(After(s, events[0]), events[1..], t)
  }

  /** A worker that handles a job undisturbed takes these steps of the machine. */
  function JobSteps(w: nat, accepted: bool, end: End): seq<Event> {
    if accepted then [Validate(w, true), MarkRunning(w), Launch(w), Finish(w, end), WriteResult(w), MoveResult(w)]
    else [Validate(w, false), WriteRefusal(w), MoveRefused(w)]
  }

  lemma {:induction false} TakesFirst(s: World, e: Event, events: seq<Event>, t: World)
    requires Enabled(s, e) && Takes(After(s, e), events, t)
    ensures Takes(s, [e] + events, t)
  {
    assert ([e] + events)[1..] == events;
  }

  lemma {:induction false} TakesThree(s: World, a: Event, b: Event, c: Event, more: seq<Event>, t: World)
    requires Enabled(s, a)
    requires var s1 := After(s, a);
             Enabled(s1, b) && var s2 := After(s1, b); Enabled(s2, c) && Takes(After(s2, c), more, t)
    ensures Takes(s, [a, b, c] + more, t)
  {
    hide Enabled, After;
    var s1 := After(s, a);
    var s2 := After(s1, b);
    TakesFirst(s2, c, more, t);
    TakesFirst(s1, b, [c] + more, t);
    TakesFirst(s, a, [b] + ([c] + more), t);
    assert [a] + ([b] + ([c] + more)) == [a, b, c] + more;
  }

  /** They leave the files as the sequential code does, when the job is refused ... */
  lemma {:induction false} RefusalAgrees(s: World, w: nat, name: string, end: End) returns (t: World)
    requires w in s.workers && s.workers[w] == Claimed(name) && name in s.running
    ensures Takes(s, JobSteps(w, false, end), t)
    ensures FilesOf(t) == Handled(FilesOf(s), name, false, end) && t.started == s.started
  {
    var s2 := After(After(s, Validate(w, false)), WriteRefusal(w));
    t := After(s2, MoveRefused(w));
    assert s2.running - {name} == s.running - {name};
    TakesThree(s, Validate(w, false), WriteRefusal(w), MoveRefused(w), [], t);
    assert [Validate(w, false), WriteRefusal(w), MoveRefused(w)] + [] == JobSteps(w, false, end);
  }

  lemma {:induction false} StartAgrees(s: World, w: nat, name: string) returns (t: World)
    requires w in s.workers && s.workers[w] == Claimed(name) && name in s.running
    ensures Enabled(s, Validate(w, true))
    ensures var s1 := After(s, Validate(w, true));
            Enabled(s1, MarkRunning(w))
            && var s2 := After(s1, MarkRunning(w)); Enabled(s2, Launch(w)) && t == After(s2, Launch(w))
    ensures w in t.workers && t.workers[w] == Started(name) && t.started == s.started + multiset{name}
    ensures t.running == s.running[name := s.running[name].(status := Running)]
    ensures t.pending == s.pending && t.done == s.done && t.failed == s.failed
  {
    t := After(After(After(s, Validate(w, true)), MarkRunning(w)), Launch(w));
  }

  lemma {:induction false} EndAgrees(s: World, w: nat, name: string, end: End) returns (t: World)
    requires w in s.workers && s.workers[w] == Started(name) && name in s.running
    ensures Takes(s, [Finish(w, end), WriteResult(w), MoveResult(w)], t)
    ensures FilesOf(t) == Handled(FilesOf(s), name, true, end) && t.started == s.started
  {
    var s2 := After(After(s, Finish(w, end)), WriteResult(w));
    t := After(s2, MoveResult(w));
    assert s2.running - {name} == s.running - {name};
    TakesThree(s, Finish(w, end), WriteResult(w), MoveResult(w), [], t);
    assert [Finish(w, end), WriteResult(w), MoveResult(w)] + [] == [Finish(w, end), WriteResult(w), MoveResult(w)];
  }

  /** ... and when it is run to its end: then its process is started once. */
  lemma {:induction false} RunAgrees(s: World, w: nat, name: string, end: End) returns (t: World)
    requires w in s.workers && s.workers[w] == Claimed(name) && name in s.running
    ensures Takes(s, JobSteps(w, true, end), t)
    ensures FilesOf(t) == Handled(FilesOf(s), name, true, end) && t.started == s.started + multiset{name}
  {
    hide Enabled, After, Takes;
    var m := StartAgrees(s, w, name);
    t := EndAgrees(m, w, name, end);
    var rest := [Finish(w, end), WriteResult(w), MoveResult(w)];
    TakesThree(s, Validate(w, true), MarkRunning(w), Launch(w), rest, t);
    assert [Validate(w, true), MarkRunning(w), Launch(w)] + rest == JobSteps(w, true, end);
    assert m.running - {name} == s.running - {name};
  }

  /** Trying the listed jobs one by one claims the first that is still pending. */
  lemma {:induction false} ClaimAgrees(s: World, w: nat, names: seq<string>) returns (t: World, tries: seq<Event>)
    requires w in s.workers && s.workers[w] == Listing(names)
    ensures Takes(s, tries, t) && w in t.workers
    ensures var c := FirstPending(FilesOf(s), names);
            if c.Some? then
              && c.value in s.pending && FilesOf(t) == Moved(FilesOf(s), c.value)
              && t.workers[w] == Claimed(c.value)
            else FilesOf(t) == FilesOf(s) && t.workers[w] == Idle
    decreases |names|
  {
    var first := After(s, TryClaim(w));
    if names == [] || names[0] in s.pending {
      t, tries := first, [TryClaim(w)];
      TakesFirst(s, TryClaim(w), [], t);
      assert [TryClaim(w)] + [] == [TryClaim(w)];
    } else {
      var more;
      t, more := ClaimAgrees(first, w, names[1..]);
      tries := [TryClaim(w)] + more;
      TakesFirst(s, TryClaim(w), more, t);
    }
  }
}
