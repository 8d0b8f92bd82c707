/** The shared-directory job queue: any number of workers, each of which may crash between any two
    operations on the file system. */
module JobQueue {
  import opened Options

  datatype Status = Pending | Running | Done | Failed

  /** What a job file says about its job. */
  datatype Job = Job(status: Status, exit: Option<int>, timedOut: bool)

  datatype End = End(exit: int, timedOut: bool)

  /** Where a worker is between two operations: it has listed the pending jobs, it has a job in hand, or
      it has crashed. */
  datatype Phase =
    | Idle
    | Listing(names: seq<string>)
    | Claimed(name: string)
    | Refusing(name: string)
    | Refused(name: string)
    | Accepted(name: string)
    | Marked(name: string)
    | Started(name: string)
    | Ended(name: string, end: End)
    | Written(name: string, end: End)
    | Crashed

  /** The four directories and the workers; `started` counts the processes that were started for a job,
      `ends` records how they ended. */
  datatype World = World(
    pending: map<string, Job>, running: map<string, Job>, done: map<string, Job>, failed: map<string, Job>,
    workers: map<nat, Phase>, submitted: set<string>, started: multiset<string>, ends: map<string, End>)

  datatype Event =
    | Submit(name: string)
    | Hire(w: nat)
    | List(w: nat, names: seq<string>)
    | TryClaim(w: nat)
    | Validate(w: nat, ok: bool)
    | WriteRefusal(w: nat)
    | MoveRefused(w: nat)
    | MarkRunning(w: nat)
    | Launch(w: nat)
    | Finish(w: nat, end: End)
    | WriteResult(w: nat)
    | MoveResult(w: nat)
    | Crash(w: nat)

  /** The job a worker has in hand. */
  function InHand(p: Phase): Option<string> {
    match p
    case Idle | Listing(_) | Crashed => None
    case _ => Some(p.name)
  }

  function StatusOf(end: End): Status {
    if end.timedOut || end.exit != 0 then Failed else Done
  }

  predicate Enabled(s: World, e: Event) {
    match e
    case Submit(name) => name !in s.submitted
    case Hire(w) => w !in s.workers
    case List(w, names) => w in s.workers && s.workers[w].Idle?
    case TryClaim(w) => w in s.workers && s.workers[w].Listing?
    case Validate(w, ok) => w in s.workers && s.workers[w].Claimed? && s.workers[w].name in s.running
    case WriteRefusal(w) => w in s.workers && s.workers[w].Refusing? && s.workers[w].name in s.running
    case MoveRefused(w) => w in s.workers && s.workers[w].Refused? && s.workers[w].name in s.running
    case MarkRunning(w) => w in s.workers && s.workers[w].Accepted? && s.workers[w].name in s.running
    case Launch(w) => w in s.workers && s.workers[w].Marked?
    case Finish(w, end) => w in s.workers && s.workers[w].Started?
    case WriteResult(w) => w in s.workers && s.workers[w].Ended? && s.workers[w].name in s.running
    case MoveResult(w) => w in s.workers && s.workers[w].Written? && s.workers[w].name in s.running
    case Crash(w) => w in s.workers
  }

  /** `os.replace` moves the file if it is still there; a worker that comes too late tries the next. */
  function Claim(s: World, w: nat, names: seq<string>): World {
    if names == [] then s.(workers := s.workers[w := Idle])
    else if names[0] in s.pending then
      var n := names[0];
      s.(pending := s.pending - {n}, running := s.running[n := s.pending[n]], workers := s.workers[w := Claimed(n)])
    else s.(workers := s.workers[w := Listing(names[1..])])
  }

  function After(s: World, e: Event): World
    requires Enabled(s, e)
  {
    match e
    case Submit(name) =>
      s.(pending := s.pending[name := Job(Pending, None, false)], submitted := s.submitted + {name})
    case Hire(w) => s.(workers := s.workers[w := Idle])
    case List(w, names) => s.(workers := s.workers[w := Listing(names)])
    case TryClaim(w) => Claim(s, w, s.workers[w].names)
    case Validate(w, ok) =>
      var n := s.workers[w].name;
      s.(workers := s.workers[w := if ok then Accepted(n) else Refusing(n)])
    case WriteRefusal(w) =>
      var n := s.workers[w].name;
      s.(running := s.running[n := Job(Failed, None, s.running[n].timedOut)], workers := s.workers[w := Refused(n)])
    case MoveRefused(w) =>
      var n := s.workers[w].name;
      s.(running := s.running - {n}, failed := s.failed[n := s.running[n]], workers := s.workers[w := Idle])
    case MarkRunning(w) =>
      var n := s.workers[w].name;
      s.(running := s.running[n := s.running[n].(status := Running)], workers := s.workers[w := Marked(n)])
    case Launch(w) =>
      var n := s.workers[w].name;
      s.(started := s.started + multiset{n}, workers := s.workers[w := Started(n)])
    case Finish(w, end) =>
      var n := s.workers[w].name;
      s.(ends := s.ends[n := end], workers := s.workers[w := Ended(n, end)])
    case WriteResult(w) =>
      var n, end := s.workers[w].name, s.workers[w].end;
      s.(running := s.running[n := Job(StatusOf(end), Some(end.exit), end.timedOut)],
         workers := s.workers[w := Written(n, end)])
    case MoveResult(w) =>
      var n, end := s.workers[w].name, s.workers[w].end;
      var t := s.(running := s.running - {n}, workers := s.workers[w := Idle]);
      if StatusOf(end) == Done then t.(done := s.done[n := s.running[n]]) else t.(failed := s.failed[n := s.running[n]])
    case Crash(w) => s.(workers := s.workers[w := Crashed])
  }

  predicate Initial(s: World) {
    && s.pending == map[] && s.running == map[] && s.done == map[] && s.failed == map[]
    && s.workers == map[] && s.submitted == {} && s.started == multiset{} && s.ends == map[]
  }

  // ------------------------------------------------------------------ invariant

  /** Every submitted job is in exactly one directory. */
  predicate OnePlace(s: World) {
    && s.pending.Keys + s.running.Keys + s.done.Keys + s.failed.Keys == s.submitted
    && s.pending.Keys !! s.running.Keys !! s.done.Keys !! s.failed.Keys
  }

  /** A job in hand is in the running directory, and no two workers have the same job. */
  ghost predicate HandsInv(s: World) {
    && (forall w | w in s.workers && InHand(s.workers[w]).Some? :: InHand(s.workers[w]).value in s.running)
    && forall v, w | v in s.workers && w in s.workers && v != w && InHand(s.workers[v]).Some? ::
         InHand(s.workers[v]) != InHand(s.workers[w])
  }

  /** How often the job in hand was started, and what its file says. */
  predicate HandInv(s: World, p: Phase) {
    match p
    case Idle | Listing(_) | Crashed => true
    case Claimed(n) => s.started[n] == 0
    case Refusing(n) => s.started[n] == 0
    case Refused(n) => s.started[n] == 0 && n in s.running && s.running[n].status == Failed && s.running[n].exit == None
    case Accepted(n) => s.started[n] == 0
    case Marked(n) => s.started[n] == 0 && n in s.running && s.running[n].status == Running
    case Started(n) => s.started[n] == 1 && n in s.running && s.running[n].status == Running
    case Ended(n, end) => s.started[n] == 1 && n in s.ends && s.ends[n] == end
    case Written(n, end) =>
      && s.started[n] == 1 && n in s.ends && s.ends[n] == end
      && n in s.running && s.running[n] == Job(StatusOf(end), Some(end.exit), end.timedOut)
  }

  ghost predicate HandledInv(s: World) {
    forall w | w in s.workers :: HandInv(s, s.workers[w])
  }

  ghost predicate StartsInv(s: World) {
    && (forall n :: s.started[n] <= 1)
    && (forall n | n in s.started :: n in s.submitted && n !in s.pending)
  }

  /** A job is done exactly if its one process ended well. */
  ghost predicate DoneInv(s: World) {
    forall n | n in s.done ::
      && s.started[n] == 1 && n in s.ends && s.ends[n].exit == 0 && !s.ends[n].timedOut
      && s.done[n] == Job(Done, Some(0), false)
  }

  /** A job has failed if it was never started, or its one process ended badly. */
  ghost predicate FailedInv(s: World) {
    forall n | n in s.failed ::
      && s.failed[n].status == Failed
      && if s.failed[n].exit == None then s.started[n] == 0
         else
           && s.started[n] == 1 && n in s.ends && StatusOf(s.ends[n]) == Failed
           && s.failed[n] == Job(Failed, Some(s.ends[n].exit), s.ends[n].timedOut)
  }

  ghost predicate Inv(s: World) {
    OnePlace(s) && HandsInv(s) && HandledInv(s) && StartsInv(s) && DoneInv(s) && FailedInv(s)
  }

  lemma {:induction false} InitialInv(s: World)
    requires Initial(s)
    ensures Inv(s)
  {
  }

  /** A step that changes only the phase of one worker, and not the job in its hand. */
  lemma {:induction false} PhaseKeeps(s: World, w: nat, p: Phase)
    requires Inv(s) && HandInv(s, p)
    requires InHand(p) == None || (w in s.workers && InHand(s.workers[w]) == InHand(p))
    ensures Inv(s.(workers := s.workers[w := p]))
  {
    hide StatusOf, OnePlace, StartsInv, DoneInv, FailedInv;
    var t := s.(workers := s.workers[w := p]);
    assert OnePlace(t) && StartsInv(t) && DoneInv(t) && FailedInv(t) by { SameFiles(s, t); }
    forall v | v in t.workers ensures HandInv(t, t.workers[v]) {
      SameHand(s, t, t.workers[v]);
      assert v != w ==> HandInv(s, s.workers[v]);
    }
  }

  lemma {:induction false} SameFiles(s: World, t: World)
    requires OnePlace(s) && StartsInv(s) && DoneInv(s) && FailedInv(s)
    requires t.(workers := s.workers) == s
    ensures OnePlace(t) && StartsInv(t) && DoneInv(t) && FailedInv(t)
  {
  }

  lemma {:induction false} SameResults(s: World, t: World)
    requires DoneInv(s) && FailedInv(s)
    requires t.done == s.done && t.failed == s.failed && t.started == s.started && t.ends == s.ends
    ensures DoneInv(t) && FailedInv(t)
  {
  }

  lemma {:induction false} SameHand(s: World, t: World, p: Phase)
    requires t.(workers := s.workers) == s
    ensures HandInv(s, p) <==> HandInv(t, p)
  {
  }

  lemma {:induction false} SubmitKeeps(s: World, name: string)
    requires Inv(s) && Enabled(s, Submit(name))
    ensures Inv(After(s, Submit(name)))
  {
    hide OnePlace, DoneInv, FailedInv, HandsInv, HandledInv;
    var t := After(s, Submit(name));
    assert name !in s.started;
    SameResults(s, t);
    PlaceOfSubmitted(s, name, t);
    SameHands(s, t);
  }

  lemma {:induction false} PlaceOfSubmitted(s: World, n: string, t: World)
    requires OnePlace(s) && n !in s.submitted
    requires t.pending.Keys == s.pending.Keys + {n} && t.submitted == s.submitted + {n}
    requires t.running == s.running && t.done == s.done && t.failed == s.failed
    ensures OnePlace(t)
  {
  }

  lemma {:induction false} SameHands(s: World, t: World)
    requires HandsInv(s) && HandledInv(s)
    requires t.running == s.running && t.workers == s.workers && t.started == s.started && t.ends == s.ends
    ensures HandsInv(t) && HandledInv(t)
  {
    hide StatusOf;
    forall v | v in t.workers ensures HandInv(t, t.workers[v]) {
      assert HandInv(s, s.workers[v]);
    }
  }

  lemma {:induction false} ClaimKeeps(s: World, w: nat)
    requires Inv(s) && Enabled(s, TryClaim(w))
    ensures Inv(After(s, TryClaim(w)))
  {
    hide StatusOf;
    var names := s.workers[w].names;
    if names == [] {
      PhaseKeeps(s, w, Idle);
    } else if names[0] !in s.pending {
      PhaseKeeps(s, w, Listing(names[1..]));
    } else {
      MoveToRunning(s, w, names[0]);
    }
  }

  lemma {:induction false} PlaceOfClaimed(s: World, n: string, t: World)
    requires OnePlace(s) && n in s.pending
    requires t.pending.Keys == s.pending.Keys - {n} && t.running.Keys == s.running.Keys + {n}
    requires t.done == s.done && t.failed == s.failed && t.submitted == s.submitted
    ensures OnePlace(t)
  {
  }

  lemma {:induction false} PlaceOfMoved(s: World, n: string, t: World)
    requires OnePlace(s) && n in s.running && t.pending == s.pending && t.submitted == s.submitted
    requires t.running.Keys == s.running.Keys - {n}
    requires (t.done.Keys == s.done.Keys + {n} && t.failed == s.failed)
             || (t.failed.Keys == s.failed.Keys + {n} && t.done == s.done)
    ensures OnePlace(t)
  {
  }

  /** Claiming the first of the listed jobs moves it from one directory to the other, as it is, and into the
      hand of this worker. */
  lemma {:induction false} MoveToRunning(s: World, w: nat, n: string)
    requires Inv(s) && w in s.workers && s.workers[w].Listing? && n in s.pending
    requires s.workers[w].names != [] && s.workers[w].names[0] == n
    ensures var t := After(s, TryClaim(w));
            && Inv(t)
            && t.pending == s.pending - {n} && t.running == s.running[n := s.pending[n]]
            && t.workers == s.workers[w := Claimed(n)]
            && t.done == s.done && t.failed == s.failed && t.started == s.started && t.ends == s.ends
  {
    hide StatusOf, HandsInv, HandledInv, DoneInv, FailedInv;
    var t := After(s, TryClaim(w));
    assert t.pending.Keys == s.pending.Keys - {n};
    assert t.running.Keys == s.running.Keys + {n};
    PlaceOfClaimed(s, n, t);
    assert n !in s.running && n !in s.started;
    SameResults(s, t);
    ClaimKeepsHands(s, w, n, t);
  }

  lemma {:induction false} ClaimKeepsHands(s: World, w: nat, n: string, t: World)
    requires HandsInv(s) && HandledInv(s) && w in s.workers && s.workers[w].Listing?
    requires n in s.pending && n !in s.running && n !in s.started
    requires t.running == s.running[n := s.pending[n]] && t.workers == s.workers[w := Claimed(n)]
    requires t.started == s.started && t.ends == s.ends
    ensures HandsInv(t) && HandledInv(t)
  {
    hide StatusOf;
    assert t.running.Keys == s.running.Keys + {n};
    forall v | v in t.workers ensures HandInv(t, t.workers[v]) {
      assert v != w ==> HandInv(s, s.workers[v]);
    }
  }

  /** A worker rewrites the file of the job in its hand. */
  lemma {:induction false} WriteKeeps(s: World, w: nat, n: string, job: Job)
    requires Inv(s) && w in s.workers && InHand(s.workers[w]) == Some(n)
    requires s.workers[w].Refusing? || s.workers[w].Accepted? || s.workers[w].Ended?
    ensures Inv(s.(running := s.running[n := job]))
  {
    hide StatusOf;
    var t := s.(running := s.running[n := job]);
    assert t.running.Keys == s.running.Keys;
    forall v | v in t.workers ensures HandInv(t, t.workers[v]) {
      assert HandInv(s, s.workers[v]);
    }
  }

  /** A worker moves the file of the job in its hand to where it stays. */
  predicate FiledAway(s: World, w: nat, n: string, t: World) {
    && w in s.workers && InHand(s.workers[w]) == Some(n) && n in s.running
    && t == s.(running := s.running - {n}, workers := s.workers[w := Idle], done := t.done, failed := t.failed)
    && ((t.done == s.done[n := s.running[n]] && t.failed == s.failed)
        || (t.failed == s.failed[n := s.running[n]] && t.done == s.done))
  }

  lemma {:induction false} MoveKeepsPlace(s: World, w: nat, n: string, t: World)
    requires OnePlace(s) && StartsInv(s) && FiledAway(s, w, n, t)
    ensures OnePlace(t) && StartsInv(t)
  {
    assert t.running.Keys == s.running.Keys - {n};
    PlaceOfMoved(s, n, t);
    hide OnePlace;
  }

  lemma {:induction false} MoveKeepsHands(s: World, w: nat, n: string, t: World)
    requires HandsInv(s) && HandledInv(s) && FiledAway(s, w, n, t)
    ensures HandsInv(t) && HandledInv(t)
  {
    hide StatusOf;
    assert t.running.Keys == s.running.Keys - {n};
    forall v | v in t.workers ensures HandInv(t, t.workers[v]) {
      assert v != w ==> HandInv(s, s.workers[v]);
    }
  }

  lemma {:induction false} RefusedResults(s: World, w: nat, t: World)
    requires Enabled(s, MoveRefused(w)) && t == After(s, MoveRefused(w))
    requires DoneInv(s) && FailedInv(s) && HandInv(s, s.workers[w])
    ensures FiledAway(s, w, s.workers[w].name, t) && DoneInv(t) && FailedInv(t)
  {
  }

  lemma {:induction false} MoveRefusedKeeps(s: World, w: nat)
    requires Inv(s) && Enabled(s, MoveRefused(w))
    ensures Inv(After(s, MoveRefused(w)))
  {
    assert HandInv(s, s.workers[w]);
    hide OnePlace, HandsInv, StartsInv, HandledInv, DoneInv, FailedInv, FiledAway;
    var t := After(s, MoveRefused(w));
    RefusedResults(s, w, t);
    MoveKeepsPlace(s, w, s.workers[w].name, t);
    MoveKeepsHands(s, w, s.workers[w].name, t);
  }

  lemma {:induction false} FiledResults(s: World, w: nat, t: World)
    requires Enabled(s, MoveResult(w)) && t == After(s, MoveResult(w))
    requires DoneInv(s) && FailedInv(s) && HandInv(s, s.workers[w])
    ensures FiledAway(s, w, s.workers[w].name, t) && DoneInv(t) && FailedInv(t)
  {
    hide StatusOf, DoneInv, FailedInv;
    DoneOrFailed(s.workers[w].end);
    var n, end := s.workers[w].name, s.workers[w].end;
    assert s.running[n] == Job(StatusOf(end), Some(end.exit), end.timedOut);
    if StatusOf(end) == Done {
      FiledDone(s, n, t);
    } else {
      FiledFailed(s, n, t);
    }
  }

  lemma {:induction false} FiledDone(s: World, n: string, t: World)
    requires DoneInv(s) && FailedInv(s) && s.started[n] == 1 && n in s.ends && s.ends[n] == End(0, false)
    requires t.done == s.done[n := Job(Done, Some(0), false)]
    requires t.failed == s.failed && t.started == s.started && t.ends == s.ends
    ensures DoneInv(t) && FailedInv(t)
  {
    hide StatusOf;
  }

  lemma {:induction false} FiledFailed(s: World, n: string, t: World)
    requires DoneInv(s) && FailedInv(s) && s.started[n] == 1 && n in s.ends && StatusOf(s.ends[n]) == Failed
    requires t.failed == s.failed[n := Job(Failed, Some(s.ends[n].exit), s.ends[n].timedOut)]
    requires t.done == s.done && t.started == s.started && t.ends == s.ends
    ensures DoneInv(t) && FailedInv(t)
  {
    hide StatusOf;
  }

  lemma {:induction false} DoneOrFailed(end: End)
    ensures StatusOf(end) == if end == End(0, false) then Done else Failed
  {
  }

  lemma {:induction false} MoveResultKeeps(s: World, w: nat)
    requires Inv(s) && Enabled(s, MoveResult(w))
    ensures Inv(After(s, MoveResult(w)))
  {
    assert HandInv(s, s.workers[w]);
    hide OnePlace, HandsInv, StartsInv, HandledInv, DoneInv, FailedInv, FiledAway;
    var t := After(s, MoveResult(w));
    FiledResults(s, w, t);
    MoveKeepsPlace(s, w, s.workers[w].name, t);
    MoveKeepsHands(s, w, s.workers[w].name, t);
  }

  lemma {:induction false} LaunchKeepsHands(s: World, w: nat)
    requires HandsInv(s) && HandledInv(s) && Enabled(s, Launch(w))
    ensures HandsInv(After(s, Launch(w))) && HandledInv(After(s, Launch(w)))
  {
    hide StatusOf;
    var t := After(s, Launch(w));
    assert HandInv(s, s.workers[w]);
    forall v | v in t.workers ensures HandInv(t, t.workers[v]) {
      assert v != w ==> HandInv(s, s.workers[v]);
    }
  }

  /** The process of a job in hand is its first. */
  lemma {:induction false} LaunchKeepsResults(s: World, w: nat)
    requires OnePlace(s) && StartsInv(s) && DoneInv(s) && FailedInv(s) && Enabled(s, Launch(w))
    requires HandInv(s, s.workers[w]) && InHand(s.workers[w]).value in s.running
    ensures StartsInv(After(s, Launch(w))) && DoneInv(After(s, Launch(w))) && FailedInv(After(s, Launch(w)))
  {
    hide StatusOf;
    var n := s.workers[w].name;
    assert n !in s.done && n !in s.failed && n !in s.pending && n in s.submitted;
    hide OnePlace;
  }

  lemma {:induction false} LaunchKeeps(s: World, w: nat)
    requires Inv(s) && Enabled(s, Launch(w))
    ensures Inv(After(s, Launch(w)))
  {
    hide StatusOf, StartsInv, DoneInv, FailedInv;
    assert HandInv(s, s.workers[w]);
    LaunchKeepsHands(s, w);
    LaunchKeepsResults(s, w);
  }

  /** How a process ended is recorded for its job only. */
  lemma {:induction false} EndKeeps(s: World, w: nat, n: string, end: End)
    requires Inv(s) && w in s.workers && s.workers[w] == Started(n)
    ensures Inv(s.(ends := s.ends[n := end]))
  {
    hide StatusOf;
    var t := s.(ends := s.ends[n := end]);
    assert n !in s.done && n !in s.failed;
    forall v | v in t.workers ensures HandInv(t, t.workers[v]) {
      assert HandInv(s, s.workers[v]);
    }
  }

  lemma {:induction false} FinishKeeps(s: World, w: nat, end: End)
    requires Inv(s) && Enabled(s, Finish(w, end))
    ensures Inv(After(s, Finish(w, end)))
  {
    assert HandInv(s, s.workers[w]);
    hide Inv;
    var n := s.workers[w].name;
    EndKeeps(s, w, n, end);
    PhaseKeeps(s.(ends := s.ends[n := end]), w, Ended(n, end));
  }

  lemma {:induction false} StepKeeps(s: World, e: Event)
    requires Inv(s) && Enabled(s, e)
    ensures Inv(After(s, e))
  {
    hide Inv;
    match e
    case Submit(name) => SubmitKeeps(s, name);
    case Hire(w) => PhaseKeeps(s, w, Idle);
    case List(w, names) => PhaseKeeps(s, w, Listing(names));
    case TryClaim(w) => ClaimKeeps(s, w);
    case Validate(w, ok) => ValidateKeeps(s, w, ok);
    case WriteRefusal(w) => WriteRefusalKeeps(s, w);
    case MoveRefused(w) => MoveRefusedKeeps(s, w);
    case MarkRunning(w) => MarkKeeps(s, w);
    case Launch(w) => LaunchKeeps(s, w);
    case Finish(w, end) => FinishKeeps(s, w, end);
    case WriteResult(w) => WriteResultKeeps(s, w);
    case MoveResult(w) => MoveResultKeeps(s, w);
    case Crash(w) => PhaseKeeps(s, w, Crashed);
  }

  lemma {:induction false} ValidateKeeps(s: World, w: nat, ok: bool)
    requires Inv(s) && Enabled(s, Validate(w, ok))
    ensures Inv(After(s, Validate(w, ok)))
  {
    assert HandInv(s, s.workers[w]);
    var n := s.workers[w].name;
    PhaseKeeps(s, w, if ok then Accepted(n) else Refusing(n));
  }

  lemma {:induction false} WriteRefusalKeeps(s: World, w: nat)
    requires Inv(s) && Enabled(s, WriteRefusal(w))
    ensures Inv(After(s, WriteRefusal(w)))
  {
    assert HandInv(s, s.workers[w]);
    var n := s.workers[w].name;
    var job := Job(Failed, None, s.running[n].timedOut);
    WriteKeeps(s, w, n, job);
    PhaseKeeps(s.(running := s.running[n := job]), w, Refused(n));
  }

  lemma {:induction false} MarkKeeps(s: World, w: nat)
    requires Inv(s) && Enabled(s, MarkRunning(w))
    ensures Inv(After(s, MarkRunning(w)))
  {
    assert HandInv(s, s.workers[w]);
    var n := s.workers[w].name;
    var job := s.running[n].(status := Running);
    WriteKeeps(s, w, n, job);
    PhaseKeeps(s.(running := s.running[n := job]), w, Marked(n));
  }

  lemma {:induction false} WriteResultKeeps(s: World, w: nat)
    requires Inv(s) && Enabled(s, WriteResult(w))
    ensures Inv(After(s, WriteResult(w)))
  {
    assert HandInv(s, s.workers[w]);
    var n, end := s.workers[w].name, s.workers[w].end;
    var job := Job(StatusOf(end), Some(end.exit), end.timedOut);
    WriteKeeps(s, w, n, job);
    PhaseKeeps(s.(running := s.running[n := job]), w, Written(n, end));
  }

  // ------------------------------------------------------------------ runs

  ghost predicate IsRun(states: seq<World>, events: seq<Event>) {
    && |states| == |events| + 1 && Initial(states[0])
    && forall i {:trigger events[i]} | 0 <= i < |events| ::
         Enabled(states[i], events[i]) && states[i + 1] == After(states[i], events[i])
  }

  lemma {:induction false} RunKeeps(states: seq<World>, events: seq<Event>, m: nat)
    requires IsRun(states, events) && m <= |events|
    ensures Inv(states[m])
  {
    hide Inv, Enabled, After, Initial;
    if m == 0 {
      InitialInv(states[0]);
    } else {
      RunKeeps(states, events, m - 1);
      var e := events[m - 1];
      StepKeeps(states[m - 1], e);
    }
  }

  /** In how many of the four directories a job is. */
  function Places(s: World, n: string): nat {
    (if n in s.pending then 1 else 0) + (if n in s.running then 1 else 0)
    + (if n in s.done then 1 else 0) + (if n in s.failed then 1 else 0)
  }

  /** In every run, with any number of workers and crashes anywhere: each submitted job is in exactly one
      directory, is started at most once, and is done only if its process exited with 0 in time; a file
      among the failed that names an exit code is of a process that ended otherwise; and while a worker
      waits for a process, the job's file says that it is running. */
  lemma {:induction false} EveryRunIsSafe(states: seq<World>, events: seq<Event>, m: nat, n: string)
    requires IsRun(states, events) && m <= |events|
    ensures var s := states[m];
            && Places(s, n) == (if n in s.submitted then 1 else 0)
            && s.started[n] <= 1
            && (n in s.pending ==> s.started[n] == 0)
            && (n in s.done ==> s.started[n] == 1 && n in s.ends && s.ends[n] == End(0, false))
            && (n in s.failed ==>
                  if s.failed[n].exit == None then s.started[n] == 0
                  else n in s.ends && s.ends[n].exit == s.failed[n].exit.value
                       && (s.ends[n].timedOut || s.ends[n].exit != 0))
            && (forall w | w in s.workers && s.workers[w] == Started(n) ::
                  n in s.running && s.running[n].status == Running && s.started[n] == 1)
  {
    RunKeeps(states, events, m);
    forall w | w in states[m].workers && states[m].workers[w] == Started(n)
      ensures n in states[m].running && states[m].running[n].status == Running && states[m].started[n] == 1
    {
      assert HandInv(states[m], states[m].workers[w]);
    }
  }

  /** A job that left the pending directory never comes back to it. */
  lemma {:induction false} NeverPendingAgain(states: seq<World>, events: seq<Event>, m: nat, m': nat, n: string)
    requires IsRun(states, events) && m <= m' <= |events|
    requires n in states[m].submitted && n !in states[m].pending
    ensures n in states[m'].submitted && n !in states[m'].pending
  {
    if m < m' {
      NeverPendingAgain(states, events, m, m' - 1, n);
      var e := events[m' - 1];
      StaysOut(states[m' - 1], e, n);
    }
  }

  lemma {:induction false} StaysOut(s: World, e: Event, n: string)
    requires Enabled(s, e) && n in s.submitted && n !in s.pending
    ensures n in After(s, e).submitted && n !in After(s, e).pending
  {
    hide StatusOf;
    match e
    case TryClaim(w) =>
    case MoveResult(w) =>
    case _ =>
  }

  /** A worker tries up to `m` of the jobs it listed, while nobody else moves. */
  function Tried(s: World, w: nat, m: nat): World
    requires w in s.workers
    decreases m
  {
    if m == 0 || !s.workers[w].Listing? then s else Tried(After(s, TryClaim(w)), w, m - 1)
  }

  lemma {:induction false} TriesClaim(s: World, w: nat, names: seq<string>, k: nat)
    requires Inv(s) && w in s.workers && s.workers[w] == Listing(names)
    requires k < |names| && names[k] in s.pending && forall i | 0 <= i < k :: names[i] !in s.pending
    ensures var t, n := Tried(s, w, k + 1), names[k];
            && Inv(t) && t.workers == s.workers[w := Claimed(n)]
            && t.pending == s.pending - {n} && t.running == s.running[n := s.pending[n]]
            && t.started == s.started && t.done == s.done && t.failed == s.failed
    decreases k
  {
    hide Inv;
    StepKeeps(s, TryClaim(w));
    var t := After(s, TryClaim(w));
    if k > 0 {
      TriesClaim(t, w, names[1..], k - 1);
    }
  }

  /** A worker that lists the pending jobs while nobody else moves ends up with the first of them that is
      still pending, and is the only one that has it. */
  lemma {:induction false} ListThenClaim(s: World, w: nat, names: seq<string>, k: nat)
    requires Inv(s) && Enabled(s, List(w, names))
    requires k < |names| && names[k] in s.pending && forall i | 0 <= i < k :: names[i] !in s.pending
    ensures var t, n := Tried(After(s, List(w, names)), w, k + 1), names[k];
            && Inv(t) && t.workers == s.workers[w := Claimed(n)]
            && t.pending == s.pending - {n} && t.running == s.running[n := s.pending[n]] && t.started[n] == 0
            && forall v | v in t.workers && v != w :: InHand(t.workers[v]) != Some(n)
  {
    hide OnePlace, StartsInv, DoneInv, FailedInv, Tried;
    StepKeeps(s, List(w, names));
    TriesClaim(After(s, List(w, names)), w, names, k);
    var t := Tried(After(s, List(w, names)), w, k + 1);
    assert HandInv(t, t.workers[w]);
    assert InHand(t.workers[w]) == Some(names[k]);
  }
}
