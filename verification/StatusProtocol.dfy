/** The locked read-merge-write of user_status.json on the thread-lock branch, as interleaved steps
    of any number of updaters.

    An event names an updater; the updater does its next atomic action.  A blocked or finished
    updater stutters, so every sequence of events is an interleaving.  The temporary file is one
    shared path, written in two actions (truncate, then dump), and only the rename is atomic. */
module StatusProtocol {
  import opened Prelude
  import opened Json
  import opened StatusDocument

  /** What is on disk under a path: a document, or the beginning of one. */
  datatype Content = Partial | Whole(doc: Value)

  const Empty: Value := Obj([])

  /** An updater.  `checksFile` says whether it first creates a missing file, outside the lock;
      the user/tag synchronisation does not.  `mutate` is `None` where the mutator raises. */
  datatype Job = Job(checksFile: bool, mutate: Value -> Option<Value>)

  datatype Phase =
    | Idle
    | InitOpen | InitDump | InitRename       // the file was missing: write {} without the lock
    | Waiting                                // wants the lock
    | Locked
    | Loaded(data: Value)
    | Computed(next: Value)
    | TmpOpen(next: Value)
    | TmpDone(next: Value)
    | Renamed
    | Finished
    | Raised

  datatype State = State(
    file: Option<Content>,
    tmp: Option<Content>,
    lock: Option<nat>,
    phases: map<nat, Phase>,
    grants: seq<nat>,      // updaters in the order in which they obtained the lock
    committed: set<nat>)   // updaters whose rename happened under the lock

  /** `Abort` lets serialisation fail at any point of the critical section before the rename. */
  datatype Event = Go(p: nat) | Abort(p: nat)

  function PhaseOf(s: State, p: nat): Phase {
    if p in s.phases then s.phases[p] else Idle
  }

  function Move(s: State, p: nat, f: Phase): State {
    s.(phases := s.phases[p := f])
  }

  predicate Critical(f: Phase) {
    f.Locked? || f.Loaded? || f.Computed? || f.TmpOpen? || f.TmpDone? || f.Renamed?
  }

  /** Loading never raises: a missing or unreadable file reads as the empty document. */
  function Load(file: Option<Content>): Value {
    match file case Some(Whole(d)) => d case _ => Empty
  }

  function Rename(s: State): State
    requires s.tmp.Some?
  {
    s.(file := s.tmp, tmp := None)
  }

  function Go1(jobs: nat -> Job, s: State, p: nat): State {
    match PhaseOf(s, p)
    case Idle =>
      if jobs(p).checksFile && s.file.None? then Move(s, p, InitOpen) else Move(s, p, Waiting)
    case InitOpen => Move(s.(tmp := Some(Partial)), p, InitDump)
    case InitDump => Move(s.(tmp := Some(Whole(Empty))), p, InitRename)
    case InitRename => if s.tmp.None? then Move(s, p, Raised) else Move(Rename(s), p, Waiting)
    case Waiting =>
      if s.lock.Some? then s
      else Move(s.(lock := Some(p), grants := s.grants + [p]), p, Locked)
    case Locked => Move(s, p, Loaded(Load(s.file)))
    case Loaded(data) =>
      (match jobs(p).mutate(data)
       case None => Move(s.(lock := None), p, Raised)
       case Some(next) => Move(s, p, Computed(next)))
    case Computed(next) => Move(s.(tmp := Some(Partial)), p, TmpOpen(next))
    case TmpOpen(next) => Move(s.(tmp := Some(Whole(next))), p, TmpDone(next))
    case TmpDone(next) =>
      if s.tmp.None? then Move(s.(lock := None), p, Raised)
      else Move(Rename(s).(committed := s.committed + {p}), p, Renamed)
    case Renamed => Move(s.(lock := None), p, Finished)
    case Finished => s
    case Raised => s
  }

  function Step(jobs: nat -> Job, s: State, e: Event): State {
    match e
    case Go(p) => Go1(jobs, s, p)
    case Abort(p) =>
      var f := PhaseOf(s, p);
      if Critical(f) && !f.Renamed? then Move(s.(lock := None), p, Raised) else s
  }

  function Run(jobs: nat -> Job, s: State, es: seq<Event>): State {
    if es == [] then s else Step(jobs, Run(jobs, s, es[..|es| - 1]), es[|es| - 1])
  }

  function Start(file: Option<Content>): State {
    State(file, None, None, map[], [], {})
  }

  /** The serial reference: apply the committed mutators one after the other, in lock order. */
  function After(job: Job, before: Value): Value {
    match job.mutate(before) case None => before case Some(next) => next
  }

  function Serial(jobs: nat -> Job, grants: seq<nat>, committed: set<nat>, d: Value): Value {
    if grants == [] then d
    else
      var before := Serial(jobs, grants[..|grants| - 1], committed, d);
      var p := grants[|grants| - 1];
      if p !in committed then before else After(jobs(p), before)
  }

  function Current(jobs: nat -> Job, d: Value, s: State): Value {
    Serial(jobs, s.grants, s.committed, d)
  }

  // ---------- the invariant ----------

  /** What an updater knows at each point of its critical section. */
  ghost predicate HolderKnows(jobs: nat -> Job, cur: Value, s: State, p: nat) {
    && |s.grants| > 0
    && s.grants[|s.grants| - 1] == p
    && p !in s.grants[..|s.grants| - 1]
    && (PhaseOf(s, p).Renamed? <==> p in s.committed)
    && match PhaseOf(s, p)
       case Locked => true
       case Loaded(data) => data == cur
       case Computed(next) => jobs(p).mutate(cur) == Some(next)
       case TmpOpen(next) => jobs(p).mutate(cur) == Some(next)
       case TmpDone(next) => jobs(p).mutate(cur) == Some(next) && s.tmp == Some(Whole(next))
       case Renamed => true
       case _ => false
  }

  predicate Before(f: Phase) { f.Idle? || f.Waiting? }

  /** The protocol's part of the invariant, for a file that reads as `cur`. */
  ghost predicate Core(jobs: nat -> Job, cur: Value, s: State) {
    && s.file.Some? && Load(s.file) == cur
    && (forall p :: p in s.phases ==>
          !s.phases[p].InitOpen? && !s.phases[p].InitDump? && !s.phases[p].InitRename?)
    && (forall p :: p in s.phases && Critical(s.phases[p]) ==> s.lock == Some(p))
    && (s.lock.Some? ==> HolderKnows(jobs, cur, s, s.lock.value))
    && (forall p :: p in s.grants ==> p in s.phases && !Before(s.phases[p]))
    && (forall p :: p in s.committed ==> p in s.grants)
  }

  ghost predicate Inv(jobs: nat -> Job, d: Value, s: State) {
    Core(jobs, Current(jobs, d, s), s)
  }

  lemma {:induction false} SerialFrame(jobs: nat -> Job, grants: seq<nat>, c: set<nat>, p: nat, d: Value)
    requires p !in grants
    ensures Serial(jobs, grants, c + {p}, d) == Serial(jobs, grants, c, d)
  {
    if grants != [] {
      SerialFrame(jobs, grants[..|grants| - 1], c, p, d);
    }
  }

  lemma GrantKeepsCore(jobs: nat -> Job, cur: Value, s: State, p: nat)
    requires Core(jobs, cur, s) && PhaseOf(s, p).Waiting? && s.lock.None?
    ensures Core(jobs, cur, Go1(jobs, s, p))
    ensures p !in s.committed
  {
  }

  lemma GrantKeepsInv(jobs: nat -> Job, d: Value, s: State, p: nat)
    requires Inv(jobs, d, s) && PhaseOf(s, p).Waiting? && s.lock.None?
    ensures Inv(jobs, d, Go1(jobs, s, p))
  {
    var s' := Go1(jobs, s, p);
    GrantKeepsCore(jobs, Current(jobs, d, s), s, p);
    assert s'.grants[..|s'.grants| - 1] == s.grants;
  }

  lemma CommitKeepsInv(jobs: nat -> Job, d: Value, s: State, p: nat)
    requires Inv(jobs, d, s) && PhaseOf(s, p).TmpDone?
    ensures Inv(jobs, d, Go1(jobs, s, p))
    ensures Current(jobs, d, Go1(jobs, s, p)) == PhaseOf(s, p).next
  {
    var s' := Go1(jobs, s, p);
    var g := s.grants[..|s.grants| - 1];
    SerialFrame(jobs, g, s.committed, p, d);
    assert Current(jobs, d, s) == Serial(jobs, g, s.committed, d);
    assert Current(jobs, d, s') == PhaseOf(s, p).next;
  }

  predicate Ordinary(s: State, e: Event) {
    e.Abort? || !(PhaseOf(s, e.p).Waiting? || PhaseOf(s, e.p).TmpDone?)
  }

  lemma InsideKeepsCore(jobs: nat -> Job, cur: Value, s: State, p: nat)
    requires Core(jobs, cur, s) && Critical(PhaseOf(s, p)) && Ordinary(s, Go(p))
    ensures Core(jobs, cur, Go1(jobs, s, p))
  {
  }

  lemma OutsideKeepsCore(jobs: nat -> Job, cur: Value, s: State, e: Event)
    requires Core(jobs, cur, s) && Ordinary(s, e) && (e.Abort? || !Critical(PhaseOf(s, e.p)))
    ensures Core(jobs, cur, Step(jobs, s, e))
  {
  }

  /** Every action that neither grants nor commits leaves the file, the lock order and the set of
      committed updaters alone. */
  lemma OtherKeepsInv(jobs: nat -> Job, d: Value, s: State, e: Event)
    requires Inv(jobs, d, s) && Ordinary(s, e)
    ensures Inv(jobs, d, Step(jobs, s, e))
    ensures var s' := Step(jobs, s, e); s'.grants == s.grants && s'.committed == s.committed
  {
    if e.Go? && Critical(PhaseOf(s, e.p)) {
      InsideKeepsCore(jobs, Current(jobs, d, s), s, e.p);
    } else {
      OutsideKeepsCore(jobs, Current(jobs, d, s), s, e);
    }
  }

  /** Every atomic action of every updater keeps the invariant. */
  lemma StepKeepsInv(jobs: nat -> Job, d: Value, s: State, e: Event)
    requires Inv(jobs, d, s)
    ensures Inv(jobs, d, Step(jobs, s, e))
  {
    if e.Go? && PhaseOf(s, e.p).Waiting? {
      if s.lock.None? { GrantKeepsInv(jobs, d, s, e.p); }
    } else if e.Go? && PhaseOf(s, e.p).TmpDone? {
      CommitKeepsInv(jobs, d, s, e.p);
    } else {
      OtherKeepsInv(jobs, d, s, e);
    }
  }

  /** A complete file stays complete: what is renamed over it was dumped to the end. */
  lemma StepKeepsWhole(jobs: nat -> Job, d: Value, s: State, e: Event)
    requires Inv(jobs, d, s) && s.file.Some? && s.file.value.Whole?
    ensures Step(jobs, s, e).file.Some? && Step(jobs, s, e).file.value.Whole?
  {
    if e.Go? && PhaseOf(s, e.p).TmpDone? { CommitKeepsInv(jobs, d, s, e.p); }
  }

  /** Started from an existing file, which may be unreadable, the file reads at every moment of every
      interleaving as the committed mutators composed in lock order: no update is lost.  If it was
      complete at the start, no reader ever sees a partial one. */
  lemma {:induction false} NoLostUpdate(jobs: nat -> Job, c: Content, es: seq<Event>)
    ensures Inv(jobs, Load(Some(c)), Run(jobs, Start(Some(c)), es))
    ensures Kept(jobs, Some(c), es)
    ensures var s := Run(jobs, Start(Some(c)), es);
            c.Whole? ==> s.file == Some(Whole(Serial(jobs, s.grants, s.committed, c.doc)))
  {
    if es != [] {
      NoLostUpdate(jobs, c, es[..|es| - 1]);
      var s := Run(jobs, Start(Some(c)), es[..|es| - 1]);
      StepKeepsInv(jobs, Load(Some(c)), s, es[|es| - 1]);
      if c.Whole? { StepKeepsWhole(jobs, c.doc, s, es[|es| - 1]); }
    }
  }

  /** After these events the file reads as the committed mutators composed in lock order. */
  ghost predicate Kept(jobs: nat -> Job, file: Option<Content>, es: seq<Event>) {
    var s := Run(jobs, Start(file), es);
    Load(s.file) == Serial(jobs, s.grants, s.committed, Load(file))
  }

  /** At most one updater is between lock and unlock, and it is the last one granted. */
  lemma MutualExclusion(jobs: nat -> Job, c: Content, es: seq<Event>, p: nat, q: nat)
    requires var s := Run(jobs, Start(Some(c)), es);
             Critical(PhaseOf(s, p)) && Critical(PhaseOf(s, q))
    ensures p == q
    ensures var s := Run(jobs, Start(Some(c)), es); s.grants != [] && s.grants[|s.grants| - 1] == p
  {
    NoLostUpdate(jobs, c, es);
  }

  // ---------- the two real mutators ----------

  datatype Task =
    | MergeTask(user: string, tags: seq<string>, sources: seq<string>)
    | SyncTask(users: seq<string>, tags: seq<string>)

  function JobOf(t: Task): Job {
    match t
    case MergeTask(user, tags, sources) => Job(true, d => Merge(user, tags, sources, d))
    case SyncTask(users, tags) => Job(false, d => SyncUsers(users, tags, d))
  }

  function Jobs(tasks: nat -> Task): nat -> Job {
    (p: nat) => JobOf(tasks(p))
  }

  /** The updater is a merge that lists `source` under `tag` of `u`. */
  predicate Records(t: Task, u: string, tag: string, source: string) {
    t.MergeTask? && t.user == u && tag in t.tags && source in t.sources
  }

  lemma TaskHas(t: Task, d: Value, u: string, tag: string, source: string)
    requires JobOf(t).mutate(d).Some?
    ensures Has(After(JobOf(t), d), u, tag, source) <==> Has(d, u, tag, source) || Records(t, u, tag, source)
  {
    match t
    case MergeTask(user, tags, sources) => MergeHas(user, tags, sources, d, u, tag, source);
    case SyncTask(users, tags) => SyncHas(users, tags, d, u, tag, source);
  }

  /** Every committed updater's mutator returned when it ran. */
  ghost predicate CommitsReturned(jobs: nat -> Job, d: Value, s: State) {
    forall i :: 0 <= i < |s.grants| && s.grants[i] in s.committed ==>
      jobs(s.grants[i]).mutate(Serial(jobs, s.grants[..i], s.committed, d)).Some?
  }

  lemma CommitReturns(jobs: nat -> Job, d: Value, s: State, p: nat)
    requires Inv(jobs, d, s) && CommitsReturned(jobs, d, s) && PhaseOf(s, p).TmpDone?
    ensures CommitsReturned(jobs, d, Go1(jobs, s, p))
  {
    var s' := Go1(jobs, s, p);
    var n := |s.grants| - 1;
    forall i | 0 <= i < |s'.grants| && s'.grants[i] in s'.committed
      ensures jobs(s'.grants[i]).mutate(Serial(jobs, s'.grants[..i], s'.committed, d)).Some?
    {
      assert forall q :: q in s.grants[..i] ==> q in s.grants[..n];
      SerialFrame(jobs, s.grants[..i], s.committed, p, d);
      if i < n { assert s.grants[i] in s.grants[..n]; }
    }
  }

  lemma StepReturns(jobs: nat -> Job, d: Value, s: State, e: Event)
    requires Inv(jobs, d, s) && CommitsReturned(jobs, d, s)
    ensures CommitsReturned(jobs, d, Step(jobs, s, e))
  {
    if e.Go? && PhaseOf(s, e.p).TmpDone? {
      CommitReturns(jobs, d, s, e.p);
    } else if e.Go? && PhaseOf(s, e.p).Waiting? {
      var s' := Step(jobs, s, e);
      assert forall i :: 0 <= i < |s.grants| ==> s'.grants[..i] == s.grants[..i];
    } else {
      OtherKeepsInv(jobs, d, s, e);
    }
  }

  lemma {:induction false} RunCommitsReturned(jobs: nat -> Job, c: Content, es: seq<Event>)
    ensures CommitsReturned(jobs, Load(Some(c)), Run(jobs, Start(Some(c)), es))
  {
    if es != [] {
      RunCommitsReturned(jobs, c, es[..|es| - 1]);
      NoLostUpdate(jobs, c, es[..|es| - 1]);
      StepReturns(jobs, Load(Some(c)), Run(jobs, Start(Some(c)), es[..|es| - 1]), es[|es| - 1]);
    }
  }

  ghost predicate Recorded(tasks: nat -> Task, ps: seq<nat>, c: set<nat>, u: string, tag: string, source: string) {
    exists i :: 0 <= i < |ps| && ps[i] in c && Records(tasks(ps[i]), u, tag, source)
  }

  lemma RecordedSnoc(tasks: nat -> Task, ps: seq<nat>, c: set<nat>, u: string, tag: string, source: string)
    requires ps != []
    ensures var n := |ps| - 1;
      Recorded(tasks, ps, c, u, tag, source) <==>
      Recorded(tasks, ps[..n], c, u, tag, source) || (ps[n] in c && Records(tasks(ps[n]), u, tag, source))
  {
    var n := |ps| - 1;
    assert forall i :: 0 <= i < n ==> ps[..n][i] == ps[i];
  }

  lemma {:induction false} SerialHas(tasks: nat -> Task, ps: seq<nat>, c: set<nat>, d: Value,
                                     u: string, tag: string, source: string)
    requires forall i :: 0 <= i < |ps| && ps[i] in c ==>
      JobOf(tasks(ps[i])).mutate(Serial(Jobs(tasks), ps[..i], c, d)).Some?
    ensures Has(Serial(Jobs(tasks), ps, c, d), u, tag, source) <==>
      Has(d, u, tag, source) || Recorded(tasks, ps, c, u, tag, source)
  {
    if ps != [] {
      var n := |ps| - 1;
      forall i | 0 <= i < n && ps[..n][i] in c
        ensures JobOf(tasks(ps[..n][i])).mutate(Serial(Jobs(tasks), ps[..n][..i], c, d)).Some?
      {
        assert ps[..n][..i] == ps[..i];
      }
      SerialHas(tasks, ps[..n], c, d, u, tag, source);
      RecordedSnoc(tasks, ps, c, u, tag, source);
      if ps[n] in c { TaskHas(tasks(ps[n]), Serial(Jobs(tasks), ps[..n], c, d), u, tag, source); }
    }
  }

  /** No merged source name is ever lost and none is invented: at any moment of any interleaving of
      merges and synchronisations, the file lists exactly the sources listed at the start and those of
      the merges that have committed. */
  lemma FileListsMergedSources(tasks: nat -> Task, c: Content, es: seq<Event>, u: string, tag: string, source: string)
    ensures var s := Run(Jobs(tasks), Start(Some(c)), es);
      && s.file.Some? && (c.Whole? ==> s.file.value.Whole?)
      && (Has(Load(s.file), u, tag, source) <==>
          Has(Load(Some(c)), u, tag, source) || exists p :: p in s.committed && Records(tasks(p), u, tag, source))
  {
    var jobs := Jobs(tasks);
    var s := Run(jobs, Start(Some(c)), es);
    NoLostUpdate(jobs, c, es);
    RunCommitsReturned(jobs, c, es);
    SerialHas(tasks, s.grants, s.committed, Load(Some(c)), u, tag, source);
    if p :| p in s.committed && Records(tasks(p), u, tag, source) {
      var i :| 0 <= i < |s.grants| && s.grants[i] == p;
    }
  }

  lemma TaskKeeps(t: Task, d: Value, u: string, tag: string, k: string)
    requires JobOf(t).mutate(d).Some?
    ensures ActiveOf(After(JobOf(t), d), u) == ActiveOf(d, u)
    ensures k != "documents" && FieldOf(d, u, tag, k).Some? ==> FieldOf(After(JobOf(t), d), u, tag, k) == FieldOf(d, u, tag, k)
  {
    match t
    case MergeTask(user, tags, sources) =>
      MergeKeepsActive(user, tags, sources, d, u);
      MergeKeeps(user, tags, sources, d, u, tag, k);
    case SyncTask(users, tags) =>
      SyncKeepsActive(users, tags, d, u);
      if d.Obj? { SyncFills(users, tags, d, u, tag, k); }
  }

  lemma {:induction false} SerialKeeps(tasks: nat -> Task, ps: seq<nat>, c: set<nat>, d: Value,
                                       u: string, tag: string, k: string)
    ensures ActiveOf(Serial(Jobs(tasks), ps, c, d), u) == ActiveOf(d, u)
    ensures k != "documents" && FieldOf(d, u, tag, k).Some? ==>
              FieldOf(Serial(Jobs(tasks), ps, c, d), u, tag, k) == FieldOf(d, u, tag, k)
  {
    if ps != [] {
      var n := |ps| - 1;
      var before := Serial(Jobs(tasks), ps[..n], c, d);
      SerialKeeps(tasks, ps[..n], c, d, u, tag, k);
      if ps[n] in c && JobOf(tasks(ps[n])).mutate(before).Some? { TaskKeeps(tasks(ps[n]), before, u, tag, k); }
    }
  }

  /** And nothing else is lost: at any moment every user's active tags are those of the start, in order,
      and so is every field of every tag object other than the documents: prompts, selections, status. */
  lemma FileKeepsTags(tasks: nat -> Task, c: Content, es: seq<Event>, u: string, tag: string, k: string)
    ensures var d, d' := Load(Some(c)), Load(Run(Jobs(tasks), Start(Some(c)), es).file);
      && ActiveOf(d', u) == ActiveOf(d, u)
      && (k != "documents" && FieldOf(d, u, tag, k).Some? ==> FieldOf(d', u, tag, k) == FieldOf(d, u, tag, k))
  {
    var s := Run(Jobs(tasks), Start(Some(c)), es);
    NoLostUpdate(Jobs(tasks), c, es);
    SerialKeeps(tasks, s.grants, s.committed, Load(Some(c)), u, tag, k);
  }

  // ---------- why the file must exist at the start ----------

  lemma Extend(jobs: nat -> Job, s: State, es: seq<Event>, e: Event)
    ensures Run(jobs, s, es + [e]) == Step(jobs, Run(jobs, s, es), e)
  {
  }

  lemma FirstHalf(jobs: nat -> Job, s: State, p: nat)
    requires PhaseOf(s, p).Waiting? && s.lock.None? && jobs(p).mutate(Load(s.file)).Some?
    ensures Go1(jobs, Go1(jobs, Go1(jobs, s, p), p), p) ==
            Move(s.(lock := Some(p), grants := s.grants + [p]), p, Computed(jobs(p).mutate(Load(s.file)).value))
  {
  }

  lemma SecondHalf(jobs: nat -> Job, s: State, p: nat, next: Value)
    requires PhaseOf(s, p) == Computed(next)
    ensures Go1(jobs, Go1(jobs, Go1(jobs, Go1(jobs, s, p), p), p), p) ==
            Move(s.(file := Some(Whole(next)), tmp := None, lock := None, committed := s.committed + {p}), p, Finished)
  {
  }

  /** An updater that runs alone from `Waiting` commits its mutator. */
  lemma RunAlone(jobs: nat -> Job, s0: State, es: seq<Event>, p: nat) returns (es': seq<Event>)
    requires var s := Run(jobs, s0, es);
      PhaseOf(s, p).Waiting? && s.lock.None? && jobs(p).mutate(Load(s.file)).Some?
    ensures var s := Run(jobs, s0, es); var s' := Run(jobs, s0, es');
      && s'.file == Some(Whole(jobs(p).mutate(Load(s.file)).value))
      && s'.lock == None
      && s'.phases == s.phases[p := Finished]
      && s'.grants == s.grants + [p]
      && s'.committed == s.committed + {p}
  {
    var s := Run(jobs, s0, es);
    var next := jobs(p).mutate(Load(s.file)).value;
    FirstHalf(jobs, s, p);
    var g := Go(p);
    Extend(jobs, s0, es, g);
    var es2 := es + [g];
    Extend(jobs, s0, es2, g);
    var es3 := es2 + [g];
    Extend(jobs, s0, es3, g);
    var es4 := es3 + [g];
    var mid := Run(jobs, s0, es4);
    assert PhaseOf(mid, p) == Computed(next);
    SecondHalf(jobs, mid, p, next);
    assert mid.phases[p := Finished] == s.phases[p := Finished];
    Extend(jobs, s0, es4, g);
    Extend(jobs, s0, es4 + [g], g);
    Extend(jobs, s0, es4 + [g] + [g], g);
    Extend(jobs, s0, es4 + [g] + [g] + [g], g);
    es' := es4 + [g] + [g] + [g] + [g];
  }

  /** A failure inside the critical section, of the serialisation or of the mutator, gives the lock back and
      leaves the file as it was. */
  lemma FailureReleases(jobs: nat -> Job, s: State, p: nat)
    requires Critical(PhaseOf(s, p)) && !PhaseOf(s, p).Renamed?
    ensures var s' := Step(jobs, s, Abort(p));
      s'.lock == None && PhaseOf(s', p).Raised? && s'.file == s.file && s'.committed == s.committed
    ensures PhaseOf(s, p).Loaded? && jobs(p).mutate(PhaseOf(s, p).data).None? ==>
              Step(jobs, s, Go(p)) == Step(jobs, s, Abort(p))
  {
  }

  /** Without a file, an updater that finds it missing creates an empty one through the temporary file, and
      only then wants the lock. */
  lemma CreatesEmpty(jobs: nat -> Job, s: State, p: nat)
    requires PhaseOf(s, p).Idle? && jobs(p).checksFile && s.file.None?
    ensures Go1(jobs, Go1(jobs, Go1(jobs, Go1(jobs, s, p), p), p), p) ==
            Move(s.(file := Some(Whole(Empty)), tmp := None), p, Waiting)
  {
  }

  /** Started without a file, an updater that commits can be wiped out by another that had seen the
      file missing: the initial {} is written outside the lock. */
  lemma MissingFileLosesUpdate(jobs: nat -> Job) returns (es: seq<Event>)
    requires jobs(0).checksFile && jobs(1).checksFile
    requires jobs(1).mutate(Empty).Some? && jobs(1).mutate(Empty) != Some(Empty)
    ensures 1 in Run(jobs, Start(None), es).committed && !Kept(jobs, None, es)
  {
    es := [];
    Extend(jobs, Start(None), es, Go(0)); es := es + [Go(0)];
    Extend(jobs, Start(None), es, Go(1)); es := es + [Go(1)];
    Extend(jobs, Start(None), es, Go(1)); es := es + [Go(1)];
    Extend(jobs, Start(None), es, Go(1)); es := es + [Go(1)];
    Extend(jobs, Start(None), es, Go(1)); es := es + [Go(1)];
    assert Run(jobs, Start(None), es).grants == [];
    es := RunAlone(jobs, Start(None), es, 1);
    Extend(jobs, Start(None), es, Go(0)); es := es + [Go(0)];
    Extend(jobs, Start(None), es, Go(0)); es := es + [Go(0)];
    Extend(jobs, Start(None), es, Go(0)); es := es + [Go(0)];
    var s := Run(jobs, Start(None), es);
    assert s.grants == [1] && s.file == Some(Whole(Empty));
    assert [1][..0] == [];
    assert Serial(jobs, [1], s.committed, Empty) == After(jobs(1), Empty);
  }

  /** For updaters that check for the file and do change an empty one, nothing is lost in any
      interleaving if and only if the file exists at the start. */
  lemma NothingLostIffFileExists(jobs: nat -> Job, file: Option<Content>)
    requires jobs(0).checksFile && jobs(1).checksFile
    requires jobs(1).mutate(Empty).Some? && jobs(1).mutate(Empty) != Some(Empty)
    ensures (forall es :: Kept(jobs, file, es)) <==> file.Some?
  {
    match file
    case Some(c) => forall es ensures Kept(jobs, file, es) { NoLostUpdate(jobs, c, es); }
    case None =>
      var es := MissingFileLosesUpdate(jobs);
      assert !Kept(jobs, file, es);
  }
}
