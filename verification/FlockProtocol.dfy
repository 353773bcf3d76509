/** The same read-merge-write on the file-lock branch, together with the user/tag synchronisation.

    An updater locks the inode it opened, while a commit replaces the path by another inode: an updater
    that opened the file before somebody else's rename locks, and reads, a file that is no longer there.
    The synchronisation (`checksFile` is false) takes only the thread lock, so no file lock keeps it
    apart from the updaters, and all of them write to one temporary path. */
module FlockProtocol {
  import opened Prelude
  import opened Json
  import opened StatusProtocol

  datatype FPhase =
    | FIdle
    | Opened(fd: nat)                      // an updater that wants the lock of the file it opened
    | Held                                 // a synchronisation that has the thread lock
    | FLocked(fd: nat)
    | FLoaded(fd: nat, data: Value)
    | FComputed(fd: nat, next: Value)
    | FTmpOpen(fd: nat, tf: nat, next: Value)
    | FTmpDone(fd: nat, next: Value)
    | FRenamed(fd: nat)
    | FFinished
    | FRaised

  datatype FState = FState(
    inodes: seq<Content>,
    path: nat,                 // the inode user_status.json names
    tmp: Option<nat>,          // the inode the shared temporary path names
    locks: map<nat, nat>,      // inode -> updater holding its file lock
    tlock: Option<nat>,        // the synchronisation holding the thread lock
    phases: map<nat, FPhase>,
    commits: seq<nat>,         // participants in the order of their renames
    versions: seq<nat>)        // inodes the path has named, oldest first

  /** `FAbort` lets serialisation fail at any point before the rename. */
  datatype FEvent = FGo(p: nat) | FAbort(p: nat)

  function PhaseAt(s: FState, p: nat): FPhase {
    if p in s.phases then s.phases[p] else FIdle
  }

  function To(s: FState, p: nat, f: FPhase): FState {
    s.(phases := s.phases[p := f])
  }

  function ReadInode(s: FState, fd: nat): Value {
    if fd < |s.inodes| && s.inodes[fd].Whole? then s.inodes[fd].doc else Empty
  }

  function Write(s: FState, i: nat, c: Content): FState {
    if i < |s.inodes| then s.(inodes := s.inodes[i := c]) else s
  }

  /** Opening the temporary path for writing truncates what is there, or makes a new inode. */
  function OpenTmp(s: FState): (FState, nat) {
    match s.tmp
    case Some(t) => (Write(s, t, Partial), t)
    case None => (s.(inodes := s.inodes + [Partial], tmp := Some(|s.inodes|)), |s.inodes|)
  }

  function Release(jobs: nat -> Job, s: FState, p: nat, fd: nat): FState {
    if jobs(p).checksFile then s.(locks := s.locks - {fd}) else s.(tlock := None)
  }

  function FGo1(jobs: nat -> Job, s: FState, p: nat): FState {
    match PhaseAt(s, p)
    case FIdle =>
      if jobs(p).checksFile then To(s, p, Opened(s.path))
      else if s.tlock.Some? then s
      else To(s.(tlock := Some(p)), p, Held)
    case Opened(fd) => if fd in s.locks then s else To(s.(locks := s.locks[fd := p]), p, FLocked(fd))
    case Held => To(s, p, FLocked(s.path))
    case FLocked(fd) => To(s, p, FLoaded(fd, ReadInode(s, fd)))
    case FLoaded(fd, data) =>
      (match jobs(p).mutate(data)
       case None => To(Release(jobs, s, p, fd), p, FRaised)
       case Some(next) => To(s, p, FComputed(fd, next)))
    case FComputed(fd, next) => var (s', t) := OpenTmp(s); To(s', p, FTmpOpen(fd, t, next))
    case FTmpOpen(fd, tf, next) => To(Write(s, tf, Whole(next)), p, FTmpDone(fd, next))
    case FTmpDone(fd, next) =>
      (match s.tmp
       case None => To(Release(jobs, s, p, fd), p, FRaised)
       case Some(t) =>
         To(s.(path := t, tmp := None, commits := s.commits + [p], versions := s.versions + [t]), p, FRenamed(fd)))
    case FRenamed(fd) => To(Release(jobs, s, p, fd), p, FFinished)
    case FFinished => s
    case FRaised => s
  }

  predicate Active(f: FPhase) {
    f.FLocked? || f.FLoaded? || f.FComputed? || f.FTmpOpen? || f.FTmpDone?
  }

  function FStep(jobs: nat -> Job, s: FState, e: FEvent): FState {
    match e
    case FGo(p) => FGo1(jobs, s, p)
    case FAbort(p) =>
      var f := PhaseAt(s, p);
      if Active(f) then To(Release(jobs, s, p, f.fd), p, FRaised) else s
  }

  function FRun(jobs: nat -> Job, s: FState, es: seq<FEvent>): FState {
    if es == [] then s else FStep(jobs, FRun(jobs, s, es[..|es| - 1]), es[|es| - 1])
  }

  function FStart(d: Value): FState {
    FState([Whole(d)], 0, None, map[], None, map[], [], [0])
  }

  /** The serial reference: all mutators of `ps`, one after the other. */
  function Compose(jobs: nat -> Job, ps: seq<nat>, d: Value): Value {
    if ps == [] then d else After(jobs(ps[|ps| - 1]), Compose(jobs, ps[..|ps| - 1], d))
  }

  /** The file is complete and is the committed mutators composed in the order of their renames. */
  ghost predicate Right(jobs: nat -> Job, d: Value, s: FState) {
    s.path < |s.inodes| && s.inodes[s.path] == Whole(Compose(jobs, s.commits, d))
  }

  // ---------- safe actions ----------

  /** A dump must not go into the file itself, and a rename must replace the very file that was read, by
      a temporary file that still holds what its owner dumped. */
  predicate Safe(s: FState, e: FEvent) {
    e.FGo? ==>
      match PhaseAt(s, e.p)
      case FTmpOpen(_, tf, _) => tf != s.path
      case FTmpDone(fd, next) =>
        s.tmp.Some? ==> fd == s.path && s.tmp.value < |s.inodes| && s.inodes[s.tmp.value] == Whole(next)
      case _ => true
  }

  ghost predicate SafeRun(jobs: nat -> Job, s: FState, es: seq<FEvent>) {
    forall i :: 0 <= i < |es| ==> Safe(FRun(jobs, s, es[..i]), es[i])
  }

  predicate HasFd(f: FPhase) {
    f.Opened? || f.FRenamed? || Active(f)
  }

  /** What a participant whose file is still under the path knows about it. */
  ghost predicate PhaseGood(jobs: nat -> Job, s: FState, p: nat, f: FPhase) {
    && (HasFd(f) ==> f.fd in s.versions)
    && (f.FTmpOpen? ==> f.tf < |s.inodes|)
    && (Active(f) && f.fd == s.path ==>
          match f
          case FLocked(_) => true
          case FLoaded(_, data) => data == ReadInode(s, s.path)
          case FComputed(_, next) => jobs(p).mutate(ReadInode(s, s.path)) == Some(next)
          case FTmpOpen(_, _, next) => jobs(p).mutate(ReadInode(s, s.path)) == Some(next)
          case FTmpDone(_, next) => jobs(p).mutate(ReadInode(s, s.path)) == Some(next))
  }

  ghost predicate Layout(s: FState) {
    && s.path in s.versions
    && (forall v :: v in s.versions ==> v < |s.inodes|)
    && (s.tmp.Some? ==> s.tmp.value < |s.inodes| && s.tmp.value !in s.versions)
  }

  ghost predicate Good(jobs: nat -> Job, d: Value, s: FState) {
    && Layout(s)
    && Right(jobs, d, s)
    && forall p :: p in s.phases ==> PhaseGood(jobs, s, p, s.phases[p])
  }

  predicate OnDisk(f: FPhase) { f.FComputed? || f.FTmpOpen? || f.FTmpDone? }

  /** Every other participant's view survives if the file under the path is the same and reads the same. */
  lemma ViewSurvives(jobs: nat -> Job, s: FState, s': FState, q: nat, f: FPhase)
    requires PhaseGood(jobs, s, q, f) && |s.inodes| <= |s'.inodes| && s.versions <= s'.versions
    requires s'.path == s.path ==> ReadInode(s', s.path) == ReadInode(s, s.path)
    requires s'.path != s.path ==> s'.path !in s.versions
    ensures PhaseGood(jobs, s', q, f)
  {
  }

  predicate Quiet(s: FState, e: FEvent) {
    e.FAbort? || !OnDisk(PhaseAt(s, e.p))
  }

  ghost predicate SameDisk(s: FState, s': FState) {
    s'.inodes == s.inodes && s'.path == s.path && s'.tmp == s.tmp && s'.commits == s.commits && s'.versions == s.versions
  }

  ghost predicate OthersStay(s: FState, s': FState, p: nat) {
    forall q :: q != p ==> (q in s'.phases <==> q in s.phases) && (q in s.phases ==> s'.phases[q] == s.phases[q])
  }

  /** One action changes at most the phase of its own participant. */
  lemma StepOthers(jobs: nat -> Job, s: FState, e: FEvent)
    ensures OthersStay(s, FStep(jobs, s, e), e.p)
    ensures e.p in s.phases ==> e.p in FStep(jobs, s, e).phases
  {
    if e.FGo? {
      match PhaseAt(s, e.p)
      case FIdle =>
      case Opened(_) =>
      case Held =>
      case FLocked(_) =>
      case FLoaded(_, _) =>
      case FComputed(_, _) =>
      case FTmpOpen(_, _, _) =>
      case FTmpDone(_, _) =>
      case FRenamed(_) =>
      case FFinished =>
      case FRaised =>
    }
  }

  lemma QuietDisk(jobs: nat -> Job, s: FState, e: FEvent)
    requires Quiet(s, e)
    ensures SameDisk(s, FStep(jobs, s, e))
  {
  }

  lemma QuietSelf(jobs: nat -> Job, s: FState, e: FEvent)
    requires Quiet(s, e) && Layout(s) && (e.p in s.phases ==> PhaseGood(jobs, s, e.p, s.phases[e.p]))
    ensures var s' := FStep(jobs, s, e); e.p in s'.phases ==> PhaseGood(jobs, s', e.p, s'.phases[e.p])
  {
  }

  /** An action that leaves the disk alone. */
  lemma QuietGood(jobs: nat -> Job, d: Value, s: FState, e: FEvent)
    requires Good(jobs, d, s) && Quiet(s, e)
    ensures Good(jobs, d, FStep(jobs, s, e))
  {
    var s' := FStep(jobs, s, e);
    QuietDisk(jobs, s, e);
    StepOthers(jobs, s, e);
    QuietSelf(jobs, s, e);
    forall q | q in s'.phases ensures PhaseGood(jobs, s', q, s'.phases[q]) {
      if q != e.p { ViewSurvives(jobs, s, s', q, s.phases[q]); }
    }
  }

  /** Opening the temporary path and dumping touch no file that is or was under the path. */
  lemma WriteGood(jobs: nat -> Job, d: Value, s: FState, p: nat)
    requires Good(jobs, d, s) && Safe(s, FGo(p)) && (PhaseAt(s, p).FComputed? || PhaseAt(s, p).FTmpOpen?)
    ensures Good(jobs, d, FGo1(jobs, s, p))
  {
    var s' := FGo1(jobs, s, p);
    assert PhaseGood(jobs, s, p, s.phases[p]);
    assert s'.inodes[s.path] == s.inodes[s.path];
    forall q | q in s'.phases ensures PhaseGood(jobs, s', q, s'.phases[q]) {
      if q != p { ViewSurvives(jobs, s, s', q, s.phases[q]); }
    }
  }

  lemma ComposeSnoc(jobs: nat -> Job, ps: seq<nat>, p: nat, d: Value)
    ensures Compose(jobs, ps + [p], d) == After(jobs(p), Compose(jobs, ps, d))
  {
    assert (ps + [p])[..|ps|] == ps;
  }

  lemma CommitDisk(jobs: nat -> Job, s: FState, p: nat)
    requires Layout(s) && PhaseAt(s, p).FTmpDone? && s.tmp.Some?
    ensures var s' := FGo1(jobs, s, p);
      && s'.path == s.tmp.value && s'.inodes == s.inodes && s'.commits == s.commits + [p]
      && s'.versions == s.versions + [s.tmp.value] && s'.tmp.None? && Layout(s')
  {
    var s' := FGo1(jobs, s, p);
    assert s'.versions == s.versions + [s.tmp.value];
    assert s'.versions[|s.versions|] == s.tmp.value;
  }

  lemma CommitRight(jobs: nat -> Job, d: Value, s: FState, p: nat)
    requires Layout(s) && Right(jobs, d, s) && PhaseAt(s, p).FTmpDone? && s.tmp.Some? && Safe(s, FGo(p))
    requires jobs(p).mutate(ReadInode(s, s.path)) == Some(PhaseAt(s, p).next)
    ensures Right(jobs, d, FGo1(jobs, s, p))
  {
    var cur := Compose(jobs, s.commits, d);
    assert ReadInode(s, s.path) == cur;
    assert After(jobs(p), cur) == PhaseAt(s, p).next;
    ComposeSnoc(jobs, s.commits, p, d);
    CommitDisk(jobs, s, p);
  }

  lemma CommitGood(jobs: nat -> Job, d: Value, s: FState, p: nat)
    requires Good(jobs, d, s) && Safe(s, FGo(p)) && PhaseAt(s, p).FTmpDone?
    ensures Good(jobs, d, FGo1(jobs, s, p))
  {
    var s' := FGo1(jobs, s, p);
    StepOthers(jobs, s, FGo(p));
    assert PhaseGood(jobs, s, p, s.phases[p]);
    if s.tmp.Some? {
      CommitDisk(jobs, s, p);
      CommitRight(jobs, d, s, p);
    }
    forall q | q in s'.phases ensures PhaseGood(jobs, s', q, s'.phases[q]) {
      if q != p { ViewSurvives(jobs, s, s', q, s.phases[q]); }
    }
  }

  /** A safe action keeps the file right. */
  lemma SafeKeepsGood(jobs: nat -> Job, d: Value, s: FState, e: FEvent)
    requires Good(jobs, d, s) && Safe(s, e)
    ensures Good(jobs, d, FStep(jobs, s, e))
  {
    if Quiet(s, e) { QuietGood(jobs, d, s, e); }
    else if PhaseAt(s, e.p).FTmpDone? { CommitGood(jobs, d, s, e.p); }
    else { WriteGood(jobs, d, s, e.p); }
  }

  lemma SafePrefix(jobs: nat -> Job, s: FState, es: seq<FEvent>, n: nat)
    requires SafeRun(jobs, s, es) && n <= |es|
    ensures SafeRun(jobs, s, es[..n])
  {
    forall i | 0 <= i < n ensures Safe(FRun(jobs, s, es[..n][..i]), es[..n][i]) {
      assert es[..n][..i] == es[..i];
    }
  }

  /** In every run whose actions are safe, whatever the mutators, the file is right at the end. */
  lemma {:induction false} SafeRunsSerialize(jobs: nat -> Job, d: Value, es: seq<FEvent>)
    requires SafeRun(jobs, FStart(d), es)
    ensures Good(jobs, d, FRun(jobs, FStart(d), es)) && Right(jobs, d, FRun(jobs, FStart(d), es))
  {
    if es != [] {
      var n := |es| - 1;
      SafePrefix(jobs, FStart(d), es, n);
      SafeRunsSerialize(jobs, d, es[..n]);
      SafeKeepsGood(jobs, d, FRun(jobs, FStart(d), es[..n]), es[n]);
    }
  }

  // ---------- unsafe actions ----------

  /** Mutators that each append their own number, so that the document shows who is in it; `kind` says
      who is an updater and who a synchronisation. */
  function Items(v: Value): seq<Value> { if v.List? then v.items else [] }

  function Sign(v: Value, p: nat): Value { List(Items(v) + [Num(p)]) }

  function Signing(kind: nat -> bool): nat -> Job {
    (p: nat) => Job(kind(p), (v: Value) => Some(Sign(v, p)))
  }

  const Blank: Value := List([])

  lemma {:induction false} SignedBy(kind: nat -> bool, ps: seq<nat>)
    ensures Compose(Signing(kind), ps, Blank).List? && |Compose(Signing(kind), ps, Blank).items| == |ps|
    ensures forall i :: 0 <= i < |ps| ==> Compose(Signing(kind), ps, Blank).items[i] == Num(ps[i])
  {
    if ps != [] { SignedBy(kind, ps[..|ps| - 1]); }
  }

  /** A signed document whose last signature is that of a participant which still waits to rename it, or
      which has failed. */
  ghost predicate Authored(phases: map<nat, FPhase>, v: Value) {
    && v.List? && v.items != []
    && var last := v.items[|v.items| - 1];
       && last.Num? && last.n >= 0 && last.n in phases
       && (phases[last.n].FRaised? || (phases[last.n].FTmpDone? && phases[last.n].next == v))
  }

  predicate Next(f: FPhase, p: nat, k: nat)
    requires OnDisk(f)
  {
    f.next.List? && f.next.items != [] && |f.next.items| <= k + 1 && f.next.items[|f.next.items| - 1] == Num(p)
  }

  /** A participant that read version k has at most k signatures, and k + 1 with its own; a temporary
      file that it opened can only have become a later version. */
  ghost predicate MarkedPhase(versions: seq<nat>, p: nat, f: FPhase) {
    forall k :: 0 <= k < |versions| && HasFd(f) && versions[k] == f.fd ==>
      && (f.FLoaded? ==> |Items(f.data)| <= k)
      && (OnDisk(f) ==> Next(f, p, k))
      && (f.FTmpOpen? ==> forall m :: 0 <= m < |versions| && versions[m] == f.tf ==> k < m)
  }

  ghost predicate MarkedInodes(inodes: seq<Content>, versions: seq<nat>) {
    forall k :: 0 <= k < |versions| ==> versions[k] < |inodes| && MarkedInode(inodes[versions[k]], k)
  }

  predicate Committed(f: FPhase) { f.FRenamed? || f.FFinished? }

  ghost predicate Marked(s: FState) {
    && NoDup(s.versions) && |s.versions| == |s.commits| + 1 && s.versions[|s.commits|] == s.path
    && (forall p :: p in s.commits ==> p in s.phases && Committed(s.phases[p]))
    && MarkedInodes(s.inodes, s.versions)
    && MarkedTmp(s)
    && (forall p :: p in s.phases ==> MarkedPhase(s.versions, p, s.phases[p]))
  }

  ghost predicate MarkedTmp(s: FState) {
    s.tmp.Some? && s.tmp.value < |s.inodes| && s.inodes[s.tmp.value].Whole? ==>
      Authored(s.phases, s.inodes[s.tmp.value].doc)
  }

  ghost predicate MarkedInode(c: Content, k: nat) {
    c.Whole? && c.doc.List? && |c.doc.items| <= k
  }

  lemma QuietMarkedSelf(kind: nat -> bool, s: FState, e: FEvent)
    requires Quiet(s, e) && SameDisk(s, FStep(Signing(kind), s, e)) && NoDup(s.versions)
    requires MarkedInodes(s.inodes, s.versions)
    requires e.p in s.phases ==> MarkedPhase(s.versions, e.p, s.phases[e.p])
    ensures var s' := FStep(Signing(kind), s, e); e.p in s'.phases ==> MarkedPhase(s'.versions, e.p, s'.phases[e.p])
  {
  }

  lemma QuietTmp(kind: nat -> bool, s: FState, e: FEvent)
    requires Quiet(s, e) && MarkedTmp(s)
    ensures MarkedTmp(FStep(Signing(kind), s, e))
  {
    QuietDisk(Signing(kind), s, e);
  }

  /** A commit is final. */
  lemma CommitsStay(jobs: nat -> Job, s: FState, e: FEvent, p: nat)
    requires p in s.phases && Committed(s.phases[p])
    ensures var s' := FStep(jobs, s, e); p in s'.phases && Committed(s'.phases[p])
  {
    if e.p != p { StepOthers(jobs, s, e); }
    else if s.phases[p].FRenamed? { assert e.FAbort? ==> FStep(jobs, s, e) == s; }
    else { assert FStep(jobs, s, e) == s; }
  }

  lemma QuietMarked(kind: nat -> bool, s: FState, e: FEvent)
    requires Marked(s) && Quiet(s, e)
    ensures Marked(FStep(Signing(kind), s, e))
  {
    var s' := FStep(Signing(kind), s, e);
    QuietDisk(Signing(kind), s, e);
    StepOthers(Signing(kind), s, e);
    QuietMarkedSelf(kind, s, e);
    QuietTmp(kind, s, e);
    forall q | q in s'.phases ensures MarkedPhase(s'.versions, q, s'.phases[q]) {
      if q != e.p { assert MarkedPhase(s.versions, q, s.phases[q]); }
    }
    forall p | p in s'.commits ensures p in s'.phases && Committed(s'.phases[p]) {
      CommitsStay(Signing(kind), s, e, p);
    }
  }

  /** Opening the temporary path leaves every version alone. */
  lemma OpenTmpDisk(jobs: nat -> Job, s: FState, p: nat)
    requires Layout(s) && PhaseAt(s, p).FComputed?
    ensures var s' := FGo1(jobs, s, p); var f := PhaseAt(s', p);
      && s'.versions == s.versions && s'.commits == s.commits && s'.path == s.path && |s.inodes| <= |s'.inodes|
      && (forall v :: v in s.versions ==> v < |s.inodes| && s'.inodes[v] == s.inodes[v])
      && f.FTmpOpen? && f.fd == PhaseAt(s, p).fd && f.next == PhaseAt(s, p).next && f.tf !in s.versions
      && s'.tmp == Some(f.tf) && f.tf < |s'.inodes| && s'.inodes[f.tf] == Partial
  {
  }

  lemma OpenTmpMarked(kind: nat -> bool, s: FState, p: nat)
    requires Layout(s) && Marked(s) && PhaseAt(s, p).FComputed?
    ensures Marked(FGo1(Signing(kind), s, p))
  {
    var s' := FGo1(Signing(kind), s, p);
    OpenTmpDisk(Signing(kind), s, p);
    StepOthers(Signing(kind), s, FGo(p));
    assert MarkedPhase(s.versions, p, s.phases[p]);
    forall k | 0 <= k < |s.versions| ensures s.versions[k] < |s'.inodes| && MarkedInode(s'.inodes[s.versions[k]], k) {
      assert s.versions[k] in s.versions;
    }
    forall q | q in s'.phases ensures MarkedPhase(s'.versions, q, s'.phases[q]) {
      if q != p { assert MarkedPhase(s.versions, q, s.phases[q]); }
    }
    forall q | q in s'.commits ensures q in s'.phases && Committed(s'.phases[q]) {
      CommitsStay(Signing(kind), s, FGo(p), q);
    }
  }

  lemma DumpInodes(inodes: seq<Content>, versions: seq<nat>, p: nat, f: FPhase)
    requires MarkedInodes(inodes, versions) && f.FTmpOpen? && f.tf < |inodes|
    requires f.fd in versions && MarkedPhase(versions, p, f)
    ensures MarkedInodes(inodes[f.tf := Whole(f.next)], versions)
  {
    var k :| 0 <= k < |versions| && versions[k] == f.fd;
    assert Next(f, p, k);
    forall m | 0 <= m < |versions| ensures MarkedInode(inodes[f.tf := Whole(f.next)][versions[m]], m) {
      assert MarkedInode(inodes[versions[m]], m);
    }
  }

  lemma DumpTmp(kind: nat -> bool, s: FState, p: nat, k: nat)
    requires MarkedTmp(s) && PhaseAt(s, p).FTmpOpen? && Next(PhaseAt(s, p), p, k)
    ensures MarkedTmp(FGo1(Signing(kind), s, p))
  {
  }

  lemma DumpMarked(kind: nat -> bool, s: FState, p: nat)
    requires Marked(s) && PhaseAt(s, p).FTmpOpen? && PhaseAt(s, p).fd in s.versions && PhaseAt(s, p).tf < |s.inodes|
    ensures Marked(FGo1(Signing(kind), s, p))
  {
    var s' := FGo1(Signing(kind), s, p);
    var f := s.phases[p];
    assert MarkedPhase(s.versions, p, f);
    var k :| 0 <= k < |s.versions| && s.versions[k] == f.fd;
    DumpInodes(s.inodes, s.versions, p, f);
    DumpTmp(kind, s, p, k);
    forall q | q in s'.phases ensures MarkedPhase(s'.versions, q, s'.phases[q]) {
      if q != p { assert MarkedPhase(s.versions, q, s.phases[q]); }
    }
    forall q | q in s'.commits ensures q in s'.phases && Committed(s'.phases[q]) {
      CommitsStay(Signing(kind), s, FGo(p), q);
    }
  }

  lemma RenamePhase(versions: seq<nat>, q: nat, f: FPhase, t: nat)
    requires MarkedPhase(versions, q, f) && t !in versions && (HasFd(f) ==> f.fd in versions)
    ensures MarkedPhase(versions + [t], q, f)
  {
  }

  lemma RenameMarked(kind: nat -> bool, s: FState, p: nat)
    requires Layout(s) && Marked(s) && PhaseAt(s, p).FTmpDone? && Safe(s, FGo(p)) && s.tmp.Some?
    requires forall q :: q in s.phases && HasFd(s.phases[q]) ==> s.phases[q].fd in s.versions
    ensures Marked(FGo1(Signing(kind), s, p))
  {
    var s' := FGo1(Signing(kind), s, p);
    var t, n := s.tmp.value, |s.commits|;
    assert MarkedPhase(s.versions, p, s.phases[p]) && Next(s.phases[p], p, n);
    assert MarkedInodes(s'.inodes, s'.versions);
    forall q | q in s'.phases ensures MarkedPhase(s'.versions, q, s'.phases[q]) {
      RenamePhase(s.versions, q, s.phases[q], t);
    }
    forall q | q in s'.commits ensures q in s'.phases && Committed(s'.phases[q]) {
      if q != p { CommitsStay(Signing(kind), s, FGo(p), q); }
    }
  }

  /** Without a temporary file the rename raises. */
  lemma NoTmpMarked(kind: nat -> bool, s: FState, p: nat)
    requires Marked(s) && PhaseAt(s, p).FTmpDone? && s.tmp.None?
    ensures Marked(FGo1(Signing(kind), s, p))
  {
    var s' := FGo1(Signing(kind), s, p);
    forall q | q in s'.commits ensures q in s'.phases && Committed(s'.phases[q]) {
      CommitsStay(Signing(kind), s, FGo(p), q);
    }
  }

  lemma SafeKeepsMarked(kind: nat -> bool, s: FState, e: FEvent)
    requires Good(Signing(kind), Blank, s) && Marked(s) && Safe(s, e)
    ensures Marked(FStep(Signing(kind), s, e))
  {
    forall q | q in s.phases && HasFd(s.phases[q]) ensures s.phases[q].fd in s.versions {
      assert PhaseGood(Signing(kind), s, q, s.phases[q]);
    }
    if Quiet(s, e) { QuietMarked(kind, s, e); }
    else if PhaseAt(s, e.p).FComputed? { OpenTmpMarked(kind, s, e.p); }
    else if PhaseAt(s, e.p).FTmpOpen? {
      assert PhaseGood(Signing(kind), s, e.p, s.phases[e.p]);
      DumpMarked(kind, s, e.p);
    }
    else if s.tmp.Some? { RenameMarked(kind, s, e.p); }
    else { NoTmpMarked(kind, s, e.p); }
  }

  /** Dumping into the file itself puts a signature there that nobody committed. */
  lemma UnsafeDumpBreaks(kind: nat -> bool, s: FState, p: nat, k: nat)
    requires PhaseAt(s, p).FTmpOpen? && PhaseAt(s, p).tf == s.path && p !in s.commits && Next(PhaseAt(s, p), p, k)
    ensures !Right(Signing(kind), Blank, FGo1(Signing(kind), s, p))
  {
    var next := PhaseAt(s, p).next;
    SignedBy(kind, s.commits);
    var c := Compose(Signing(kind), s.commits, Blank);
    forall i | 0 <= i < |c.items| ensures c.items[i] != Num(p) { assert s.commits[i] in s.commits; }
    assert next.items[|next.items| - 1] == Num(p);
  }

  /** Renaming over a newer file loses somebody's signature; renaming what somebody else dumped, one's own. */
  lemma UnsafeRenameBreaks(kind: nat -> bool, s: FState, p: nat, k: nat)
    requires PhaseAt(s, p).FTmpDone? && !Safe(s, FGo(p)) && MarkedTmp(s) && Next(PhaseAt(s, p), p, k)
    requires PhaseAt(s, p).fd != s.path ==> k < |s.commits|
    ensures !Right(Signing(kind), Blank, FGo1(Signing(kind), s, p))
  {
    SignedBy(kind, s.commits + [p]);
    var c := Compose(Signing(kind), s.commits + [p], Blank);
    assert c.items[|s.commits|] == Num(p);
    var s' := FGo1(Signing(kind), s, p);
    assert s'.commits == s.commits + [p] && s'.path == s.tmp.value && s'.inodes == s.inodes;
  }

  /** Every unsafe action makes the file wrong at once. */
  lemma UnsafeBreaks(kind: nat -> bool, s: FState, e: FEvent)
    requires Good(Signing(kind), Blank, s) && Marked(s) && !Safe(s, e)
    ensures !Right(Signing(kind), Blank, FStep(Signing(kind), s, e))
  {
    var f := s.phases[e.p];
    assert PhaseGood(Signing(kind), s, e.p, f) && MarkedPhase(s.versions, e.p, f);
    var k :| 0 <= k < |s.versions| && s.versions[k] == f.fd;
    assert Next(f, e.p, k);
    if f.FTmpOpen? { UnsafeDumpBreaks(kind, s, e.p, k); } else { UnsafeRenameBreaks(kind, s, e.p, k); }
  }

  lemma {:induction false} SafeRunMarked(kind: nat -> bool, es: seq<FEvent>)
    requires SafeRun(Signing(kind), FStart(Blank), es)
    ensures Good(Signing(kind), Blank, FRun(Signing(kind), FStart(Blank), es))
    ensures Marked(FRun(Signing(kind), FStart(Blank), es))
  {
    SafeRunsSerialize(Signing(kind), Blank, es);
    if es != [] {
      var n := |es| - 1;
      SafePrefix(Signing(kind), FStart(Blank), es, n);
      SafeRunMarked(kind, es[..n]);
      SafeKeepsMarked(kind, FRun(Signing(kind), FStart(Blank), es[..n]), es[n]);
    }
  }

  ghost predicate RightThroughout(jobs: nat -> Job, d: Value, es: seq<FEvent>) {
    forall i :: 0 <= i <= |es| ==> Right(jobs, d, FRun(jobs, FStart(d), es[..i]))
  }

  lemma RightPrefix(jobs: nat -> Job, d: Value, es: seq<FEvent>, n: nat)
    requires RightThroughout(jobs, d, es) && n <= |es|
    ensures RightThroughout(jobs, d, es[..n]) && Right(jobs, d, FRun(jobs, FStart(d), es[..n]))
  {
    forall i | 0 <= i <= n ensures Right(jobs, d, FRun(jobs, FStart(d), es[..n][..i])) {
      assert es[..n][..i] == es[..i];
    }
  }

  lemma SafeSnoc(jobs: nat -> Job, s: FState, es: seq<FEvent>, n: nat)
    requires |es| == n + 1 && SafeRun(jobs, s, es[..n]) && Safe(FRun(jobs, s, es[..n]), es[n])
    ensures SafeRun(jobs, s, es)
  {
    forall i | 0 <= i < |es| ensures Safe(FRun(jobs, s, es[..i]), es[i]) {
      if i < n { assert es[..n][..i] == es[..i] && es[..n][i] == es[i]; }
    }
  }

  lemma {:induction false} RightImpliesSafe(kind: nat -> bool, es: seq<FEvent>)
    requires RightThroughout(Signing(kind), Blank, es)
    ensures SafeRun(Signing(kind), FStart(Blank), es)
  {
    if es != [] {
      var n := |es| - 1;
      RightPrefix(Signing(kind), Blank, es, n);
      RightImpliesSafe(kind, es[..n]);
      var s := FRun(Signing(kind), FStart(Blank), es[..n]);
      assert Safe(s, es[n]) by {
        RightPrefix(Signing(kind), Blank, es, n + 1);
        assert es[..n + 1] == es;
        SafeRunMarked(kind, es[..n]);
        if !Safe(s, es[n]) { UnsafeBreaks(kind, s, es[n]); }
      }
      SafeSnoc(Signing(kind), FStart(Blank), es, n);
    }
  }

  /** Over every interleaving of updaters and synchronisations that sign the document, the file is right
      throughout if and only if every action is safe. */
  lemma FlockRightIffSafe(kind: nat -> bool, es: seq<FEvent>)
    ensures RightThroughout(Signing(kind), Blank, es) <==> SafeRun(Signing(kind), FStart(Blank), es)
  {
    if RightThroughout(Signing(kind), Blank, es) { RightImpliesSafe(kind, es); }
    if SafeRun(Signing(kind), FStart(Blank), es) {
      forall i | 0 <= i <= |es| ensures Right(Signing(kind), Blank, FRun(Signing(kind), FStart(Blank), es[..i])) {
        SafePrefix(Signing(kind), FStart(Blank), es, i);
        SafeRunsSerialize(Signing(kind), Blank, es[..i]);
      }
    }
  }

  // ---------- the discipline that makes every action safe ----------

  /** A lock is granted only on the file now under the path and outside any synchronisation, and a
      synchronisation starts only while that file is not locked. */
  predicate Guarded(jobs: nat -> Job, s: FState, e: FEvent) {
    e.FGo? ==>
      match PhaseAt(s, e.p)
      case Opened(fd) => fd !in s.locks ==> fd == s.path && s.tlock.None?
      case FIdle => !jobs(e.p).checksFile && s.tlock.None? ==> s.path !in s.locks
      case _ => true
  }

  ghost predicate GuardedRun(jobs: nat -> Job, s: FState, es: seq<FEvent>) {
    forall i :: 0 <= i < |es| ==> Guarded(jobs, FRun(jobs, s, es[..i]), es[i])
  }

  ghost predicate Owns(jobs: nat -> Job, s: FState, p: nat, f: FPhase) {
    && (f.Opened? ==> jobs(p).checksFile)
    && (f.Held? ==> !jobs(p).checksFile && s.tlock == Some(p))
    && (Active(f) ==>
          && f.fd == s.path
          && (if jobs(p).checksFile then s.path in s.locks && s.locks[s.path] == p else s.tlock == Some(p)))
    && (f.FRenamed? ==>
          if jobs(p).checksFile then f.fd != s.path && f.fd in s.locks && s.locks[f.fd] == p else s.tlock == Some(p))
    && (f.FTmpOpen? ==> s.tmp == Some(f.tf))
    && (f.FTmpDone? ==> s.tmp.Some? && s.tmp.value < |s.inodes| && s.inodes[s.tmp.value] == Whole(f.next))
  }

  ghost predicate Exclusive(jobs: nat -> Job, s: FState) {
    && (forall l :: l in s.locks ==> l in s.versions)
    && (s.tlock.Some? ==> s.path !in s.locks)
    && forall p :: p in s.phases ==> Owns(jobs, s, p, s.phases[p])
  }

  lemma OwnsSafe(jobs: nat -> Job, d: Value, s: FState, e: FEvent)
    requires Good(jobs, d, s) && Exclusive(jobs, s)
    ensures Safe(s, e)
  {
    if e.p in s.phases { assert Owns(jobs, s, e.p, s.phases[e.p]); }
  }

  lemma QuietOwnsSelf(jobs: nat -> Job, s: FState, e: FEvent)
    requires Quiet(s, e) && Guarded(jobs, s, e) && (e.p in s.phases ==> Owns(jobs, s, e.p, s.phases[e.p]))
    ensures var s' := FStep(jobs, s, e); e.p in s'.phases ==> Owns(jobs, s', e.p, s'.phases[e.p])
  {
  }

  lemma QuietOwnsOther(jobs: nat -> Job, s: FState, e: FEvent, q: nat)
    requires Quiet(s, e) && Guarded(jobs, s, e) && (e.p in s.phases ==> Owns(jobs, s, e.p, s.phases[e.p]))
    requires q != e.p && q in s.phases && Owns(jobs, s, q, s.phases[q])
    ensures Owns(jobs, FStep(jobs, s, e), q, s.phases[q])
  {
  }

  lemma QuietLocks(jobs: nat -> Job, s: FState, e: FEvent)
    requires Quiet(s, e) && Guarded(jobs, s, e) && Exclusive(jobs, s) && s.path in s.versions
    requires e.p in s.phases ==> PhaseGood(jobs, s, e.p, s.phases[e.p])
    ensures var s' := FStep(jobs, s, e);
            (forall l :: l in s'.locks ==> l in s'.versions) && (s'.tlock.Some? ==> s'.path !in s'.locks)
  {
    if e.p in s.phases { assert Owns(jobs, s, e.p, s.phases[e.p]); }
  }

  lemma QuietExclusive(jobs: nat -> Job, d: Value, s: FState, e: FEvent)
    requires Good(jobs, d, s) && Exclusive(jobs, s) && Guarded(jobs, s, e) && Quiet(s, e)
    ensures Exclusive(jobs, FStep(jobs, s, e))
  {
    var s' := FStep(jobs, s, e);
    StepOthers(jobs, s, e);
    QuietLocks(jobs, s, e);
    QuietOwnsSelf(jobs, s, e);
    forall q | q in s'.phases ensures Owns(jobs, s', q, s'.phases[q]) {
      if q != e.p { QuietOwnsOther(jobs, s, e, q); }
    }
  }

  lemma DiskExclusive(jobs: nat -> Job, d: Value, s: FState, p: nat)
    requires Good(jobs, d, s) && Exclusive(jobs, s) && OnDisk(PhaseAt(s, p))
    ensures Exclusive(jobs, FGo1(jobs, s, p))
  {
    var s' := FGo1(jobs, s, p);
    assert Owns(jobs, s, p, s.phases[p]);
    forall q | q in s'.phases ensures Owns(jobs, s', q, s'.phases[q]) {
      if q != p {
        assert Owns(jobs, s, q, s.phases[q]) && PhaseGood(jobs, s, q, s.phases[q]);
        assert !Active(s.phases[q]);
      }
    }
  }

  lemma {:induction false} GuardedRunsSafe(jobs: nat -> Job, d: Value, es: seq<FEvent>)
    requires GuardedRun(jobs, FStart(d), es)
    ensures SafeRun(jobs, FStart(d), es) && Good(jobs, d, FRun(jobs, FStart(d), es)) && Exclusive(jobs, FRun(jobs, FStart(d), es))
  {
    if es != [] {
      var n := |es| - 1;
      forall i | 0 <= i < n ensures Guarded(jobs, FRun(jobs, FStart(d), es[..n][..i]), es[..n][i]) {
        assert es[..n][..i] == es[..i];
      }
      GuardedRunsSafe(jobs, d, es[..n]);
      var s, e := FRun(jobs, FStart(d), es[..n]), es[n];
      OwnsSafe(jobs, d, s, e);
      SafeKeepsGood(jobs, d, s, e);
      if Quiet(s, e) { QuietExclusive(jobs, d, s, e); } else { DiskExclusive(jobs, d, s, e.p); }
      SafeSnoc(jobs, FStart(d), es, n);
    }
  }

  /** If every lock is granted on the file still under the path and no synchronisation overlaps an
      update, the file is right throughout, whatever the mutators. */
  lemma FreshRunsSerialize(jobs: nat -> Job, d: Value, es: seq<FEvent>)
    requires GuardedRun(jobs, FStart(d), es)
    ensures RightThroughout(jobs, d, es)
  {
    GuardedRunsSafe(jobs, d, es);
    forall i | 0 <= i <= |es| ensures Right(jobs, d, FRun(jobs, FStart(d), es[..i])) {
      SafePrefix(jobs, FStart(d), es, i);
      SafeRunsSerialize(jobs, d, es[..i]);
    }
  }

  // ---------- runs that lose an update ----------

  function Thrice(p: nat): seq<FEvent> { [FGo(p), FGo(p), FGo(p)] }

  function Three(jobs: nat -> Job, s: FState, p: nat): FState {
    FGo1(jobs, FGo1(jobs, FGo1(jobs, s, p), p), p)
  }

  lemma FExtend(jobs: nat -> Job, s: FState, es: seq<FEvent>, e: FEvent)
    ensures FRun(jobs, s, es + [e]) == FStep(jobs, FRun(jobs, s, es), e)
  {
    assert (es + [e])[..|es|] == es;
  }

  lemma RunThree(jobs: nat -> Job, s: FState, es: seq<FEvent>, p: nat)
    ensures FRun(jobs, s, es + Thrice(p)) == Three(jobs, FRun(jobs, s, es), p)
  {
    var g := FGo(p);
    FExtend(jobs, s, es, g);
    FExtend(jobs, s, es + [g], g);
    FExtend(jobs, s, es + [g] + [g], g);
    assert es + Thrice(p) == es + [g] + [g] + [g];
  }

  /** From the grant to the mutated document. */
  lemma GrantToComputed(jobs: nat -> Job, s: FState, p: nat)
    requires PhaseAt(s, p).Opened? && PhaseAt(s, p).fd !in s.locks
    requires jobs(p).mutate(ReadInode(s, PhaseAt(s, p).fd)).Some?
    ensures var s' := Three(jobs, s, p);
      && SameDisk(s, s') && OthersStay(s, s', p)
      && PhaseAt(s', p) == FComputed(PhaseAt(s, p).fd, jobs(p).mutate(ReadInode(s, PhaseAt(s, p).fd)).value)
  {
  }

  /** From there to the rename: the file becomes that document. */
  lemma ComputedToRenamed(jobs: nat -> Job, s: FState, p: nat)
    requires PhaseAt(s, p).FComputed? && (s.tmp.Some? ==> s.tmp.value < |s.inodes|)
    ensures var s' := Three(jobs, s, p);
      && s'.commits == s.commits + [p] && s'.path < |s'.inodes| && s'.inodes[s'.path] == Whole(PhaseAt(s, p).next)
      && s'.tmp.None? && OthersStay(s, s', p)
  {
  }

  /** An updater that goes on alone from its grant replaces the file by its mutator applied to the file
      it had opened. */
  lemma GrantToRenamed(jobs: nat -> Job, s: FState, p: nat)
    requires PhaseAt(s, p).Opened? && PhaseAt(s, p).fd !in s.locks && (s.tmp.Some? ==> s.tmp.value < |s.inodes|)
    requires jobs(p).mutate(ReadInode(s, PhaseAt(s, p).fd)).Some?
    ensures var s' := Three(jobs, Three(jobs, s, p), p);
      && s'.commits == s.commits + [p] && s'.tmp.None? && OthersStay(s, s', p) && s'.path < |s'.inodes|
      && s'.inodes[s'.path] == Whole(jobs(p).mutate(ReadInode(s, PhaseAt(s, p).fd)).value)
  {
    var mid := Three(jobs, s, p);
    GrantToComputed(jobs, s, p);
    ComputedToRenamed(jobs, mid, p);
  }

  /** A participant that finds its lock free and runs alone commits its mutator and gives the lock back;
      so nobody waits forever for a participant that is done. */
  lemma AloneCommits(jobs: nat -> Job, s: FState, p: nat)
    requires PhaseAt(s, p).FIdle? && (if jobs(p).checksFile then s.path !in s.locks else s.tlock.None?)
    requires jobs(p).mutate(ReadInode(s, s.path)).Some? && (s.tmp.Some? ==> s.tmp.value < |s.inodes|)
    ensures var s' := FGo1(jobs, Three(jobs, Three(jobs, FGo1(jobs, s, p), p), p), p);
      && PhaseAt(s', p).FFinished? && s'.commits == s.commits + [p] && s'.tmp.None?
      && s'.path < |s'.inodes| && s'.inodes[s'.path] == Whole(jobs(p).mutate(ReadInode(s, s.path)).value)
      && s'.locks == s.locks && s'.tlock == s.tlock
  {
    var s4 := Three(jobs, FGo1(jobs, s, p), p);
    AloneToComputed(jobs, s, p);
    ComputedToRenamed(jobs, s4, p);
    ComputedKeepsLocks(jobs, s4, p);
    RenamedReleases(jobs, Three(jobs, s4, p), p);
    if jobs(p).checksFile { assert s.locks[s.path := p] - {s.path} == s.locks; }
  }

  lemma RenamedReleases(jobs: nat -> Job, s: FState, p: nat)
    requires PhaseAt(s, p).FRenamed?
    ensures var s' := FGo1(jobs, s, p);
      && PhaseAt(s', p).FFinished? && SameDisk(s, s')
      && (if jobs(p).checksFile then s'.locks == s.locks - {PhaseAt(s, p).fd} && s'.tlock == s.tlock
          else s'.locks == s.locks && s'.tlock.None?)
  {
  }

  lemma AloneToComputed(jobs: nat -> Job, s: FState, p: nat)
    requires PhaseAt(s, p).FIdle? && (if jobs(p).checksFile then s.path !in s.locks else s.tlock.None?)
    requires jobs(p).mutate(ReadInode(s, s.path)).Some?
    ensures var s' := Three(jobs, FGo1(jobs, s, p), p);
      && PhaseAt(s', p) == FComputed(s.path, jobs(p).mutate(ReadInode(s, s.path)).value)
      && SameDisk(s, s')
      && s'.locks == (if jobs(p).checksFile then s.locks[s.path := p] else s.locks)
      && s'.tlock == (if jobs(p).checksFile then s.tlock else Some(p))
  {
  }

  lemma ComputedKeepsLocks(jobs: nat -> Job, s: FState, p: nat)
    requires PhaseAt(s, p).FComputed?
    ensures var s' := Three(jobs, s, p);
      s'.locks == s.locks && s'.tlock == s.tlock && PhaseAt(s', p) == FRenamed(PhaseAt(s, p).fd)
  {
  }

  /** So does one whose serialisation fails, and one whose mutator raises. */
  lemma FailureReleases(jobs: nat -> Job, s: FState, p: nat)
    requires Active(PhaseAt(s, p))
    ensures var fd, s' := PhaseAt(s, p).fd, FStep(jobs, s, FAbort(p));
      && PhaseAt(s', p).FRaised? && SameDisk(s, s')
      && (if jobs(p).checksFile then fd !in s'.locks && s'.tlock == s.tlock else s'.tlock.None? && s'.locks == s.locks)
    ensures PhaseAt(s, p).FLoaded? && jobs(p).mutate(PhaseAt(s, p).data).None? ==>
              FStep(jobs, s, FGo(p)) == FStep(jobs, s, FAbort(p))
  {
  }

  /** All participants write to one temporary file: one that opens it again before the dump of another only
      truncates it, and the other still commits what it dumps. */
  lemma LateOpenHarmless(jobs: nat -> Job, s: FState, p: nat, q: nat)
    requires p != q && PhaseAt(s, p).FTmpOpen? && s.tmp == Some(PhaseAt(s, p).tf) && PhaseAt(s, p).tf < |s.inodes|
    requires PhaseAt(s, q).FComputed?
    ensures var s' := FGo1(jobs, FGo1(jobs, FGo1(jobs, s, q), p), p);
      && s'.path < |s'.inodes| && s'.inodes[s'.path] == Whole(PhaseAt(s, p).next) && s'.commits == s.commits + [p]
  {
  }

  /** The file holds fewer signatures than there were commits. */
  ghost predicate Lost(s: FState) {
    s.path < |s.inodes| && s.inodes[s.path].Whole? && |Items(s.inodes[s.path].doc)| < |s.commits|
  }

  lemma StaleShort(kind: nat -> bool, s: FState, p: nat)
    requires Good(Signing(kind), Blank, s) && Marked(s) && PhaseAt(s, p).Opened? && PhaseAt(s, p).fd != s.path
    ensures |Items(ReadInode(s, PhaseAt(s, p).fd))| < |s.commits|
  {
    assert PhaseGood(Signing(kind), s, p, s.phases[p]);
    var k :| 0 <= k < |s.versions| && s.versions[k] == s.phases[p].fd;
    assert MarkedInode(s.inodes[s.versions[k]], k);
  }

  /** As soon as a guarded run reaches a state where an updater can lock a file that is no longer under
      the path, letting that updater go on alone loses a committed update. */
  lemma StaleGrantLosesUpdate(kind: nat -> bool, es: seq<FEvent>, p: nat)
    requires GuardedRun(Signing(kind), FStart(Blank), es)
    requires var s := FRun(Signing(kind), FStart(Blank), es);
      PhaseAt(s, p).Opened? && PhaseAt(s, p).fd !in s.locks && PhaseAt(s, p).fd != s.path
    ensures Lost(FRun(Signing(kind), FStart(Blank), es + Thrice(p) + Thrice(p)))
  {
    var jobs := Signing(kind);
    var s := FRun(jobs, FStart(Blank), es);
    GuardedRunsSafe(jobs, Blank, es);
    SafeRunMarked(kind, es);
    StaleShort(kind, s, p);
    RunThree(jobs, FStart(Blank), es, p);
    RunThree(jobs, FStart(Blank), es + Thrice(p), p);
    GrantToRenamed(jobs, s, p);
  }

  /** What an updater finds when it opens the file and runs alone to its commit. */
  lemma OpenToRenamed(jobs: nat -> Job, s: FState, p: nat)
    requires PhaseAt(s, p).FIdle? && jobs(p).checksFile && s.path !in s.locks
    requires jobs(p).mutate(ReadInode(s, s.path)).Some? && (s.tmp.Some? ==> s.tmp.value < |s.inodes|)
    ensures var s' := Three(jobs, Three(jobs, FGo1(jobs, s, p), p), p);
      s'.commits == s.commits + [p] && s'.tmp.None? && OthersStay(s, s', p)
  {
    var s1 := FGo1(jobs, s, p);
    StepOthers(jobs, s, FGo(p));
    GrantToRenamed(jobs, s1, p);
  }

  lemma ComputedKnows(kind: nat -> bool, s: FState, q: nat)
    requires Good(Signing(kind), Blank, s) && Marked(s) && Exclusive(Signing(kind), s)
    requires PhaseAt(s, q).FComputed? && !kind(q)
    ensures s.path !in s.locks && |Items(PhaseAt(s, q).next)| <= |s.commits| + 1
  {
    assert Owns(Signing(kind), s, q, s.phases[q]) && MarkedPhase(s.versions, q, s.phases[q]);
    assert Next(s.phases[q], q, |s.commits|);
  }

  /** The file lock does not keep a synchronisation out: once it has computed its document, an updater
      that opens and locks the very file under the path commits, and the synchronisation then
      overwrites that commit. */
  lemma OverlappingSyncLosesUpdate(kind: nat -> bool, es: seq<FEvent>, q: nat, p: nat)
    requires GuardedRun(Signing(kind), FStart(Blank), es) && !kind(q) && kind(p)
    requires var s := FRun(Signing(kind), FStart(Blank), es); PhaseAt(s, q).FComputed? && PhaseAt(s, p).FIdle?
    ensures var s := FRun(Signing(kind), FStart(Blank), es + [FGo(p)] + Thrice(p) + Thrice(p) + Thrice(q));
      Lost(s) && p in s.commits
  {
    var jobs := Signing(kind);
    var s := FRun(jobs, FStart(Blank), es);
    GuardedRunsSafe(jobs, Blank, es);
    SafeRunMarked(kind, es);
    ComputedKnows(kind, s, q);
    OpenToRenamed(jobs, s, p);
    FExtend(jobs, FStart(Blank), es, FGo(p));
    RunThree(jobs, FStart(Blank), es + [FGo(p)], p);
    RunThree(jobs, FStart(Blank), es + [FGo(p)] + Thrice(p), p);
    RunThree(jobs, FStart(Blank), es + [FGo(p)] + Thrice(p) + Thrice(p), q);
    ComputedToRenamed(jobs, Three(jobs, Three(jobs, FGo1(jobs, s, p), p), p), q);
  }
}
