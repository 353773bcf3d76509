/** One user's sessions sharing one cached working memory: HTTP requests (open, turn, close),
    websocket sessions (open, any number of reload-and-turn, close).  Closing writes the session's
    memory back without reloading it.

    The history stays right exactly in the runs where every HTTP turn and every close is `Safe`;
    both directions are proved, for the in-memory backend (sessions hold references) and for the
    file backend (sessions hold copies). */
module SessionProtocol {
  import opened Prelude
  import opened WorkingMemory

  datatype Event =
    | Open(id: nat)
    | HttpTurn(id: nat, turn: Turn)
    | WsTurn(id: nat, turn: Turn)
    | Close(id: nat)

  // ---------- in-memory backend ----------

  datatype State = State(
    heap: seq<seq<Message>>,       // histories of the memory objects
    cached: Option<nat>,           // the object in the cache
    sessions: map<nat, nat>,       // open session -> its object
    said: seq<Message>,            // every message of every turn, in order
    joined: set<nat>)              // sessions that loaded a cached object or wrote theirs back

  function Start(): State {
    State([], None, map[], [], {})
  }

  /** `load_working_memory_from_cache`: the cached object, or a new empty one. */
  function Load(s: State, id: nat): State {
    match s.cached
    case Some(r) => s.(sessions := s.sessions[id := r], joined := s.joined + {id})
    case None => s.(heap := s.heap + [[]], sessions := s.sessions[id := |s.heap|])
  }

  function RunTurn(s: State, id: nat, t: Turn): State
    requires id in s.sessions
  {
    var r := s.sessions[id];
    if r >= |s.heap| then s
    else s.(heap := s.heap[r := Extended(s.heap[r], Said(t))], cached := Some(r),
            said := s.said + Said(t), joined := s.joined + {id})
  }

  function Step(s: State, e: Event): State {
    match e
    case Open(id) => Load(s.(joined := s.joined - {id}), id)
    case HttpTurn(id, t) => if id !in s.sessions then s else RunTurn(s, id, t)
    case WsTurn(id, t) => if id !in s.sessions then s else RunTurn(Load(s, id), id, t)
    case Close(id) =>
      if id !in s.sessions then s
      else s.(cached := Some(s.sessions[id]), sessions := s.sessions - {id}, joined := s.joined - {id})
  }

  function Run(s: State, es: seq<Event>): State {
    if es == [] then s else Step(Run(s, es[..|es| - 1]), es[|es| - 1])
  }

  /** The promise: what the next session will load is the last 20 messages of all turns. */
  ghost predicate Right(s: State) {
    match s.cached
    case Some(r) => r < |s.heap| && s.heap[r] == Window(s.said)
    case None => s.said == []
  }

  /** Objects other than the cached one are still empty. */
  ghost predicate Inv(s: State) {
    && Right(s)
    && (forall id :: id in s.sessions ==> s.sessions[id] < |s.heap|)
    && (forall i :: 0 <= i < |s.heap| && s.cached != Some(i) ==> s.heap[i] == [])
  }

  /** A turn without reload, or a close, is safe when the session still holds the cached object, or
      nothing is cached, or nothing has been said. */
  predicate Safe(s: State, e: Event) {
    (e.HttpTurn? || e.Close?) && e.id in s.sessions ==>
      s.cached.None? || s.cached == Some(s.sessions[e.id]) || s.said == []
  }

  /** The session's object still shows the whole conversation. */
  lemma HoldsWindow(s: State, id: nat)
    requires Inv(s) && id in s.sessions
    requires s.cached.None? || s.cached == Some(s.sessions[id]) || s.said == []
    ensures s.heap[s.sessions[id]] == Window(s.said)
  {
    assert Window([]) == [];
  }

  lemma TurnKeepsInv(s: State, id: nat, t: Turn)
    requires Inv(s) && id in s.sessions
    requires s.cached.None? || s.cached == Some(s.sessions[id]) || s.said == []
    ensures Inv(RunTurn(s, id, t))
  {
    var r := s.sessions[id];
    HoldsWindow(s, id);
    ExtendedIsWindow(s.said, Said(t));
    var s' := RunTurn(s, id, t);
    assert s'.heap[r] == Window(s'.said);
    forall i | 0 <= i < |s'.heap| && s'.cached != Some(i) ensures s'.heap[i] == [] {
      if s.cached == Some(i) { assert s.heap[i] == Window(s.said) && Window([]) == []; }
    }
  }

  lemma LoadKeepsInv(s: State, id: nat)
    requires Inv(s)
    ensures var s' := Load(s, id);
      Inv(s') && id in s'.sessions && s'.said == s.said && (s'.cached.None? || s'.cached == Some(s'.sessions[id]))
  {
  }

  lemma CloseKeepsInv(s: State, id: nat)
    requires Inv(s) && Safe(s, Close(id)) && id in s.sessions
    ensures Inv(Step(s, Close(id)))
  {
    HoldsWindow(s, id);
    var s' := Step(s, Close(id));
    forall i | 0 <= i < |s'.heap| && s'.cached != Some(i) ensures s'.heap[i] == [] {
      if s.cached == Some(i) { assert s.heap[i] == Window(s.said) && Window([]) == []; }
    }
  }

  lemma SafeKeepsInv(s: State, e: Event)
    requires Inv(s) && Safe(s, e)
    ensures Inv(Step(s, e))
  {
    match e
    case Open(id) => LoadKeepsInv(s.(joined := s.joined - {id}), id);
    case HttpTurn(id, t) => if id in s.sessions { TurnKeepsInv(s, id, t); }
    case WsTurn(id, t) =>
      if id in s.sessions {
        LoadKeepsInv(s, id);
        TurnKeepsInv(Load(s, id), id, t);
      }
    case Close(id) => if id in s.sessions { CloseKeepsInv(s, id); }
  }

  lemma UnsafeTurnBreaks(s: State, id: nat, t: Turn)
    requires Inv(s) && !Safe(s, HttpTurn(id, t))
    ensures !Right(RunTurn(s, id, t))
  {
    var r := s.sessions[id];
    assert s.heap[r] == [] && Window([]) == [];
    ExtendedIsWindow([], Said(t));
    assert [] + Said(t) == Said(t);
    assert RunTurn(s, id, t).heap[r] == Window(Said(t));
    ShorterWindow(s.said, Said(t));
  }

  /** A turn alone never shows what was said before it. */
  lemma ShorterWindow(said: seq<Message>, ms: seq<Message>)
    requires said != [] && |ms| <= 2
    ensures |Window(ms)| < |Window(said + ms)|
  {
  }

  lemma UnsafeBreaks(s: State, e: Event)
    requires Inv(s) && !Safe(s, e)
    ensures !Right(Step(s, e))
  {
    if e.HttpTurn? { UnsafeTurnBreaks(s, e.id, e.turn); }
    else { assert s.heap[s.sessions[e.id]] == [] && |Window(s.said)| > 0; }
  }

  ghost predicate SafeRun(es: seq<Event>) {
    forall i :: 0 <= i < |es| ==> Safe(Run(Start(), es[..i]), es[i])
  }

  ghost predicate RightThroughout(es: seq<Event>) {
    forall i :: 0 <= i <= |es| ==> Right(Run(Start(), es[..i]))
  }

  lemma {:induction false} SafeRunInv(es: seq<Event>, i: nat)
    requires SafeRun(es) && i <= |es|
    ensures Inv(Run(Start(), es[..i]))
  {
    if i > 0 {
      SafeRunInv(es, i - 1);
      assert es[..i][..i - 1] == es[..i - 1];
      SafeKeepsInv(Run(Start(), es[..i - 1]), es[i - 1]);
    }
  }

  lemma RunStep(es: seq<Event>, i: nat)
    requires i < |es|
    ensures Run(Start(), es[..i + 1]) == Step(Run(Start(), es[..i]), es[i])
  {
    assert es[..i + 1][..i] == es[..i];
  }

  lemma {:induction false} RightRunSafe(es: seq<Event>, i: nat)
    requires RightThroughout(es) && i <= |es|
    ensures Inv(Run(Start(), es[..i]))
    ensures i < |es| ==> Safe(Run(Start(), es[..i]), es[i])
  {
    if i > 0 {
      RightRunSafe(es, i - 1);
      RunStep(es, i - 1);
      SafeKeepsInv(Run(Start(), es[..i - 1]), es[i - 1]);
    }
    if i < |es| {
      RunStep(es, i);
      assert Right(Run(Start(), es[..i + 1]));
      if !Safe(Run(Start(), es[..i]), es[i]) {
        UnsafeBreaks(Run(Start(), es[..i]), es[i]);
      }
    }
  }

  /** Over every interleaving: the cached history is the last 20 messages of all turns at every
      moment, if and only if no close and no HTTP turn was made by a session that lost the cached
      object after something had been said. */
  lemma HistoryRightIffSafe(es: seq<Event>)
    ensures RightThroughout(es) <==> SafeRun(es)
  {
    if SafeRun(es) {
      forall i | 0 <= i <= |es| ensures Right(Run(Start(), es[..i])) { SafeRunInv(es, i); }
    }
    if RightThroughout(es) {
      forall i | 0 <= i < |es| ensures Safe(Run(Start(), es[..i]), es[i]) { RightRunSafe(es, i); }
    }
  }

  /** A request of its own, or a websocket message, adds its turn to the conversation whatever the other
      sessions hold. */
  lemma RequestExtends(s: State, id: nat, t: Turn)
    requires Inv(s)
    ensures var s' := Step(Step(Step(s, Open(id)), HttpTurn(id, t)), Close(id));
      && Inv(s') && s'.said == s.said + Said(t)
      && s'.cached.Some? && s'.cached.value < |s'.heap| && s'.heap[s'.cached.value] == Window(s.said + Said(t))
  {
    var s1 := Step(s, Open(id));
    SafeKeepsInv(s, Open(id));
    SafeKeepsInv(s1, HttpTurn(id, t));
    SafeKeepsInv(Step(s1, HttpTurn(id, t)), Close(id));
  }

  lemma MessageExtends(s: State, id: nat, t: Turn)
    requires Inv(s) && id in s.sessions
    ensures var s' := Step(s, WsTurn(id, t));
      && Inv(s') && s'.said == s.said + Said(t)
      && s'.cached.Some? && s'.cached.value < |s'.heap| && s'.heap[s'.cached.value] == Window(s.said + Said(t))
  {
    SafeKeepsInv(s, WsTurn(id, t));
  }

  /** The documented discipline: only sessions that opened after the first write-back, or have run a
      turn themselves, act on a filled cache. */
  predicate Disciplined(s: State, e: Event) {
    (e.HttpTurn? || e.Close?) && e.id in s.sessions ==> s.cached.None? || e.id in s.joined
  }

  ghost predicate DisciplinedRun(es: seq<Event>) {
    forall i :: 0 <= i < |es| ==> Disciplined(Run(Start(), es[..i]), es[i])
  }

  ghost predicate JoinedHold(s: State) {
    forall id :: id in s.joined && id in s.sessions ==> s.cached == Some(s.sessions[id])
  }

  lemma {:induction false} DisciplinedJoined(es: seq<Event>, i: nat)
    requires DisciplinedRun(es) && i <= |es|
    ensures JoinedHold(Run(Start(), es[..i]))
    ensures i < |es| ==> Safe(Run(Start(), es[..i]), es[i])
  {
    if i > 0 {
      DisciplinedJoined(es, i - 1);
      assert es[..i][..i - 1] == es[..i - 1];
    }
  }

  /** The discipline suffices. */
  lemma DisciplineKeepsHistory(es: seq<Event>)
    requires DisciplinedRun(es)
    ensures RightThroughout(es)
  {
    forall i | 0 <= i < |es| ensures Safe(Run(Start(), es[..i]), es[i]) { DisciplinedJoined(es, i); }
    HistoryRightIffSafe(es);
  }

  /** It is needed: a websocket session opened before the first turn and closed after it, without
      ever receiving a message, empties the history. */
  lemma IdleSessionErasesHistory(user: Message, answer: Message)
    ensures var es := [Open(0), Open(1), WsTurn(1, Answered(user, answer)), Close(0)];
            var s := Run(Start(), es);
            s.said == [user, answer] && s.cached.Some? && s.cached.value < |s.heap| && s.heap[s.cached.value] == []
  {
    var t := Answered(user, answer);
    var es := [Open(0), Open(1), WsTurn(1, t), Close(0)];
    var s1 := Step(Start(), Open(0));
    var s2 := Step(s1, Open(1));
    var s3 := Step(s2, WsTurn(1, t));
    assert es[..3][..2] == es[..2] && es[..2][..1] == es[..1] && es[..1][..0] == [];
    assert Run(Start(), es[..1]) == s1;
    assert Run(Start(), es[..2]) == s2;
    assert Run(Start(), es[..3]) == s3;
    assert s2.heap == [[], []] && s2.cached.None? && s2.sessions[0] == 0;
    assert s3.sessions[0] == 0 && s3.heap[0] == [] && s3.said == [] + [user, answer];
  }

  // ---------- file backend ----------

  /** A session's own copy, and how many messages had been said when it was taken. */
  datatype Copy = Copy(history: seq<Message>, seen: nat)

  datatype FileState = FileState(
    stored: Option<seq<Message>>,
    sessions: map<nat, Copy>,
    said: seq<Message>)

  function FileLoad(s: FileState): Copy {
    match s.stored
    case Some(h) => Copy(h, |s.said|)
    case None => Copy([], |s.said|)
  }

  function FileTurn(s: FileState, id: nat, c: Copy, t: Turn): FileState {
    var h := Extended(c.history, Said(t));
    FileState(Some(h), s.sessions[id := Copy(h, if c.seen == |s.said| then |s.said| + |Said(t)| else c.seen)],
              s.said + Said(t))
  }

  function FileStep(s: FileState, e: Event): FileState {
    match e
    case Open(id) => s.(sessions := s.sessions[id := FileLoad(s)])
    case HttpTurn(id, t) => if id !in s.sessions then s else FileTurn(s, id, s.sessions[id], t)
    case WsTurn(id, t) => if id !in s.sessions then s else FileTurn(s, id, FileLoad(s), t)
    case Close(id) =>
      if id !in s.sessions then s
      else s.(stored := Some(s.sessions[id].history), sessions := s.sessions - {id})
  }

  ghost predicate FileRight(s: FileState) {
    match s.stored
    case Some(h) => h == Window(s.said)
    case None => s.said == []
  }

  ghost predicate FileInv(s: FileState) {
    && FileRight(s)
    && forall id :: id in s.sessions ==> CopyOk(s, id)
  }

  /** The acting session's copy is current: nothing was said since it was taken. */
  predicate FileSafe(s: FileState, e: Event) {
    (e.HttpTurn? || e.Close?) && e.id in s.sessions ==> s.sessions[e.id].seen == |s.said|
  }

  ghost predicate CopyOk(s: FileState, id: nat)
    requires id in s.sessions
  {
    s.sessions[id].seen <= |s.said| && s.sessions[id].history == Window(s.said[..s.sessions[id].seen])
  }

  lemma FileLoadCurrent(s: FileState)
    requires FileRight(s)
    ensures FileLoad(s) == Copy(Window(s.said), |s.said|)
  {
  }

  /** A copy of a prefix of what was said stays one when more is said. */
  lemma CopySurvives(s: FileState, s': FileState, j: nat)
    requires j in s.sessions && CopyOk(s, j) && j in s'.sessions && s'.sessions[j] == s.sessions[j] && s.said <= s'.said
    ensures CopyOk(s', j)
  {
    var n := s.sessions[j].seen;
    assert s'.said[..n] == s.said[..n];
  }

  lemma WholeWindow(h: seq<Message>)
    ensures Window(h[..|h|]) == Window(h)
  {
    assert h[..|h|] == h;
  }

  lemma TurnCopy(s: FileState, id: nat, t: Turn)
    ensures var s' := FileTurn(s, id, Copy(Window(s.said), |s.said|), t); CopyOk(s', id) && FileRight(s')
  {
    var all := s.said + Said(t);
    ExtendedIsWindow(s.said, Said(t));
    WholeWindow(all);
    var s' := FileTurn(s, id, Copy(Window(s.said), |s.said|), t);
    assert s'.said == all && s'.sessions[id] == Copy(Window(all), |all|);
  }

  /** A turn on a current copy. */
  lemma FileTurnKeeps(s: FileState, id: nat, t: Turn)
    requires FileInv(s)
    ensures FileInv(FileTurn(s, id, Copy(Window(s.said), |s.said|), t))
  {
    var s' := FileTurn(s, id, Copy(Window(s.said), |s.said|), t);
    TurnCopy(s, id, t);
    forall j | j in s'.sessions ensures CopyOk(s', j) {
      if j != id { CopySurvives(s, s', j); }
    }
  }

  lemma FileSafeKeeps(s: FileState, e: Event)
    requires FileInv(s) && FileSafe(s, e)
    ensures FileInv(FileStep(s, e))
  {
    assert s.said[..|s.said|] == s.said;
    FileLoadCurrent(s);
    match e
    case Open(id) =>
    case HttpTurn(id, t) => if id in s.sessions { assert CopyOk(s, id); FileTurnKeeps(s, id, t); }
    case WsTurn(id, t) => if id in s.sessions { FileTurnKeeps(s, id, t); }
    case Close(id) => if id in s.sessions { assert CopyOk(s, id); }
  }

  /** With the file cache as well. */
  lemma FileRequestExtends(s: FileState, id: nat, t: Turn)
    requires FileInv(s)
    ensures var s' := FileStep(FileStep(FileStep(s, Open(id)), HttpTurn(id, t)), Close(id));
      FileInv(s') && s'.said == s.said + Said(t) && s'.stored == Some(Window(s.said + Said(t)))
  {
    var s1 := FileStep(s, Open(id));
    var s2 := FileStep(s1, HttpTurn(id, t));
    FileLoadCurrent(s);
    FileSafeKeeps(s, Open(id));
    FileSafeKeeps(s1, HttpTurn(id, t));
    TurnCopy(s1, id, t);
    FileSafeKeeps(s2, Close(id));
  }

  lemma FileMessageExtends(s: FileState, id: nat, t: Turn)
    requires FileInv(s) && id in s.sessions
    ensures var s' := FileStep(s, WsTurn(id, t));
      FileInv(s') && s'.said == s.said + Said(t) && s'.stored == Some(Window(s.said + Said(t)))
  {
    FileSafeKeeps(s, WsTurn(id, t));
  }

  /** Windows of a stale and of the current text differ, whatever is appended to both. */
  lemma StaleWindow(said: seq<Message>, seen: nat, ms: seq<Message>)
    requires seen < |said| && NoDup(said + ms) && |ms| <= 2
    ensures Window(said[..seen] + ms) != Window(said + ms)
  {
    var stale, now := said[..seen] + ms, said + ms;
    var k := |ms| + 1;
    WindowAt(now, k);
    if seen > 0 {
      WindowAt(stale, k);
      assert stale[|stale| - k] == said[seen - 1] == now[seen - 1];
      assert now[|now| - k] == now[|said| - 1];
    }
  }

  /** With distinct messages, a stale copy always shows. */
  lemma FileUnsafeBreaks(s: FileState, e: Event)
    requires FileInv(s) && !FileSafe(s, e)
    requires NoDup(FileStep(s, e).said)
    ensures !FileRight(FileStep(s, e))
  {
    assert CopyOk(s, e.id);
    var seen := s.sessions[e.id].seen;
    if e.HttpTurn? {
      ExtendedIsWindow(s.said[..seen], Said(e.turn));
      StaleWindow(s.said, seen, Said(e.turn));
    } else {
      assert s.said + [] == s.said && s.said[..seen] + [] == s.said[..seen];
      StaleWindow(s.said, seen, []);
    }
  }

  /** One action keeps the stored history right exactly when it is safe. */
  lemma FileRightIffSafe(s: FileState, e: Event)
    requires FileInv(s) && NoDup(FileStep(s, e).said)
    ensures FileRight(FileStep(s, e)) <==> FileSafe(s, e)
  {
    if FileSafe(s, e) { FileSafeKeeps(s, e); } else { FileUnsafeBreaks(s, e); }
  }

  function FileRun(s: FileState, es: seq<Event>): FileState {
    if es == [] then s else FileStep(FileRun(s, es[..|es| - 1]), es[|es| - 1])
  }

  lemma {:induction false} FilePrefix(s: FileState, es: seq<Event>, i: nat)
    requires i <= |es|
    ensures FileRun(s, es[..i]).said <= FileRun(s, es).said
  {
    if i == |es| {
      assert es[..i] == es;
    } else {
      assert es[..|es| - 1][..i] == es[..i];
      FilePrefix(s, es[..|es| - 1], i);
    }
  }

  /** The stored state after the first i actions of a run that starts with no file. */
  function FileAt(es: seq<Event>, i: nat): FileState
    requires i <= |es|
  {
    FileRun(FileState(None, map[], []), es[..i])
  }

  ghost predicate FileRightUpTo(es: seq<Event>, n: nat)
    requires n <= |es|
  {
    forall i :: 0 <= i <= n ==> FileRight(FileAt(es, i))
  }

  ghost predicate FileSafeUpTo(es: seq<Event>, n: nat)
    requires n <= |es|
  {
    forall i :: 0 <= i < n ==> FileSafe(FileAt(es, i), es[i])
  }

  lemma FileAtNext(es: seq<Event>, i: nat)
    requires i < |es|
    ensures FileAt(es, i + 1) == FileStep(FileAt(es, i), es[i])
    ensures NoDup(FileAt(es, |es|).said) ==> NoDup(FileAt(es, i + 1).said)
  {
    assert es[..i + 1][..i] == es[..i];
    assert es[..|es|] == es;
    FilePrefix(FileState(None, map[], []), es, i + 1);
  }

  lemma FileRunStep(es: seq<Event>, n: nat)
    requires n < |es| && NoDup(FileAt(es, |es|).said) && FileInv(FileAt(es, n)) && FileRight(FileAt(es, n + 1))
    ensures FileSafe(FileAt(es, n), es[n]) && FileInv(FileAt(es, n + 1))
  {
    var s := FileAt(es, n);
    FileAtNext(es, n);
    FileRightIffSafe(s, es[n]);
    FileSafeKeeps(s, es[n]);
  }

  lemma FileSafeNext(es: seq<Event>, n: nat)
    requires n < |es| && FileSafeUpTo(es, n) && FileSafe(FileAt(es, n), es[n])
    ensures FileSafeUpTo(es, n + 1)
  {
  }

  lemma FileRightPrefix(es: seq<Event>, n: nat)
    requires n < |es| && FileRightUpTo(es, n + 1)
    ensures FileRightUpTo(es, n) && FileRight(FileAt(es, n + 1))
  {
  }

  lemma {:induction false} FileRunInv(es: seq<Event>, n: nat)
    requires n <= |es| && NoDup(FileAt(es, |es|).said) && FileRightUpTo(es, n)
    ensures FileInv(FileAt(es, n)) && FileSafeUpTo(es, n)
  {
    if n > 0 {
      FileRightPrefix(es, n - 1);
      FileRunInv(es, n - 1);
      FileRunStep(es, n - 1);
      FileSafeNext(es, n - 1);
    }
  }

  lemma {:induction false} FileSafeInv(es: seq<Event>, n: nat)
    requires n <= |es| && FileSafeUpTo(es, n)
    ensures FileInv(FileAt(es, n)) && FileRightUpTo(es, n)
  {
    if n > 0 {
      FileSafeInv(es, n - 1);
      FileAtNext(es, n - 1);
      FileSafeKeeps(FileAt(es, n - 1), es[n - 1]);
    }
  }

  /** Over every interleaving of turns with distinct messages: the stored history is right at every
      moment if and only if every HTTP turn and every close was made on a current copy. */
  lemma FileHistoryRightIffSafe(es: seq<Event>)
    requires NoDup(FileAt(es, |es|).said)
    ensures FileRightUpTo(es, |es|) <==> FileSafeUpTo(es, |es|)
  {
    if FileRightUpTo(es, |es|) { FileRunInv(es, |es|); }
    if FileSafeUpTo(es, |es|) { FileSafeInv(es, |es|); }
  }
}
