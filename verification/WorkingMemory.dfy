/** A user's working memory: the sliding window of the conversation, and the objects that load it
    from the in-memory cache, extend it and put it back.  The cache hands out the object itself. */
module WorkingMemory {

  const MAX_HISTORY: nat := 20

  datatype Message = Message(id: nat, fromUser: bool, text: string)

  /** What one normally returning turn appends: nothing for a fast reply, the user's message alone
      when recalling memories failed, both messages otherwise. */
  datatype Turn = FastReply | RecallFailed(user: Message) | Answered(user: Message, answer: Message)

  function Said(t: Turn): seq<Message> {
    match t
    case FastReply => []
    case RecallFailed(user) => [user]
    case Answered(user, answer) => [user, answer]
  }

  /** The last 20 messages. */
  function Window(h: seq<Message>): (w: seq<Message>)
    ensures |w| == if |h| < 20 then |h| else 20
  {
    if |h| <= MAX_HISTORY then h else h[|h| - MAX_HISTORY..]
  }

  /** The k-th message from the end of the window is the k-th from the end of the whole. */
  lemma WindowAt(h: seq<Message>, k: nat)
    requires 1 <= k <= |Window(h)|
    ensures Window(h)[|Window(h)| - k] == h[|h| - k]
  {
  }

  /** Messages appended one at a time, cutting the history after each. */
  function Extended(h: seq<Message>, ms: seq<Message>): seq<Message>
    decreases |ms|
  {
    if ms == [] then h else Extended(Window(h + [ms[0]]), ms[1..])
  }

  lemma WindowAppend(h: seq<Message>, m: Message)
    ensures Window(Window(h) + [m]) == Window(h + [m])
  {
  }

  lemma ExtendedUnfold(w: seq<Message>, m: Message, ms: seq<Message>)
    ensures Extended(w, [m] + ms) == Extended(Window(w + [m]), ms)
  {
  }

  lemma Regroup(h: seq<Message>, m: Message, ms: seq<Message>)
    ensures h + ([m] + ms) == h + [m] + ms
  {
  }

  /** Cutting after every message gives the window of everything that was said. */
  lemma {:induction false} ExtendedIsWindow(h: seq<Message>, ms: seq<Message>)
    ensures Extended(Window(h), ms) == Window(h + ms)
    decreases |ms|
  {
    if ms == [] {
      assert h + ms == h;
    } else {
      var m, rest := ms[0], ms[1..];
      assert ms == [m] + rest;
      ExtendedUnfold(Window(h), m, rest);
      WindowAppend(h, m);
      ExtendedIsWindow(h + [m], rest);
      Regroup(h, m, rest);
    }
  }

  lemma ExtendedOne(h: seq<Message>, m: Message)
    ensures Extended(h, [m]) == Window(h + [m])
  {
  }

  lemma ExtendedTwo(h: seq<Message>, m: Message, n: Message)
    ensures Extended(h, [m, n]) == Window(Window(h + [m]) + [n])
  {
    assert [m, n][1..] == [n];
    ExtendedOne(Window(h + [m]), n);
  }

  /** The user speaks before the cat, and both come after everything else. */
  lemma TurnSays(h: seq<Message>, t: Turn)
    ensures match t
      case FastReply => Extended(Window(h), Said(t)) == Window(h)
      case RecallFailed(user) => Extended(Window(h), Said(t)) == Window(h + [user])
      case Answered(user, answer) => Extended(Window(h), Said(t)) == Window(h + [user] + [answer])
  {
    ExtendedIsWindow(h, Said(t));
    match t
    case FastReply =>
    case RecallFailed(user) =>
    case Answered(user, answer) => Regroup(h, user, [answer]);
  }

  class Memory {
    var history: seq<Message>

    constructor ()
      ensures history == []
    {
      history := [];
    }

    method UpdateHistory(m: Message)
      modifies this
      ensures history == Window(old(history) + [m])
    {
      history := history + [m];
      history := if |history| <= MAX_HISTORY then history else history[|history| - MAX_HISTORY..];
    }
  }

  /** The slot of one user in the in-memory cache. */
  class Slot {
    var item: Memory?

    constructor ()
      ensures item == null
    {
      item := null;
    }
  }

  class StrayCat {
    const cache: Slot
    var memory: Memory

    constructor (cache: Slot)
      ensures this.cache == cache
      ensures if cache.item != null then memory == cache.item else fresh(memory) && memory.history == []
    {
      this.cache := cache;
      if cache.item != null {
        memory := cache.item;
      } else {
        memory := new Memory();
      }
    }

    method LoadWorkingMemory()
      modifies this`memory
      ensures if cache.item != null then memory == cache.item else fresh(memory) && memory.history == []
    {
      if cache.item != null {
        memory := cache.item;
      } else {
        memory := new Memory();
      }
    }

    method WriteBack()
      modifies cache
      ensures cache.item == memory
    {
      cache.item := memory;
    }

    /** A turn that returns, followed by the write-back. */
    method Run(t: Turn)
      modifies memory, cache
      ensures cache.item == memory
      ensures memory.history == Extended(old(memory.history), Said(t))
      ensures t.Answered? ==>
                |memory.history| >= 2 && memory.history[|memory.history| - 2..] == [t.user, t.answer]
      ensures t.RecallFailed? ==> |memory.history| >= 1 && memory.history[|memory.history| - 1] == t.user
      ensures t.FastReply? ==> memory.history == old(memory.history)
    {
      match t {
        case FastReply =>
        case RecallFailed(user) =>
          ExtendedOne(memory.history, user);
          memory.UpdateHistory(user);
        case Answered(user, answer) =>
          ExtendedTwo(memory.history, user, answer);
          memory.UpdateHistory(user);
          memory.UpdateHistory(answer);
      }
      WriteBack();
    }

    /** The websocket loop body: reload, then run.  Whatever object the session held, the cached
        history is the one extended. */
    method Receive(t: Turn)
      modifies this`memory, cache, cache.item
      ensures cache.item == memory
      ensures old(cache.item) != null ==>
                memory == old(cache.item) && memory.history == Extended(old(cache.item.history), Said(t))
      ensures old(cache.item) == null ==> fresh(memory) && memory.history == Extended([], Said(t))
    {
      LoadWorkingMemory();
      Run(t);
    }
  }
}
