/**
 * The single-threaded coroutine state machine of `coro/src/coroutine/unique.rs`.
 *
 * The thread's `Environment` (resume chain, stack pool, one-slot panic
 * channel) and the coroutine records reached through handles are one class.
 * A handle is the key of its record in the table. The context swap is not
 * modelled at machine level: where `resume` swaps into the target, the model
 * plays the target's turn (`RunTurn`), which ends, as the target's code does,
 * by yielding, by returning from its body or by panicking; control then comes
 * back to the second half of `resume`.
 */
module CoroUnique {
  import opened Wrappers
  import CoroError

  type Payload = CoroError.Payload

  /** A handle: the key of a coroutine record in the environment's table. */
  type Id = nat

  datatype State = Suspended | Running | Normal | Blocked | Finished | Panicked

  /** The resume error as this file uses it (four variants; see README). */
  datatype Error = Finished | Panicked | Panicking(payload: Payload) | Waiting

  /** A stack segment; stacks of one size are interchangeable. */
  datatype Stack = Stack(size: nat)

  /** A coroutine record: its stack (none for the environment root), state and name. */
  datatype Coroutine = Coroutine(stack: Option<Stack>, state: State, name: Option<string>)

  datatype Options = Options(name: Option<string>, stackSize: nat)

  /** How a coroutine's body ended: it returned, or it panicked with a payload. */
  datatype BodyOutcome = Returned | Unwound(payload: Payload)

  /**
   * What a coroutine does between being resumed and giving control back:
   * it yields with a state, its body ends, or it first resumes a child
   * (which plays its own turn) and then goes on with the rest of its turn.
   */
  datatype Turn =
    | Yield(state: State)
    | Exit(outcome: BodyOutcome)
    | Nest(child: Id, childTurn: Turn, rest: Turn)

  /**
   * The payload of the panic `yield_now`'s assertion raises when a body
   * yields with `Running`; the trampoline catches it like any other panic.
   */
  const YieldRunningPanic: Payload := CoroError.StaticStr("assertion failed: state != State::Running")

  /** A turn that only resumes existing coroutines. */
  predicate WellFormed(t: Turn, ids: set<Id>)
  {
    match t
    case Yield(_) => true
    case Exit(_) => true
    case Nest(c, ct, rest) => c in ids && WellFormed(ct, ids) && WellFormed(rest, ids)
  }

  /** A turn that only resumes existing coroutines still does after more are spawned. */
  lemma {:induction false} WellFormedGrows(t: Turn, ids: set<Id>, more: set<Id>)
    requires WellFormed(t, ids) && ids <= more
    ensures WellFormed(t, more)
  {
    if t.Nest? {
      WellFormedGrows(t.childTurn, ids, more);
      WellFormedGrows(t.rest, ids, more);
    }
  }

  /** The state the turn leaves its coroutine in. */
  function EndState(t: Turn): State
  {
    match t
    case Yield(s) => if s == State.Running then State.Panicked else s
    case Exit(Returned) => State.Finished
    case Exit(Unwound(_)) => State.Panicked
    case Nest(_, _, rest) => EndState(rest)
  }

  /** What the turn leaves in the environment's panic slot. */
  function EndPayload(t: Turn): Option<Payload>
  {
    match t
    case Yield(s) => if s == State.Running then Some(YieldRunningPanic) else None
    case Exit(Returned) => None
    case Exit(Unwound(p)) => Some(p)
    case Nest(_, _, rest) => EndPayload(rest)
  }

  /** The coroutines a turn resumes, directly or through nested turns. */
  function Touched(t: Turn): set<Id>
  {
    match t
    case Yield(_) => {}
    case Exit(_) => {}
    case Nest(c, ct, rest) => {c} + Touched(ct) + Touched(rest)
  }

  /** What `resume` hands back once the target has played the turn. */
  function TurnResult(t: Turn): Result<State, Error>
  {
    match EndPayload(t)
    case Some(p) => Err(Error.Panicking(p))
    case None => Ok(EndState(t))
  }

  /** A turn that leaves a payload behind leaves its coroutine `Panicked`. */
  lemma {:induction false} PayloadMeansPanicked(t: Turn)
    ensures EndPayload(t).Some? ==> EndState(t) == State.Panicked
  {
    if t.Nest? {
      PayloadMeansPanicked(t.rest);
    }
  }

  /**
   * What `resume` reports after a turn: an error only for a turn ending in a
   * panic, and then the coroutine is `Panicked`; otherwise the state the
   * coroutine ended in.
   */
  lemma TurnResultMeaning(t: Turn)
    ensures TurnResult(t).Err? ==> TurnResult(t).error.Panicking? && EndState(t) == State.Panicked
    ensures TurnResult(t).Ok? ==> TurnResult(t).value == EndState(t) && EndPayload(t) == None
  {
    PayloadMeansPanicked(t);
  }

  /** The two tables hold the same handles, with the same stacks and names. */
  ghost predicate SameRecords(before: map<Id, Coroutine>, after: map<Id, Coroutine>)
  {
    && before.Keys == after.Keys
    && forall id | id in after :: after[id].stack == before[id].stack && after[id].name == before[id].name
  }

  /** Every finished or panicked record of `before` is still in `after`, unchanged. */
  ghost predicate TerminalKept(before: map<Id, Coroutine>, after: map<Id, Coroutine>)
  {
    forall id | id in before && before[id].state in {State.Finished, State.Panicked} :: id in after && after[id] == before[id]
  }

  lemma TerminalKeptTransitive(a: map<Id, Coroutine>, b: map<Id, Coroutine>, c: map<Id, Coroutine>)
    requires TerminalKept(a, b) && TerminalKept(b, c)
    ensures TerminalKept(a, c)
  {
  }

  /**
   * Every record other than `h` that is on the chain, is the root, or is not
   * among `touched`, is in `before` and unchanged in `after`.
   */
  ghost predicate Untouched(before: map<Id, Coroutine>, after: map<Id, Coroutine>, h: Id, chain: seq<Id>, root: Id, touched: set<Id>)
  {
    forall id | id in after && id != h && (id == root || id in chain || id !in touched) :: id in before && after[id] == before[id]
  }

  /**
   * Over a whole `resume` of `h` from `from` (swap in, the turn, swap back),
   * the records the turn leaves alone end as they began: the caller's spell
   * as `Normal` is undone by the swap back.
   */
  lemma SwitchUntouched(c0: map<Id, Coroutine>, c1: map<Id, Coroutine>, c2: map<Id, Coroutine>, c3: map<Id, Coroutine>,
                        h: Id, from: Id, chain: seq<Id>, root: Id, touched: set<Id>)
    requires h in c0 && from in c0 && from != h && c0[from].state == State.Running
    requires from == root || from in chain
    requires c1 == WithState(WithState(c0, h, State.Running), from, State.Normal)
    requires Untouched(c1, c2, h, chain, root, touched)
    requires from in c2 && c3 == WithState(c2, from, State.Running)
    ensures Untouched(c0, c3, h, chain, root, touched)
  {
    forall id | id in c3 && id != h && (id == root || id in chain || id !in touched)
      ensures id in c0 && c3[id] == c0[id]
    {
      assert c2[id] == c1[id];
    }
  }

  /**
   * Over a turn that resumes `child` and then goes on, the records the turn
   * leaves alone end as they began. A child on the chain, waiting or the
   * resumer itself, is refused without any change.
   */
  lemma NestUntouched(c0: map<Id, Coroutine>, c1: map<Id, Coroutine>, c2: map<Id, Coroutine>,
                      cur: Id, child: Id, chain: seq<Id>, root: Id, childTurn: Turn, rest: Turn, waiting: bool)
    requires waiting == (child == root || child in chain + [cur])
    requires waiting ==> c1 == c0
    requires Untouched(c0, c1, child, chain + [cur], root, Touched(childTurn))
    requires Untouched(c1, c2, cur, chain, root, Touched(rest))
    requires c1.Keys == c0.Keys && c2.Keys == c1.Keys
    ensures Untouched(c0, c2, cur, chain, root, Touched(Nest(child, childTurn, rest)))
  {
    forall id | id in c2 && id != cur && (id == root || id in chain || id !in Touched(Nest(child, childTurn, rest)))
      ensures id in c0 && c2[id] == c0[id]
    {
      if id != child {
        assert id == root || id in chain + [cur] || id !in Touched(childTurn);
      }
    }
  }

  lemma SameRecordsTransitive(a: map<Id, Coroutine>, b: map<Id, Coroutine>, c: map<Id, Coroutine>)
    requires SameRecords(a, b) && SameRecords(b, c)
    ensures SameRecords(a, c)
  {
  }

  /**
   * What one resume result means to `join`: stop with `Ok(Finished)` on a
   * finished target, stop with the error on any other error, go on otherwise.
   */
  function JoinVerdict(res: Result<State, Error>): (v: Option<Result<State, Error>>)
    ensures v == Some(Ok(State.Finished)) <==> res == Ok(State.Finished) || res == Err(Error.Finished)
    ensures v.None? <==> res.Ok? && res.value != State.Finished
    ensures v.Some? && v.value.Err? ==> v.value == res && res.error != Error.Finished
  {
    if res == Ok(State.Finished) || res == Err(Error.Finished) then Some(Ok(State.Finished))
    else if res.Ok? then None
    else Some(res)
  }

  /** What `resume` returns for a target in state `s` that, when switched into, plays `t`. */
  function ResumeOutcome(s: State, t: Turn): Result<State, Error>
  {
    match s
    case Finished => Err(Error.Finished)
    case Panicked => Err(Error.Panicked)
    case Normal => Err(Error.Waiting)
    case Running => Ok(State.Running)
    case Suspended => TurnResult(t)
    case Blocked => TurnResult(t)
  }

  /** The target's state after that `resume`. */
  function AfterResume(s: State, t: Turn): State
  {
    if s == State.Suspended || s == State.Blocked then EndState(t) else s
  }

  /**
   * What `join` returns for a target in state `s` whose successive turns are
   * `turns`: the first verdict that stops the loop, `None` if none does.
   */
  function JoinSpec(s: State, turns: seq<Turn>): Option<Result<State, Error>>
    decreases |turns|
  {
    if turns == [] then None
    else
      var v := JoinVerdict(ResumeOutcome(s, turns[0]));
      if v.Some? then v else JoinSpec(AfterResume(s, turns[0]), turns[1..])
  }

  /**
   * `join` ends with `Ok(Finished)` or with an error other than `Finished`,
   * and with `Ok(Finished)` exactly when the target is eventually seen finished.
   */
  lemma {:induction false} JoinSpecOutcome(s: State, turns: seq<Turn>)
    ensures JoinSpec(s, turns).Some? ==>
              JoinSpec(s, turns) == Some(Ok(State.Finished)) || (JoinSpec(s, turns).value.Err? && JoinSpec(s, turns).value.error != Error.Finished)
    decreases |turns|
  {
    if turns != [] && JoinVerdict(ResumeOutcome(s, turns[0])).None? {
      JoinSpecOutcome(AfterResume(s, turns[0]), turns[1..]);
    }
  }

  /**
   * Joining a coroutine that is already finished, panicked or waiting ends
   * at the first resume, with `Ok(Finished)`, `Err(Panicked)` and
   * `Err(Waiting)`; joining the running coroutine itself never ends.
   */
  lemma {:induction false} JoinWithoutSwitch(s: State, turns: seq<Turn>)
    ensures turns != [] && s == State.Finished ==> JoinSpec(s, turns) == Some(Ok(State.Finished))
    ensures turns != [] && s == State.Panicked ==> JoinSpec(s, turns) == Some(Err(Error.Panicked))
    ensures turns != [] && s == State.Normal ==> JoinSpec(s, turns) == Some(Err(Error.Waiting))
    ensures s == State.Running ==> JoinSpec(s, turns) == None
    decreases |turns|
  {
    if turns != [] && s == State.Running {
      JoinWithoutSwitch(s, turns[1..]);
    }
  }

  /** The coroutine logically running: the top of the chain, or the root when the chain is empty. */
  function Top(chain: seq<Id>, root: Id): Id
  {
    if chain == [] then root else chain[|chain| - 1]
  }

  /** The table with one coroutine's state replaced. */
  function WithState(coros: map<Id, Coroutine>, h: Id, s: State): (c: map<Id, Coroutine>)
    requires h in coros
    ensures c.Keys == coros.Keys && c[h].state == s
    ensures forall id | id in c && id != h :: c[id] == coros[id]
    ensures SameRecords(coros, c)
  {
    coros[h := coros[h].(state := s)]
  }

  /**
   * The scheduling invariant, with `top` the state of the coroutine on top
   * of the chain (or the root): nobody else is `Running`, and everybody else
   * on the chain, root included, is `Normal`. The chain holds distinct
   * handles of existing coroutines, never the root, and the root has no stack.
   */
  ghost predicate Scheduling(coros: map<Id, Coroutine>, chain: seq<Id>, nextId: Id, root: Id, top: State)
  {
    && root in coros
    && coros[root].stack == None
    && root !in chain
    && (forall i | 0 <= i < |chain| :: chain[i] in coros)
    && (forall i, j | 0 <= i < j < |chain| :: chain[i] != chain[j])
    && (forall id | id in coros :: id < nextId)
    && coros[Top(chain, root)].state == top
    && (forall id | id in coros && id != Top(chain, root) :: coros[id].state != State.Running)
    && (forall id | id in coros && id != Top(chain, root) && (id == root || id in chain) :: coros[id].state == State.Normal)
  }

  /** At most one coroutine is `Running`: the one on top of the chain. */
  lemma OnlyTopRuns(coros: map<Id, Coroutine>, chain: seq<Id>, nextId: Id, root: Id, id: Id)
    requires Scheduling(coros, chain, nextId, root, State.Running) && id in coros
    ensures coros[id].state == State.Running <==> id == Top(chain, root)
  {
  }

  /** Below the top of the chain, every coroutine, the root included, is `Normal`. */
  lemma BelowTopIsNormal(coros: map<Id, Coroutine>, chain: seq<Id>, nextId: Id, root: Id, i: int)
    requires Scheduling(coros, chain, nextId, root, State.Running) && 0 <= i < |chain| - 1
    ensures coros[chain[i]].state == State.Normal
    ensures coros[root].state == State.Normal
  {
    assert chain[i] != chain[|chain| - 1];
  }

  /**
   * Every coroutine on the chain, root included, is `Running` or `Normal`,
   * so `resume` refuses it or reports it running, and switches to none of them.
   */
  lemma ChainMembersWait(coros: map<Id, Coroutine>, chain: seq<Id>, nextId: Id, root: Id, id: Id)
    requires Scheduling(coros, chain, nextId, root, State.Running) && (id == root || id in chain)
    ensures id in coros && coros[id].state in {State.Normal, State.Running}
  {
  }

  /**
   * The first half of `resume` keeps the invariant: a suspended or blocked
   * target made `Running` and pushed, above a caller made `Normal`.
   */
  lemma SwapInKeepsScheduling(coros: map<Id, Coroutine>, chain: seq<Id>, nextId: Id, root: Id, h: Id)
    requires Scheduling(coros, chain, nextId, root, State.Running)
    requires h in coros && coros[h].state in {State.Suspended, State.Blocked}
    ensures h != Top(chain, root) && h != root && h !in chain
    ensures Scheduling(WithState(WithState(coros, h, State.Running), Top(chain, root), State.Normal),
                       chain + [h], nextId, root, State.Running)
  {
    var from := Top(chain, root);
    var c := WithState(WithState(coros, h, State.Running), from, State.Normal);
    var ch := chain + [h];
    assert Top(ch, root) == h;
    forall i, j | 0 <= i < j < |ch| ensures ch[i] != ch[j] {
      if j == |ch| - 1 {
        assert ch[i] == chain[i];
      }
    }
    forall id | id in c && id != h && (id == root || id in ch) ensures c[id].state == State.Normal {
      if id != from {
        assert id == root || id in chain;
      }
    }
  }

  /**
   * `try_switch` from a coroutine on the chain keeps the invariant, with
   * nobody running while control travels back to the new top.
   */
  lemma SwitchOutKeepsScheduling(coros: map<Id, Coroutine>, chain: seq<Id>, nextId: Id, root: Id, s: State)
    requires Scheduling(coros, chain, nextId, root, State.Running) && chain != [] && s != State.Running
    ensures Scheduling(WithState(coros, Top(chain, root), s), chain[..|chain| - 1], nextId, root, State.Normal)
  {
    var top := Top(chain, root);
    var ch := chain[..|chain| - 1];
    var c := WithState(coros, top, s);
    assert top !in ch by {
      forall i | 0 <= i < |ch| ensures ch[i] != top {
        assert ch[i] == chain[i];
      }
    }
    forall id | id in c && id != Top(ch, root) && (id == root || id in ch) ensures c[id].state == State.Normal {
      assert id == root || id in chain;
    }
  }

  /** Back from the swap, the caller on top of the chain is `Running` once more. */
  lemma SwapBackKeepsScheduling(coros: map<Id, Coroutine>, chain: seq<Id>, nextId: Id, root: Id)
    requires Scheduling(coros, chain, nextId, root, State.Normal)
    ensures Scheduling(WithState(coros, Top(chain, root), State.Running), chain, nextId, root, State.Running)
  {
  }

  /** A new coroutine under a fresh handle, not `Running`, keeps the invariant. */
  lemma AddKeepsScheduling(coros: map<Id, Coroutine>, chain: seq<Id>, nextId: Id, root: Id, c: Coroutine)
    requires Scheduling(coros, chain, nextId, root, State.Running) && c.state != State.Running
    ensures nextId !in coros
    ensures Scheduling(coros[nextId := c], chain, nextId + 1, root, State.Running)
  {
  }

  /** Removing a coroutine that is neither the root nor on the chain keeps the invariant. */
  lemma RemoveKeepsScheduling(coros: map<Id, Coroutine>, chain: seq<Id>, nextId: Id, root: Id, h: Id)
    requires Scheduling(coros, chain, nextId, root, State.Running) && h != root && h !in chain
    ensures Scheduling(coros - {h}, chain, nextId, root, State.Running)
  {
  }

  class Environment {
    /** The coroutine records, by handle. */
    var coros: map<Id, Coroutine>
    /** The resume chain, outermost first; the root stands in for the native thread below it. */
    var chain: seq<Id>
    /** The single-slot channel for a panic payload on its way to the resumer. */
    var slot: Option<Payload>
    /** Stacks given back by dropped coroutines, ready for reuse. */
    var pool: multiset<Stack>
    /** The next handle to hand out. */
    var nextId: Id
    /** The environment root: the coroutine standing for the native thread. */
    const root: Id
    /** The options `spawn` uses. */
    const defaults: Options

    /** `Environment::running` and `Coroutine::current`: the top of the chain, or the root when it is empty. */
    function Current(): (c: Id)
      reads this`chain
      ensures chain == [] ==> c == root
      ensures chain != [] ==> c == chain[|chain| - 1] && c in chain
    {
      Top(chain, root)
    }

    /** The coroutine is the root or on the resume chain. */
    predicate OnChain(id: Id)
      reads this`chain
    {
      id == root || id in chain
    }

    /** The scheduling invariant on this environment. */
    ghost predicate Inv(top: State)
      reads this`coros, this`chain, this`nextId
    {
      Scheduling(coros, chain, nextId, root, top)
    }

    /** Between operations: the current coroutine is the one `Running`, and the panic slot is empty. */
    ghost predicate Valid()
      reads this
    {
      Inv(State.Running) && slot == None
    }

    /** The thread's environment, whose root (`Coroutine::empty`) has no stack and is running. */
    constructor (rootName: Option<string>, defaults: Options)
      ensures Valid()
      ensures coros == map[root := Coroutine(None, State.Running, rootName)]
      ensures chain == [] && pool == multiset{} && this.defaults == defaults
    {
      root := 0;
      this.defaults := defaults;
      coros := map[0 := Coroutine(None, State.Running, rootName)];
      chain := [];
      slot := None;
      pool := multiset{};
      nextId := 1;
    }

    /** `Handle::state`: between operations, only the current coroutine reads as `Running`. */
    function StateOf(h: Id): (s: State)
      reads this
      requires h in coros
      ensures Valid() ==> (s == State.Running <==> h == Current())
    {
      coros[h].state
    }

    /** `Coroutine::name` */
    function Name(h: Id): Option<string>
      reads this
      requires h in coros
    {
      coros[h].name
    }

    /** `Coroutine::panicking` */
    function IsPanicking(h: Id): (b: bool)
      reads this
      requires h in coros
      ensures b <==> StateOf(h) == State.Panicked
    {
      coros[h].state == State.Panicked
    }

    /** `Coroutine::finished` */
    function IsFinished(h: Id): (b: bool)
      reads this
      requires h in coros
      ensures b <==> StateOf(h) == State.Finished
    {
      coros[h].state == State.Finished
    }

    /** `Handle::set_state` */
    method SetState(h: Id, s: State)
      requires h in coros
      modifies this`coros
      ensures coros == WithState(old(coros), h, s)
    {
      coros := WithState(coros, h, s);
    }

    /** `Environment::push` */
    method Push(h: Id)
      modifies this`chain
      ensures chain == old(chain) + [h]
    {
      chain := chain + [h];
    }

    /** `Environment::pop`: the top of the chain, or nothing when only the root is left. */
    method Pop() returns (top: Option<Id>)
      modifies this`chain
      ensures old(chain) == [] ==> top == None && chain == []
      ensures old(chain) != [] ==> top == Some(old(chain)[|old(chain)| - 1]) && chain == old(chain)[..|old(chain)| - 1]
    {
      if chain == [] {
        top := None;
      } else {
        top := Some(chain[|chain| - 1]);
        chain := chain[..|chain| - 1];
      }
    }

    /** `Environment::take_stack`: a pooled stack of the size when there is one, else a new one. */
    method TakeStack(size: nat) returns (s: Stack)
      modifies this`pool
      ensures s.size == size
      ensures pool == old(pool) - multiset{s}
    {
      s := Stack(size);
      pool := pool - multiset{s};
    }

    /** `Environment::give_stack` */
    method GiveStack(s: Stack)
      modifies this`pool
      ensures pool == old(pool) + multiset{s}
    {
      pool := pool + multiset{s};
    }

    /** `Environment::set_resume_result` */
    method SetResumeResult(p: Option<Payload>)
      modifies this`slot
      ensures slot == p
    {
      slot := p;
    }

    /** `Environment::take_last_resume_result`: the slot's content, leaving it empty. */
    method TakeLastResumeResult() returns (p: Option<Payload>)
      modifies this`slot
      ensures p == old(slot) && slot == None
    {
      p := slot;
      slot := None;
    }

    /** The effect of `try_switch(state)`: pop the chain and give the popped coroutine the state. */
    twostate predicate SwitchedOut(s: State)
      reads this
    {
      if old(chain) == [] then
        chain == old(chain) && coros == old(coros)
      else
        && chain == old(chain)[..|old(chain)| - 1]
        && old(Current()) in old(coros)
        && coros == old(coros)[old(Current()) := old(coros[Current()]).(state := s)]
    }

    /** `Coroutine::new`: a record with a stack, under a handle not used before. */
    method NewCoroutine(name: Option<string>, stack: Stack, state: State) returns (h: Id)
      requires Valid() && state != State.Running
      modifies this`coros, this`nextId
      ensures Valid()
      ensures h !in old(coros) && coros == old(coros)[h := Coroutine(Some(stack), state, name)]
    {
      h := nextId;
      AddKeepsScheduling(coros, chain, nextId, root, Coroutine(Some(stack), state, name));
      coros := coros[h := Coroutine(Some(stack), state, name)];
      nextId := nextId + 1;
    }

    /** `Coroutine::spawn_opts`: a new coroutine, `Suspended`, on a stack of the requested size from the pool. */
    method SpawnOpts(opts: Options) returns (h: Id)
      requires Valid()
      modifies this`coros, this`nextId, this`pool
      ensures Valid() && chain == old(chain)
      ensures h !in old(coros)
      ensures coros == old(coros)[h := Coroutine(Some(Stack(opts.stackSize)), State.Suspended, opts.name)]
      ensures pool == old(pool) - multiset{Stack(opts.stackSize)}
    {
      var stack := TakeStack(opts.stackSize);
      h := NewCoroutine(opts.name, stack, State.Suspended);
    }

    /** `Coroutine::spawn`: `spawn_opts` with the default options. */
    method Spawn() returns (h: Id)
      requires Valid()
      modifies this`coros, this`nextId, this`pool
      ensures Valid() && chain == old(chain)
      ensures h !in old(coros)
      ensures coros == old(coros)[h := Coroutine(Some(Stack(defaults.stackSize)), State.Suspended, defaults.name)]
      ensures pool == old(pool) - multiset{Stack(defaults.stackSize)}
    {
      h := SpawnOpts(defaults);
    }

    /** `Drop for Coroutine`: the record goes away and its stack, if any, returns to the pool. */
    method Drop(h: Id)
      requires Valid() && h in coros && !OnChain(h)
      modifies this`coros, this`pool
      ensures Valid() && chain == old(chain)
      ensures coros == old(coros) - {h}
      ensures pool == old(pool) + (if old(coros[h].stack).Some? then multiset{old(coros[h].stack).value} else multiset{})
    {
      var segment := coros[h].stack;
      RemoveKeepsScheduling(coros, chain, nextId, root, h);
      coros := coros - {h};
      match segment {
        case Some(stack) => GiveStack(stack);
        case None =>
      }
    }

    /**
     * `Coroutine::try_switch`: pop the chain, give the popped coroutine the
     * state and hand control to the new top of the chain (or the root); with
     * only the root left, nothing happens.
     */
    method TrySwitch(s: State)
      requires Inv(State.Running) && s != State.Running
      modifies this`chain, this`coros
      ensures SwitchedOut(s)
      ensures if old(chain) == [] then Inv(State.Running) else Inv(State.Normal)
    {
      if chain != [] {
        SwitchOutKeepsScheduling(coros, chain, nextId, root, s);
      }
      var popped := Pop();
      match popped {
        case Some(from) =>
          SetState(from, s);
          // Context::swap to the new Current()
        case None =>
          // the environment root
      }
    }

    /**
     * `Coroutine::yield_now` with a state other than `Running`. With
     * `Running` the assertion fails: inside a coroutine that is a panic of
     * its turn (`EndTurn`); on the root nothing catches it, and the model
     * leaves that call out.
     */
    method YieldNow(s: State)
      requires Valid() && s != State.Running
      modifies this`chain, this`coros
      ensures SwitchedOut(s)
      ensures if old(chain) == [] then Valid() else Inv(State.Normal)
    {
      TrySwitch(s);
    }

    /** `Coroutine::sched`: yield as `Suspended`. */
    method Sched()
      requires Valid()
      modifies this`chain, this`coros
      ensures SwitchedOut(State.Suspended)
      ensures if old(chain) == [] then Valid() else Inv(State.Normal)
    {
      YieldNow(State.Suspended);
    }

    /** `Coroutine::block`: yield as `Blocked`. */
    method Block()
      requires Valid()
      modifies this`chain, this`coros
      ensures SwitchedOut(State.Blocked)
      ensures if old(chain) == [] then Valid() else Inv(State.Normal)
    {
      YieldNow(State.Blocked);
    }

    /**
     * The end of the trampoline `coroutine_initialize`: a body that returned
     * leaves the slot empty and yields as `Finished`; one that panicked puts
     * its payload in the slot and yields as `Panicked`.
     */
    method Terminate(outcome: BodyOutcome)
      requires Valid() && chain != []
      modifies this`chain, this`coros, this`slot
      ensures Inv(State.Normal)
      ensures SwitchedOut(if outcome.Returned? then State.Finished else State.Panicked)
      ensures slot == (if outcome.Returned? then None else Some(outcome.payload))
    {
      var state: State;
      match outcome {
        case Returned =>
          SetResumeResult(None);
          state := State.Finished;
        case Unwound(p) =>
          SetResumeResult(Some(p));
          state := State.Panicked;
      }
      TrySwitch(state);
    }

    /**
     * The last step of a turn: a yield, or the trampoline's end of the body.
     * A yield with `Running` fails `yield_now`'s assertion, and the
     * trampoline catches that panic like any other.
     */
    method EndTurn(turn: Turn)
      requires Valid() && chain != [] && !turn.Nest?
      modifies this`chain, this`coros, this`slot
      ensures Inv(State.Normal)
      ensures SwitchedOut(EndState(turn))
      ensures slot == EndPayload(turn)
    {
      match turn {
        case Yield(s) =>
          if s == State.Running {
            Terminate(Unwound(YieldRunningPanic));
          } else {
            YieldNow(s);
          }
        case Exit(outcome) =>
          Terminate(outcome);
      }
    }

    /**
     * The current coroutine plays its turn: what runs on its stack between
     * the swap into it and the swap back out.
     */
    method RunTurn(turn: Turn)
      requires Valid() && chain != [] && WellFormed(turn, coros.Keys)
      modifies this`chain, this`coros, this`slot
      decreases turn, 0
      ensures Inv(State.Normal)
      ensures chain == old(chain)[..|old(chain)| - 1]
      ensures slot == EndPayload(turn)
      ensures coros.Keys == old(coros).Keys
      ensures coros[old(Current())].state == EndState(turn)
      ensures Untouched(old(coros), coros, old(Current()), chain, root, Touched(turn))
      ensures SameRecords(old(coros), coros)
      ensures TerminalKept(old(coros), coros)
    {
      match turn {
        case Yield(_) =>
          EndTurn(turn);
        case Exit(_) =>
          EndTurn(turn);
        case Nest(child, childTurn, rest) =>
          ghost var cur := Current();
          ghost var waiting := OnChain(child);
          if waiting {
            ChainMembersWait(coros, chain, nextId, root, child);
          }
          var _ := Resume(child, childTurn);
          ghost var resumed := coros;
          RunTurn(rest);
          SameRecordsTransitive(old(coros), resumed, coros);
          TerminalKeptTransitive(old(coros), resumed, coros);
          NestUntouched(old(coros), resumed, coros, cur, child, chain, root, childTurn, rest, waiting);
      }
    }

    /**
     * The half of `resume` before the swap: the target becomes `Running`, the
     * caller (the current coroutine) `Normal`, and the target goes on the chain.
     */
    method SwapIn(h: Id) returns (from: Id)
      requires Valid() && h in coros && coros[h].state in {State.Suspended, State.Blocked}
      modifies this`coros, this`chain
      ensures Valid() && Current() == h && chain == old(chain) + [h]
      ensures from == old(Current()) && from != h
      ensures coros == WithState(WithState(old(coros), h, State.Running), from, State.Normal)
      ensures SameRecords(old(coros), coros) && TerminalKept(old(coros), coros)
    {
      from := Current();
      SwapInKeepsScheduling(coros, chain, nextId, root, h);
      SameRecordsTransitive(coros, WithState(coros, h, State.Running), WithState(WithState(coros, h, State.Running), from, State.Normal));
      SetState(h, State.Running);
      SetState(from, State.Normal);
      Push(h);
    }

    /**
     * The half of `resume` after the swap: the caller, again the current
     * coroutine, is `Running` once more and takes the panic slot's content;
     * the result is that panic, else the target's state.
     */
    method SwapBack(from: Id, h: Id) returns (r: Result<State, Error>)
      requires Inv(State.Normal) && Current() == from && h in coros && h != from
      modifies this`coros, this`slot
      ensures Valid()
      ensures coros == WithState(old(coros), from, State.Running)
      ensures SameRecords(old(coros), coros) && TerminalKept(old(coros), coros)
      ensures r == match old(slot) case Some(p) => Err(Error.Panicking(p)) case None => Ok(old(coros[h].state))
    {
      SwapBackKeepsScheduling(coros, chain, nextId, root);
      SetState(from, State.Running);
      var res := TakeLastResumeResult();
      match res {
        case Some(err) => r := Err(Error.Panicking(err));
        case None => r := Ok(coros[h].state);
      }
    }

    /**
     * `Handle::resume`. A finished, panicked or waiting (`Normal`) target is
     * refused and a running one is reported as such, all without any change;
     * a suspended or blocked one is switched into.
     */
    method Resume(h: Id, turn: Turn) returns (r: Result<State, Error>)
      requires Valid() && h in coros && WellFormed(turn, coros.Keys)
      modifies this`chain, this`coros, this`slot
      decreases turn, 2
      ensures Valid() && chain == old(chain) && SameRecords(old(coros), coros)
      ensures old(coros[h].state) == State.Finished ==> r == Err(Error.Finished) && coros == old(coros)
      ensures old(coros[h].state) == State.Panicked ==> r == Err(Error.Panicked) && coros == old(coros)
      ensures old(coros[h].state) == State.Normal ==> r == Err(Error.Waiting) && coros == old(coros)
      ensures old(coros[h].state) == State.Running ==> r == Ok(State.Running) && coros == old(coros)
      ensures old(coros[h].state) in {State.Suspended, State.Blocked} ==>
                coros[h].state == EndState(turn) && r == TurnResult(turn)
      ensures Untouched(old(coros), coros, h, chain, root, Touched(turn))
      ensures TerminalKept(old(coros), coros)
      ensures r == ResumeOutcome(old(coros[h].state), turn) && coros[h].state == AfterResume(old(coros[h].state), turn)
    {
      match coros[h].state {
        case Finished => return Err(Error.Finished);
        case Panicked => return Err(Error.Panicked);
        case Normal => return Err(Error.Waiting);
        case Running => return Ok(State.Running);
        case _ =>
      }
      r := SwitchInto(h, turn);
    }

    /**
     * The rest of `resume`, for a suspended or blocked target: the target is
     * marked `Running`, the caller `Normal`, the target goes on the chain and
     * plays its turn; back in control, the caller is `Running` again and
     * receives the turn's panic if there was one, else the target's new state.
     */
    method SwitchInto(h: Id, turn: Turn) returns (r: Result<State, Error>)
      requires Valid() && h in coros && WellFormed(turn, coros.Keys)
      requires coros[h].state in {State.Suspended, State.Blocked}
      modifies this`chain, this`coros, this`slot
      decreases turn, 1
      ensures Valid() && chain == old(chain) && SameRecords(old(coros), coros)
      ensures coros[h].state == EndState(turn) && r == TurnResult(turn)
      ensures Untouched(old(coros), coros, h, chain, root, Touched(turn))
      ensures TerminalKept(old(coros), coros)
    {
      var from := SwapIn(h);
      ghost var entered := coros;

      // Context::swap: the target plays its turn until it gives control back
      RunTurn(turn);

      ghost var played := coros;
      r := SwapBack(from, h);
      SameRecordsTransitive(old(coros), entered, played);
      SameRecordsTransitive(old(coros), played, coros);
      TerminalKeptTransitive(old(coros), entered, played);
      TerminalKeptTransitive(old(coros), played, coros);
      SwitchUntouched(old(coros), entered, played, coros, h, from, chain, root, Touched(turn));
    }

    /**
     * `Handle::join`: resume until the target is seen finished, either as
     * `Ok(Finished)` or as `Err(Finished)`; any other error is handed back at
     * once, and any other state means one more resume. The target's turns
     * come from `turns`; `None` means they ran out first.
     */
    method Join(h: Id, turns: seq<Turn>) returns (r: Option<Result<State, Error>>)
      requires Valid() && h in coros
      requires forall i | 0 <= i < |turns| :: WellFormed(turns[i], coros.Keys)
      modifies this`chain, this`coros, this`slot
      ensures Valid() && chain == old(chain) && SameRecords(old(coros), coros)
      ensures r == JoinSpec(old(coros[h].state), turns)
      ensures r == Some(Ok(State.Finished)) ==> coros[h].state == State.Finished
      ensures r.Some? && r.value.Err? && (r.value.error.Panicking? || r.value.error == Error.Panicked) ==>
                coros[h].state == State.Panicked
    {
      var i := 0;
      while i < |turns|
        invariant 0 <= i <= |turns|
        invariant Valid() && chain == old(chain) && SameRecords(old(coros), coros)
        invariant h in coros && JoinSpec(old(coros[h].state), turns) == JoinSpec(coros[h].state, turns[i..])
      {
        ghost var before := coros;
        ghost var s := coros[h].state;
        assert turns[i..][1..] == turns[i + 1..];
        var res := Resume(h, turns[i]);
        SameRecordsTransitive(old(coros), before, coros);
        if res == Ok(State.Finished) || res == Err(Error.Finished) {
          if res == Err(Error.Finished) {
            assert s == State.Finished;
          }
          return Some(Ok(State.Finished));
        } else if res.Err? {
          if res.error.Panicking? {
            TurnResultMeaning(turns[i]);
          }
          return Some(res);
        }
        i := i + 1;
      }
      r := None;
    }
  }

  /**
   * The module's own example: a coroutine that yields once with `sched` is
   * reported `Suspended` by the first resume and `Finished` by the second;
   * a further resume is refused with `Finished`, every time.
   */
  method SchedThenFinish(env: Environment) returns (first: Result<State, Error>, second: Result<State, Error>,
                                                   third: Result<State, Error>, fourth: Result<State, Error>)
    requires env.Valid()
    modifies env
    ensures first == Ok(State.Suspended) && second == Ok(State.Finished)
    ensures third == Err(Error.Finished) && fourth == Err(Error.Finished)
  {
    var h := env.Spawn();
    assert env.coros[h].state == State.Suspended;
    first := env.Resume(h, Yield(State.Suspended));
    second := env.Resume(h, Exit(Returned));
    third := env.Resume(h, Exit(Returned));
    fourth := env.Resume(h, Yield(State.Suspended));
  }

  /**
   * A panic reaches the resumer once, as `Panicking` with its payload, and
   * the slot is empty again; later resumes get `Panicked` without a payload.
   */
  method PanicReportedOnce(env: Environment, p: Payload) returns (first: Result<State, Error>, second: Result<State, Error>)
    requires env.Valid()
    modifies env
    ensures first == Err(Error.Panicking(p)) && second == Err(Error.Panicked)
    ensures env.slot == None
  {
    var h := env.Spawn();
    first := env.Resume(h, Exit(Unwound(p)));
    second := env.Resume(h, Exit(Unwound(p)));
  }

  /**
   * A coroutine reports the name it was spawned with, before and after it
   * runs, whatever its turn does.
   */
  method SpawnedNameKept(env: Environment, opts: Options, turn: Turn) returns (before: Option<string>, after: Option<string>)
    requires env.Valid() && WellFormed(turn, env.coros.Keys)
    modifies env
    ensures before == opts.name && after == opts.name
  {
    var h := env.SpawnOpts(opts);
    WellFormedGrows(turn, old(env.coros.Keys), env.coros.Keys);
    before := env.Name(h);
    var _ := env.Resume(h, turn);
    after := env.Name(h);
  }

  /**
   * A finished coroutine stays finished whatever other coroutines do in
   * between, nested resumes included, and every resume of it is refused.
   */
  method FinishedStaysRefused(env: Environment, h: Id, other: Id, turn: Turn, later: Turn)
    returns (r: Result<State, Error>)
    requires env.Valid() && h in env.coros && other in env.coros && env.coros[h].state == State.Finished
    requires WellFormed(turn, env.coros.Keys) && WellFormed(later, env.coros.Keys)
    modifies env
    ensures r == Err(Error.Finished)
    ensures h in env.coros && env.coros[h].state == State.Finished
  {
    var _ := env.Resume(other, turn);
    r := env.Resume(h, later);
  }
}
