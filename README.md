# Coroutines and the interpreter environment, in Dafny

This project models three parts of the repository and proves properties about them.

- **The single-threaded coroutine state machine** (`coro/src/coroutine/unique.rs`), in module `CoroUnique`:
  - One class, `Environment`, holds the thread's environment together with the coroutine records that handles reach.
  - The environment part is the resume chain, the stack pool and the one-slot panic channel.
  - A handle is the key (`Id`) of its record in the table `coros`.
  - Each record holds an optional stack, a `State` and an optional name.
  - The chain is a `seq<Id>`. When it is empty, the environment root stands in as the running coroutine.
  - The panic slot is an `Option<Payload>`. The stack pool is a `multiset<Stack>`.
  - The context swap has no machine-level model. Where `resume` swaps into its target, the model plays the target's *turn* (`Turn`) and then runs the second half of `resume`.
  - A turn ends the way the target's code can: `Yield(state)` (through `yield_now`), `Exit(Returned)` (the body returned, through the trampoline) or `Exit(Unwound(payload))` (the body panicked).
  - A `Yield(Running)` fails `yield_now`'s assertion. The trampoline catches that panic, so the turn ends `Panicked` with the assertion's message as its payload.
  - A turn may first resume a child coroutine and then go on, `Nest(child, childTurn, rest)`. So `Resume`, `SwitchInto` and `RunTurn` are mutually recursive over the turn.
  - The scheduling invariant `Scheduling` holds between operations. Only the coroutine on top of the chain (or the root) is `Running`, and every other coroutine on the chain, root included, is `Normal`.
  - Every operation preserves `Scheduling`, through one transition lemma per kind of step.
  - The getters `Handle::state` and `Coroutine::name` are `StateOf` and `Name`.
  - `JoinSpec` is the reference definition of `join`: the first verdict that stops the loop along the target's successive turns.
- **The resume error's text** (`coro/src/lib.rs`), in module `CoroError`:
  - `description`, `Display` and `Debug` of the two-variant `Error`.
  - How `Debug` picks a panic payload's message: a `&'static str` first, then a `String`, else `"Box<Any>"`.
  - A payload is a `&'static str`, a `String` or something else (`OtherType`). Those are the only distinctions the downcasts make.
- **The interpreter's lexical environment** (`src/interpreter.rs`), in module `Interpreter`:
  - The class `Enviroment` keeps the source's spelling.
  - It holds a mutable current frame (`map<string, Option<Value>>`) and an immutable link to its parent.
  - `Extend` builds its frame with a loop of inserts. `Lookup` recurses outwards.
  - `Define` and `SetValue` update the current frame in place.
  - A ghost `Frames()` lists the frames from the innermost outwards. `Resolve` is the reference definition of a lookup over such a list.

Files:
- `wrappers.dfy`: `Option` and `Result`.
- `coro_error.dfy`
- `coro_unique.dfy`
- `interpreter.dfy`

## Model

| member | source | states |
|---|---|---|
| CoroError.PanicMessage | coro/src/lib.rs:51-57 | the message is the `&'static str` payload if it is one, else the `String` payload, else `"Box<Any>"`, in that priority |
| CoroError.Description | coro/src/lib.rs:70-76 | `"Panicked"` exactly for `Panicked`, `"Panicking(..)"` exactly for `Panicking`, whatever the payload |
| CoroError.Display | coro/src/lib.rs:64-68 | `Display` writes exactly the description |
| CoroError.Debug | coro/src/lib.rs:46-62 | `Panicked` prints `"Panicked"`; `Panicking(p)` prints `"Panicking("`, the payload's message and `")"` |
| CoroError.DebugRoundTrip | coro/src/lib.rs:58 | the message can be read back from the `Debug` text of a `Panicking` error, and the text of `Panicked` holds no message |
| CoroError.DebugSameIffSameMessage | coro/src/lib.rs:50-58 | two `Panicking` errors print the same `Debug` text if and only if their payloads have the same message |
| CoroError.DebugSeparatesVariants | coro/src/lib.rs:49-58 | the `Debug` text of `Panicked` differs from that of every `Panicking` error |
| CoroError.DisplayIgnoresPayload | coro/src/lib.rs:64-76 | two errors display the same if and only if they are the same variant, so the payload never shows |
| Interpreter.FrameOfKeys | src/interpreter.rs:25-29 | the frame built from bindings has exactly the binding names as keys |
| Interpreter.FrameOfLastWins | src/interpreter.rs:27-29 | each name is bound to `Some` of the value of its last binding, so a later duplicate overwrites an earlier one |
| Interpreter.ResolveInnermost | src/interpreter.rs:35-39 | a lookup yields the entry of the innermost frame that holds the name, which shadows all outer frames |
| Interpreter.ResolveNone | src/interpreter.rs:40-44 | a lookup yields nothing if and only if no frame holds the name |
| Interpreter.Enviroment.constructor | src/interpreter.rs:19-24 | a new environment has one empty frame and no parent |
| Interpreter.Enviroment.Child | src/interpreter.rs:30-33 | the environment `extend` returns holds the given frame and has the receiver as its parent |
| Interpreter.Enviroment.Lookup | src/interpreter.rs:35-46 | the recursive lookup agrees with `Resolve` over the frame list |
| Interpreter.Enviroment.Extend | src/interpreter.rs:25-34 | the child's frame is the bindings inserted in order, with loop invariant; its parent is the receiver, and its frame list is that frame in front of the receiver's |
| Interpreter.Enviroment.Define | src/interpreter.rs:47-49 | the name is bound to no value in the current frame, overwriting any entry; the outer frames are unchanged |
| Interpreter.Enviroment.SetValue | src/interpreter.rs:50-57 | the value is stored in the current frame in every case; the result is `Ok` if and only if the name was absent from that frame; the outer frames are unchanged |
| Interpreter.DefineThenSet | src/interpreter.rs:47-57 | setting a name just defined returns `Err`, yet a lookup then finds the value |
| Interpreter.DefineThenLookup | src/interpreter.rs:35-49 | after `define`, a lookup of the name yields `Some(None)` whatever outer frames hold, and the outer frames are unchanged |
| CoroUnique.WithState | coro/src/coroutine/unique.rs:199-201 | setting a state changes that record's state only, and keeps every handle, stack and name |
| CoroUnique.JoinSpecOutcome | coro/src/coroutine/unique.rs:177-187 | `join` ends either with `Ok(Finished)` or with an error other than `Finished`, for every state and every sequence of turns |
| CoroUnique.JoinWithoutSwitch | coro/src/coroutine/unique.rs:132-136 | joining a finished, panicked or waiting coroutine ends at the first resume with `Ok(Finished)`, `Err(Panicked)` or `Err(Waiting)`; joining the running coroutine never ends |
| CoroUnique.SwitchUntouched | coro/src/coroutine/unique.rs:148-155 | over a whole resume, a record the turn leaves alone ends as it began, the caller included, since the swap back undoes its `Normal` |
| CoroUnique.NestUntouched | coro/src/coroutine/unique.rs:131-137 | over a turn that resumes a child and goes on, a record the turn leaves alone ends as it began; a child on the chain is refused without change |
| CoroUnique.ChainMembersWait | coro/src/coroutine/unique.rs:135-136 | every coroutine on the chain, root included, is `Running` or `Normal`, so `resume` never switches into one |
| CoroUnique.OnlyTopRuns | coro/src/coroutine/unique.rs:148-155 | under the invariant, a coroutine is `Running` if and only if it is the top of the chain (or the root when the chain is empty) |
| CoroUnique.BelowTopIsNormal | coro/src/coroutine/unique.rs:148-152 | every coroutine below the top of the chain, and the root, is `Normal` |
| CoroUnique.SwapInKeepsScheduling | coro/src/coroutine/unique.rs:148-152 | marking a suspended or blocked target `Running`, the caller `Normal`, and pushing the target keeps the invariant; the target was neither the caller, the root nor on the chain |
| CoroUnique.SwitchOutKeepsScheduling | coro/src/coroutine/unique.rs:349-355 | popping the chain and giving the popped coroutine a non-`Running` state keeps the invariant, with no one `Running` until the new top takes over |
| CoroUnique.SwapBackKeepsScheduling | coro/src/coroutine/unique.rs:155 | the caller, back on top, becoming `Running` again restores the invariant |
| CoroUnique.AddKeepsScheduling | coro/src/coroutine/unique.rs:307-314 | a new record under a fresh handle, not `Running`, keeps the invariant |
| CoroUnique.RemoveKeepsScheduling | coro/src/coroutine/unique.rs:235-243 | removing a record that is neither the root nor on the chain keeps the invariant |
| CoroUnique.PayloadMeansPanicked | coro/src/coroutine/unique.rs:264-283 | a turn that leaves a payload in the slot leaves its coroutine `Panicked` |
| CoroUnique.TurnResultMeaning | coro/src/coroutine/unique.rs:158-161 | `resume` reports an error after a turn only as `Panicking`, and then the target is `Panicked`; otherwise it reports the state the target ended in, and no payload was left |
| CoroUnique.JoinVerdict | coro/src/coroutine/unique.rs:179-184 | `join` stops with `Ok(Finished)` exactly on `Ok(Finished)` or `Err(Finished)`, goes on exactly on `Ok` of another state, and hands any other error back unchanged |
| CoroUnique.Environment.constructor | coro/src/coroutine/unique.rs:297-304 | the environment starts with only its root, which has no stack and is running, an empty chain, pool and slot |
| CoroUnique.Environment.Current | coro/src/coroutine/unique.rs:378-380 | the running coroutine is the top of the resume chain, or the root when the chain is empty |
| CoroUnique.Environment.StateOf | coro/src/coroutine/unique.rs:189-195 | between operations, a handle's state reads `Running` if and only if it is the current coroutine |
| CoroUnique.Environment.IsPanicking | coro/src/coroutine/unique.rs:400-402 | `panicking()` holds if and only if the state is `Panicked` |
| CoroUnique.Environment.IsFinished | coro/src/coroutine/unique.rs:406-408 | `finished()` holds if and only if the state is `Finished` |
| CoroUnique.Environment.SetState | coro/src/coroutine/unique.rs:199-201 | only the handle's state changes |
| CoroUnique.Environment.TakeStack | coro/src/coroutine/unique.rs:322 | the stack has the requested size, and one stack of that size leaves the pool if it held one |
| CoroUnique.Environment.NewCoroutine | coro/src/coroutine/unique.rs:307-314 | a record with the stack, state and name is added under a handle not used before; the invariant is kept |
| CoroUnique.Environment.SpawnOpts | coro/src/coroutine/unique.rs:317-327 | the new coroutine is `Suspended`, carries the requested name and owns a stack of the requested size taken from the pool; the chain is unchanged |
| CoroUnique.Environment.Spawn | coro/src/coroutine/unique.rs:330-334 | `spawn_opts` with the environment's default options |
| CoroUnique.Environment.Drop | coro/src/coroutine/unique.rs:235-243 | the record goes away, its stack (if any) is added to the pool, and nothing else changes |
| CoroUnique.Environment.TrySwitch | coro/src/coroutine/unique.rs:349-359 | with a non-empty chain, the top is popped and given the state, with the invariant kept; with an empty chain nothing changes |
| CoroUnique.Environment.YieldNow | coro/src/coroutine/unique.rs:338-346 | yielding with a state other than `Running` has the effect of `try_switch` |
| CoroUnique.Environment.EndTurn | coro/src/coroutine/unique.rs:338-346 | the last step of a turn yields with the turn's end state and leaves its payload in the slot; a yield with `Running` fails the assertion and ends the turn as a caught panic |
| CoroUnique.Environment.Sched | coro/src/coroutine/unique.rs:363-365 | yields with `Suspended` |
| CoroUnique.Environment.Block | coro/src/coroutine/unique.rs:369-371 | yields with `Blocked` |
| CoroUnique.Environment.Terminate | coro/src/coroutine/unique.rs:258-291 | a returned body empties the slot and yields `Finished`; a panicked one puts its payload in the slot and yields `Panicked` |
| CoroUnique.Environment.RunTurn | coro/src/coroutine/unique.rs:153 | after the target's turn, the target is popped with its end state, the slot holds the turn's payload, every record the turn did not resume keeps its content, and every finished or panicked record stays as it was |
| CoroUnique.Environment.SwapIn | coro/src/coroutine/unique.rs:148-152 | the target becomes `Running`, the caller `Normal`, and the target is pushed on the chain; the invariant holds |
| CoroUnique.Environment.SwapBack | coro/src/coroutine/unique.rs:155-161 | the caller is `Running` again; the slot is taken and emptied; the result is `Panicking(payload)` if it held one, else the target's state |
| CoroUnique.Environment.Resume | coro/src/coroutine/unique.rs:131-162 | `Finished`, `Panicked` and `Normal` targets give `Err(Finished)`, `Err(Panicked)` and `Err(Waiting)`, and a `Running` one gives `Ok(Running)`, all with nothing changed; a suspended or blocked target ends in its turn's end state and the result is that state, or `Panicking` with the payload; the chain and the invariant are restored; finished and panicked records, even ones a nested turn resumed, stay as they were |
| CoroUnique.Environment.SwitchInto | coro/src/coroutine/unique.rs:140-161 | the switch into a suspended or blocked target, its turn and the return: the target ends in the turn's end state, the result is the turn's, the records the turn leaves alone and all finished or panicked ones are unchanged |
| CoroUnique.Environment.Join | coro/src/coroutine/unique.rs:177-187 | the result is `JoinSpec` of the target's state and its turns, with loop invariant; `Ok(Finished)` means the target is finished, and a panic error means it is `Panicked` |
| CoroUnique.SchedThenFinish | coro/src/coroutine/unique.rs:24-45 | a coroutine that calls `sched` once is reported `Suspended`, then `Finished`, and the two resumes after that are refused with `Err(Finished)` |
| CoroUnique.SpawnedNameKept | coro/src/coroutine/unique.rs:392-396 | a coroutine reports the name it was spawned with, before and after its turn |
| CoroUnique.FinishedStaysRefused | coro/src/coroutine/unique.rs:132-133 | a finished coroutine stays finished whatever another coroutine's turn does, nested resumes included, and the next resume of it is refused with `Err(Finished)` |
| CoroUnique.PanicReportedOnce | coro/src/coroutine/unique.rs:158-161 | a panic reaches the resumer once as `Panicking` with its payload, leaving the slot empty; the next resume gets `Err(Panicked)` |

## Left out

- The register-context machinery is left out. This covers `Context::new`, `Context::swap` and the trampoline's stack setup. The swap is the "plays its turn" step, `RunTurn`.
- Raw-pointer ownership is left out. This covers `Unique`, `Box::from_raw`, `transmute`, the `Thunk` closure and the `Send` impls. Handles are table keys.
- Panic catching (`try`) is left out. A panic is a body outcome carrying a payload.
- The `stderr` diagnostic the trampoline prints on a panic is left out, because it is I/O. So is `Debug for Handle`.
- The internals of `Environment` (thread-locality) are not part of this model. Only `push`, `pop`, `running`, `take_stack`, `give_stack`, `set_resume_result` and `take_last_resume_result` are modelled, as they are used.
- The root coroutine's initial state is not shown. The model takes it to be `Running`, as `resume` needs it to be.
- `Options`' default values are not part of this model. `Spawn` uses options given to the environment's constructor.
- CoroUnique.Environment.TakeStack: the pool's sizing policy is not shown. The model reuses a pooled stack of exactly the requested size, else makes a new one.
- CoroUnique.Environment.Join: the source loops until the target finishes, which may be forever. The model takes a finite list of turns and returns `None` when they run out.
- CoroUnique.Environment.Resume: the contract does not give the final states of suspended or blocked coroutines that the turn itself resumed (nested children). It says only that every other record, every record on the chain, and every finished or panicked record is unchanged.
- CoroUnique.Environment.SwitchInto: the same gap as `Resume`, for nested children that were suspended or blocked.
- CoroUnique.Environment.RunTurn: a turn does not spawn or drop coroutines.
- CoroUnique.Environment.Terminate: after a finished or panicked body, the trampoline calls `try_switch` in an endless loop, which a resume of a finished target never re-enters. Only the first call is modelled.
- CoroUnique.Environment.YieldNow: requires a state other than `Running`. A yield with `Running` inside a coroutine is modelled as a panic of its turn (`EndTurn`). On the root nothing catches the assertion's panic, so that call is left out.
- CoroUnique.Environment.NewCoroutine: requires a state other than `Running`. Every caller in the source passes `Suspended`.
- CoroUnique.Environment.Drop: requires that the coroutine is not on the chain and is not the root. Rust's borrows keep a running or waiting coroutine alive.
- `coro/src/lib.rs` declares an `Error` with only `Panicked` and `Panicking`. `unique.rs` also uses `Error::Finished` and `Error::Waiting`. The model follows each file's code:
  - `CoroUnique.Error` has the four variants that `resume` returns;
  - the text functions of `CoroError` are about the two declared variants.
- `Value::Number` holds an `f64`. Here it is an opaque 64-bit pattern, and no floating point is modelled.
- The parser, the AST declarations and the REPL in `src/main.rs` are not part of this model.
- The interpreter's `run`, `eval`, `initial_enviroment`, `eval_ast` and `run_ast` are `unimplemented!()` in the source, so they are not modelled.
