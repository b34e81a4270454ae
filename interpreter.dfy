/**
 * The lexical environment of the expression language (`src/interpreter.rs`):
 * a chain of frames, each a map from names to an optional value, where the
 * innermost frame holding a name shadows every frame outside it.
 */
module Interpreter {
  import opened Wrappers

  /** A runtime value. The `f64` of `Value::Number` is kept as its bit pattern and never inspected. */
  datatype Value = Number(bits: bv64)

  /** One frame: `HashMap<String, Option<Value>>`; `None` marks a name defined but not yet given a value. */
  type Frame = map<string, Option<Value>>

  /** The frame that inserting `bindings` one after the other into an empty map gives. */
  function FrameOf(bindings: seq<(string, Value)>): Frame
  {
    if bindings == [] then map[]
    else
      var last := bindings[|bindings| - 1];
      FrameOf(bindings[..|bindings| - 1])[last.0 := Some(last.1)]
  }

  /** The frame binds exactly the names that occur in the bindings. */
  lemma {:induction false} FrameOfKeys(bindings: seq<(string, Value)>)
    ensures FrameOf(bindings).Keys == set i | 0 <= i < |bindings| :: bindings[i].0
  {
    if bindings != [] {
      var init := bindings[..|bindings| - 1];
      FrameOfKeys(init);
      assert forall i | 0 <= i < |init| :: init[i] == bindings[i];
      assert (set i | 0 <= i < |bindings| :: bindings[i].0)
          == (set i | 0 <= i < |init| :: init[i].0) + {bindings[|bindings| - 1].0};
    }
  }

  /** A name bound several times keeps the value of its last binding. */
  lemma {:induction false} FrameOfLastWins(bindings: seq<(string, Value)>, i: nat)
    requires i < |bindings|
    requires forall j | i < j < |bindings| :: bindings[j].0 != bindings[i].0
    ensures bindings[i].0 in FrameOf(bindings)
    ensures FrameOf(bindings)[bindings[i].0] == Some(bindings[i].1)
  {
    if i < |bindings| - 1 {
      var init := bindings[..|bindings| - 1];
      assert init[i] == bindings[i];
      FrameOfLastWins(init, i);
    }
  }

  /** Resolution of a name in a chain of frames, innermost first. */
  ghost function Resolve(frames: seq<Frame>, name: string): Option<Option<Value>>
  {
    if frames == [] then None
    else if name in frames[0] then Some(frames[0][name])
    else Resolve(frames[1..], name)
  }

  /** The innermost frame holding the name decides, whatever the frames outside it hold. */
  lemma {:induction false} ResolveInnermost(frames: seq<Frame>, name: string, i: nat)
    requires i < |frames| && name in frames[i]
    requires forall j | 0 <= j < i :: name !in frames[j]
    ensures Resolve(frames, name) == Some(frames[i][name])
  {
    if i > 0 {
      assert name !in frames[0];
      assert forall j | 0 <= j < i - 1 :: frames[1..][j] == frames[j + 1];
      ResolveInnermost(frames[1..], name, i - 1);
    }
  }

  /** Resolution fails exactly when no frame holds the name. */
  lemma {:induction false} ResolveNone(frames: seq<Frame>, name: string)
    ensures Resolve(frames, name).None? <==> forall i | 0 <= i < |frames| :: name !in frames[i]
  {
    if frames != [] {
      ResolveNone(frames[1..], name);
      assert forall i | 1 <= i < |frames| :: frames[i] == frames[1..][i - 1];
    }
  }

  class Enviroment {
    var currentFrame: Frame
    /** The enclosing environment, borrowed immutably for as long as this one lives. */
    const prev: Enviroment?
    ghost const Repr: set<object>

    ghost predicate Valid()
      reads Repr
      ensures Valid() ==> this in Repr
      decreases Repr
    {
      && this in Repr
      && (prev == null ==> Repr == {this})
      && (prev != null ==> prev in Repr && prev.Repr <= Repr && this !in prev.Repr && prev.Valid())
    }

    /** The frames from the innermost (this one's) outwards. */
    ghost function Frames(): (fs: seq<Frame>)
      reads Repr
      requires Valid()
      decreases Repr
      ensures |fs| >= 1 && fs[0] == currentFrame
      ensures prev == null ==> |fs| == 1
      ensures prev != null ==> fs[1..] == prev.Frames()
    {
      if prev == null then [currentFrame] else [currentFrame] + prev.Frames()
    }

    /** `Enviroment::new`: one empty frame and no parent. */
    constructor ()
      ensures Valid() && fresh(Repr)
      ensures prev == null && currentFrame == map[]
      ensures Frames() == [map[]]
    {
      currentFrame := map[];
      prev := null;
      Repr := {this};
    }

    /** The environment value built at the end of `extend`. */
    constructor Child(frame: Frame, parent: Enviroment)
      requires parent.Valid()
      ensures Valid() && Repr == {this} + parent.Repr
      ensures prev == parent && currentFrame == frame
    {
      currentFrame := frame;
      prev := parent;
      Repr := {this} + parent.Repr;
    }

    /**
     * `Enviroment::lookup`: the entry of the innermost frame that holds the
     * name (`Some(None)` for a name defined without a value), `None` if no
     * frame does.
     */
    function Lookup(name: string): (r: Option<Option<Value>>)
      reads Repr
      requires Valid()
      decreases Repr
      ensures r == Resolve(Frames(), name)
    {
      if name in currentFrame then Some(currentFrame[name])
      else if prev != null then prev.Lookup(name)
      else None
    }

    /**
     * `Enviroment::extend`: a new environment whose frame holds the bindings,
     * inserted in order, and whose parent is this one; this one is unchanged.
     */
    method Extend(bindings: seq<(string, Value)>) returns (e: Enviroment)
      requires Valid()
      ensures fresh(e) && e.Valid() && e.Repr == {e} + Repr
      ensures e.prev == this && e.currentFrame == FrameOf(bindings)
      ensures e.Frames() == [FrameOf(bindings)] + Frames()
    {
      var frame: Frame := map[];
      for k := 0 to |bindings|
        invariant frame == FrameOf(bindings[..k])
      {
        assert bindings[..k + 1][..k] == bindings[..k];
        frame := frame[bindings[k].0 := Some(bindings[k].1)];
      }
      assert bindings[..|bindings|] == bindings;
      e := new Enviroment.Child(frame, this);
    }

    /** `Enviroment::define`: the name is bound to no value in this frame; outer frames stay as they were. */
    method Define(name: string)
      requires Valid()
      modifies this`currentFrame
      ensures Valid()
      ensures currentFrame == old(currentFrame)[name := None]
      ensures Frames() == [currentFrame] + old(Frames())[1..]
    {
      currentFrame := currentFrame[name := None];
    }

    /**
     * `Enviroment::set_value`: the value is stored under the name in this
     * frame in every case; the result is `Ok` exactly when the name was not
     * in this frame before, so it is `Err` even for a name only defined.
     */
    method SetValue(name: string, val: Option<Value>) returns (r: Result<(), ()>)
      requires Valid()
      modifies this`currentFrame
      ensures Valid()
      ensures currentFrame == old(currentFrame)[name := val]
      ensures Frames() == [currentFrame] + old(Frames())[1..]
      ensures r.Ok? <==> name !in old(currentFrame)
    {
      // `HashMap::insert` hands back the entry it replaced, if there was one
      var replaced := name in currentFrame;
      currentFrame := currentFrame[name := val];
      if replaced {
        r := Err(());
      } else {
        r := Ok(());
      }
    }
  }

  /** A name that was defined cannot then be set without the error, though the value is stored. */
  method DefineThenSet(env: Enviroment, name: string, val: Value) returns (r: Result<(), ()>)
    requires env.Valid()
    modifies env
    ensures r.Err?
    ensures env.Lookup(name) == Some(Some(val))
  {
    env.Define(name);
    assert name in env.currentFrame;
    r := env.SetValue(name, Some(val));
  }

  /** A name just defined is found in the innermost frame, bound to no value, whatever outer frames hold. */
  method DefineThenLookup(env: Enviroment, name: string)
    requires env.Valid()
    modifies env
    ensures env.Lookup(name) == Some(None)
    ensures env.Frames()[1..] == old(env.Frames())[1..]
  {
    env.Define(name);
  }
}
