/**
 * The resume error of the coroutine crate (`coro/src/lib.rs`) and the three
 * ways it is turned into text: `description`, `Display` and `Debug`.
 */
module CoroError {
  import opened Wrappers

  /**
   * A panic payload (`Box<Any + Send>`). Its concrete type decides which
   * downcast succeeds: a `&'static str`, an owned `String`, or any other type
   * (told apart here only by a tag).
   */
  datatype Payload = StaticStr(text: string) | OwnedString(text: string) | OtherType(tag: nat)

  /** `downcast_ref::<&'static str>()` */
  function DowncastStaticStr(p: Payload): Option<string>
  {
    if p.StaticStr? then Some(p.text) else None
  }

  /** `downcast_ref::<String>()` */
  function DowncastString(p: Payload): Option<string>
  {
    if p.OwnedString? then Some(p.text) else None
  }

  /** The two resume errors this file declares. */
  datatype Error = Panicked | Panicking(payload: Payload)

  /**
   * The message shown for a panic payload: the `&'static str` if it is one,
   * else the `String` if it is one, else the literal "Box<Any>".
   */
  function PanicMessage(p: Payload): (msg: string)
    ensures DowncastStaticStr(p).Some? ==> msg == DowncastStaticStr(p).value
    ensures DowncastStaticStr(p).None? && DowncastString(p).Some? ==> msg == DowncastString(p).value
    ensures DowncastStaticStr(p).None? && DowncastString(p).None? ==> msg == "Box<Any>"
  {
    match DowncastStaticStr(p)
    case Some(s) => s
    case None =>
      match DowncastString(p)
      case Some(s) => s
      case None => "Box<Any>"
  }

  /** `error::Error::description`: names the variant, never the payload. */
  function Description(e: Error): (r: string)
    ensures r == "Panicked" <==> e.Panicked?
    ensures r == "Panicking(..)" <==> e.Panicking?
  {
    match e
    case Panicked => "Panicked"
    case Panicking(_) => "Panicking(..)"
  }

  /** `Display`: writes the description and nothing else. */
  function Display(e: Error): (r: string)
    ensures r == Description(e)
  {
    Description(e)
  }

  /** `Debug`: like the description, but a panicking error shows its payload's message. */
  function Debug(e: Error): (r: string)
    ensures e.Panicked? ==> r == "Panicked"
    ensures e.Panicking? ==> r == "Panicking(" + PanicMessage(e.payload) + ")"
  {
    match e
    case Panicked => "Panicked"
    case Panicking(p) => "Panicking(" + PanicMessage(p) + ")"
  }

  /** Reads the message back out of a `Debug` text, if it has the `Panicking(...)` shape. */
  function DebugMessage(s: string): Option<string>
  {
    if |s| >= 11 && s[..10] == "Panicking(" && s[|s| - 1] == ')' then Some(s[10..|s| - 1]) else None
  }

  /** The `Debug` text of an error determines its variant and, for `Panicking`, its message. */
  lemma DebugRoundTrip(e: Error)
    ensures DebugMessage(Debug(e)) == if e.Panicking? then Some(PanicMessage(e.payload)) else None
  {
    if e.Panicking? {
      var msg := PanicMessage(e.payload);
      var s := "Panicking(" + msg + ")";
      assert s[..10] == "Panicking(";
      assert s[10..|s| - 1] == msg;
    }
  }

  /** Two panicking errors print alike under `Debug` exactly when their messages agree. */
  lemma DebugSameIffSameMessage(p: Payload, q: Payload)
    ensures Debug(Panicking(p)) == Debug(Panicking(q)) <==> PanicMessage(p) == PanicMessage(q)
  {
    if Debug(Panicking(p)) == Debug(Panicking(q)) {
      DebugRoundTrip(Panicking(p));
      DebugRoundTrip(Panicking(q));
    }
  }

  /** `Debug` never confuses a panicked error with a panicking one, whatever the payload. */
  lemma DebugSeparatesVariants(p: Payload)
    ensures Debug(Panicked) != Debug(Panicking(p))
  {
    DebugRoundTrip(Panicked);
    DebugRoundTrip(Panicking(p));
  }

  /** `Display` tells the variants apart and ignores the payload. */
  lemma DisplayIgnoresPayload(e1: Error, e2: Error)
    ensures Display(e1) == Display(e2) <==> e1.Panicked? == e2.Panicked?
  {
  }
}
