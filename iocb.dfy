/** The IO control block and its controller (`bacpypes/comm/iocb.py`,
  * `bacpypes/comm/io_controller.py`, `bacpypes/comm/iocb_states.py`). An IOCB holds the
  * state of one request, its response or error, and the callbacks to run when it is
  * triggered; a controller moves it through its states. Both classes live in one module
  * because each refers to the other. */
module Iocb {
  import opened Wrappers
  import opened Bytes

  /** The states of an IOCB, in the order `abort` compares them. */
  const IDLE := 0
  const PENDING := 1
  const ACTIVE := 2
  const COMPLETED := 3
  const ABORTED := 4

  /** The positive result a controller stores in an IOCB. */
  datatype Response = Response(pdu: seq<byte>)

  /** A callback of `add_callback`: the function, by identity, and its extra arguments.
    * Calling it is code this model cannot see; the members that trigger an IOCB return the
    * callbacks they call, in order. */
  datatype Callback = Callback(fn: nat, args: seq<int>)

  /** The mutable part of an IOCB. `complete` is the completion event. */
  datatype IocbFields = IocbFields(
    state: int,
    response: Option<Response>,
    error: Option<Error>,
    complete: bool,
    callbacks: seq<Callback>)

  /** A new IOCB: idle, with no response, no error and no callbacks. */
  function Initial(): (f: IocbFields)
    ensures f.state == IDLE && f.response.None? && f.error.None? && !f.complete && f.callbacks == []
  {
    IocbFields(IDLE, None, None, false, [])
  }

  /** `trigger`: the completion event is set and every callback is called, in the order
    * they were added. A pending timeout is cancelled, which is not modelled. */
  function Triggered(f: IocbFields): (IocbFields, seq<Callback>)
  {
    (f.(complete := true), f.callbacks)
  }

  /** `add_callback`: the callback is stored; on an IOCB already triggered it is called
    * at once. */
  function AddCallbackStep(f: IocbFields, cb: Callback): (IocbFields, seq<Callback>)
  {
    (f.(callbacks := f.callbacks + [cb]), if f.complete then [cb] else [])
  }

  /** `add_callback` as written: on an IOCB already triggered, all of `trigger` runs again. */
  function AddCallbackAsWritten(f: IocbFields, cb: Callback): (IocbFields, seq<Callback>)
  {
    var g := f.(callbacks := f.callbacks + [cb]);
    if f.complete then Triggered(g) else (g, [])
  }

  /** `complete` of an IOCB bound to no controller: whatever its state, it is completed
    * with the response and triggered. */
  function CompleteStep(f: IocbFields, msg: Response): (IocbFields, seq<Callback>)
  {
    Triggered(f.(state := COMPLETED, response := Some(msg)))
  }

  /** `abort` of an IOCB bound to no controller: only one not yet completed or aborted is
    * aborted with the error and triggered. */
  function AbortStep(f: IocbFields, err: Error): (IocbFields, seq<Callback>)
  {
    if f.state < COMPLETED then Triggered(f.(state := ABORTED, error := Some(err)))
    else (f, [])
  }

  /** `complete_io`: a completed or aborted IOCB is left alone. */
  function CompleteIoStep(f: IocbFields, msg: Response): (IocbFields, seq<Callback>)
  {
    if f.state == COMPLETED || f.state == ABORTED then (f, [])
    else Triggered(f.(state := COMPLETED, response := Some(msg)))
  }

  /** `abort_io`: a completed or aborted IOCB is left alone. */
  function AbortIoStep(f: IocbFields, err: Error): (IocbFields, seq<Callback>)
  {
    if f.state == COMPLETED || f.state == ABORTED then (f, [])
    else Triggered(f.(state := ABORTED, error := Some(err)))
  }

  /** `active_io`: only an idle or pending IOCB becomes active. */
  function ActiveIoStep(f: IocbFields): Result<IocbFields>
  {
    if f.state != IDLE && f.state != PENDING then Err(RuntimeError)
    else Ok(f.(state := ACTIVE))
  }

  /** `request_io` once the IOCB is bound: it becomes pending and is handed to
    * `process_io`, whose outcome is `processed`; an exception aborts it. */
  function RequestIoStep(f: IocbFields, processed: Result<()>): (IocbFields, seq<Callback>)
  {
    var g := f.(state := PENDING);
    if processed.Err? then AbortIoStep(g, processed.error) else (g, [])
  }

  /** `__lt__`: by priority, then by identity. */
  predicate Precedes(priority: int, id: int, otherPriority: int, otherId: int)
  {
    if priority != otherPriority then priority < otherPriority else id < otherId
  }

  /** The module-level identity counter `_ident_next`, guarded by a lock in the source. */
  class IdentCounter {
    var next: int

    constructor()
      ensures next == 1
    {
      next := 1;
    }
  }

  class IOCB {
    const ioId: int
    const ioPriority: int
    var ioState: int
    var ioResponse: Option<Response>
    var ioError: Option<Error>
    var ioController: IOController?
    var ioComplete: bool
    var ioCallback: seq<Callback>

    function Fields(): IocbFields
      reads this
    {
      IocbFields(ioState, ioResponse, ioError, ioComplete, ioCallback)
    }

    /** `__init__`: the next identity, a priority of 0 unless `_priority` is given, idle
      * and bound to no controller. The arguments of the request are not modelled. */
    constructor(ids: IdentCounter, priority: Option<int>)
      modifies ids
      ensures ioId == old(ids.next) && ids.next == old(ids.next) + 1
      ensures ioPriority == (if priority.Some? then priority.value else 0)
      ensures Fields() == Initial() && ioController == null
    {
      ioId := ids.next;
      ioPriority := if priority.Some? then priority.value else 0;
      ioState := IDLE;
      ioResponse := None;
      ioError := None;
      ioController := null;
      ioComplete := false;
      ioCallback := [];
      new;
      ids.next := ids.next + 1;
    }

    method AddCallback(cb: Callback) returns (fired: seq<Callback>)
      modifies this
      ensures (Fields(), fired) == AddCallbackStep(old(Fields()), cb)
      ensures ioController == old(ioController)
    {
      ioCallback := ioCallback + [cb];
      fired := if ioComplete then [cb] else [];
    }

    method Trigger() returns (fired: seq<Callback>)
      modifies this
      ensures (Fields(), fired) == Triggered(old(Fields()))
      ensures ioController == old(ioController)
    {
      ioComplete := true;
      fired := ioCallback;
    }

    /** `complete`: passed to the controller when there is one. */
    method Complete(msg: Response) returns (fired: seq<Callback>)
      modifies this
      ensures old(ioController) == null ==> (Fields(), fired) == CompleteStep(old(Fields()), msg)
      ensures old(ioController) != null ==> (Fields(), fired) == CompleteIoStep(old(Fields()), msg)
      ensures ioController == old(ioController)
    {
      if ioController != null {
        fired := ioController.CompleteIo(this, msg);
      } else {
        ioState := COMPLETED;
        ioResponse := Some(msg);
        fired := Trigger();
      }
    }

    /** `abort`: passed to the controller when there is one. */
    method Abort(err: Error) returns (fired: seq<Callback>)
      modifies this
      ensures old(ioController) == null ==> (Fields(), fired) == AbortStep(old(Fields()), err)
      ensures old(ioController) != null ==> (Fields(), fired) == AbortIoStep(old(Fields()), err)
      ensures ioController == old(ioController)
    {
      if ioController != null {
        fired := ioController.AbortIo(this, err);
      } else if ioState < COMPLETED {
        ioState := ABORTED;
        ioError := Some(err);
        fired := Trigger();
      } else {
        fired := [];
      }
    }

    /** `__lt__`, for the priority queue. */
    predicate Lt(other: IOCB)
      reads this, other
    {
      Precedes(ioPriority, ioId, other.ioPriority, other.ioId)
    }
  }

  /** `IOController`. `abort` has no default implementation and `process_io` is the
    * derived class's: its outcome is a parameter of `RequestIo`. */
  class IOController {
    const name: Option<string>

    constructor(name: Option<string>)
      ensures this.name == name
    {
      this.name := name;
    }

    /** `request_io`: anything but an IOCB (null here) is refused; otherwise the IOCB is
      * bound to this controller and handed on as `RequestIoStep` says. */
    method RequestIo(iocb: IOCB?, processed: Result<()>) returns (r: Result<()>, fired: seq<Callback>)
      modifies iocb
      ensures iocb == null ==> r == Err(TypeError) && fired == []
      ensures iocb != null ==> r == Ok(()) && iocb.ioController == this &&
                               (iocb.Fields(), fired) == RequestIoStep(old(iocb.Fields()), processed)
    {
      if iocb == null {
        return Err(TypeError), [];
      }
      iocb.ioController := this;
      iocb.ioState := PENDING;
      fired := [];
      if processed.Err? {
        fired := AbortIo(iocb, processed.error);
      }
      r := Ok(());
    }

    method ActiveIo(iocb: IOCB) returns (r: Result<()>)
      modifies iocb
      ensures var s := ActiveIoStep(old(iocb.Fields()));
              && (s.Ok? ==> r == Ok(()) && iocb.Fields() == s.value)
              && (s.Err? ==> r == Err(s.error) && iocb.Fields() == old(iocb.Fields()))
      ensures iocb.ioController == old(iocb.ioController)
    {
      if iocb.ioState != IDLE && iocb.ioState != PENDING {
        return Err(RuntimeError);
      }
      iocb.ioState := ACTIVE;
      r := Ok(());
    }

    method CompleteIo(iocb: IOCB, msg: Response) returns (fired: seq<Callback>)
      modifies iocb
      ensures (iocb.Fields(), fired) == CompleteIoStep(old(iocb.Fields()), msg)
      ensures iocb.ioController == old(iocb.ioController)
    {
      if iocb.ioState == COMPLETED || iocb.ioState == ABORTED {
        return [];
      }
      iocb.ioState := COMPLETED;
      iocb.ioResponse := Some(msg);
      fired := iocb.Trigger();
    }

    method AbortIo(iocb: IOCB, err: Error) returns (fired: seq<Callback>)
      modifies iocb
      ensures (iocb.Fields(), fired) == AbortIoStep(old(iocb.Fields()), err)
      ensures iocb.ioController == old(iocb.ioController)
    {
      if iocb.ioState == COMPLETED || iocb.ioState == ABORTED {
        return [];
      }
      iocb.ioState := ABORTED;
      iocb.ioError := Some(err);
      fired := iocb.Trigger();
    }
  }

  /** The controller as written assigns `ioController`, `ioState`, `ioResponse` and
    * `ioError`, which are not the attributes of the IOCB (`io_controller`, `io_state`,
    * `io_response`, `io_error`): Python adds them beside the real ones. `stray` holds
    * those extra attributes; None is an attribute never assigned, whose reading raises
    * AttributeError. */
  datatype Stray = Stray(ioState: Option<int>, ioResponse: Option<Response>, ioError: Option<Error>, ioControllerSet: bool)

  datatype WrittenIocb = WrittenIocb(fields: IocbFields, stray: Stray)

  function FreshAsWritten(): WrittenIocb
  {
    WrittenIocb(Initial(), Stray(None, None, None, false))
  }

  function AbortIoAsWritten(w: WrittenIocb, err: Error): Result<(WrittenIocb, seq<Callback>)>
  {
    if w.stray.ioState.None? then Err(AttributeError)
    else if w.stray.ioState == Some(COMPLETED) || w.stray.ioState == Some(ABORTED) then Ok((w, []))
    else
      var (g, fired) := Triggered(w.fields);
      Ok((WrittenIocb(g, w.stray.(ioState := Some(ABORTED), ioError := Some(err))), fired))
  }

  function CompleteIoAsWritten(w: WrittenIocb, msg: Response): Result<(WrittenIocb, seq<Callback>)>
  {
    if w.stray.ioState.None? then Err(AttributeError)
    else if w.stray.ioState == Some(COMPLETED) || w.stray.ioState == Some(ABORTED) then Ok((w, []))
    else
      var (g, fired) := Triggered(w.fields);
      Ok((WrittenIocb(g, w.stray.(ioState := Some(COMPLETED), ioResponse := Some(msg))), fired))
  }

  function ActiveIoAsWritten(w: WrittenIocb): Result<WrittenIocb>
  {
    if w.stray.ioState.None? then Err(AttributeError)
    else if w.stray.ioState != Some(IDLE) && w.stray.ioState != Some(PENDING) then Err(RuntimeError)
    else Ok(w.(stray := w.stray.(ioState := Some(ACTIVE))))
  }

  function RequestIoAsWritten(w: WrittenIocb, processed: Result<()>): Result<(WrittenIocb, seq<Callback>)>
  {
    var v := w.(stray := w.stray.(ioControllerSet := true, ioState := Some(PENDING)));
    if processed.Err? then AbortIoAsWritten(v, processed.error) else Ok((v, []))
  }
}

/** What the IOCB and its controller promise. */
module IocbProperties {
  import opened Wrappers
  import opened Iocb

  /** A state is one of the five, and a completed or aborted IOCB has been triggered. */
  predicate Valid(f: IocbFields)
  {
    IDLE <= f.state <= ABORTED && (f.state >= COMPLETED ==> f.complete)
  }

  lemma InitialValid()
    ensures Valid(Initial())
  {
  }

  /** Every operation keeps an IOCB valid. */
  lemma StepsKeepValid(f: IocbFields, msg: Response, err: Error, cb: Callback, processed: Result<()>)
    requires Valid(f)
    ensures Valid(AddCallbackStep(f, cb).0)
    ensures Valid(CompleteStep(f, msg).0) && Valid(AbortStep(f, err).0)
    ensures Valid(CompleteIoStep(f, msg).0) && Valid(AbortIoStep(f, err).0)
    ensures ActiveIoStep(f).Ok? ==> Valid(ActiveIoStep(f).value)
    ensures Valid(RequestIoStep(f, processed).0)
  {
  }

  /** Triggering sets the completion event and calls every callback once, in order. */
  lemma TriggeredSpec(f: IocbFields)
    ensures Triggered(f).0.complete && Triggered(f).1 == f.callbacks
    ensures Triggered(f).0.(complete := f.complete) == f
  {
  }

  /** A callback added to a triggered IOCB is called at once, and only it; one added
    * before is kept to be called by the trigger. */
  lemma AddCallbackSpec(f: IocbFields, cb: Callback)
    ensures AddCallbackStep(f, cb).0.callbacks == f.callbacks + [cb]
    ensures f.complete ==> AddCallbackStep(f, cb).1 == [cb]
    ensures !f.complete ==> AddCallbackStep(f, cb).1 == [] && Triggered(AddCallbackStep(f, cb).0).1 == f.callbacks + [cb]
  {
  }

  /** Without a controller, `complete` completes with the response and triggers. */
  lemma CompleteSpec(f: IocbFields, msg: Response)
    ensures var (g, fired) := CompleteStep(f, msg);
            g.state == COMPLETED && g.response == Some(msg) && g.complete && fired == f.callbacks && g.error == f.error
  {
  }

  /** Without a controller, `abort` acts exactly while the IOCB is not completed or
    * aborted. */
  lemma AbortSpec(f: IocbFields, err: Error)
    ensures f.state < COMPLETED ==>
              var (g, fired) := AbortStep(f, err);
              g.state == ABORTED && g.error == Some(err) && g.complete && fired == f.callbacks && g.response == f.response
    ensures f.state >= COMPLETED ==> AbortStep(f, err) == (f, [])
  {
  }

  /** `complete_io` and `abort_io` leave a completed or aborted IOCB alone and otherwise
    * finish it, storing the response or the error. */
  lemma ControllerFinishes(f: IocbFields, msg: Response, err: Error)
    ensures f.state == COMPLETED || f.state == ABORTED ==> CompleteIoStep(f, msg) == (f, []) && AbortIoStep(f, err) == (f, [])
    ensures f.state != COMPLETED && f.state != ABORTED ==>
              var (g, fired) := CompleteIoStep(f, msg);
              g.state == COMPLETED && g.response == Some(msg) && g.error == f.error && g.complete && fired == f.callbacks
    ensures f.state != COMPLETED && f.state != ABORTED ==>
              var (g, fired) := AbortIoStep(f, err);
              g.state == ABORTED && g.error == Some(err) && g.response == f.response && g.complete && fired == f.callbacks
  {
  }

  /** Once finished through its controller, an IOCB stays as it is: nothing it is given
    * afterwards calls its callbacks again. */
  lemma ControllerFinalState(f: IocbFields, msg: Response, err: Error, msg2: Response, err2: Error)
    requires Valid(f)
    ensures var g := CompleteIoStep(f, msg).0;
            CompleteIoStep(g, msg2) == (g, []) && AbortIoStep(g, err2) == (g, [])
    ensures var g := AbortIoStep(f, err).0;
            CompleteIoStep(g, msg2) == (g, []) && AbortIoStep(g, err2) == (g, [])
  {
  }

  /** `active_io` succeeds exactly on an idle or pending IOCB, and makes it active. */
  lemma ActiveIoSpec(f: IocbFields)
    ensures ActiveIoStep(f).Ok? <==> f.state == IDLE || f.state == PENDING
    ensures ActiveIoStep(f).Ok? ==> ActiveIoStep(f).value == f.(state := ACTIVE)
    ensures ActiveIoStep(f).Err? ==> ActiveIoStep(f).error == RuntimeError
  {
  }

  /** `request_io` leaves the IOCB pending, or aborted with the error `process_io` raised. */
  lemma RequestIoSpec(f: IocbFields, processed: Result<()>)
    ensures processed.Ok? ==> RequestIoStep(f, processed) == (f.(state := PENDING), [])
    ensures processed.Err? ==>
              var (g, fired) := RequestIoStep(f, processed);
              g.state == ABORTED && g.error == Some(processed.error) && g.complete && fired == f.callbacks
  {
  }

  /** `__lt__` is a strict total order on IOCBs with distinct identities. */
  lemma PrecedesOrder(p1: int, i1: int, p2: int, i2: int, p3: int, i3: int)
    ensures !Precedes(p1, i1, p1, i1)
    ensures Precedes(p1, i1, p2, i2) ==> !Precedes(p2, i2, p1, i1)
    ensures Precedes(p1, i1, p2, i2) && Precedes(p2, i2, p3, i3) ==> Precedes(p1, i1, p3, i3)
    ensures i1 != i2 ==> Precedes(p1, i1, p2, i2) || Precedes(p2, i2, p1, i1)
    ensures p1 < p2 ==> Precedes(p1, i1, p2, i2)
  {
  }

  /** As written, the controller's state lives in attributes of its own: `active_io` on a
    * new IOCB raises AttributeError where an idle IOCB should become active. */
  lemma ActiveIoAsWrittenFails()
    ensures ActiveIoAsWritten(FreshAsWritten()) == Err(AttributeError)
    ensures ActiveIoStep(Initial()) == Ok(Initial().(state := ACTIVE))
  {
  }

  /** As written, an IOCB completed through its controller is still idle to itself and bound
    * to no controller, so a later `abort` aborts it and calls its callbacks a second
    * time; with the attributes the IOCB has, the completion stands and nothing is called. */
  lemma CompletedIocbAbortsAgainAsWritten(cb: Callback, msg: Response, err: Error)
    ensures var w := FreshAsWritten().(fields := AddCallbackStep(Initial(), cb).0);
            var req := RequestIoAsWritten(w, Ok(()));
            && req.Ok?
            && var done := CompleteIoAsWritten(req.value.0, msg);
               && done.Ok? && done.value.1 == [cb]
               && done.value.0.fields.state == IDLE && !done.value.0.fields.response.Some?
               && AbortStep(done.value.0.fields, err).1 == [cb]
               && AbortStep(done.value.0.fields, err).0.state == ABORTED
    ensures var f := AddCallbackStep(Initial(), cb).0;
            var g := RequestIoStep(f, Ok(())).0;
            var (h, fired) := CompleteIoStep(g, msg);
            && fired == [cb] && h.state == COMPLETED && h.response == Some(msg)
            && AbortIoStep(h, err) == (h, [])
  {
  }

  /** As written, a callback added to a triggered IOCB makes every earlier callback run
    * again; the corrected step calls only the new one. */
  lemma AddCallbackAsWrittenRepeats(c1: Callback, c2: Callback)
    ensures var f := Triggered(AddCallbackStep(Initial(), c1).0).0;
            && AddCallbackAsWritten(f, c2).1 == [c1, c2]
            && AddCallbackStep(f, c2).1 == [c2]
  {
  }
}
