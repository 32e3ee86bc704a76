/** Model of core/macros.py: statements (an event or a callable with a
  * duration), macros (a named FIFO queue of statements), a named library
  * of macros, and a FIFO container of macros. */
module Macros {
  import opened Wrappers
  import Events
  import PyValues
  import DQ = DeQueues

  /** The argument a statement is built from: an event, a callable (known
    * only by an identity), or any other value. */
  datatype Command = EventCommand(event: Events.Event) | Callable(id: nat) | NotCommand

  /** The event a statement carries. `LambdaEvent` stands for the
    * `Event.LAMBDA` member the code refers to, which core/event.py does not
    * define. */
  datatype StatementEvent = Named(event: Events.Event) | LambdaEvent

  datatype Statement = Statement(labelText: string, durationMs: int, isLambda: bool,
                                 event: StatementEvent, callable: Option<nat>)

  /** The `Statement` constructor as written against core/event.py: the
    * callable branch reads `Event.LAMBDA`, which raises AttributeError. */
  function NewStatementAsWritten(labelText: string, command: Command, durationMs: int): (r: Result<Statement>)
    ensures command.EventCommand? ==> r == Ok(Statement(labelText, durationMs, false, Named(command.event), None))
    ensures command.Callable? ==> r == Err(AttributeError)
    ensures command.NotCommand? ==> r == Err(TypeError)
  {
    match command
    case EventCommand(e) => Ok(Statement(labelText, durationMs, false, Named(e), None))
    case Callable(_) => Err(AttributeError)
    case NotCommand => Err(TypeError)
  }

  /** The `Statement` constructor with the LAMBDA event its comment
    * describes: an event gives a non-lambda statement for that event, a
    * callable a lambda statement with event LAMBDA, anything else raises. */
  function NewStatement(labelText: string, command: Command, durationMs: int): (r: Result<Statement>)
    ensures r.Ok? <==> !command.NotCommand?
    ensures command.NotCommand? ==> r == Err(TypeError)
    ensures r.Ok? ==> r.value.labelText == labelText && r.value.durationMs == durationMs
    ensures r.Ok? ==> (r.value.isLambda <==> command.Callable?)
                      && (r.value.isLambda <==> r.value.event == LambdaEvent)
                      && (r.value.callable.Some? <==> command.Callable?)
    ensures command.EventCommand? ==> r.Ok? && r.value.event == Named(command.event)
    ensures command.Callable? ==> r.Ok? && r.value.callable == Some(command.id)
  {
    match command
    case EventCommand(e) => Ok(Statement(labelText, durationMs, false, Named(e), None))
    case Callable(f) => Ok(Statement(labelText, durationMs, true, LambdaEvent, Some(f)))
    case NotCommand => Err(TypeError)
  }

  /** Every statement built from a callable fails as written. */
  lemma NewStatementAsWrittenRejectsCallables(labelText: string, f: nat, durationMs: int)
    ensures NewStatementAsWritten(labelText, Callable(f), durationMs) == Err(AttributeError)
    ensures NewStatement(labelText, Callable(f), durationMs).Ok?
    ensures forall c: Command :: !c.Callable? ==> NewStatementAsWritten(labelText, c, durationMs) == NewStatement(labelText, c, durationMs)
  {
  }

  /** The label `'stmt-{:d}'.format(n)`. */
  function Label(n: nat): string {
    "stmt-" + PyValues.NatDigits(n)
  }

  /** Statements added at different queue sizes get different labels. */
  lemma LabelInjective(n: nat, m: nat)
    requires Label(n) == Label(m)
    ensures n == m
  {
    assert Label(n)[5..] == PyValues.NatDigits(n);
    assert Label(m)[5..] == PyValues.NatDigits(m);
    PyValues.NatDigitsInjective(n, m);
  }

  class Macro {
    const name: string
    const description: Option<string>
    /** The statement queue, a FIFO. */
    const queue: DQ.DeQueue<Statement>

    /** Uses the given queue, or a new FIFO bounded by `statementLimit`. */
    constructor (name: string, description: Option<string>, queue: Option<DQ.DeQueue<Statement>>, statementLimit: int)
      ensures this.name == name && this.description == description
      ensures queue.Some? ==> this.queue == queue.value
      ensures queue.None? ==> fresh(this.queue) && this.queue.items == []
                              && this.queue.maxsize == statementLimit && this.queue.mode == DQ.Fifo
    {
      this.name := name;
      this.description := description;
      if queue.Some? {
        this.queue := queue.value;
      } else {
        this.queue := new DQ.DeQueue<Statement>(statementLimit, DQ.Fifo);
      }
    }

    /** `size`: the number of statements queued. */
    function Size(): (r: nat)
      reads queue
      ensures r == |queue.items| && (r == 0 <==> queue.IsEmpty())
    {
      queue.Size()
    }

    /** `poll`: the oldest statement of a FIFO queue. */
    method Poll() returns (r: Result<Statement>)
      modifies queue
      ensures old(queue.IsEmpty()) ==> r == Err(QueueEmpty) && queue.items == old(queue.items)
      ensures !old(queue.IsEmpty()) && queue.mode != DQ.Lifo ==>
                r == Ok(old(queue.items)[0]) && queue.items == old(queue.items)[1..]
      ensures !old(queue.IsEmpty()) && queue.mode == DQ.Lifo ==>
                r == Err(TypeError) && queue.items == old(queue.items)
    {
      r := queue.Poll();
    }

    /** `add_event` / `add_function`: appends a statement labelled with the
      * prior size. */
    method Add(command: Command, durationMs: int) returns (st: Status)
      modifies queue
      ensures var s := NewStatement(Label(old(queue.Size())), command, durationMs);
              if s.Err? then st == Raised(s.error) && queue.items == old(queue.items)
              else (queue.items, st) == DQ.PutStep(old(queue.items), queue.maxsize, s.value)
    {
      var s := NewStatement(Label(queue.Size()), command, durationMs);
      if s.Err? {
        return Raised(s.error);
      }
      st := queue.Put(s.value);
    }

    method AddEvent(event: Events.Event, durationMs: int) returns (st: Status)
      modifies queue
      ensures (queue.items, st) == DQ.PutStep(old(queue.items), queue.maxsize,
                Statement(Label(old(queue.Size())), durationMs, false, Named(event), None))
    {
      st := Add(EventCommand(event), durationMs);
    }

    method AddFunction(callable: nat, durationMs: int) returns (st: Status)
      modifies queue
      ensures (queue.items, st) == DQ.PutStep(old(queue.items), queue.maxsize,
                Statement(Label(old(queue.Size())), durationMs, true, LambdaEvent, Some(callable)))
    {
      st := Add(Callable(callable), durationMs);
    }
  }

  /** A macro returns its statements in the order they were added, each
    * labelled with its position: building an unbounded macro from
    * `events` and polling it empty yields one statement per event. */
  method ReplayMacro(name: string, events: seq<Events.Event>, durationMs: int) returns (out: seq<Statement>)
    ensures |out| == |events|
    ensures forall i :: 0 <= i < |events| ==>
              out[i] == Statement(Label(i), durationMs, false, Named(events[i]), None)
  {
    var m := new Macro(name, None, None, -1);
    for i := 0 to |events|
      invariant |m.queue.items| == i && m.queue.maxsize == -1 && m.queue.mode == DQ.Fifo
      invariant forall k :: 0 <= k < i ==>
                  m.queue.items[k] == Statement(Label(k), durationMs, false, Named(events[k]), None)
    {
      var st := m.AddEvent(events[i], durationMs);
    }
    out := [];
    ghost var all := m.queue.items;
    for i := 0 to |events|
      invariant m.queue.items == all[i..] && m.queue.mode == DQ.Fifo && |out| == i
      invariant forall k :: 0 <= k < i ==> out[k] == all[k]
    {
      var r := m.Poll();
      assert all[i..][0] == all[i] && all[i..][1..] == all[i + 1..];
      out := out + [r.value];
    }
  }

  /** What `MacroLibrary.put` is handed: a macro or some other value. */
  datatype LibraryItem = AMacro(macro: Macro) | NotAMacro

  class MacroLibrary {
    var macros: map<string, Macro>

    constructor ()
      ensures macros == map[]
    {
      macros := map[];
    }

    /** `size`: the number of names with a macro. */
    function Size(): (r: nat)
      reads this
      ensures r == |macros.Keys| && (r == 0 <==> macros == map[])
    {
      |macros|
    }

    /** `put`: stores a macro under its name, replacing any macro with the
      * same name; anything else raises TypeError. */
    method Put(item: LibraryItem) returns (st: Status)
      modifies this
      ensures item.NotAMacro? ==> st == Raised(TypeError) && macros == old(macros)
      ensures item.AMacro? ==> st == Done && macros == old(macros)[item.macro.name := item.macro]
      ensures item.AMacro? ==> Size() == old(Size()) + (if item.macro.name in old(macros) then 0 else 1)
    {
      if item.NotAMacro? {
        return Raised(TypeError);
      }
      macros := macros[item.macro.name := item.macro];
      st := Done;
    }

    /** `get`: the macro stored under `name`, or none, found by a scan. */
    method Get(name: string) returns (r: Option<Macro>)
      ensures r == if name in macros then Some(macros[name]) else None
    {
      var remaining := macros.Keys;
      while remaining != {}
        invariant remaining <= macros.Keys
        invariant name in macros ==> name in remaining
        decreases remaining
      {
        var n :| n in remaining;
        if n == name {
          return Some(macros[n]);
        }
        remaining := remaining - {n};
      }
      return None;
    }
  }

  /** `Macros`: a FIFO container of macros. */
  class MacroQueue {
    const queue: DQ.DeQueue<Macro>

    constructor ()
      ensures fresh(queue) && queue.items == [] && queue.mode == DQ.Fifo && queue.maxsize == -1
    {
      queue := new DQ.DeQueue<Macro>(-1, DQ.Fifo);
    }

    /** `size`: the number of macros queued. */
    function Size(): (r: nat)
      reads queue
      ensures r == |queue.items| && (r == 0 <==> queue.items == [])
    {
      queue.Size()
    }

    method Put(m: Macro) returns (st: Status)
      modifies queue
      ensures (queue.items, st) == DQ.PutStep(old(queue.items), queue.maxsize, m)
    {
      st := queue.Put(m);
    }

    method Get() returns (r: Result<Macro>)
      modifies queue
      ensures old(queue.IsEmpty()) ==> r == Err(QueueEmpty) && queue.items == old(queue.items)
      ensures !old(queue.IsEmpty()) && queue.mode != DQ.Lifo ==>
                r == Ok(old(queue.items)[0]) && queue.items == old(queue.items)[1..]
    {
      r := queue.Get();
    }
  }
}
