/** Runs of the one-byte machine: the callbacks a byte causes, a whole call of
    http_parser_execute, and the invariant that every byte keeps. */
module HttpRun {
  import opened Basics
  import opened HttpBase
  import opened HttpMachine

  // ---- callbacks ----------------------------------------------------------------------------

  /** Appends a callback, joining it with a preceding data callback of the same kind (the two
      then report pieces of one string). */
  function Emit(log: seq<Event>, e: Event): seq<Event> {
    if e.Data? && log != [] && log[|log| - 1].Data? && log[|log| - 1].kind == e.kind
    then log[..|log| - 1] + [Data(e.kind, log[|log| - 1].bytes + e.bytes)]
    else log + [e]
  }

  /** A raw callback trace with adjacent data of one kind joined. */
  function Join(raw: seq<Event>): seq<Event> {
    if raw == [] then [] else Emit(Join(raw[..|raw| - 1]), raw[|raw| - 1])
  }

  /** The joined trace so far and the slices still open (the five marks of a call). */
  datatype Delivery = Delivery(log: seq<Event>, held: map<DataKind, string>)

  function Slice(d: Delivery, k: DataKind): string { if k in d.held then d.held[k] else "" }

  function Send(d: Delivery, k: DataKind, bytes: string): Delivery {
    Delivery(Emit(d.log, Data(k, bytes)), d.held - {k})
  }

  function CloseSlice(d: Delivery, close: Close, c: char): Delivery {
    match close
    case Leave => d
    case Flush(k) => if k in d.held then Send(d, k, d.held[k]) else d
    case FlushEmpty(k) => Send(d, k, Slice(d, k))
    case FlushThrough(k) => Send(d, k, Slice(d, k) + [c])
  }

  function OpenSlice(held: map<DataKind, string>, mark: Option<DataKind>): map<DataKind, string> {
    if mark.Some? && mark.value !in held then held[mark.value := ""] else held
  }

  function Notes(ns: seq<Notice>): seq<Event> { seq(|ns|, i requires 0 <= i < |ns| => Notify(ns[i])) }

  /** The callbacks of one byte. */
  function Deliver(d: Delivery, o: Out, c: char): Delivery {
    var e := CloseSlice(d, o.close, c);
    Delivery(e.log + Notes(o.tells), OpenSlice(e.held, o.mark))
  }

  /** The byte is over: it belongs to every slice still open. */
  function Extend(d: Delivery, c: char): Delivery {
    Delivery(d.log, map k | k in d.held :: d.held[k] + [c])
  }

  /** The flush of leftover marks at the end of a call, in the order of the code. */
  function Leftover(d: Delivery): Delivery {
    var f := CloseSlice(d, Flush(FieldData), '\0');
    var v := CloseSlice(f, Flush(ValueData), '\0');
    var u := CloseSlice(v, Flush(UrlData), '\0');
    var b := CloseSlice(u, Flush(BodyData), '\0');
    CloseSlice(b, Flush(StatusData), '\0')
  }

  // ---- a call -------------------------------------------------------------------------------

  datatype Machine = Machine(p: Parser, loop: Loop, d: Delivery, consumed: nat, exited: bool)

  predicate Stopped(m: Machine) { m.exited || m.p.errno != OK }

  /** COUNT_HEADER_SIZE for one byte; inside the inner loops the sum is checked on leaving them. */
  function Count(p: Parser, loop: Loop): Parser {
    if !ParsingHeader(p.state) then p else
    var n := (p.nread + 1) % TWO_TO_32;
    if loop.Outside? && n > MAX_HEADER_SIZE then p.(nread := n, errno := HeaderOverflow) else p.(nread := n)
  }

  /** The machine after a byte with outcome o. */
  function Apply(m: Machine, o: Out, c: char): Machine {
    var d := Deliver(m.d, o, c);
    if o.p.errno != OK then m.(p := o.p, loop := o.loop, d := d)
    else Machine(o.p, o.loop, Extend(d, c), m.consumed + 1, o.exit)
  }

  /** One byte of a call; `next` is the byte after it in memory. */
  function Step(m: Machine, c: char, next: char): Machine {
    if Stopped(m) then m else
    var p := Count(m.p, m.loop);
    if p.errno != OK then m.(p := p) else Apply(m, Transition(p, m.loop, c, next), c)
  }

  /** The byte after position i: `past` is whatever memory holds behind the buffer. */
  function After(data: string, i: nat, past: char): char
    requires i < |data|
  {
    if i + 1 < |data| then data[i + 1] else past
  }

  /** The machine after the first n bytes of data. */
  function Feed(m: Machine, data: string, n: nat, past: char): Machine
    requires n <= |data|
  {
    if n == 0 then m else Step(Feed(m, data, n - 1, past), data[n - 1], After(data, n - 1, past))
  }

  /** The marks set on entry, before any byte. */
  function EntryMarks(s: State): map<DataKind, string> {
    if EntryMark(s).Some? then map[EntryMark(s).value := ""] else map[]
  }

  function Start(p: Parser, log: seq<Event>): Machine {
    Machine(p, Outside, Delivery(log, EntryMarks(p.state)), 0, false)
  }

  /** The end of a call: the count of an unfinished inner loop, then the leftover marks. */
  function End(m: Machine): Machine {
    if Stopped(m) then m
    else if m.loop.Outside? then m.(d := Leftover(m.d))
    else
      var n := (m.p.nread + 1) % TWO_TO_32;
      if n > MAX_HEADER_SIZE then m.(p := m.p.(nread := n, errno := HeaderOverflow), loop := Outside)
      else m.(p := m.p.(nread := n), loop := Outside, d := Leftover(m.d))
  }

  /** A call with len == 0 tells the parser that the stream ended. */
  function Eof(p: Parser, log: seq<Event>): Machine {
    var m := Machine(p, Outside, Delivery(log, map[]), 0, false);
    match p.state
    case Body(BodyIdentityEof) => m.(d := Delivery(log + [Notify(MessageComplete)], map[]))
    case Dead => m
    case StartReqOrRes => m
    case StartRes => m
    case StartReq => m
    case _ => m.(p := p.(errno := InvalidEofState), consumed := 1)
  }

  /** http_parser_execute on a whole buffer. */
  function Call(p: Parser, log: seq<Event>, data: string, past: char): Machine {
    if p.errno != OK then Machine(p, Outside, Delivery(log, map[]), 0, false)
    else if data == "" then Eof(p, log)
    else End(Feed(Start(p, log), data, |data|, past))
  }

  // ---- what every run keeps ---------------------------------------------------------------------

  predicate HeldFits(held: map<DataKind, string>, s: State) {
    && (forall k :: k in held ==> Live(s) == Some(k))
    && (EntryMark(s).Some? ==> EntryMark(s).value in held)
  }

  /** Invariant of a call in progress. */
  predicate Good(m: Machine) {
    && Clean(m.p)
    && (m.p.errno == OK ==> Inv(m.p) && HeldFits(m.d.held, m.p.state) && LoopFits(m.p, m.loop))
    && (m.exited ==> m.p.errno == OK && m.d.held == map[] && m.loop.Outside?)
  }

  lemma ApplyKeepsGood(m: Machine, s: State, o: Out, c: char)
    requires Good(m) && m.p.errno == OK && m.p.state == s && !m.exited
    requires Fine(o) && (o.p.errno == OK ==> Tidy(s, o))
    ensures Good(Apply(m, o, c))
  {
  }

  lemma StepKeepsGood(m: Machine, c: char, next: char)
    requires Good(m)
    ensures Good(Step(m, c, next))
  {
    hide Transition;
    var p := Count(m.p, m.loop);
    if !Stopped(m) && p.errno == OK {
      assert InvCounted(p);
      var o := Transition(p, m.loop, c, next);
      TransitionTidy(p, m.loop, c, next);
      ApplyKeepsGood(m, m.p.state, o, c);
    }
  }
}
