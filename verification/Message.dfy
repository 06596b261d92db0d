/** The conversation log's messages (internal/message/message.go), and the assembly of the
    assistant message while it streams (the asm of internal/figaro/turn.go). */
module Message {
  datatype Option<+T> = None | Some(value: T)

  datatype Role = User | Assistant | Genesis | System

  type Args = map<string, string>

  datatype Content =
    | Prose(text: string)
    | Thinking(text: string)
    | Image
    | Invoke(id: string, name: string, args: Option<Args>)
    | Result(id: string, name: string, text: string, isErr: bool)

  datatype Message = Message(role: Role, content: seq<Content>)

  /** Log times count from 1 and never repeat. */
  datatype Entry = Entry(lt: nat, msg: Message)

  // ----- Assembly

  datatype TextKind = KProse | KThinking

  datatype Asm = Asm(content: seq<Content>, toolIdx: map<string, nat>)

  const EMPTY := Asm([], map[])

  function Block(kind: TextKind, text: string): Content {
    if kind.KProse? then Prose(text) else Thinking(text)
  }

  predicate IsKind(c: Content, kind: TextKind) {
    if kind.KProse? then c.Prose? else c.Thinking?
  }

  function AddText(a: Asm, kind: TextKind, text: string): Asm {
    var n := |a.content|;
    if text == "" then a
    else if n > 0 && IsKind(a.content[n - 1], kind) then
      a.(content := a.content[n - 1 := Block(kind, a.content[n - 1].text + text)])
    else a.(content := a.content + [Block(kind, text)])
  }

  function ToolOpen(a: Asm, id: string, name: string): Asm {
    Asm(a.content + [Invoke(id, name, None)], a.toolIdx[id := |a.content|])
  }

  /** Every index in the table names an invocation. */
  predicate IndexOk(a: Asm) {
    forall id | id in a.toolIdx :: a.toolIdx[id] < |a.content| && a.content[a.toolIdx[id]].Invoke?
  }

  function ToolReady(a: Asm, id: string, name: string, args: Option<Args>): Asm
    requires IndexOk(a)
  {
    var b := if id in a.toolIdx then a else ToolOpen(a, id, name);
    var i := b.toolIdx[id];
    var c := Invoke(b.content[i].id, if name != "" then name else b.content[i].name,
                    if args.Some? then args else Some(map[]));
    b.(content := b.content[i := c])
  }

  /** One event of the provider's stream. ToolArgs only feeds the live preview. */
  datatype BusEvent =
    | Delta(kind: TextKind, text: string)
    | ToolStart(id: string, name: string)
    | ToolArgs(id: string, partial: string)
    | Ready(id: string, name: string, args: Option<Args>)

  function Assemble(a: Asm, e: BusEvent): (b: Asm)
    requires IndexOk(a)
    ensures IndexOk(b)
  {
    match e
    case Delta(kind, text) => AddText(a, kind, text)
    case ToolStart(id, name) => ToolOpen(a, id, name)
    case ToolArgs(_, _) => a
    case Ready(id, name, args) => ToolReady(a, id, name, args)
  }

  // ----- Calls and results

  function Calls(cs: seq<Content>): seq<Content> {
    if cs == [] then [] else Calls(cs[..|cs| - 1]) + (if cs[|cs| - 1].Invoke? then [cs[|cs| - 1]] else [])
  }

  /** assistantToolInvokes: only an assistant message calls tools. */
  function ToolInvokes(m: Message): seq<Content> { if m.role.Assistant? then Calls(m.content) else [] }

  function Ids(cs: seq<Content>): (ids: seq<string>)
    ensures |ids| == |cs|
  {
    seq(|cs|, i requires 0 <= i < |cs| => if cs[i].Invoke? || cs[i].Result? then cs[i].id else "")
  }

  lemma IdsAppend(a: seq<Content>, b: seq<Content>)
    ensures Ids(a + b) == Ids(a) + Ids(b)
  {
  }

  function CallIds(m: Message): seq<string> { Ids(ToolInvokes(m)) }
}
