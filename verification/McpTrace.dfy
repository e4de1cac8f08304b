/** The recorded MCP messages, as the host receipt reads them. */
module McpTrace {
  import opened Wrappers
  import opened Text
  import Json

  datatype Direction = ClientToServer | ServerToClient | Handoff

  datatype Method = Initialize | Initialized | ToolsList | ToolsCall | OtherMethod

  /** A JSON-RPC id that is a scalar (section 4 of JSON-RPC 2.0). */
  datatype ScalarId = StringId(text: string) | NumberId(number: Json.Number)

  /** What a tool result says besides being a value. */
  datatype ToolResult = ToolResult(value: Json.Value, contentHash: Option<string>, status: Option<string>,
                                   isError: bool)

  /** The parts of a message the receipt looks at; a `ScalarId` is missing when
      `/id` is absent or not a string or number. */
  datatype Message = Message(rpcMethod: Option<Method>, id: Option<ScalarId>, tool: Option<string>,
                             expectedHash: Option<string>, result: Option<ToolResult>)

  datatype Payload = Malformed | Absent | Present(message: Message)

  datatype Event = Event(direction: Direction, payload: Payload)

  /** `event_message` succeeds: only a handoff may lack a message. */
  predicate Readable(e: Event) {
    e.payload.Present? || (e.payload.Absent? && e.direction.Handoff?)
  }

  function NumberText(n: Json.Number): string {
    match n
    case Integer(i) => SignedDecimal(i)
    case Float(text) => text
  }

  /** `json_rpc_id` */
  function IdText(id: ScalarId): string {
    match id
    case StringId(text) => "s:" + text
    case NumberId(n) => "n:" + NumberText(n)
  }

  /** Scalar ids never collide: neither a string with a number, nor two strings, two
      integers, or an integer with another number. */
  lemma {:induction false} IdTextInjective(a: ScalarId, b: ScalarId)
    requires IdText(a) == IdText(b)
    ensures a == b
  {
    assert IdText(a)[0] == IdText(b)[0];
    assert IdText(a)[2..] == IdText(b)[2..];
    match (a, b)
    case (StringId(s), StringId(t)) =>
      assert IdText(a)[2..] == s && IdText(b)[2..] == t;
    case (NumberId(m), NumberId(n)) =>
      assert IdText(a)[2..] == NumberText(m) && IdText(b)[2..] == NumberText(n);
      NumberTextInjective(m, n);
    case _ =>
  }

  lemma {:induction false} NumberTextInjective(m: Json.Number, n: Json.Number)
    requires NumberText(m) == NumberText(n)
    ensures m == n
  {
    match (m, n)
    case (Integer(i), Integer(j)) => SignedDecimalInjective(i, j);
    case (Integer(i), Float(text)) => IntegerIsNoFloat(i);
    case (Float(text), Integer(j)) => IntegerIsNoFloat(j);
    case _ =>
  }

  lemma {:induction false} IntegerIsNoFloat(i: int)
    ensures !Json.IsFloatText(SignedDecimal(i))
  {
    DecimalRoundTrip(if i < 0 then -i else i);
  }

  lemma {:induction false} SignedDecimalInjective(i: int, j: int)
    requires SignedDecimal(i) == SignedDecimal(j)
    ensures i == j
  {
    DecimalRoundTrip(if i < 0 then -i else i);
    DecimalRoundTrip(if j < 0 then -j else j);
    var s, t := SignedDecimal(i), SignedDecimal(j);
    assert s[0] == t[0];
    if i < 0 && j < 0 {
      assert s[1..] == Decimal(-i) && t[1..] == Decimal(-j);
    }
  }

  /** The message of an event sent in direction `d`. */
  function MessageFrom(e: Event, d: Direction): Option<Message> {
    if e.direction == d && e.payload.Present? then Some(e.payload.message) else None
  }

  predicate IsRequest(e: Event, m: Method) {
    var message := MessageFrom(e, ClientToServer);
    message.Some? && message.value.rpcMethod == Some(m)
  }

  /** The id of a client message. */
  function RequestId(e: Event): Option<string> {
    var message := MessageFrom(e, ClientToServer);
    if message.Some? && message.value.id.Some? then Some(IdText(message.value.id.value)) else None
  }

  /** The id of a message from the server. */
  function ServerId(e: Event): Option<string> {
    var message := MessageFrom(e, ServerToClient);
    if message.Some? && message.value.id.Some? then Some(IdText(message.value.id.value)) else None
  }
}
