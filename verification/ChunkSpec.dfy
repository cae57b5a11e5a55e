/** The part of the response parser that reads the header line of a chunk, as a function of the
    parser's fields and the buffer.  A parser may stop at the end of a buffer and go on later in
    a longer one that starts the same. */
module ChunkSpec {

  type Byte = b: nat | b < 256

  /** What the parser reports: places in the buffer and lengths. */
  datatype Call =
    | LastChunk(at: nat, len: nat)
    | ChunkSize(at: nat, len: nat)
    | Field(name: nat, nameLen: nat, value: nat, valueLen: nat)
    | HeaderDone(at: nat, len: nat)

  datatype Parser = Parser(
    cs: nat, body_start: nat, content_len: int, chunked: bool, chunks_done: bool,
    nread: nat, mark: nat, field_start: nat, field_len: nat, calls: seq<Call>)

  const START := 1
  const ERROR := 0
  const FINAL := 120
  const STATUS_LINE := 8  // what follows an H is a status line

  const LF: Byte := 10
  const CR: Byte := 13

  // A parser just initialised.
  function Init(): Parser { Parser(START, 0, -1, false, false, 0, 0, 0, 0, []) }

  // --- bytes ---------------------------------------------------------------------------------------

  predicate IsHex(b: Byte) { 48 <= b <= 57 || 65 <= b <= 70 || 97 <= b <= 102 }

  /** What may be part of the name or value of an extension. */
  predicate IsToken(b: Byte) {
    || b == 33 || b == 124 || b == 126
    || (if b < 45 then if b > 39 then 42 <= b <= 43 else b >= 35
        else if b > 46 then
          if b < 65 then 48 <= b <= 57 else if b > 90 then 94 <= b <= 122 else true
        else true)
  }

  function HexDigit(b: Byte): (d: nat)
    requires IsHex(b)
    ensures d < 16
  {
    if b <= 57 then b - 48 else if b <= 70 then b - 65 + 10 else b - 97 + 10
  }

  /** How far the hexadecimal digits go. */
  function HexEnd(buf: seq<Byte>, p: nat): (e: nat)
    requires p <= |buf|
    ensures p <= e <= |buf| && (e < |buf| ==> !IsHex(buf[e]))
    ensures forall i :: p <= i < e ==> IsHex(buf[i])
    decreases |buf| - p
  {
    if p == |buf| || !IsHex(buf[p]) then p else HexEnd(buf, p + 1)
  }

  function HexValue(ds: seq<Byte>): nat
    requires forall i :: 0 <= i < |ds| ==> IsHex(ds[i])
  {
    if ds == [] then 0 else 16 * HexValue(ds[..|ds| - 1]) + HexDigit(ds[|ds| - 1])
  }

  const LONG_MAX: nat := 0x7FFF_FFFF_FFFF_FFFF

  /** The number at a place of the buffer, which starts with a digit there; too large a one counts
      as the largest. */
  function Strtol(buf: seq<Byte>, at: nat): (n: nat)
    requires at <= |buf|
    ensures n <= LONG_MAX
  {
    var n := HexValue(buf[at..HexEnd(buf, at)]);
    if n > LONG_MAX then LONG_MAX else n
  }

  /** A long stored in an int. */
  function ToInt(n: nat): int {
    var m := n % 0x1_0000_0000;
    if m < 0x8000_0000 then m else m - 0x1_0000_0000
  }

  // --- actions ---------------------------------------------------------------------------------------

  function SizeRead(q: Parser, buf: seq<Byte>, p: nat): Parser
    requires q.mark <= p < |buf|
  {
    var n := ToInt(Strtol(buf, q.mark));
    q.(chunked := true, content_len := n, chunks_done := n <= 0,
       calls := q.calls + [if n <= 0 then LastChunk(q.mark, p - q.mark) else ChunkSize(q.mark, p - q.mark)])
  }

  // The end of a name without a value, and of a value.
  function NameRead(q: Parser, p: nat): Parser
    requires q.field_start <= p
  {
    q.(field_len := p - q.field_start, mark := p,
       calls := q.calls + [Field(q.field_start, p - q.field_start, p, 0)])
  }

  function ValueRead(q: Parser, p: nat): Parser
    requires q.mark <= p
  {
    q.(calls := q.calls + [Field(q.field_start, q.field_len, q.mark, p - q.mark)])
  }

  function Finished(q: Parser, buf: seq<Byte>, p: nat): Parser
    requires p < |buf|
  {
    q.(body_start := p + 1, calls := q.calls + [HeaderDone(p + 1, |buf| - p - 1)])
  }

  // --- the automaton ---------------------------------------------------------------------------------

  // The marks point into what was read.
  predicate Marked(q: Parser, p: nat) {
    q.mark <= p && q.field_start <= p && q.field_len <= p
  }

  /** One byte: the fields after its action, and the next state; ERROR and FINAL stop. */
  function Trans(q: Parser, buf: seq<Byte>, p: nat): (q': Parser)
    requires p < |buf| && Marked(q, p)
    ensures Marked(q', p) && q'.nread == q.nread
  {
    var b := buf[p];
    match q.cs
    case 1 =>
      if b == 72 then q.(mark := p, cs := STATUS_LINE)
      else if IsHex(b) then q.(mark := p, cs := 2) else q.(cs := ERROR)
    case 2 =>
      if b == LF then Finished(SizeRead(q, buf, p), buf, p).(cs := FINAL)
      else if b == CR then SizeRead(q, buf, p).(cs := 3)
      else if b == 59 then SizeRead(q, buf, p).(cs := 4)
      else if IsHex(b) then q else q.(cs := ERROR)
    case 3 =>
      if b == LF then Finished(q, buf, p).(cs := FINAL) else q.(cs := ERROR)
    case 4 =>
      if IsToken(b) then q.(field_start := p, cs := 5) else q.(cs := ERROR)
    case 5 =>
      if b == LF then Finished(NameRead(q, p), buf, p).(cs := FINAL)
      else if b == CR then NameRead(q, p).(cs := 3)
      else if b == 59 then NameRead(q, p).(cs := 4)
      else if b == 61 then q.(field_len := p - q.field_start, mark := p, cs := 6)
      else if IsToken(b) then q else q.(cs := ERROR)
    case 6 =>
      if IsToken(b) then q.(mark := p, cs := 7) else q.(cs := ERROR)
    case 7 =>
      if b == LF then Finished(ValueRead(q, p), buf, p).(cs := FINAL)
      else if b == CR then ValueRead(q, p).(cs := 3)
      else if b == 59 then ValueRead(q, p).(cs := 4)
      else if IsToken(b) then q else q.(cs := ERROR)
    case _ => q.(cs := ERROR)
  }

  /** A state in which the automaton goes on with a chunk header. */
  predicate Going(cs: nat) { 1 <= cs <= 7 }

  /** The loop: the parser and the place where it stopped.  An error stops at its byte, the end
      behind it.  Status lines are left to the rest of the automaton. */
  function Loop(q: Parser, buf: seq<Byte>, p: nat): (r: (Parser, nat))
    requires p <= |buf| && Marked(q, p) && Going(q.cs)
    ensures p <= r.1 <= |buf| && Marked(r.0, r.1) && r.0.nread == q.nread
    decreases |buf| - p
  {
    if p == |buf| then (q, p)
    else
      var q' := Trans(q, buf, p);
      if Going(q'.cs) then Loop(q', buf, p + 1)
      else (q', if q'.cs == ERROR then p else p + 1)
  }

  // The checks at the end of a call; if one fails the call reports so.
  predicate Checks(q: Parser, len: nat) {
    q.mark < len && q.field_len <= len && q.field_start < len
  }

  /** One call on a buffer, from off, and what it returns.  Going on after the end is an error, and
      going on after an error is not: there is no such state, and the parser finds itself in
      another. */
  function Execute(q: Parser, buf: seq<Byte>, off: nat): (r: (Parser, int))
    requires off <= |buf| && Marked(q, off) && (Going(q.cs) || q.cs == FINAL || q.cs == ERROR)
    ensures Marked(r.0, |buf|)
  {
    var q' :=
      if off == |buf| then q
      else if q.cs == ERROR then q.(cs := 2)
      else if q.cs == FINAL then q.(cs := ERROR)
      else
        var (q1, p) := Loop(q.(nread := 0), buf, off);  // the loop leaves nread alone
        q1.(nread := q.nread + (p - off));
    (q', if Checks(q', |buf|) then q'.nread else -1)
  }
}
