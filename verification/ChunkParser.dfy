/** The parser's record as an object, and its call as a loop over the buffer. */
module ChunkParsers {
  import opened ChunkSpec

  class HttpClientParser {
    var cs: nat
    var body_start: nat
    var content_len: int
    var chunked: bool
    var chunks_done: bool
    var nread: nat
    var mark: nat
    var field_start: nat
    var field_len: nat
    var calls: seq<Call>  // the callbacks made

    ghost function Value(): Parser
      reads this
    {
      Parser(cs, body_start, content_len, chunked, chunks_done, nread, mark, field_start, field_len, calls)
    }

    constructor ()
      ensures Value() == Init()
    {
      cs, body_start, content_len, chunked, chunks_done := START, 0, -1, false, false;
      nread, mark, field_start, field_len, calls := 0, 0, 0, 0, [];
    }

    method ChunkSizeAction(buf: seq<Byte>, p: nat)
      requires mark <= p < |buf|
      modifies this
      ensures Value() == SizeRead(old(Value()), buf, p)
    {
      chunked := true;
      content_len := ToInt(Strtol(buf, mark));
      chunks_done := content_len <= 0;
      if chunks_done {
        calls := calls + [LastChunk(mark, p - mark)];
      } else {
        calls := calls + [ChunkSize(mark, p - mark)];
      }
    }

    method WriteField(p: nat)
      requires field_start <= p
      modifies this
      ensures Value() == NameRead(old(Value()), p)
    {
      field_len := p - field_start;
      mark := p;
      WriteValue(p);
    }

    method WriteValue(p: nat)
      requires mark <= p
      modifies this
      ensures Value() == ValueRead(old(Value()), p)
    {
      calls := calls + [Field(field_start, field_len, mark, p - mark)];
    }

    // What a separator does: the next state, and the end of the line.
    method Separate(buf: seq<Byte>, p: nat)
      requires p < |buf|
      modifies this
      ensures var b := buf[p];
        Value() == if b == LF then Finished(old(Value()), buf, p).(cs := FINAL)
                   else old(Value()).(cs := if b == CR then 3 else 4)
    {
      if buf[p] == LF {
        body_start := p + 1;
        calls := calls + [HeaderDone(p + 1, |buf| - p - 1)];
        cs := FINAL;
      } else {
        cs := if buf[p] == CR then 3 else 4;
      }
    }

    // One byte.
    method Advance(buf: seq<Byte>, p: nat)
      requires p < |buf| && Marked(Value(), p) && Going(cs)
      modifies this
      ensures Value() == Trans(old(Value()), buf, p)
    {
      var b := buf[p];
      var separator := b == LF || b == CR || b == 59;
      if cs == 1 {
        if b == 72 { mark, cs := p, STATUS_LINE; } else if IsHex(b) { mark, cs := p, 2; } else { cs := ERROR; }
      } else if cs == 2 {
        if separator { ChunkSizeAction(buf, p); Separate(buf, p); } else if !IsHex(b) { cs := ERROR; }
      } else if cs == 3 {
        if b == LF { Separate(buf, p); } else { cs := ERROR; }
      } else if cs == 4 {
        if IsToken(b) { field_start, cs := p, 5; } else { cs := ERROR; }
      } else if cs == 5 {
        if separator {
          WriteField(p);
          Separate(buf, p);
        } else if b == 61 {
          field_len, mark, cs := p - field_start, p, 6;
        } else if !IsToken(b) {
          cs := ERROR;
        }
      } else if cs == 6 {
        if IsToken(b) { mark, cs := p, 7; } else { cs := ERROR; }
      } else {
        if separator { WriteValue(p); Separate(buf, p); } else if !IsToken(b) { cs := ERROR; }
      }
    }

    // The loop, from a state of the automaton to where it stops.
    method RunLoop(buf: seq<Byte>, off: nat) returns (p: nat)
      requires off <= |buf| && Marked(Value(), off) && Going(cs)
      modifies this
      ensures (Value(), p) == Loop(old(Value()), buf, off)
    {
      p := off;
      while p < |buf|
        invariant off <= p <= |buf| && Marked(Value(), p) && Going(cs)
        invariant Loop(Value(), buf, p) == Loop(old(Value()), buf, off)
      {
        Advance(buf, p);
        if cs == ERROR { return; }
        p := p + 1;
        if !Going(cs) { return; }
      }
    }

    method Execute(buf: seq<Byte>, off: nat) returns (ret: int)
      requires off <= |buf| && Marked(Value(), off) && (Going(cs) || cs == FINAL || cs == ERROR)
      modifies this
      ensures (Value(), ret) == ChunkSpec.Execute(old(Value()), buf, off)
    {
      if off < |buf| {
        if cs == ERROR {
          cs := 2;
        } else if cs == FINAL {
          cs := ERROR;
        } else {
          ghost var q := Value();
          var before := nread;
          nread := 0;
          var p := RunLoop(buf, off);
          nread := before + (p - off);
        }
      }
      ret := if mark < |buf| && field_len <= |buf| && field_start < |buf| then nread else -1;
    }
  }
}
