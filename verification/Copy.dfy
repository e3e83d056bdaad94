/**
  COPY of tables in text format: the character loops of reading and writing.
 */
module Copy {
  import opened Basics
  import opened CopyText

  /** What CopyReadAttribute answers: a string, NULL, no more input, or an error. */
  datatype Attribute = Value(text: Text) | Null | EndOfFile | Error

  function Answer(v: Option<Text>): Attribute {
    match v
    case None => Null
    case Some(t) => Value(t)
  }

  /** Characters already read come before the rest of the field. */
  function AfterChars(chars: Text, f: Field): Field {
    match f
    case Done(text, newline, next) => Done(chars + text, newline, next)
    case other => other
  }

  function AfterValues(values: Row, l: Line): Line {
    match l
    case Line(row, newline, next) => Line(values + row, newline, next)
    case other => other
  }

  function AfterRows(rows: seq<Row>, t: Table): Table {
    match t
    case Rows(more) => Rows(rows + more)
    case Corrupted => Corrupted
  }

  /** What the next step does to the field that is being read. */
  lemma FieldStep(s: Text, p: nat, delim: Text, buf: Text)
    ensures var f := AfterChars(buf, ReadField(s, p, delim));
      match StepAt(s, p, delim)
      case AtEnd => f == NoField
      case Bad => f == BadField
      case Stop(newline, next) => f == Done(buf, newline, next)
      case Chars(chars, next) => f == AfterChars(buf + chars, ReadField(s, next, delim))
  {
    match StepAt(s, p, delim) {
      case Stop(_, _) => assert buf + [] == buf;
      case Chars(chars, next) =>
        var rest := ReadField(s, next, delim);
        if rest.Done? { Associative(buf, chars, rest.text); }
      case _ =>
    }
  }

  lemma RowStep(s: Text, p: nat, newline: bool, k: nat, delim: Text, nullPrint: Text, values: Row)
    requires p <= |s| && k > 0
    ensures var l := AfterValues(values, ReadRow(s, p, newline, k, delim, nullPrint));
      if newline then l == AfterValues(values + [None], ReadRow(s, p, true, k - 1, delim, nullPrint))
      else match ReadField(s, p, delim)
        case NoField => l == NoLine
        case BadField => l == BadLine
        case Done(text, nl, q) =>
          l == AfterValues(values + [Meaning(text, nullPrint)], ReadRow(s, q, nl, k - 1, delim, nullPrint))
  {
    hide ReadField;
    if newline {
      AfterValue(values, None, ReadRow(s, p, true, k - 1, delim, nullPrint));
    } else {
      var f := ReadField(s, p, delim);
      if f.Done? {
        AfterValue(values, Meaning(f.text, nullPrint), ReadRow(s, f.next, f.newline, k - 1, delim, nullPrint));
      }
    }
  }

  lemma RowDone(s: Text, p: nat, newline: bool, delim: Text, nullPrint: Text, values: Row)
    requires p <= |s|
    ensures AfterValues(values, ReadRow(s, p, newline, 0, delim, nullPrint)) == Line(values, newline, p)
  {
    assert values + [] == values;
  }

  lemma AfterValue(values: Row, v: Option<Text>, l: Line)
    ensures AfterValues(values, AfterValues([v], l)) == AfterValues(values + [v], l)
  {
    if l.Line? { assert values + ([v] + l.row) == (values + [v]) + l.row; }
  }

  lemma RowsStep(s: Text, p: nat, n: nat, delim: Text, nullPrint: Text, rows: seq<Row>)
    requires p <= |s| && n > 0
    ensures var t := AfterRows(rows, ReadRows(s, p, n, delim, nullPrint));
      match ReadRow(s, p, false, n, delim, nullPrint)
      case NoLine => t == Rows(rows)
      case BadLine => t == Corrupted
      case Line(row, nl, q) =>
        t == AfterRows(rows + [row], ReadRows(s, if nl then q else SkipLine(s, q), n, delim, nullPrint))
  {
    hide ReadRow;
    match ReadRow(s, p, false, n, delim, nullPrint) {
      case NoLine => assert rows + [] == rows;
      case BadLine =>
      case Line(row, nl, q) =>
        var rest := ReadRows(s, if nl then q else SkipLine(s, q), n, delim, nullPrint);
        if rest.Rows? { assert rows + ([row] + rest.rows) == (rows + [row]) + rest.rows; }
    }
  }

  class Reader {
    const data: Text         // all the input there will be
    var pos: nat
    var eof: bool            // end of file has been met
    var newline: bool        // a newline has ended the row

    ghost predicate Valid()
      reads this
    {
      pos <= |data| && (eof ==> pos == |data|)
    }

    constructor (data: Text)
      ensures Valid() && this.data == data && pos == 0 && !newline
    {
      this.data, pos, eof, newline := data, 0, false, false;
    }

    method GetChar() returns (c: Option<Byte>)
      requires Valid()
      modifies `pos, `eof
      ensures Valid()
      ensures if old(pos) < |data| then c == Some(data[old(pos)]) && pos == old(pos) + 1 && eof == old(eof)
        else c == None && pos == old(pos) && eof
    {
      if pos < |data| {
        c, pos := Some(data[pos]), pos + 1;
      } else {
        c, eof := None, true;
      }
    }

    /** CopyPeekChar: the character stays on the stream until DonePeek picks it up. */
    method PeekChar() returns (c: Option<Byte>)
      requires Valid()
      modifies `eof
      ensures Valid() && (eof ==> old(eof) || c == None)
      ensures c == if pos < |data| then Some(data[pos]) else None
    {
      if pos < |data| {
        c := Some(data[pos]);
      } else {
        c, eof := None, true;
      }
    }

    method DonePeek(pickup: bool)
      requires Valid() && pos < |data|
      modifies `pos
      ensures Valid() && pos == old(pos) + if pickup then 1 else 0
    {
      if pickup {
        pos := pos + 1;
      }
    }

    /** The digits after a backslash, of which the first has been read. */
    method ReadOctal(first: Byte) returns (c: Option<Byte>)
      requires Valid() && 0 < pos && data[pos - 1] == first && IsOctal(first)
      modifies `pos, `eof
      ensures Valid()
      ensures c.None? ==> OctalStep(data, old(pos) - 1) == AtEnd
      ensures c.Some? ==> OctalStep(data, old(pos) - 1) == Chars([c.value], pos)
    {
      var val := Digit(first);
      var p := PeekChar();
      if p.Some? && IsOctal(p.value) {
        val := val * 8 + Digit(p.value);
        DonePeek(true);
        p := PeekChar();
        if p.Some? && IsOctal(p.value) {
          DonePeek(true);
          val := val * 8 + Digit(p.value);
        } else {
          if p.None? {
            return None;
          }
          DonePeek(false);
        }
      } else {
        if p.None? {
          return None;
        }
        DonePeek(false);
      }
      c := Some((val % 256) as Byte);
    }

    /** What follows a backslash: the characters it stands for, or the end of everything. */
    method ReadEscape() returns (r: Attribute)
      requires Valid()
      modifies `pos, `eof
      ensures Valid()
      ensures match EscapeStep(data, old(pos))
        case AtEnd => r == EndOfFile
        case Bad => r == Error
        case Chars(chars, next) => r == Value(chars) && pos == next
        case Stop(_, _) => false
    {
      var e := GetChar();
      if e.None? {
        return EndOfFile;
      }
      var c := e.value;
      if IsOctal(c) {
        var o := ReadOctal(c);
        return if o.None? then EndOfFile else Value([o.value]);
      }
      if c == LETTER_N {
        return Value([BACKSLASH, LETTER_N]);
      }
      if c == DOT {
        var n := GetChar();
        return if n != Some(NEWLINE) then Error else EndOfFile;
      }
      r := Value([Unescaped(c)]);
    }

    /** One turn of the loop of CopyReadAttribute. */
    method ReadStep(delim: Text) returns (step: Step)
      requires Valid()
      modifies `pos, `eof
      ensures Valid() && step == StepAt(data, old(pos), delim)
      ensures step.Stop? || step.Chars? ==> pos == step.next
    {
      var g := GetChar();
      if g.None? {
        return AtEnd;
      }
      var c := g.value;
      if c == NEWLINE {
        return Stop(true, pos);
      }
      if IsDelim(c, delim) {
        return Stop(false, pos);
      }
      if c != BACKSLASH {
        return Chars([c], pos);
      }
      var r := ReadEscape();
      step := match r
        case EndOfFile => AtEnd
        case Value(chars) => Chars(chars, pos)
        case _ => Bad;
    }

    /** CopyReadAttribute. */
    method ReadAttribute(delim: Text, nullPrint: Text) returns (r: Attribute)
      requires Valid()
      modifies this
      ensures Valid()
      ensures old(newline) ==> r == Null && pos == old(pos) && newline
      ensures !old(newline) ==> match ReadField(data, old(pos), delim)
        case NoField => r == EndOfFile
        case BadField => r == Error
        case Done(text, nl, next) => r == Answer(Meaning(text, nullPrint)) && newline == nl && pos == next
    {
      hide StepAt, ReadField, Meaning;
      if newline {
        return Null;
      }
      ghost var all := ReadField(data, pos, delim);
      var buf := [];
      assert AfterChars(buf, all) == all;
      while true
        invariant Valid() && !newline && AfterChars(buf, ReadField(data, pos, delim)) == all
        decreases |data| - pos
      {
        FieldStep(data, pos, delim, buf);
        var step := ReadStep(delim);
        match step {
          case AtEnd => return EndOfFile;
          case Bad => return Error;
          case Stop(nl, _) =>
            newline := nl;
            break;
          case Chars(chars, _) =>
            buf := buf + chars;
        }
      }
      r := Answer(Meaning(buf, nullPrint));
    }

    /** CopyReadNewline: fields in excess are skipped. */
    method ReadNewline()
      requires Valid()
      modifies this
      ensures Valid() && !newline && pos == if old(newline) then old(pos) else SkipLine(data, old(pos))
    {
      if !newline {
        var ended := false;
        while !eof && !ended
          invariant Valid() && (ended ==> pos == SkipLine(data, old(pos)))
          invariant !ended ==> SkipLine(data, pos) == SkipLine(data, old(pos))
          decreases !ended, |data| - pos, !eof
        {
          var c := GetChar();
          ended := c == Some(NEWLINE);
        }
      }
      newline := false;
    }

    /** The fields of one row. */
    method ReadLine(n: nat, delim: Text, nullPrint: Text) returns (r: Line)
      requires Valid() && !newline
      modifies this
      ensures Valid() && r == ReadRow(data, old(pos), false, n, delim, nullPrint)
      ensures r.Line? ==> pos == r.next && newline == r.newline
    {
      hide ReadField, ReadRow, Meaning;
      ghost var all := ReadRow(data, pos, false, n, delim, nullPrint);
      var values := [];
      assert AfterValues(values, all) == all;
      for i := 0 to n
        invariant Valid() && AfterValues(values, ReadRow(data, pos, newline, n - i, delim, nullPrint)) == all
      {
        RowStep(data, pos, newline, n - i, delim, nullPrint, values);
        var a := ReadAttribute(delim, nullPrint);
        if a.EndOfFile? {
          return NoLine;
        }
        if a.Error? {
          return BadLine;
        }
        var v := if a.Value? then Some(a.text) else None;
        values := values + [v];
      }
      RowDone(data, pos, newline, delim, nullPrint, values);
      r := Line(values, newline, pos);
    }

    /** CopyFrom: rows up to the end of the input, or of the data. */
    method CopyFrom(n: nat, delim: Text, nullPrint: Text) returns (t: Table)
      requires Valid() && pos == 0 && !newline && n > 0
      modifies this
      ensures t == ReadRows(data, 0, n, delim, nullPrint)
    {
      hide ReadRows, ReadRow;
      ghost var all := ReadRows(data, 0, n, delim, nullPrint);
      var rows := [];
      assert AfterRows(rows, all) == all;
      while true
        invariant Valid() && !newline && AfterRows(rows, ReadRows(data, pos, n, delim, nullPrint)) == all
        decreases |data| - pos
      {
        RowsStep(data, pos, n, delim, nullPrint, rows);
        var l := ReadLine(n, delim, nullPrint);
        if l.BadLine? {
          return Corrupted;
        }
        if l.NoLine? {
          break;
        }
        ReadNewline();
        rows := rows + [l.row];
      }
      t := Rows(rows);
    }
  }

  // ---------------------------------------------------------------- writing

  /** CopyAttributeOut. */
  method AttributeOut(out: Text, v: Text, delim: Text) returns (o: Text)
    ensures o == out + WriteValue(v, Delimiter(delim))
  {
    o := out;
    ghost var d := Delimiter(delim);
    assert v[0..] == v;
    for i := 0 to |v|
      invariant o + WriteValue(v[i..], d) == out + WriteValue(v, d)
    {
      assert v[i..][1..] == v[i + 1..];
      var c := v[i];
      ghost var before := o;
      if c == Delimiter(delim) || c == NEWLINE || c == BACKSLASH {
        o := o + [BACKSLASH];
      }
      o := o + [c];
      assert o == before + WriteByte(c, d);
      Associative(before, WriteByte(c, d), WriteValue(v[i + 1..], d));
    }
    assert v[|v|..] == [];
  }

  /** CopyTo in text format, and the end marker when the output goes to the frontend. */
  method CopyTo(rows: seq<Row>, n: nat, delim: Text, nullPrint: Text, pipe: bool) returns (out: Text)
    requires forall k | 0 <= k < |rows| :: |rows[k]| == n
    ensures out == WriteRows(rows, Delimiter(delim), nullPrint) + if pipe then END_MARKER else []
  {
    out := [];
    ghost var d := Delimiter(delim);
    assert rows[0..] == rows;
    for k := 0 to |rows|
      invariant out + WriteRows(rows[k..], d, nullPrint) == WriteRows(rows, d, nullPrint)
    {
      assert rows[k..][1..] == rows[k + 1..];
      ghost var before := out;
      out := RowOut(out, rows[k], delim, nullPrint);
      Associative(before, WriteRow(rows[k], d, nullPrint), WriteRows(rows[k + 1..], d, nullPrint));
    }
    assert rows[|rows|..] == [];
    if pipe {
      out := out + END_MARKER;
    }
  }

  method RowOut(out: Text, r: Row, delim: Text, nullPrint: Text) returns (o: Text)
    ensures o == out + WriteRow(r, Delimiter(delim), nullPrint)
  {
    o := out;
    ghost var d := Delimiter(delim);
    assert r[0..] == r;
    for i := 0 to |r|
      invariant o + WriteRow(r[i..], d, nullPrint) == out + WriteRow(r, d, nullPrint)
    {
      assert r[i..][1..] == r[i + 1..];
      ghost var before, f, rest := o, WriteField(r[i], d, nullPrint), WriteRow(r[i + 1..], d, nullPrint);
      match r[i] {
        case Some(v) => o := AttributeOut(o, v, delim);
        case None => o := o + nullPrint;
      }
      var stop := if i == |r| - 1 then NEWLINE else Delimiter(delim);
      o := o + [stop];
      Associative(before, f, [stop] + rest);
      Associative(before + f, [stop], rest);
    }
    assert r[|r|..] == [];
  }

  /** Writing a table and reading it back. */
  method WriteThenRead(rows: seq<Row>, n: nat, delim: Text, nullPrint: Text, pipe: bool) returns (t: Table)
    requires DelimOk(delim) && NullOk(nullPrint, Delimiter(delim)) && n > 0 && TableOk(rows, n)
    ensures t == Rows(NormalRows(rows, nullPrint))
    ensures t == Rows(rows) <==> !HoldsMarker(rows, nullPrint)
  {
    var text := CopyTo(rows, n, delim, nullPrint, pipe);
    var reader := new Reader(text);
    t := reader.CopyFrom(n, delim, nullPrint);
    RoundTrip(rows, n, delim, nullPrint, if pipe then END_MARKER else []);
  }
}
