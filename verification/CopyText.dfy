/**
  The text format of COPY: how a table is written, how text is read, and that
  the one undoes the other.
 */
module CopyText {
  import opened Basics

  const NEWLINE: Byte := 10
  const DOT: Byte := 46
  const LETTER_N: Byte := 78

  type Row = seq<Option<Text>>      // None is NULL

  // ---------------------------------------------------------------- writing

  /** Only the first character of the delimiter string is written. */
  function Delimiter(delim: Text): Byte { if delim == [] then NUL else delim[0] }

  function WriteByte(c: Byte, d: Byte): Text {
    if c == d || c == NEWLINE || c == BACKSLASH then [BACKSLASH, c] else [c]
  }

  function WriteValue(v: Text, d: Byte): Text {
    if v == [] then [] else WriteByte(v[0], d) + WriteValue(v[1..], d)
  }

  function WriteField(v: Option<Text>, d: Byte, nullPrint: Text): Text {
    match v
    case Some(t) => WriteValue(t, d)
    case None => nullPrint
  }

  /** The fields of a row, a delimiter after each but the last and a newline after that. */
  function WriteRow(r: Row, d: Byte, nullPrint: Text): Text {
    if r == [] then []
    else WriteField(r[0], d, nullPrint) + ([if |r| == 1 then NEWLINE else d] + WriteRow(r[1..], d, nullPrint))
  }

  function WriteRows(rows: seq<Row>, d: Byte, nullPrint: Text): Text {
    if rows == [] then [] else WriteRow(rows[0], d, nullPrint) + WriteRows(rows[1..], d, nullPrint)
  }

  const END_MARKER: Text := [BACKSLASH, DOT, NEWLINE]

  // ---------------------------------------------------------------- reading

  /** What the reader makes of the text at one place: nothing more to read, the end of the field, one or
      two characters of it, or an error. */
  datatype Step = AtEnd | Stop(newline: bool, next: nat) | Chars(chars: Text, next: nat) | Bad

  predicate IsOctal(c: Byte) { 48 <= c <= 55 }

  function Digit(c: Byte): int { c as int - 48 }

  predicate IsDelim(c: Byte, delim: Text) { c == NUL || c in delim }

  /** A backslash and up to three octal digits, the first of them at p. */
  function OctalStep(s: Text, p: nat): Step
    requires p < |s| && IsOctal(s[p])
  {
    if p + 1 >= |s| then AtEnd
    else if !IsOctal(s[p + 1]) then Chars([Digit(s[p]) as Byte], p + 1)
    else if p + 2 >= |s| then AtEnd
    else if !IsOctal(s[p + 2]) then Chars([(Digit(s[p]) * 8 + Digit(s[p + 1])) as Byte], p + 2)
    else Chars([(((Digit(s[p]) * 8 + Digit(s[p + 1])) * 8 + Digit(s[p + 2])) % 256) as Byte], p + 3)
  }

  /** b, f, n, r, t and v; any other character stands for itself. */
  function Unescaped(c: Byte): Byte {
    if c == 98 then 8 else if c == 102 then 12 else if c == 110 then NEWLINE
    else if c == 114 then 13 else if c == 116 then 9 else if c == 118 then 11 else c
  }

  /** After a backslash. */
  function EscapeStep(s: Text, p: nat): Step {
    if p >= |s| then AtEnd
    else if IsOctal(s[p]) then OctalStep(s, p)
    else if s[p] == LETTER_N then Chars([BACKSLASH, LETTER_N], p + 1)
    else if s[p] == DOT then (if p + 1 < |s| && s[p + 1] == NEWLINE then AtEnd else Bad)
    else Chars([Unescaped(s[p])], p + 1)
  }

  function StepAt(s: Text, p: nat, delim: Text): (r: Step)
    ensures r.Stop? || r.Chars? ==> p < r.next <= |s|
  {
    if p >= |s| then AtEnd
    else if s[p] == NEWLINE then Stop(true, p + 1)
    else if IsDelim(s[p], delim) then Stop(false, p + 1)
    else if s[p] == BACKSLASH then EscapeStep(s, p + 1)
    else Chars([s[p]], p + 1)
  }

  datatype Field = Done(text: Text, newline: bool, next: nat) | NoField | BadField

  function ReadField(s: Text, p: nat, delim: Text): (r: Field)
    ensures r.Done? ==> p < r.next <= |s|
    decreases |s| - p
  {
    match StepAt(s, p, delim)
    case AtEnd => NoField
    case Bad => BadField
    case Stop(newline, next) => Done([], newline, next)
    case Chars(chars, next) =>
      match ReadField(s, next, delim)
      case Done(text, newline, q) => Done(chars + text, newline, q)
      case other => other
  }

  /** The bytes up to the first NUL, as the C library and the input functions see them. */
  function CString(s: Text): Text {
    if s == [] || s[0] == NUL then [] else [s[0]] + CString(s[1..])
  }

  function Meaning(s: Text, nullPrint: Text): Option<Text> {
    if CString(s) == nullPrint then None else Some(CString(s))
  }

  datatype Line = Line(row: Row, newline: bool, next: nat) | NoLine | BadLine

  /** k fields; those that are missing because the line ended are NULL. */
  function ReadRow(s: Text, p: nat, newline: bool, k: nat, delim: Text, nullPrint: Text): (r: Line)
    requires p <= |s|
    ensures r.Line? ==> |r.row| == k && p <= r.next <= |s| && (k > 0 && !newline ==> p < r.next)
    decreases k
  {
    if k == 0 then Line([], newline, p)
    else if newline then
      match ReadRow(s, p, true, k - 1, delim, nullPrint)
      case Line(row, nl, q) => Line([None] + row, nl, q)
      case other => other
    else
      match ReadField(s, p, delim)
      case NoField => NoLine
      case BadField => BadLine
      case Done(text, nl, q) =>
        match ReadRow(s, q, nl, k - 1, delim, nullPrint)
        case Line(row, nl', q') => Line([Meaning(text, nullPrint)] + row, nl', q')
        case other => other
  }

  /** Behind the next newline, or at the end. */
  function SkipLine(s: Text, p: nat): (q: nat)
    requires p <= |s|
    ensures p <= q <= |s|
    decreases |s| - p
  {
    if p == |s| then p else if s[p] == NEWLINE then p + 1 else SkipLine(s, p + 1)
  }

  datatype Table = Rows(rows: seq<Row>) | Corrupted

  function ReadRows(s: Text, p: nat, n: nat, delim: Text, nullPrint: Text): Table
    requires p <= |s| && n > 0
    decreases |s| - p
  {
    match ReadRow(s, p, false, n, delim, nullPrint)
    case NoLine => Rows([])
    case BadLine => Corrupted
    case Line(row, newline, q) =>
      match ReadRows(s, if newline then q else SkipLine(s, q), n, delim, nullPrint)
      case Rows(rows) => Rows([row] + rows)
      case Corrupted => Corrupted
  }

  // ---------------------------------------------------------------- conditions

  /** The characters that mean something after a backslash, and the two that are always escaped. */
  predicate InEscapeAlphabet(c: Byte) {
    IsOctal(c) || c == LETTER_N || c == DOT || c == NEWLINE || c == BACKSLASH || Unescaped(c) != c
  }

  /** The delimiter that is written means nothing after a backslash, and the reader takes no other character
      for one; a newline among the delimiters does no harm, as it is looked for first. */
  predicate DelimOk(delim: Text) {
    !InEscapeAlphabet(Delimiter(delim)) && forall c | c in delim :: c == Delimiter(delim) || c == NEWLINE
  }

  /** A null marker that reads as itself: plain characters and \N. */
  predicate NullOk(nullPrint: Text, d: Byte) {
    || nullPrint == []
    || (nullPrint[0] != d && nullPrint[0] != NEWLINE && nullPrint[0] != NUL && nullPrint[0] != BACKSLASH &&
      NullOk(nullPrint[1..], d))
    || (|nullPrint| >= 2 && nullPrint[0] == BACKSLASH && nullPrint[1] == LETTER_N && NullOk(nullPrint[2..], d))
  }

  ghost predicate RowOk(r: Row) { forall i | 0 <= i < |r| && r[i].Some? :: NulFree(r[i].value) }

  ghost predicate TableOk(rows: seq<Row>, n: nat) { forall i | 0 <= i < |rows| :: |rows[i]| == n && RowOk(rows[i]) }

  // ---------------------------------------------------------------- text at a place

  ghost predicate At(s: Text, p: nat, t: Text) { p + |t| <= |s| && forall i | 0 <= i < |t| :: s[p + i] == t[i] }

  lemma AtSplit(s: Text, p: nat, a: Text, b: Text)
    requires At(s, p, a + b)
    ensures At(s, p, a) && At(s, p + |a|, b)
  {
    forall i | 0 <= i < |a| ensures s[p + i] == a[i] { assert (a + b)[i] == a[i]; }
    forall i | 0 <= i < |b| ensures s[p + |a| + i] == b[i] { assert (a + b)[|a| + i] == b[i]; }
  }

  // ---------------------------------------------------------------- one field

  lemma MoreChars(s: Text, p: nat, delim: Text)
    requires StepAt(s, p, delim).Chars?
    ensures var step := StepAt(s, p, delim); var f := ReadField(s, step.next, delim);
      f.Done? ==> ReadField(s, p, delim) == Done(step.chars + f.text, f.newline, f.next)
  {
  }

  lemma StepOfByte(s: Text, p: nat, c: Byte, delim: Text)
    requires DelimOk(delim) && c != NUL && At(s, p, WriteByte(c, Delimiter(delim)))
    ensures StepAt(s, p, delim) == Chars([c], p + |WriteByte(c, Delimiter(delim))|)
  {
    var d := Delimiter(delim);
    assert s[p] == WriteByte(c, d)[0];
    if c == d || c == NEWLINE || c == BACKSLASH {
      assert s[p + 1] == WriteByte(c, d)[1];
    }
  }

  /** The field ends at p. */
  predicate StopAt(s: Text, p: nat, delim: Text, newline: bool) {
    p < |s| && s[p] == if newline then NEWLINE else Delimiter(delim)
  }

  lemma StepOfStop(s: Text, p: nat, delim: Text, newline: bool)
    requires DelimOk(delim) && StopAt(s, p, delim, newline)
    ensures ReadField(s, p, delim) == Done([], newline, p + 1)
  {
  }

  lemma {:induction false} FieldOfValue(s: Text, p: nat, v: Text, delim: Text, newline: bool)
    requires DelimOk(delim) && NulFree(v) && At(s, p, WriteValue(v, Delimiter(delim)))
    requires StopAt(s, p + |WriteValue(v, Delimiter(delim))|, delim, newline)
    ensures ReadField(s, p, delim) == Done(v, newline, p + |WriteValue(v, Delimiter(delim))| + 1)
    decreases |v|
  {
    hide *;
    var d := Delimiter(delim);
    WriteCons(v, d);
    if v == [] {
      StepOfStop(s, p, delim, newline);
    } else {
      var c, tail := v[0], v[1..];
      var a, b := WriteByte(c, d), WriteValue(tail, d);
      AtSplit(s, p, a, b);
      StepOfByte(s, p, c, delim);
      FieldOfValue(s, p + |a|, tail, delim, newline);
      MoreChars(s, p, delim);
    }
  }

  lemma WriteCons(v: Text, d: Byte)
    requires NulFree(v)
    ensures v != [] ==> v[0] != NUL && NulFree(v[1..])
    ensures v == [] ==> WriteValue(v, d) == []
    ensures v != [] ==> v == [v[0]] + v[1..] && WriteValue(v, d) == WriteByte(v[0], d) + WriteValue(v[1..], d)
  {
  }

  lemma StepOfNull(s: Text, p: nat, t: Text, delim: Text)
    requires DelimOk(delim) && t != [] && NullOk(t, Delimiter(delim)) && At(s, p, t)
    ensures var k := if t[0] == BACKSLASH then 2 else 1;
      k <= |t| && StepAt(s, p, delim) == Chars(t[..k], p + k) && NullOk(t[k..], Delimiter(delim))
  {
    assert s[p + 0] == t[0];
    if t[0] == BACKSLASH { assert s[p + 1] == t[1]; }
  }

  lemma {:induction false} FieldOfNull(s: Text, p: nat, t: Text, delim: Text, newline: bool)
    requires DelimOk(delim) && NullOk(t, Delimiter(delim)) && At(s, p, t) && StopAt(s, p + |t|, delim, newline)
    ensures ReadField(s, p, delim) == Done(t, newline, p + |t| + 1)
    decreases |t|
  {
    if t == [] {
      StepOfStop(s, p, delim, newline);
    } else {
      hide At, StepAt, ReadField, DelimOk, StopAt, NullOk;
      var k := if t[0] == BACKSLASH then 2 else 1;
      StepOfNull(s, p, t, delim);
      assert t[..k] + t[k..] == t;
      AtSplit(s, p, t[..k], t[k..]);
      FieldOfNull(s, p + k, t[k..], delim, newline);
      MoreChars(s, p, delim);
    }
  }

  /** A value and what ends it, read back as one field. */
  ghost predicate FieldReturns(v: Text, delim: Text, newline: bool) {
    var d := Delimiter(delim);
    ReadField(WriteValue(v, d) + [if newline then NEWLINE else d], 0, delim) == Done(v, newline, |WriteValue(v, d)| + 1)
  }

  /** Among all delimiter strings, those that work for every value. */
  lemma DelimOkExactly(delim: Text)
    requires NulFree(delim)
    ensures DelimOk(delim) <==> forall v, newline | NulFree(v) :: FieldReturns(v, delim, newline)
  {
    var d := Delimiter(delim);
    if DelimOk(delim) {
      forall v, newline | NulFree(v) ensures FieldReturns(v, delim, newline) {
        FieldOfValue(WriteValue(v, d) + [if newline then NEWLINE else d], 0, v, delim, newline);
      }
    } else if d == NEWLINE {
      assert !FieldReturns([], delim, false);
    } else if InEscapeAlphabet(d) {
      OneByte(d, d);
      assert d in delim && NulFree([d]);
      assert !FieldReturns([d], delim, true);
    } else {
      var c :| c in delim && c != d && c != NEWLINE;
      OneByte(c, d);
      assert NulFree([c]);
      assert !FieldReturns([c], delim, true);
    }
  }

  lemma OneByte(c: Byte, d: Byte)
    ensures WriteValue([c], d) + [NEWLINE] == if c == d || c == NEWLINE || c == BACKSLASH then [BACKSLASH, c, NEWLINE]
      else [c, NEWLINE]
  {
    assert [c][1..] == [];
  }

  // ---------------------------------------------------------------- rows

  lemma {:induction false} CStringOf(v: Text)
    requires NulFree(v)
    ensures CString(v) == v
  {
    if v != [] { CStringOf(v[1..]); }
  }

  lemma {:induction false} NullIsNulFree(t: Text, d: Byte)
    requires NullOk(t, d)
    ensures NulFree(t)
  {
    if t != [] {
      var k := if t[0] == BACKSLASH then 2 else 1;
      NullIsNulFree(t[k..], d);
      forall i | 0 <= i < |t| ensures t[i] != NUL {
        if i >= k { assert t[i] == t[k..][i - k]; }
      }
    }
  }

  /** A value that is equal to the null marker cannot be told from NULL. */
  function Normal(v: Option<Text>, nullPrint: Text): Option<Text> { if v == Some(nullPrint) then None else v }

  function NormalRow(r: Row, nullPrint: Text): Row { seq(|r|, i requires 0 <= i < |r| => Normal(r[i], nullPrint)) }

  function NormalRows(rows: seq<Row>, nullPrint: Text): seq<Row> {
    seq(|rows|, i requires 0 <= i < |rows| => NormalRow(rows[i], nullPrint))
  }

  lemma FieldOf(s: Text, p: nat, v: Option<Text>, delim: Text, nullPrint: Text, newline: bool)
    requires DelimOk(delim) && NullOk(nullPrint, Delimiter(delim)) && (v.Some? ==> NulFree(v.value))
    requires At(s, p, WriteField(v, Delimiter(delim), nullPrint))
    requires StopAt(s, p + |WriteField(v, Delimiter(delim), nullPrint)|, delim, newline)
    ensures var f := ReadField(s, p, delim);
      && f.Done? && f.newline == newline && f.next == p + |WriteField(v, Delimiter(delim), nullPrint)| + 1
      && Meaning(f.text, nullPrint) == Normal(v, nullPrint)
  {
    match v {
      case Some(t) =>
        FieldOfValue(s, p, t, delim, newline);
        CStringOf(t);
      case None =>
        FieldOfNull(s, p, nullPrint, delim, newline);
        NullIsNulFree(nullPrint, Delimiter(delim));
        CStringOf(nullPrint);
    }
  }

  lemma {:induction false} RowOf(s: Text, p: nat, r: Row, delim: Text, nullPrint: Text)
    requires DelimOk(delim) && NullOk(nullPrint, Delimiter(delim)) && r != [] && RowOk(r)
    requires At(s, p, WriteRow(r, Delimiter(delim), nullPrint))
    ensures ReadRow(s, p, false, |r|, delim, nullPrint) ==
      Line(NormalRow(r, nullPrint), true, p + |WriteRow(r, Delimiter(delim), nullPrint)|)
    decreases |r|
  {
    hide *;
    var d := Delimiter(delim);
    var last := |r| == 1;
    var a, stop, b := WriteField(r[0], d, nullPrint), if last then NEWLINE else d, WriteRow(r[1..], d, nullPrint);
    RowCons(r, d, nullPrint);
    AtSplit(s, p, a, [stop] + b);
    AtSplit(s, p + |a|, [stop], b);
    StopFollows(s, p + |a|, delim, last, stop);
    FieldOf(s, p, r[0], delim, nullPrint, last);
    NormalRowSplit(r, nullPrint);
    FieldThenRow(s, p, |r|, delim, nullPrint);
    if !last {
      RowOf(s, p + |a| + 1, r[1..], delim, nullPrint);
    }
  }

  lemma RowCons(r: Row, d: Byte, nullPrint: Text)
    requires r != [] && RowOk(r)
    ensures RowOk(r[1..]) && (r[0].Some? ==> NulFree(r[0].value)) && (|r| == 1 ==> WriteRow(r[1..], d, nullPrint) == [])
    ensures WriteRow(r, d, nullPrint) ==
      WriteField(r[0], d, nullPrint) + ([if |r| == 1 then NEWLINE else d] + WriteRow(r[1..], d, nullPrint))
  {
  }

  lemma StopFollows(s: Text, p: nat, delim: Text, newline: bool, stop: Byte)
    requires At(s, p, [stop]) && stop == if newline then NEWLINE else Delimiter(delim)
    ensures StopAt(s, p, delim, newline) && p < |s|
  {
    assert s[p + 0] == [stop][0];
  }

  lemma FieldThenRow(s: Text, p: nat, k: nat, delim: Text, nullPrint: Text)
    requires p <= |s| && k > 0
    ensures var f := ReadField(s, p, delim);
      f.Done? ==>
        var l := ReadRow(s, f.next, f.newline, k - 1, delim, nullPrint);
        && (l.Line? ==>
          ReadRow(s, p, false, k, delim, nullPrint) == Line([Meaning(f.text, nullPrint)] + l.row, l.newline, l.next))
        && (k == 1 ==> l == Line([], f.newline, f.next))
  {
    hide ReadField, Meaning;
  }

  lemma NormalRowSplit(r: Row, nullPrint: Text)
    requires r != []
    ensures NormalRow(r, nullPrint) == [Normal(r[0], nullPrint)] + NormalRow(r[1..], nullPrint)
    ensures |r| == 1 ==> NormalRow(r[1..], nullPrint) == []
  {
  }

  lemma NormalRowsSplit(rows: seq<Row>, nullPrint: Text)
    ensures rows == [] ==> NormalRows(rows, nullPrint) == []
    ensures rows != [] ==>
      NormalRows(rows, nullPrint) == [NormalRow(rows[0], nullPrint)] + NormalRows(rows[1..], nullPrint)
  {
  }

  /** What follows the rows: nothing, in a file, or the end marker, on a connection. */
  predicate IsTail(tail: Text) { tail == [] || tail == END_MARKER }

  lemma TailEnds(s: Text, p: nat, n: nat, delim: Text, nullPrint: Text, tail: Text)
    requires DelimOk(delim) && IsTail(tail) && At(s, p, tail) && p + |tail| == |s| && n > 0
    ensures ReadRows(s, p, n, delim, nullPrint) == Rows([])
  {
    if tail == END_MARKER {
      assert s[p + 0] == END_MARKER[0] && s[p + 1] == END_MARKER[1] && s[p + 2] == END_MARKER[2];
    }
    assert StepAt(s, p, delim) == AtEnd;
  }

  lemma {:induction false} RowsOf(s: Text, p: nat, rows: seq<Row>, n: nat, delim: Text, nullPrint: Text, tail: Text)
    requires DelimOk(delim) && NullOk(nullPrint, Delimiter(delim)) && n > 0 && TableOk(rows, n) && IsTail(tail)
    requires At(s, p, WriteRows(rows, Delimiter(delim), nullPrint) + tail)
    requires p + |WriteRows(rows, Delimiter(delim), nullPrint) + tail| == |s|
    ensures ReadRows(s, p, n, delim, nullPrint) == Rows(NormalRows(rows, nullPrint))
    decreases |rows|
  {
    hide *;
    var d := Delimiter(delim);
    RowsCons(rows, n, d, nullPrint);
    if rows == [] {
      assert [] + tail == tail;
      TailEnds(s, p, n, delim, nullPrint, tail);
    } else {
      var a, b := WriteRow(rows[0], d, nullPrint), WriteRows(rows[1..], d, nullPrint);
      Associative(a, b, tail);
      AtSplit(s, p, a, b + tail);
      RowOf(s, p, rows[0], delim, nullPrint);
      RowsOf(s, p + |a|, rows[1..], n, delim, nullPrint, tail);
      LineThenRows(s, p, n, delim, nullPrint);
    }
    NormalRowsSplit(rows, nullPrint);
  }

  lemma RowsCons(rows: seq<Row>, n: nat, d: Byte, nullPrint: Text)
    requires TableOk(rows, n)
    ensures rows == [] ==> WriteRows(rows, d, nullPrint) == []
    ensures rows != [] ==>
      && |rows[0]| == n && RowOk(rows[0]) && TableOk(rows[1..], n)
      && WriteRows(rows, d, nullPrint) == WriteRow(rows[0], d, nullPrint) + WriteRows(rows[1..], d, nullPrint)
  {
  }

  lemma LineThenRows(s: Text, p: nat, n: nat, delim: Text, nullPrint: Text)
    requires p <= |s| && n > 0
    ensures var l := ReadRow(s, p, false, n, delim, nullPrint);
      l.Line? && l.newline ==>
        var t := ReadRows(s, l.next, n, delim, nullPrint);
        t.Rows? ==> ReadRows(s, p, n, delim, nullPrint) == Rows([l.row] + t.rows)
  {
    hide ReadRow;
  }

  ghost predicate HoldsMarker(rows: seq<Row>, nullPrint: Text) {
    exists i, j | 0 <= i < |rows| && 0 <= j < |rows[i]| :: rows[i][j] == Some(nullPrint)
  }

  /** Reading what was written gives back the table, but for values equal to the null marker; so it gives
      back the same table if and only if there is no such value. */
  lemma RoundTrip(rows: seq<Row>, n: nat, delim: Text, nullPrint: Text, tail: Text)
    requires DelimOk(delim) && NullOk(nullPrint, Delimiter(delim)) && n > 0 && TableOk(rows, n) && IsTail(tail)
    ensures ReadRows(WriteRows(rows, Delimiter(delim), nullPrint) + tail, 0, n, delim, nullPrint) ==
      Rows(NormalRows(rows, nullPrint))
    ensures ReadRows(WriteRows(rows, Delimiter(delim), nullPrint) + tail, 0, n, delim, nullPrint) == Rows(rows) <==>
      !HoldsMarker(rows, nullPrint)
  {
    RowsOf(WriteRows(rows, Delimiter(delim), nullPrint) + tail, 0, rows, n, delim, nullPrint, tail);
    hide ReadRows, WriteRows, DelimOk, NullOk;
    var normal := NormalRows(rows, nullPrint);
    if HoldsMarker(rows, nullPrint) {
      var i, j :| 0 <= i < |rows| && 0 <= j < |rows[i]| && rows[i][j] == Some(nullPrint);
      assert normal[i][j] != rows[i][j];
    } else {
      forall i | 0 <= i < |rows| ensures normal[i] == rows[i] { }
    }
  }

  // ---------------------------------------------------------------- the end marker

  predicate LineStart(t: Text, i: nat)
    requires i <= |t|
  {
    i == 0 || t[i - 1] == NEWLINE
  }

  /** A backslash at the start of a line is followed by something other than a dot. */
  ghost predicate Tidy(t: Text) {
    forall i: nat | i < |t| && LineStart(t, i) && t[i] == BACKSLASH :: i + 1 < |t| && t[i + 1] != DOT
  }

  lemma TidyAppend(a: Text, b: Text)
    requires Tidy(a) && Tidy(b)
    ensures Tidy(a + b)
  {
    var t := a + b;
    forall i: nat | i < |t| && LineStart(t, i) && t[i] == BACKSLASH ensures i + 1 < |t| && t[i + 1] != DOT {
      if i < |a| {
        assert LineStart(a, i) && a[i] == BACKSLASH;
      } else {
        assert LineStart(b, i - |a|) && b[i - |a|] == BACKSLASH;
      }
    }
  }

  lemma {:induction false} TidyValue(v: Text, d: Byte)
    requires !InEscapeAlphabet(d)
    ensures Tidy(WriteValue(v, d))
  {
    if v != [] {
      TidyValue(v[1..], d);
      assert Tidy(WriteByte(v[0], d));
      TidyAppend(WriteByte(v[0], d), WriteValue(v[1..], d));
    }
  }

  lemma {:induction false} TidyNull(t: Text, d: Byte)
    requires NullOk(t, d)
    ensures Tidy(t)
  {
    if t != [] {
      var k := if t[0] == BACKSLASH then 2 else 1;
      TidyNull(t[k..], d);
      assert Tidy(t[..k]);
      TidyAppend(t[..k], t[k..]);
      assert t[..k] + t[k..] == t;
    }
  }

  lemma {:induction false} TidyRow(r: Row, d: Byte, nullPrint: Text)
    requires !InEscapeAlphabet(d) && NullOk(nullPrint, d)
    ensures Tidy(WriteRow(r, d, nullPrint))
  {
    if r != [] {
      TidyRow(r[1..], d, nullPrint);
      var f, stop: Text, rest :=
        WriteField(r[0], d, nullPrint), [if |r| == 1 then NEWLINE else d], WriteRow(r[1..], d, nullPrint);
      if r[0].Some? { TidyValue(r[0].value, d); } else { TidyNull(nullPrint, d); }
      assert Tidy(f) && Tidy(stop) && WriteRow(r, d, nullPrint) == f + (stop + rest);
      hide Tidy, WriteRow, WriteField;
      TidyAppend(stop, rest);
      TidyAppend(f, stop + rest);
    }
  }

  lemma {:induction false} RowEnds(r: Row, d: Byte, nullPrint: Text)
    requires r != []
    ensures var t := WriteRow(r, d, nullPrint); t != [] && t[|t| - 1] == NEWLINE
  {
    var f, stop: Text, rest :=
      WriteField(r[0], d, nullPrint), [if |r| == 1 then NEWLINE else d], WriteRow(r[1..], d, nullPrint);
    assert WriteRow(r, d, nullPrint) == f + (stop + rest);
    if |r| == 1 { assert rest == []; } else { RowEnds(r[1..], d, nullPrint); }
  }

  lemma {:induction false} TidyRows(rows: seq<Row>, n: nat, d: Byte, nullPrint: Text)
    requires !InEscapeAlphabet(d) && NullOk(nullPrint, d) && n > 0 && forall i | 0 <= i < |rows| :: |rows[i]| == n
    ensures Tidy(WriteRows(rows, d, nullPrint))
    ensures LineStart(WriteRows(rows, d, nullPrint), |WriteRows(rows, d, nullPrint)|)
  {
    if rows != [] {
      TidyRows(rows[1..], n, d, nullPrint);
      TidyRow(rows[0], d, nullPrint);
      RowEnds(rows[0], d, nullPrint);
      hide Tidy;
      TidyAppend(WriteRow(rows[0], d, nullPrint), WriteRows(rows[1..], d, nullPrint));
    }
  }

  /** The line that is the end marker is the last one, and no other. */
  lemma MarkerOnlyAtEnd(rows: seq<Row>, n: nat, delim: Text, nullPrint: Text, i: nat)
    requires DelimOk(delim) && NullOk(nullPrint, Delimiter(delim)) && n > 0 && TableOk(rows, n)
    requires i <= |WriteRows(rows, Delimiter(delim), nullPrint)|
    ensures var data := WriteRows(rows, Delimiter(delim), nullPrint);
      LineStart(data + END_MARKER, i) && At(data + END_MARKER, i, END_MARKER) <==> i == |data|
  {
    var data := WriteRows(rows, Delimiter(delim), nullPrint);
    var t := data + END_MARKER;
    TidyRows(rows, n, Delimiter(delim), nullPrint);
    assert At(t, i, END_MARKER) ==> t[i + 0] == END_MARKER[0] && t[i + 1] == END_MARKER[1];
  }

  // ---------------------------------------------------------------- null markers

  /** Exactly the markers that read as themselves are acceptable. */
  lemma NullOkExactly(t: Text, delim: Text)
    requires DelimOk(delim)
    ensures NullOk(t, Delimiter(delim)) <==> NulFree(t) && ReadField(t + [NEWLINE], 0, delim) == Done(t, true, |t| + 1)
  {
    if NullOk(t, Delimiter(delim)) {
      NullIsNulFree(t, Delimiter(delim));
      FieldOfNull(t + [NEWLINE], 0, t, delim, true);
    }
    if NulFree(t) && ReadField(t + [NEWLINE], 0, delim) == Done(t, true, |t| + 1) {
      SelfDecoding(t + [NEWLINE], 0, t, delim);
    }
  }

  /** Escapes are longer than what they stand for, but for \N. */
  lemma {:induction false} DecodedShorter(s: Text, p: nat, delim: Text)
    requires p <= |s| && ReadField(s, p, delim).Done?
    ensures |ReadField(s, p, delim).text| < ReadField(s, p, delim).next - p
    decreases |s| - p
  {
    match StepAt(s, p, delim) {
      case Chars(chars, next) => DecodedShorter(s, next, delim);
      case _ =>
    }
  }

  lemma {:induction false} SelfDecoding(s: Text, p: nat, t: Text, delim: Text)
    requires DelimOk(delim) && NulFree(t) && p + |t| + 1 == |s| && At(s, p, t + [NEWLINE])
    requires ReadField(s, p, delim) == Done(t, true, |s|)
    ensures NullOk(t, Delimiter(delim))
    decreases |t|
  {
    AtSplit(s, p, t, [NEWLINE]);
    if t != [] {
      assert s[p + 0] == t[0] && StepAt(s, p, delim).Chars?;
      var step := StepAt(s, p, delim);
      DecodedShorter(s, step.next, delim);
      var k := |step.chars|;
      assert step.next - p == k;
      assert t[..k] == step.chars;
      assert t + [NEWLINE] == t[..k] + (t[k..] + [NEWLINE]);
      AtSplit(s, p, t[..k], t[k..] + [NEWLINE]);
      SelfDecoding(s, p + k, t[k..], delim);
    }
  }
}
