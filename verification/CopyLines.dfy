/**
  Lines of the text format that have fewer or more fields than the table has columns.
 */
module CopyLines {
  import opened Basics
  import opened CopyText

  /** A row made to fit n columns: what is missing is NULL, what is too much is dropped. */
  function Fit(r: Row, n: nat): (f: Row)
    ensures |f| == n && forall i | 0 <= i < n :: f[i] == if i < |r| then r[i] else None
  {
    seq(n, i requires 0 <= i < n => if i < |r| then r[i] else None)
  }

  lemma {:induction false} MissingFields(s: Text, p: nat, k: nat, delim: Text, nullPrint: Text)
    requires p <= |s|
    ensures ReadRow(s, p, true, k, delim, nullPrint) == Line(Fit([], k), true, p)
  {
    if k > 0 {
      MissingFields(s, p, k - 1, delim, nullPrint);
      assert Fit([], k) == [None] + Fit([], k - 1);
    }
  }

  lemma FitSplit(r: Row, n: nat)
    requires r != [] && n > 0
    ensures Fit(r, n) == [r[0]] + Fit(r[1..], n - 1)
    ensures |r| == 1 ==> r[1..] == []
    ensures n == 1 ==> Fit(r[1..], 0) == []
  {
  }

  /** A line with at most as many fields as there are columns. */
  lemma {:induction false} ShortLine(s: Text, p: nat, r: Row, n: nat, delim: Text, nullPrint: Text)
    requires DelimOk(delim) && NullOk(nullPrint, Delimiter(delim)) && 0 < |r| <= n && RowOk(r)
    requires At(s, p, WriteRow(r, Delimiter(delim), nullPrint))
    ensures ReadRow(s, p, false, n, delim, nullPrint) ==
      Line(Fit(NormalRow(r, nullPrint), n), true, p + |WriteRow(r, Delimiter(delim), nullPrint)|)
    decreases |r|
  {
    hide *;
    var d := Delimiter(delim);
    var last := |r| == 1;
    var a, stop, b := WriteField(r[0], d, nullPrint), if last then NEWLINE else d, WriteRow(r[1..], d, nullPrint);
    RowCons(r, d, nullPrint);
    AtSplit(s, p, a, [stop] + b);
    AtSplit(s, p + |a|, [stop], b);
    StopFollows(s, p + |a|, delim, last, stop);
    FieldOf(s, p, r[0], delim, nullPrint, last);
    NormalRowSplit(r, nullPrint);
    FieldThenRow(s, p, n, delim, nullPrint);
    FitSplit(NormalRow(r, nullPrint), n);
    if last {
      MissingFields(s, p + |a| + 1, n - 1, delim, nullPrint);
    } else {
      ShortLine(s, p + |a| + 1, r[1..], n - 1, delim, nullPrint);
    }
  }

  /** Of a line with more fields those that there are columns for are read, up to the others. */
  lemma {:induction false} LongLine(s: Text, p: nat, r: Row, n: nat, delim: Text, nullPrint: Text)
    requires DelimOk(delim) && NullOk(nullPrint, Delimiter(delim)) && 0 < n < |r| && RowOk(r)
    requires At(s, p, WriteRow(r, Delimiter(delim), nullPrint))
    ensures var rest := WriteRow(r[n..], Delimiter(delim), nullPrint);
      var q := p + |WriteRow(r, Delimiter(delim), nullPrint)| - |rest|;
      && p <= q && At(s, q, rest)
      && ReadRow(s, p, false, n, delim, nullPrint) == Line(Fit(NormalRow(r, nullPrint), n), false, q)
    decreases n
  {
    hide *;
    var d := Delimiter(delim);
    var a, b := WriteField(r[0], d, nullPrint), WriteRow(r[1..], d, nullPrint);
    RowCons(r, d, nullPrint);
    AtSplit(s, p, a, [d] + b);
    AtSplit(s, p + |a|, [d], b);
    StopFollows(s, p + |a|, delim, false, d);
    FieldOf(s, p, r[0], delim, nullPrint, false);
    NormalRowSplit(r, nullPrint);
    FieldThenRow(s, p, n, delim, nullPrint);
    FitSplit(NormalRow(r, nullPrint), n);
    assert r[1..][n - 1..] == r[n..];
    if n > 1 {
      LongLine(s, p + |a| + 1, r[1..], n - 1, delim, nullPrint);
    }
  }

  // ---------------------------------------------------------------- skipping the others

  /** The rest of a line is skipped up to the first newline, which is its last character exactly if there is no
      other. */
  lemma {:induction false} SkipsTo(s: Text, p: nat, t: Text)
    requires At(s, p, t) && t != [] && t[|t| - 1] == NEWLINE
    ensures SkipLine(s, p) == p + |t| <==> NEWLINE !in t[..|t| - 1]
    ensures SkipLine(s, p) <= p + |t|
    decreases |t|
  {
    assert s[p + 0] == t[0];
    var n := |t| - 1;
    if t[0] == NEWLINE {
      assert n > 0 ==> t[..n][0] == NEWLINE;
    } else {
      forall i | 0 <= i < n ensures s[p + 1 + i] == t[1..][i] { assert s[p + (i + 1)] == t[i + 1]; }
      SkipsTo(s, p + 1, t[1..]);
      assert t[..n] == [t[0]] + t[1..][..n - 1];
    }
  }

  /** A value of the row holds a newline. */
  ghost predicate HoldsNewline(r: Row) { exists i | 0 <= i < |r| :: r[i].Some? && NEWLINE in r[i].value }

  lemma {:induction false} ValueNewline(v: Text, d: Byte)
    ensures NEWLINE in WriteValue(v, d) <==> NEWLINE in v
  {
    if v != [] {
      ValueNewline(v[1..], d);
      assert v == [v[0]] + v[1..];
    }
  }

  lemma {:induction false} NullNewline(t: Text, d: Byte)
    requires NullOk(t, d)
    ensures NEWLINE !in t
  {
    if t != [] {
      var k := if t[0] == BACKSLASH then 2 else 1;
      NullNewline(t[k..], d);
      assert t == t[..k] + t[k..];
    }
  }

  lemma FieldNewline(v: Option<Text>, d: Byte, nullPrint: Text)
    requires NullOk(nullPrint, d)
    ensures NEWLINE in WriteField(v, d, nullPrint) <==> v.Some? && NEWLINE in v.value
  {
    match v {
      case Some(t) => ValueNewline(t, d);
      case None => NullNewline(nullPrint, d);
    }
  }

  lemma HoldsSplit(r: Row)
    requires r != []
    ensures HoldsNewline(r) <==> (r[0].Some? && NEWLINE in r[0].value) || HoldsNewline(r[1..])
  {
    if HoldsNewline(r[1..]) {
      var i :| 0 <= i < |r[1..]| && r[1..][i].Some? && NEWLINE in r[1..][i].value;
      assert r[i + 1] == r[1..][i];
    }
    if i :| 0 < i < |r| && r[i].Some? && NEWLINE in r[i].value { assert r[1..][i - 1] == r[i]; }
  }

  /** What is written for a row ends with a newline; there is another before it exactly if a value holds one. */
  lemma {:induction false} RowNewline(r: Row, d: Byte, nullPrint: Text)
    requires r != [] && RowOk(r) && d != NEWLINE && NullOk(nullPrint, d)
    ensures var t := WriteRow(r, d, nullPrint);
      t != [] && t[|t| - 1] == NEWLINE && (NEWLINE in t[..|t| - 1] <==> HoldsNewline(r))
  {
    hide NullOk, RowOk;
    var t, a, b := WriteRow(r, d, nullPrint), WriteField(r[0], d, nullPrint), WriteRow(r[1..], d, nullPrint);
    RowCons(r, d, nullPrint);
    FieldNewline(r[0], d, nullPrint);
    HoldsSplit(r);
    hide HoldsNewline, WriteRow, WriteField;
    if |r| == 1 {
      assert t == a + [NEWLINE] && t[..|t| - 1] == a;
      NoRow(r[1..]);
    } else {
      RowNewline(r[1..], d, nullPrint);
      assert t == a + ([d] + b) && t[..|t| - 1] == a + ([d] + b[..|b| - 1]);
    }
  }

  lemma NoRow(r: Row)
    requires r == []
    ensures !HoldsNewline(r)
  {
  }

  lemma RestNewline(r: Row, n: nat, delim: Text, nullPrint: Text)
    requires DelimOk(delim) && NullOk(nullPrint, Delimiter(delim)) && 0 < n < |r| && RowOk(r)
    ensures var t := WriteRow(r[n..], Delimiter(delim), nullPrint);
      t != [] && t[|t| - 1] == NEWLINE && (NEWLINE in t[..|t| - 1] <==> HoldsNewline(r[n..]))
  {
    hide WriteRow, NullOk;
    assert RowOk(r[n..]);
    RowNewline(r[n..], Delimiter(delim), nullPrint);
  }

  /** The fields that there are no columns for are skipped exactly if none of them holds a newline; otherwise the
      rest of the line is taken for the next one. */
  lemma ExtraFieldsSkipped(s: Text, p: nat, r: Row, n: nat, delim: Text, nullPrint: Text)
    requires DelimOk(delim) && NullOk(nullPrint, Delimiter(delim)) && 0 < n < |r| && RowOk(r)
    requires At(s, p, WriteRow(r, Delimiter(delim), nullPrint))
    ensures var l := ReadRow(s, p, false, n, delim, nullPrint);
      && l.Line? && l.row == Fit(NormalRow(r, nullPrint), n) && !l.newline && l.next <= |s|
      && (SkipLine(s, l.next) == p + |WriteRow(r, Delimiter(delim), nullPrint)| <==> !HoldsNewline(r[n..]))
  {
    hide *;
    LongLine(s, p, r, n, delim, nullPrint);
    RestNewline(r, n, delim, nullPrint);
    var l := ReadRow(s, p, false, n, delim, nullPrint);
    SkipsTo(s, l.next, WriteRow(r[n..], Delimiter(delim), nullPrint));
  }

  // ---------------------------------------------------------------- a table of such lines

  /** Every line has a field, and no field that there is no column for holds a newline. */
  ghost predicate LinesOk(rows: seq<Row>, n: nat) {
    forall i | 0 <= i < |rows| :: LineOk(rows[i], n)
  }

  ghost predicate LineOk(r: Row, n: nat) { r != [] && RowOk(r) && (|r| > n ==> !HoldsNewline(r[n..])) }

  function FitAll(rows: seq<Row>, n: nat, nullPrint: Text): seq<Row> {
    seq(|rows|, i requires 0 <= i < |rows| => Fit(NormalRow(rows[i], nullPrint), n))
  }

  lemma LinesCons(rows: seq<Row>, n: nat, d: Byte, nullPrint: Text)
    requires LinesOk(rows, n)
    ensures rows == [] ==> WriteRows(rows, d, nullPrint) == [] && FitAll(rows, n, nullPrint) == []
    ensures rows != [] ==>
      && LineOk(rows[0], n) && LinesOk(rows[1..], n)
      && WriteRows(rows, d, nullPrint) == WriteRow(rows[0], d, nullPrint) + WriteRows(rows[1..], d, nullPrint)
      && FitAll(rows, n, nullPrint) == [Fit(NormalRow(rows[0], nullPrint), n)] + FitAll(rows[1..], n, nullPrint)
  {
    hide LineOk;
  }

  /** One line, read and skipped to its end. */
  lemma LineRead(s: Text, p: nat, r: Row, n: nat, delim: Text, nullPrint: Text)
    requires DelimOk(delim) && NullOk(nullPrint, Delimiter(delim)) && n > 0 && LineOk(r, n)
    requires At(s, p, WriteRow(r, Delimiter(delim), nullPrint))
    ensures p <= |s|
    ensures var l := ReadRow(s, p, false, n, delim, nullPrint);
      && l.Line? && l.row == Fit(NormalRow(r, nullPrint), n) && l.next <= |s|
      && (if l.newline then l.next else SkipLine(s, l.next)) == p + |WriteRow(r, Delimiter(delim), nullPrint)|
  {
    hide ReadRow, WriteRow, DelimOk, NullOk, HoldsNewline, RowOk;
    if |r| <= n { ShortLine(s, p, r, n, delim, nullPrint); } else { ExtraFieldsSkipped(s, p, r, n, delim, nullPrint); }
  }

  lemma LineThenTable(s: Text, p: nat, n: nat, delim: Text, nullPrint: Text)
    requires p <= |s| && n > 0
    ensures var l := ReadRow(s, p, false, n, delim, nullPrint);
      l.Line? ==>
        var t := ReadRows(s, if l.newline then l.next else SkipLine(s, l.next), n, delim, nullPrint);
        t.Rows? ==> ReadRows(s, p, n, delim, nullPrint) == Rows([l.row] + t.rows)
  {
    hide ReadRow;
  }

  lemma {:induction false} LinesOf(s: Text, p: nat, rows: seq<Row>, n: nat, delim: Text, nullPrint: Text, tail: Text)
    requires DelimOk(delim) && NullOk(nullPrint, Delimiter(delim)) && n > 0 && LinesOk(rows, n) && IsTail(tail)
    requires At(s, p, WriteRows(rows, Delimiter(delim), nullPrint) + tail)
    requires p + |WriteRows(rows, Delimiter(delim), nullPrint) + tail| == |s|
    ensures ReadRows(s, p, n, delim, nullPrint) == Rows(FitAll(rows, n, nullPrint))
    decreases |rows|
  {
    hide *;
    var d := Delimiter(delim);
    LinesCons(rows, n, d, nullPrint);
    if rows == [] {
      assert [] + tail == tail;
      TailEnds(s, p, n, delim, nullPrint, tail);
    } else {
      var a, b := WriteRow(rows[0], d, nullPrint), WriteRows(rows[1..], d, nullPrint);
      Associative(a, b, tail);
      AtSplit(s, p, a, b + tail);
      LineRead(s, p, rows[0], n, delim, nullPrint);
      LinesOf(s, p + |a|, rows[1..], n, delim, nullPrint, tail);
      LineThenTable(s, p, n, delim, nullPrint);
    }
  }

  /** Lines of any number of fields: the table read has every row made to fit. */
  lemma RaggedRows(rows: seq<Row>, n: nat, delim: Text, nullPrint: Text, tail: Text)
    requires DelimOk(delim) && NullOk(nullPrint, Delimiter(delim)) && n > 0 && LinesOk(rows, n) && IsTail(tail)
    ensures ReadRows(WriteRows(rows, Delimiter(delim), nullPrint) + tail, 0, n, delim, nullPrint) ==
      Rows(FitAll(rows, n, nullPrint))
  {
    LinesOf(WriteRows(rows, Delimiter(delim), nullPrint) + tail, 0, rows, n, delim, nullPrint, tail);
  }
}
