/**
  Everything that may stand for a byte in the text format of COPY, and what is written for it.
 */
module CopyEscapes {
  import opened Basics
  import opened CopyText

  // ---------------------------------------------------------------- all ways to write a byte

  /** The byte itself; behind a backslash; as a letter; as one, two or three octal digits, of which three may give
      256 more than the byte. */
  datatype Style = Plain | Quoted | Letter | Octal1 | Octal2 | Octal3(more: bool)

  datatype Encoded = Encoded(c: Byte, style: Style)

  /** b, t, n, v, f and r. */
  function LetterOf(c: Byte): Byte
    requires 8 <= c <= 13
  {
    [98, 116, 110, 118, 102, 114][c - 8]
  }

  function OctalDigit(n: nat): Byte { (48 + n % 8) as Byte }

  function WriteEncoded(e: Encoded): (t: Text)
    ensures t != []
  {
    var n := e.c as int;
    match e.style
    case Plain => [e.c]
    case Quoted => [92, e.c]
    case Letter => [92, if 8 <= e.c <= 13 then LetterOf(e.c) else e.c]
    case Octal1 => [92, OctalDigit(n)]
    case Octal2 => [92, OctalDigit(n / 8), OctalDigit(n)]
    case Octal3(more) =>
      var m := if more then n + 256 else n;
      [92, OctalDigit(m / 64), OctalDigit(m / 8), OctalDigit(m)]
  }

  /** The style may be used for the byte if this character comes next. */
  predicate Usable(e: Encoded, delim: Text, next: Byte) {
    e.c != 0 &&
    match e.style
    case Plain => e.c != 92 && e.c != 10 && e.c !in delim
    case Quoted => !(48 <= e.c <= 55) && e.c !in [46, 78, 98, 102, 110, 114, 116, 118]
    case Letter => 8 <= e.c <= 13
    case Octal1 => e.c < 8 && !(48 <= next <= 55)
    case Octal2 => e.c < 64 && !(48 <= next <= 55)
    case Octal3(_) => true
  }

  function WriteAll(es: seq<Encoded>): Text { if es == [] then [] else WriteEncoded(es[0]) + WriteAll(es[1..]) }

  function FirstChar(es: seq<Encoded>, stop: Byte): Byte { if es == [] then stop else WriteEncoded(es[0])[0] }

  predicate AllUsable(es: seq<Encoded>, delim: Text, stop: Byte) {
    es == [] || (Usable(es[0], delim, FirstChar(es[1..], stop)) && AllUsable(es[1..], delim, stop))
  }

  function Bytes(es: seq<Encoded>): (v: Text)
    ensures |v| == |es| && forall i | 0 <= i < |v| :: v[i] == es[i].c
  {
    seq(|es|, i requires 0 <= i < |es| => es[i].c)
  }

  /** The digits of a number below 512. */
  lemma Digits(n: nat)
    requires n < 512
    ensures n / 64 % 8 * 64 + n / 8 % 8 * 8 + n % 8 == n
    ensures n < 64 ==> n / 8 % 8 * 8 + n % 8 == n
    ensures n < 8 ==> n % 8 == n
  {
    assert n / 64 < 8 && n / 64 == n / 8 / 8;
  }

  lemma ThreeDigits(s: Text, p: nat, delim: Text, a: nat, b: nat, c: nat)
    requires 92 !in delim && a < 8 && b < 8 && c < 8
    requires At(s, p, [92, (48 + a) as Byte, (48 + b) as Byte, (48 + c) as Byte])
    ensures StepAt(s, p, delim) == Chars([((a * 64 + b * 8 + c) % 256) as Byte], p + 4)
  {
    var t: Text := [92, (48 + a) as Byte, (48 + b) as Byte, (48 + c) as Byte];
    assert s[p + 0] == t[0] && s[p + 1] == t[1] && s[p + 2] == t[2] && s[p + 3] == t[3];
  }

  lemma FewDigits(s: Text, p: nat, delim: Text, a: nat, b: nat)
    requires 92 !in delim && a < 8 && b < 8
    ensures At(s, p, [92, (48 + a) as Byte]) && p + 2 < |s| && !(48 <= s[p + 2] <= 55) ==>
      StepAt(s, p, delim) == Chars([a as Byte], p + 2)
    ensures At(s, p, [92, (48 + a) as Byte, (48 + b) as Byte]) && p + 3 < |s| && !(48 <= s[p + 3] <= 55) ==>
      StepAt(s, p, delim) == Chars([(a * 8 + b) as Byte], p + 3)
  {
    var t: Text := [92, (48 + a) as Byte];
    if At(s, p, t) && p + 2 < |s| { assert s[p + 0] == t[0] && s[p + 1] == t[1]; }
    var u: Text := [92, (48 + a) as Byte, (48 + b) as Byte];
    if At(s, p, u) && p + 3 < |s| { assert s[p + 0] == u[0] && s[p + 1] == u[1] && s[p + 2] == u[2]; }
  }

  lemma OctalSteps(s: Text, p: nat, e: Encoded, delim: Text)
    requires 92 !in delim && At(s, p, WriteEncoded(e)) && p + |WriteEncoded(e)| < |s|
    requires e.style.Octal1? || e.style.Octal2? || e.style.Octal3?
    requires Usable(e, delim, s[p + |WriteEncoded(e)|])
    ensures StepAt(s, p, delim) == Chars([e.c], p + |WriteEncoded(e)|)
  {
    if e.style.Octal3? { Octal3Step(s, p, e, delim); } else { FewStep(s, p, e, delim); }
  }

  lemma Octal3Step(s: Text, p: nat, e: Encoded, delim: Text)
    requires 92 !in delim && e.style.Octal3? && At(s, p, WriteEncoded(e))
    ensures StepAt(s, p, delim) == Chars([e.c], p + |WriteEncoded(e)|)
  {
    hide StepAt, At;
    var m := if e.style.more then e.c as int + 256 else e.c as int;
    Digits(m);
    ThreeDigits(s, p, delim, m / 64 % 8, m / 8 % 8, m % 8);
  }

  lemma FewStep(s: Text, p: nat, e: Encoded, delim: Text)
    requires 92 !in delim && At(s, p, WriteEncoded(e)) && p + |WriteEncoded(e)| < |s|
    requires (e.style.Octal1? || e.style.Octal2?) && Usable(e, delim, s[p + |WriteEncoded(e)|])
    ensures StepAt(s, p, delim) == Chars([e.c], p + |WriteEncoded(e)|)
  {
    hide StepAt, At;
    var n := e.c as int;
    Digits(n);
    if e.style.Octal2? { FewDigits(s, p, delim, n / 8 % 8, n % 8); } else { FewDigits(s, p, delim, n % 8, 0); }
  }

  lemma OtherSteps(s: Text, p: nat, e: Encoded, delim: Text)
    requires 92 !in delim && At(s, p, WriteEncoded(e)) && p + |WriteEncoded(e)| < |s|
    requires e.style.Plain? || e.style.Quoted? || e.style.Letter?
    requires Usable(e, delim, s[p + |WriteEncoded(e)|])
    ensures StepAt(s, p, delim) == Chars([e.c], p + |WriteEncoded(e)|)
  {
    var t := WriteEncoded(e);
    assert s[p + 0] == t[0];
    if !e.style.Plain? { assert s[p + 1] == t[1]; }
  }

  /** The field ends here, with a newline, with any of the delimiters or with a byte 0. */
  predicate EndsAt(s: Text, p: nat, delim: Text, newline: bool) {
    p < |s| && if newline then s[p] == 10 else s[p] != 10 && (s[p] in delim || s[p] == 0)
  }

  lemma AllCons(es: seq<Encoded>, delim: Text, stop: Byte)
    requires AllUsable(es, delim, stop)
    ensures es == [] ==> WriteAll(es) == [] && Bytes(es) == []
    ensures es != [] ==> WriteAll(es) == WriteEncoded(es[0]) + WriteAll(es[1..])
    ensures es != [] ==> Bytes(es) == [es[0].c] + Bytes(es[1..]) && AllUsable(es[1..], delim, stop)
    ensures es != [] ==> Usable(es[0], delim, FirstChar(es[1..], stop))
  {
  }

  lemma FirstFollows(s: Text, p: nat, es: seq<Encoded>, stop: Byte)
    requires At(s, p, WriteAll(es)) && p + |WriteAll(es)| < |s| && s[p + |WriteAll(es)|] == stop
    ensures p < |s| && s[p] == FirstChar(es, stop)
  {
    if es != [] { assert s[p + 0] == WriteAll(es)[0]; }
  }

  lemma Ended(s: Text, p: nat, delim: Text, newline: bool)
    requires EndsAt(s, p, delim, newline)
    ensures ReadField(s, p, delim) == Done([], newline, p + 1)
  {
  }

  lemma OneStep(s: Text, p: nat, e: Encoded, delim: Text)
    requires 92 !in delim && At(s, p, WriteEncoded(e)) && p + |WriteEncoded(e)| < |s|
    requires Usable(e, delim, s[p + |WriteEncoded(e)|])
    ensures StepAt(s, p, delim) == Chars([e.c], p + |WriteEncoded(e)|)
  {
    hide *;
    if e.style.Plain? || e.style.Quoted? || e.style.Letter? { OtherSteps(s, p, e, delim); }
    else { OctalSteps(s, p, e, delim); }
  }

  /** However the bytes of a value are written, the field reads as the value. */
  lemma {:induction false} EncodedField(s: Text, p: nat, es: seq<Encoded>, delim: Text, newline: bool)
    requires 92 !in delim && At(s, p, WriteAll(es)) && EndsAt(s, p + |WriteAll(es)|, delim, newline)
    requires p + |WriteAll(es)| < |s| && AllUsable(es, delim, s[p + |WriteAll(es)|])
    ensures ReadField(s, p, delim) == Done(Bytes(es), newline, p + |WriteAll(es)| + 1)
    decreases |es|
  {
    hide *;
    var stop := s[p + |WriteAll(es)|];
    AllCons(es, delim, stop);
    if es == [] {
      Ended(s, p, delim, newline);
    } else {
      var a, b := WriteEncoded(es[0]), WriteAll(es[1..]);
      AtSplit(s, p, a, b);
      FirstFollows(s, p + |a|, es[1..], stop);
      OneStep(s, p, es[0], delim);
      EncodedField(s, p + |a|, es[1..], delim, newline);
      MoreChars(s, p, delim);
    }
  }

  /** A value is cut at a byte 0, which three octal digits can stand for. */
  lemma {:induction false} CutAtZero(v: Text, rest: Text)
    requires NulFree(v)
    ensures CString(v + [0] + rest) == v
  {
    var t := v + [0] + rest;
    if v == [] {
      assert t[0] == 0;
    } else {
      assert t[0] == v[0] && t[1..] == v[1..] + [0] + rest;
      CutAtZero(v[1..], rest);
    }
  }

  lemma ZeroStep(s: Text, p: nat, delim: Text)
    requires 92 !in delim && At(s, p, [92, 48, 48, 48])
    ensures StepAt(s, p, delim) == Chars([0], p + 4)
  {
    var t: Text := [92, 48, 48, 48];
    assert s[p + 0] == t[0] && s[p + 1] == t[1] && s[p + 2] == t[2] && s[p + 3] == t[3];
  }

  // ---------------------------------------------------------------- backslash and dot

  /** A backslash and a dot end the data if a newline follows, and are an error otherwise. */
  lemma MarkerOrError(s: Text, p: nat, delim: Text)
    requires 92 !in delim && At(s, p, [92, 46])
    ensures ReadField(s, p, delim) == if p + 2 < |s| && s[p + 2] == 10 then NoField else BadField
  {
    var t: Text := [92, 46];
    assert s[p + 0] == t[0] && s[p + 1] == t[1];
  }

  /** Text that ends within a field, or within an escape, has no field there. */
  lemma {:induction false} CutShort(s: Text, p: nat, delim: Text)
    requires forall i | p <= i < |s| :: s[i] != 10 && s[i] != 92 && s[i] != 0 && s[i] !in delim
    ensures ReadField(s, p, delim) == NoField
    decreases |s| - p
  {
    if p < |s| { CutShort(s, p + 1, delim); }
  }

  // ---------------------------------------------------------------- what is written

  predicate IsSpecial(c: Byte, d: Byte) { c == d || c == 10 || c == 92 }

  /** How many of the first n bytes are special. */
  function Specials(v: Text, d: Byte, n: nat): nat
    requires n <= |v|
  {
    if n == 0 then 0 else Specials(v, d, n - 1) + if IsSpecial(v[n - 1], d) then 1 else 0
  }

  lemma {:induction false} SpecialsSplit(v: Text, d: Byte, n: nat)
    requires 0 < n <= |v|
    ensures Specials(v, d, n) == (if IsSpecial(v[0], d) then 1 else 0) + Specials(v[1..], d, n - 1)
  {
    if n > 1 { SpecialsSplit(v, d, n - 1); }
  }

  lemma {:induction false} WrittenLength(v: Text, d: Byte)
    ensures |WriteValue(v, d)| == |v| + Specials(v, d, |v|)
  {
    if v != [] {
      WrittenLength(v[1..], d);
      SpecialsSplit(v, d, |v|);
    }
  }

  /** Every byte of a value is written as itself, one place further for every special byte up to it, and a special
      byte has a backslash before it; there is nothing else in the text. */
  lemma {:induction false} WrittenAt(v: Text, d: Byte, i: nat)
    requires i < |v|
    ensures |WriteValue(v, d)| == |v| + Specials(v, d, |v|)
    ensures var at := i + Specials(v, d, i + 1);
      && at < |WriteValue(v, d)| && WriteValue(v, d)[at] == v[i]
      && (IsSpecial(v[i], d) ==> at > 0 && WriteValue(v, d)[at - 1] == 92)
  {
    WrittenLength(v, d);
    SpecialsSplit(v, d, i + 1);
    if i > 0 { WrittenAt(v[1..], d, i - 1); }
  }
}
