/**
  Trigger arguments are stored as one bytea: CREATE TRIGGER escapes them and
  marks the end of each with an escaped NUL, byteain unescapes the text, and the
  relation cache cuts the bytes at the NULs.
 */
module TriggerArgs {
  import opened Basics

  const ZERO: Byte := 48
  const NINE: Byte := 57

  datatype Bytes = Ok(bytes: seq<Byte>) | BadInput

  // ---------------------------------------------------------------- writing

  function EscapeByte(c: Byte): Text { if c == BACKSLASH then [BACKSLASH, BACKSLASH] else [c] }

  function Escape(s: Text): (r: Text)
    ensures |s| <= |r| <= 2 * |s|
  {
    if s == [] then []
    else EscapeByte(s[0]) + Escape(s[1..])
  }

  const TERMINATOR: Text := [BACKSLASH, ZERO, ZERO, ZERO]

  function Encode(args: seq<Text>): Text {
    if args == [] then [] else Escape(args[0]) + (TERMINATOR + Encode(args[1..]))
  }

  lemma {:induction false} EscapeAppend(s: Text, t: Text)
    ensures Escape(s + t) == Escape(s) + Escape(t)
  {
    if s == [] {
      assert s + t == t;
    } else {
      assert (s + t)[1..] == s[1..] + t;
      EscapeAppend(s[1..], t);
    }
  }

  lemma {:induction false} EncodeConcat(args: seq<Text>, more: seq<Text>)
    ensures Encode(args + more) == Encode(args) + Encode(more)
  {
    hide Escape;
    if args == [] {
      assert args + more == more;
    } else {
      EncodeConcat(args[1..], more);
      assert (args + more)[1..] == args[1..] + more;
      Associative(TERMINATOR, Encode(args[1..]), Encode(more));
      Associative(Escape(args[0]), TERMINATOR + Encode(args[1..]), Encode(more));
    }
  }

  lemma EncodeUpTo(args: seq<Text>, a: nat)
    requires a < |args|
    ensures Encode(args[..a + 1]) == Encode(args[..a]) + (Escape(args[a]) + TERMINATOR)
    ensures |Encode(args[..a])| + |Escape(args[a])| + 4 <= |Encode(args)|
  {
    hide Escape;
    assert args[..a + 1] == args[..a] + [args[a]];
    EncodeConcat(args[..a], [args[a]]);
    assert [args[a]][1..] == [];
    assert TERMINATOR + Encode([]) == TERMINATOR;
    assert args == args[..a + 1] + args[a + 1..];
    EncodeConcat(args[..a + 1], args[a + 1..]);
  }

  /** The size CREATE TRIGGER computes before it allocates the buffer. */
  method EncodedLength(args: seq<Text>) returns (len: nat)
    ensures len == |Encode(args)|
  {
    len := 0;
    for a := 0 to |args|
      invariant len == |Encode(args[..a])|
    {
      var ar := args[a];
      len := len + |ar| + 4;
      for c := 0 to |ar|
        invariant len == |Encode(args[..a])| + |Escape(ar[..c])| + |ar| - c + 4
      {
        assert ar[..c + 1] == ar[..c] + [ar[c]];
        EscapeAppend(ar[..c], [ar[c]]);
        if ar[c] == BACKSLASH {
          len := len + 1;
        }
      }
      assert ar[..|ar|] == ar;
      EncodeUpTo(args, a);
    }
    assert args[..|args|] == args;
  }

  /** *d++ = c */
  method Put(buf: array<Byte>, d: nat, c: Byte) returns (d': nat)
    requires d < buf.Length
    modifies buf
    ensures d' == d + 1 && buf[..d'] == old(buf[..d]) + [c]
  {
    buf[d] := c;
    d' := d + 1;
  }

  /** CREATE TRIGGER fills a buffer of len + 1 bytes, every one of them, and never writes past it. */
  method EncodeArgs(args: seq<Text>) returns (buf: array<Byte>)
    ensures fresh(buf) && buf.Length == |Encode(args)| + 1
    ensures buf[..] == Encode(args) + [NUL]
  {
    var len := EncodedLength(args);
    buf := new Byte[len + 1];
    var d := 0;     // args + strlen(args)
    var e := Put(buf, d, NUL);
    for a := 0 to |args|
      invariant d == |Encode(args[..a])| && d + 1 == e <= buf.Length == |Encode(args)| + 1
      invariant buf[..e] == Encode(args[..a]) + [NUL]
    {
      EncodeUpTo(args, a);
      assert buf[..d] == buf[..e][..d];
      e := WriteArg(buf, d, args[a]);
      d := e - 1;
    }
    assert args[..|args|] == args;
    assert buf[..] == buf[..e];
  }

  /** One argument: escaped, its terminator appended by strcat, and a NUL. */
  method WriteArg(buf: array<Byte>, start: nat, s: Text) returns (e: nat)
    requires start + |Escape(s)| + 5 <= buf.Length
    modifies buf
    ensures e == start + |Escape(s)| + 5
    ensures buf[..e] == old(buf[..start]) + (Escape(s) + TERMINATOR) + [NUL]
  {
    var d := WriteEscaped(buf, start, s);
    ghost var head := buf[..d];
    e := d;
    for k := 0 to 4
      invariant e == d + k && buf[..e] == head + TERMINATOR[..k]
    {
      e := Put(buf, e, TERMINATOR[k]);
    }
    e := Put(buf, e, NUL);
  }

  /** The copying loop for one argument. */
  method WriteEscaped(buf: array<Byte>, start: nat, s: Text) returns (d: nat)
    requires start + |Escape(s)| <= buf.Length
    modifies buf
    ensures d == start + |Escape(s)|
    ensures buf[..d] == old(buf[..start]) + Escape(s)
  {
    hide EscapeByte;
    d := start;
    for i := 0 to |s|
      invariant d == start + |Escape(s[..i])| <= buf.Length
      invariant buf[..d] == old(buf[..start]) + Escape(s[..i])
    {
      EscapeStep(s, i);
      d := WriteByte(buf, d, s[i]);
    }
    assert s[..|s|] == s;
  }

  method WriteByte(buf: array<Byte>, start: nat, c: Byte) returns (d: nat)
    requires start + |EscapeByte(c)| <= buf.Length
    modifies buf
    ensures d == start + |EscapeByte(c)|
    ensures buf[..d] == old(buf[..start]) + EscapeByte(c)
  {
    d := start;
    if c == BACKSLASH {
      d := Put(buf, d, BACKSLASH);
    }
    d := Put(buf, d, c);
  }

  lemma EscapeStep(s: Text, i: nat)
    requires i < |s|
    ensures Escape(s[..i + 1]) == Escape(s[..i]) + EscapeByte(s[i])
    ensures |Escape(s[..i + 1])| <= |Escape(s)|
  {
    assert s[..i + 1] == s[..i] + [s[i]];
    EscapeAppend(s[..i], [s[i]]);
    assert s == s[..i + 1] + s[i + 1..];
    EscapeAppend(s[..i + 1], s[i + 1..]);
  }

  // ---------------------------------------------------------------- reading

  predicate IsDigit(c: Byte) { ZERO <= c <= NINE }

  function Digit(c: Byte): int { c as int - ZERO as int }

  /** \\abc, stored into one byte. */
  function Value(a: Byte, b: Byte, c: Byte): Byte {
    (((Digit(a) * 8 + Digit(b)) * 8 + Digit(c)) % 256) as Byte
  }

  /** The width of the character or escape at the head of the text; 0 if the escape is bad. */
  function Width(s: Text): (n: nat)
    requires s != []
    ensures n <= |s|
  {
    if s[0] != BACKSLASH then 1
    else if |s| >= 2 && s[1] == BACKSLASH then 2
    else if |s| >= 4 && IsDigit(s[1]) && IsDigit(s[2]) && IsDigit(s[3]) then 4
    else 0
  }

  /** The byte it stands for. */
  function Head(s: Text): Byte
    requires s != [] && Width(s) > 0
  {
    if Width(s) == 4 then Value(s[1], s[2], s[3]) else s[Width(s) - 1]
  }

  /** What byteain accepts, and the bytes it yields. */
  function Unescape(s: Text): Bytes {
    if s == [] then Ok([])
    else if Width(s) == 0 then BadInput
    else
      match Unescape(s[Width(s)..])
      case Ok(r) => Ok([Head(s)] + r)
      case BadInput => BadInput
  }

  /** The first pass of byteain counts the bytes and rejects bad escapes.  A read past the end stands
      for the terminating NUL, which is neither a backslash nor a digit. */
  method CountBytes(s: Text) returns (ok: bool, count: nat)
    ensures ok <==> Unescape(s).Ok?
    ensures ok ==> count == |Unescape(s).bytes|
  {
    var t := 0;
    count := 0;
    while t < |s|
      invariant t <= |s|
      invariant Unescape(s).Ok? <==> Unescape(s[t..]).Ok?
      invariant Unescape(s).Ok? ==> |Unescape(s).bytes| == count + |Unescape(s[t..]).bytes|
    {
      assert Width(s[t..]) == 0 || s[t..][Width(s[t..])..] == s[t + Width(s[t..])..];
      if s[t] != BACKSLASH {
        t := t + 1;
      } else if t + 1 < |s| && s[t + 1] == BACKSLASH {
        t := t + 2;
      } else if t + 3 < |s| && IsDigit(s[t + 1]) && IsDigit(s[t + 2]) && IsDigit(s[t + 3]) {
        t := t + 4;
      } else {
        return false, 0;
      }
      count := count + 1;
    }
    ok := true;
  }

  lemma UnescapeAt(s: Text, t: nat, all: seq<Byte>, n: nat)
    requires t < |s| && n <= |all| && Unescape(s[t..]) == Ok(all[n..])
    ensures var w := Width(s[t..]);
      && 0 < w && t + w <= |s| && n < |all|
      && all[n] == Head(s[t..]) && Unescape(s[t + w..]) == Ok(all[n + 1..])
  {
    var w := Width(s[t..]);
    assert s[t..][w..] == s[t + w..];
    assert all[n..] == [Head(s[t..])] + Unescape(s[t + w..]).bytes;
    assert all[n] == all[n..][0];
    assert all[n + 1..] == all[n..][1..];
  }

  lemma UnescapeEnds(s: Text)
    ensures Unescape(s[0..]) == Unescape(s) && Unescape(s[|s|..]) == Ok([])
  {
    assert s[0..] == s;
  }

  /** byteain: the second pass fills a result of the counted size. */
  method ByteaIn(s: Text) returns (r: Bytes)
    ensures r == Unescape(s)
  {
    hide *;
    var ok, count := CountBytes(s);
    if !ok {
      return BadInput;
    }
    UnescapeEnds(s);
    ghost var all := Unescape(s).bytes;
    var bytes := new Byte[count];
    var n, t := 0, 0;
    while t < |s|
      invariant t <= |s| && n <= count == |all| == bytes.Length
      invariant Unescape(s[t..]) == Ok(all[n..])
      invariant forall i | 0 <= i < n :: bytes[i] == all[i]
    {
      UnescapeAt(s, t, all, n);
      var c, w := NextByte(s, t);
      bytes[n] := c;
      n := n + 1;
      t := t + w;
    }
    assert all[n..] == [];
    assert bytes[..] == all;
    r := Ok(bytes[..]);
  }

  method NextByte(s: Text, t: nat) returns (c: Byte, w: nat)
    requires t < |s| && Width(s[t..]) > 0
    ensures w == Width(s[t..]) && c == Head(s[t..])
  {
    if s[t] != BACKSLASH {
      c, w := s[t], 1;
    } else if s[t + 1] == BACKSLASH {
      c, w := s[t + 1], 2;
    } else {
      c, w := Value(s[t + 1], s[t + 2], s[t + 3]), 4;
    }
  }

  /** The strings the relation cache finds: nargs times, the bytes up to the next NUL. */
  function FirstString(s: seq<Byte>): (n: nat)
    ensures n <= |s| && NulFree(s[..n]) && (n < |s| ==> s[n] == NUL)
  {
    if s == [] || s[0] == NUL then 0 else 1 + FirstString(s[1..])
  }

  function Split(s: seq<Byte>, nargs: nat): seq<Text>
    decreases nargs
  {
    if nargs == 0 then []
    else
      var n := FirstString(s);
      [s[..n]] + Split(if n < |s| then s[n + 1..] else [], nargs - 1)
  }

  method StrLen(p: seq<Byte>) returns (n: nat)
    ensures n == FirstString(p)
  {
    n := 0;
    while n < |p| && p[n] != NUL
      invariant n <= |p| && FirstString(p) == n + FirstString(p[n..])
    {
      assert p[n..][1..] == p[n + 1..];
      n := n + 1;
    }
  }

  /** The loop of RelationBuildTriggers: p walks over the bytes, one string at a time. */
  method SplitArgs(bytes: seq<Byte>, nargs: nat) returns (args: seq<Text>)
    ensures args == Split(bytes, nargs)
  {
    hide Split, FirstString, NulFree;
    args := [];
    var p := bytes;
    for i := 0 to nargs
      invariant Split(bytes, nargs) == args + Split(p, nargs - i)
    {
      SplitStep(p, nargs - i);
      var n := StrLen(p);
      args := args + [p[..n]];
      p := if n < |p| then p[n + 1..] else [];
    }
    SplitNone(p);
  }

  lemma SplitStep(s: seq<Byte>, nargs: nat)
    requires nargs > 0
    ensures Split(s, nargs) == var n := FirstString(s);
      [s[..n]] + Split(if n < |s| then s[n + 1..] else [], nargs - 1)
  {
    hide FirstString, NulFree;
  }

  lemma SplitNone(s: seq<Byte>)
    ensures Split(s, 0) == []
  {
  }

  // ---------------------------------------------------------------- the round trip

  function Flat(args: seq<Text>): seq<Byte> {
    if args == [] then [] else args[0] + ([NUL] + Flat(args[1..]))
  }

  lemma UnescapeOne(s: Text, w: nat)
    requires s != [] && Width(s) == w > 0 && Unescape(s[w..]).Ok?
    ensures Unescape(s) == Ok([Head(s)] + Unescape(s[w..]).bytes)
  {
    hide Width, Head;
  }

  lemma UnescapeByte(c: Byte, rest: Text)
    requires Unescape(rest).Ok?
    ensures Unescape(EscapeByte(c) + rest) == Ok([c] + Unescape(rest).bytes)
  {
    hide Unescape;
    var e := EscapeByte(c) + rest;
    assert Width(e) == |EscapeByte(c)| && Head(e) == c && e[Width(e)..] == rest;
    UnescapeOne(e, Width(e));
  }

  lemma {:induction false} UnescapeEscape(s: Text, rest: Text)
    requires Unescape(rest).Ok?
    ensures Unescape(Escape(s) + rest) == Ok(s + Unescape(rest).bytes)
  {
    hide Unescape;
    if s == [] {
      assert Escape(s) + rest == rest;
      assert s + Unescape(rest).bytes == Unescape(rest).bytes;
    } else {
      UnescapeEscape(s[1..], rest);
      Associative(EscapeByte(s[0]), Escape(s[1..]), rest);
      UnescapeByte(s[0], Escape(s[1..]) + rest);
      assert s + Unescape(rest).bytes == [s[0]] + (s[1..] + Unescape(rest).bytes);
    }
  }

  lemma UnescapeTerminator(rest: Text)
    requires Unescape(rest).Ok?
    ensures Unescape(TERMINATOR + rest) == Ok([NUL] + Unescape(rest).bytes)
  {
    hide Unescape;
    var all := TERMINATOR + rest;
    assert all[4..] == rest && Width(all) == 4 && Head(all) == NUL;
    UnescapeOne(all, 4);
  }

  lemma {:induction false} UnescapeEncode(args: seq<Text>)
    ensures Unescape(Encode(args)) == Ok(Flat(args))
  {
    if args != [] {
      hide Unescape, Escape;
      UnescapeEncode(args[1..]);
      UnescapeTerminator(Encode(args[1..]));
      UnescapeEscape(args[0], TERMINATOR + Encode(args[1..]));
    }
  }

  lemma {:induction false} FirstStringOf(s: Text, rest: seq<Byte>)
    requires NulFree(s)
    ensures FirstString(s + ([NUL] + rest)) == |s|
  {
    var all := s + ([NUL] + rest);
    assert all[|s|] == NUL;
    assert forall i | 0 <= i < |s| :: all[i] == s[i];
    var n := FirstString(all);
    assert forall i | 0 <= i < n :: all[..n][i] == all[i];
  }

  lemma {:induction false} SplitFlat(args: seq<Text>)
    requires forall i | 0 <= i < |args| :: NulFree(args[i])
    ensures Split(Flat(args), |args|) == args
  {
    hide Split, NulFree;
    if args == [] {
      SplitNone(Flat(args));
    } else {
      SplitFlat(args[1..]);
      SplitFirst(args[0], Flat(args[1..]), |args| - 1);
      assert args == [args[0]] + args[1..];
    }
  }

  lemma SplitFirst(s: Text, rest: seq<Byte>, n: nat)
    requires NulFree(s)
    ensures Split(s + ([NUL] + rest), n + 1) == [s] + Split(rest, n)
  {
    hide Split, FirstString, NulFree;
    FirstStringOf(s, rest);
    var all := s + ([NUL] + rest);
    SplitStep(all, n + 1);
    assert all[..|s|] == s && all[|s| + 1..] == rest;
  }

  /** The arguments a trigger function receives are those of CREATE TRIGGER: any list of C strings,
      with backslashes, digits and empty strings anywhere, survives the encoding. */
  lemma ArgumentsRoundTrip(args: seq<Text>)
    requires forall i | 0 <= i < |args| :: NulFree(args[i])
    ensures Unescape(Encode(args)).Ok?
    ensures Split(Unescape(Encode(args)).bytes, |args|) == args
    ensures NulFree(Encode(args))
  {
    UnescapeEncode(args);
    SplitFlat(args);
    EncodeNulFree(args);
  }

  lemma {:induction false} EncodeNulFree(args: seq<Text>)
    requires forall i | 0 <= i < |args| :: NulFree(args[i])
    ensures NulFree(Encode(args))
  {
    if args != [] {
      EncodeNulFree(args[1..]);
      EscapeNulFree(args[0]);
    }
  }

  lemma {:induction false} EscapeNulFree(s: Text)
    requires NulFree(s)
    ensures NulFree(Escape(s))
  {
    if s != [] { EscapeNulFree(s[1..]); }
  }

  // ---------------------------------------------------------------- in numbers

  /** What byteain makes of a byte other than a backslash, and of two backslashes. */
  lemma PlainRead(c: Byte, rest: Text)
    requires c != 92 && Unescape(rest).Ok?
    ensures Unescape([c] + rest) == Ok([c] + Unescape(rest).bytes)
    ensures Unescape([92, 92] + rest) == Ok([92] + Unescape(rest).bytes)
  {
    hide Unescape;
    assert ([c] + rest)[1..] == rest;
    UnescapeOne([c] + rest, 1);
    var t: Text := [92, 92];
    assert (t + rest)[2..] == rest && Width(t + rest) == 2;
    UnescapeOne(t + rest, 2);
  }

  lemma ValueOf(a: nat, b: nat, d: nat)
    requires a < 10 && b < 10 && d < 10
    ensures Value((48 + a) as Byte, (48 + b) as Byte, (48 + d) as Byte) == ((a * 64 + b * 8 + d) % 256) as Byte
  {
  }

  /** A backslash and three digits stand for one byte. */
  lemma OctalRead(a: nat, b: nat, d: nat, rest: Text)
    requires a < 10 && b < 10 && d < 10 && Unescape(rest).Ok?
    ensures Unescape([92, (48 + a) as Byte, (48 + b) as Byte, (48 + d) as Byte] + rest) ==
      Ok([((a * 64 + b * 8 + d) % 256) as Byte] + Unescape(rest).bytes)
  {
    hide Value, Unescape;
    ValueOf(a, b, d);
    var u: Text := [92, (48 + a) as Byte, (48 + b) as Byte, (48 + d) as Byte];
    assert (u + rest)[4..] == rest && Width(u + rest) == 4;
    UnescapeOne(u + rest, 4);
  }

  /** A backslash is refused before anything else. */
  lemma RejectedExactly(rest: Text)
    ensures Unescape([92] + rest) == BadInput <==>
      || (|rest| >= 1 && rest[0] == 92 && Unescape(rest[1..]).BadInput?)
      || (|rest| >= 3 && IsThreeDigits(rest) && Unescape(rest[3..]).BadInput?)
      || ((rest == [] || rest[0] != 92) && !(|rest| >= 3 && IsThreeDigits(rest)))
  {
    var t: Text := [92] + rest;
    assert |rest| >= 1 ==> t[2..] == rest[1..];
    assert |rest| >= 3 ==> t[4..] == rest[3..];
  }

  predicate IsThreeDigits(t: Text)
    requires |t| >= 3
  {
    48 <= t[0] <= 57 && 48 <= t[1] <= 57 && 48 <= t[2] <= 57
  }

  /** How many of the first n bytes are backslashes. */
  function Backslashes(s: Text, n: nat): nat
    requires n <= |s|
  {
    if n == 0 then 0 else Backslashes(s, n - 1) + if s[n - 1] == 92 then 1 else 0
  }

  lemma {:induction false} BackslashesSplit(s: Text, n: nat)
    requires 0 < n <= |s|
    ensures Backslashes(s, n) == (if s[0] == 92 then 1 else 0) + Backslashes(s[1..], n - 1)
  {
    if n > 1 { BackslashesSplit(s, n - 1); }
  }

  /** Every byte of an argument is written as itself, one place further for every backslash up to it, and a backslash
      has another before it. */
  lemma {:induction false} EscapedAt(s: Text, i: nat)
    requires i < |s|
    ensures var at := i + Backslashes(s, i + 1);
      && at < |Escape(s)| && Escape(s)[at] == s[i] && (s[i] == 92 ==> at > 0 && Escape(s)[at - 1] == 92)
  {
    BackslashesSplit(s, i + 1);
    if i > 0 { EscapedAt(s[1..], i - 1); }
  }

  lemma {:induction false} EscapedLength(s: Text)
    ensures |Escape(s)| == |s| + Backslashes(s, |s|)
  {
    if s != [] {
      EscapedLength(s[1..]);
      BackslashesSplit(s, |s|);
    }
  }

  /** One more argument adds its text and the terminator. */
  lemma EncodedNext(args: seq<Text>, x: Text)
    ensures Encode(args + [x]) == Encode(args) + (Escape(x) + [92, 48, 48, 48])
  {
    EncodeConcat(args, [x]);
    assert [x][1..] == [] && TERMINATOR + Encode([]) == TERMINATOR;
  }
}
