/**
  The parameters of a sequence and the fetching of a block of its values, in
  32-bit arithmetic.
 */
module SequenceFetch {
  import opened Basics

  /** Every operation on this type is shown to stay in its range. */
  newtype Int4 = x: int | -0x8000_0000 <= x < 0x8000_0000

  const SEQ_MAXVALUE: Int4 := 0x7FFF_FFFF
  const SEQ_MINVALUE: Int4 := -0x7FFF_FFFF

  /** The tuple of a sequence relation. */
  datatype Form = Form(last: Int4, inc: Int4, maxv: Int4, minv: Int4, cache: Int4, cycled: bool, called: bool)

  predicate Fits(f: Form, v: int) { f.minv as int <= v <= f.maxv as int }

  predicate Acceptable(f: Form) {
    f.inc != 0 && f.minv < f.maxv && Fits(f, f.last as int) && f.cache > 0
  }

  // ---------------------------------------------------------------- parameters

  datatype Kind = Increment | Start | MaxValue | MinValue | Cache | Cycle | Unknown

  datatype Arg = NoArg | Number(value: Int4) | NotNumber

  datatype Param = Param(kind: Kind, arg: Arg)

  /** The last option of this kind. */
  function Given(options: seq<Param>, kind: Kind): Option<Arg> {
    if options == [] then None
    else if options[|options| - 1].kind == kind then Some(options[|options| - 1].arg)
    else Given(options[..|options| - 1], kind)
  }

  function Chosen(options: seq<Param>, kind: Kind, dflt: Int4): Int4 {
    match Given(options, kind)
    case Some(Number(v)) => v
    case _ => dflt
  }

  /** Each value as given last, or its default, which follows the direction of the sequence. */
  function Described(options: seq<Param>): Form {
    var inc := Chosen(options, Increment, 1);
    var maxv := Chosen(options, MaxValue, if inc > 0 then SEQ_MAXVALUE else -1);
    var minv := Chosen(options, MinValue, if inc > 0 then 1 else SEQ_MINVALUE);
    var start := Chosen(options, Start, if inc > 0 then minv else maxv);
    Form(start, inc, maxv, minv, Chosen(options, Cache, 1), Given(options, Cycle).Some?, false)
  }

  /** An option given more than once counts as given last. */
  lemma {:induction false} GivenIsLast(options: seq<Param>, kind: Kind, i: nat)
    requires i < |options| && options[i].kind == kind && forall j | i < j < |options| :: options[j].kind != kind
    ensures Given(options, kind) == Some(options[i].arg)
  {
    if i < |options| - 1 { GivenIsLast(options[..|options| - 1], kind, i); }
  }

  lemma {:induction false} NotGiven(options: seq<Param>, kind: Kind)
    ensures Given(options, kind).None? <==> forall j | 0 <= j < |options| :: options[j].kind != kind
  {
    if options != [] {
      var n := |options| - 1;
      NotGiven(options[..n], kind);
      assert forall j | 0 <= j < n :: options[..n][j] == options[j];
    }
  }

  predicate Gives(options: seq<Param>, kind: Kind, v: Int4) { Given(options, kind) == Some(Number(v)) }

  /** What the options mean: a number given is taken, and what is not given follows the direction. */
  lemma DescribedMeans(options: seq<Param>)
    ensures var f, none := Described(options), (kind: Kind) => Given(options, kind).None?;
      && !f.called && (f.cycled <==> !none(Cycle))
      && (none(Increment) ==> f.inc == 1) && (none(Cache) ==> f.cache == 1)
      && (none(MaxValue) ==> f.maxv == if f.inc > 0 then 2147483647 else -1)
      && (none(MinValue) ==> f.minv == if f.inc > 0 then 1 else -2147483647)
      && (none(Start) ==> f.last == if f.inc > 0 then f.minv else f.maxv)
    ensures forall v :: var f := Described(options);
      && (Gives(options, Increment, v) ==> f.inc == v) && (Gives(options, Cache, v) ==> f.cache == v)
      && (Gives(options, MaxValue, v) ==> f.maxv == v) && (Gives(options, MinValue, v) ==> f.minv == v)
      && (Gives(options, Start, v) ==> f.last == v)
  {
  }

  lemma NoOptions()
    ensures Readable([]) && Acceptable(Described([])) && Described([]) == Form(1, 1, 2147483647, 1, 1, false, false)
  {
  }

  predicate ReadableOption(p: Param) {
    match p.kind
    case Cycle => p.arg.NoArg?
    case Unknown => false
    case _ => true
  }

  predicate Readable(options: seq<Param>) {
    && (forall i | 0 <= i < |options| :: ReadableOption(options[i]))
    && IsNumber(Given(options, Increment)) && IsNumber(Given(options, MaxValue)) && IsNumber(Given(options, MinValue))
    && IsNumber(Given(options, Start)) && IsNumber(Given(options, Cache))
  }

  predicate IsNumber(a: Option<Arg>) { a.None? || a.value.Number? }

  /** The options as they stand after the loop of init_params. */
  datatype Picked = Picked(inc: Option<Arg>, maxv: Option<Arg>, minv: Option<Arg>, start: Option<Arg>,
    cache: Option<Arg>, cycled: bool)

  method PickOptions(options: seq<Param>) returns (r: Option<Picked>)
    ensures r.Some? <==> forall i | 0 <= i < |options| :: ReadableOption(options[i])
    ensures r.Some? ==> r.value == Picked(Given(options, Increment), Given(options, MaxValue), Given(options, MinValue),
                                          Given(options, Start), Given(options, Cache), Given(options, Cycle).Some?)
  {
    var p := Picked(None, None, None, None, None, false);
    for i := 0 to |options|
      invariant forall j | 0 <= j < i :: ReadableOption(options[j])
      invariant p ==
        Picked(Given(options[..i], Increment), Given(options[..i], MaxValue), Given(options[..i], MinValue),
                            Given(options[..i], Start), Given(options[..i], Cache), Given(options[..i], Cycle).Some?)
    {
      var o := options[i];
      assert options[..i + 1][..i] == options[..i];
      match o.kind {
        case Increment => p := p.(inc := Some(o.arg));
        case MaxValue => p := p.(maxv := Some(o.arg));
        case MinValue => p := p.(minv := Some(o.arg));
        case Start => p := p.(start := Some(o.arg));
        case Cache => p := p.(cache := Some(o.arg));
        case Cycle =>
          if !o.arg.NoArg? { return None; }
          p := p.(cycled := true);
        case Unknown => return None;
      }
    }
    assert options[..|options|] == options;
    r := Some(p);
  }

  /** get_param, or the default when the option is not given; None is an error. */
  function GetParam(a: Option<Arg>, dflt: Int4): (r: Option<Int4>)
    ensures r.Some? <==> IsNumber(a)
  {
    match a
    case None => Some(dflt)
    case Some(Number(v)) => Some(v)
    case Some(_) => None
  }

  /** init_params. */
  method InitParams(options: seq<Param>) returns (r: Option<Form>)
    ensures r.Some? <==> Readable(options) && Acceptable(Described(options))
    ensures r.Some? ==> r.value == Described(options) && !r.value.called
  {
    r := None;
    var picked := PickOptions(options);
    if picked.None? { return; }
    var p := picked.value;
    var inc := GetParam(p.inc, 1);
    if inc.None? || inc.value == 0 { return; }
    var up := inc.value > 0;
    var maxv := GetParam(p.maxv, if up then SEQ_MAXVALUE else -1);
    if maxv.None? { return; }
    var minv := GetParam(p.minv, if up then 1 else SEQ_MINVALUE);
    if minv.None? || minv.value >= maxv.value { return; }
    var start := GetParam(p.start, if up then minv.value else maxv.value);
    if start.None? || start.value < minv.value || start.value > maxv.value { return; }
    var cache := GetParam(p.cache, 1);
    if cache.None? || cache.value <= 0 { return; }
    r := Some(Form(start.value, inc.value, maxv.value, minv.value, cache.value, p.cycled, false));
  }

  // ---------------------------------------------------------------- fetching

  /** Where a sequence goes when it cannot go on. */
  function Wrap(f: Form): Int4 { if f.inc > 0 then f.minv else f.maxv }

  predicate Exhausted(f: Form) { f.called && !f.cycled && !Fits(f, f.last as int + f.inc as int) }

  /** The value after the last one fetched. */
  function FirstValue(f: Form): int {
    if !f.called then f.last as int
    else if Fits(f, f.last as int + f.inc as int) then f.last as int + f.inc as int
    else Wrap(f) as int
  }

  /** v comes after what the tuple holds: the first value itself, or one increment further, or, where that is not
      within the range, the end of the range from which all of it lies ahead. */
  ghost predicate Follows(f: Form, v: int) {
    if !f.called then v == f.last as int
    else if f.minv as int <= f.last as int + f.inc as int <= f.maxv as int then v == f.last as int + f.inc as int
    else Fits(f, v) && forall w | Fits(f, w) :: if f.inc > 0 then v <= w else w <= v
  }

  lemma FirstFollows(f: Form, v: int)
    requires Acceptable(f)
    ensures v == FirstValue(f) <==> Follows(f, v)
  {
    if f.called && !Fits(f, f.last as int + f.inc as int) {
      assert Fits(f, f.minv as int) && Fits(f, f.maxv as int);
    }
  }

  /** A block of count values from first to last: as many as the cache holds, or up to the bound. */
  ghost predicate IsBlock(f: Form, first: int, last: int, count: int) {
    && 1 <= count <= f.cache as int && last == first + (count - 1) * f.inc as int
    && Fits(f, first) && Fits(f, last) && (count < f.cache as int ==> !Fits(f, last + f.inc as int))
  }

  ghost predicate Spans(f: Form, first: int, last: int) { exists count :: IsBlock(f, first, last, count) }

  /** Whether the value after next is beyond the bound, as nextval asks it. */
  predicate AtBound(f: Form, next: Int4)
    requires Acceptable(f) && Fits(f, next as int)
    ensures AtBound(f, next) <==> !Fits(f, next as int + f.inc as int)
  {
    if f.inc > 0 then (f.maxv >= 0 && next > f.maxv - f.inc) || (f.maxv < 0 && next + f.inc > f.maxv)
    else (f.minv < 0 && next < f.minv - f.inc) || (f.minv >= 0 && next + f.inc < f.minv)
  }

  /** The loop of nextval: a block of count values from result to next, one increment apart. */
  method FetchBlock(f: Form) returns (ok: bool, result: Int4, next: Int4, count: Int4)
    requires Acceptable(f)
    ensures ok <==> !Exhausted(f)
    ensures !ok <==> f.called && !f.cycled && !(f.minv as int <= f.last as int + f.inc as int <= f.maxv as int)
    ensures ok ==> result as int == FirstValue(f) && Follows(f, result as int)
    ensures ok ==> IsBlock(f, result as int, next as int, count as int)
  {
    FirstFollows(f, FirstValue(f));
    hide Follows;
    next, result, count := f.last, f.last, 0;
    if !f.called {
      count := 1;
    }
    while count < f.cache
      invariant 0 <= count <= f.cache && Fits(f, next as int)
      invariant count == 0 ==> f.called && next == result == f.last
      invariant count > 0 ==> !Exhausted(f) && Fits(f, result as int) && result as int == FirstValue(f)
      invariant count > 0 ==> next as int == result as int + (count as int - 1) * f.inc as int
      decreases f.cache - count
    {
      if AtBound(f, next) {
        if count > 0 {
          break;
        }
        if !f.cycled {
          return false, 0, 0, 0;
        }
        next := Wrap(f);
      } else {
        StepBlock(result as int, f.inc as int, count as int);
        next := next + f.inc;
      }
      count := count + 1;
      if count == 1 {
        result := next;
      }
    }
    ok := true;
  }

  lemma StepBlock(result: int, inc: int, count: int)
    ensures result + (count - 1) * inc + inc == result + (count + 1 - 1) * inc
  {
  }

  /** A cached value lies between the one returned last and the end of the block. */
  lemma {:induction false} CachedFits(f: Form, last: int, left: nat)
    requires Acceptable(f) && left > 0 && Fits(f, last) && Fits(f, last + left * f.inc as int)
    ensures Fits(f, last + f.inc as int)
    ensures (last + f.inc as int) + (left - 1) * f.inc as int == last + left * f.inc as int
  {
    var inc := f.inc as int;
    assert (last + inc) + (left - 1) * inc == last + left * inc;
    if inc > 0 {
      Between(inc, left);
    } else {
      Between(-inc, left);
      assert left * inc == -(left * -inc);
    }
  }

  lemma Between(d: int, left: nat)
    requires d > 0 && left > 0
    ensures d <= left * d
  {
  }
}
