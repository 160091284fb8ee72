/**
 * The text forms the executor service exchanges with its clients: the
 * cardinalities key ("CLIENTS=4,SERVER=1") and value references, which
 * carry a 64-bit value id in decimal.
 */
module ServiceCodec {
  import opened Wrappers
  import opened Decimal
  import opened StatusCodes

  /** One entry of a cardinality map: a placement URI and how many participants it has. */
  datatype Cardinality = Cardinality(placement: string, count: int)

  /** A cardinality map, as the sequence of its entries in the map's iteration order. */
  type CardinalityMap = seq<Cardinality>

  /** The `placement=count` text of one entry. */
  function EntryToString(c: Cardinality): string
  {
    c.placement + "=" + IntToString(c.count)
  }

  /** The entries joined with ","; an empty map gives the empty string. */
  function CardinalitiesToString(cs: CardinalityMap): (s: string)
    ensures |cs| == 0 <==> s == []
    decreases |cs|
  {
    if |cs| == 0 then []
    else if |cs| == 1 then EntryToString(cs[0])
    else EntryToString(cs[0]) + "," + CardinalitiesToString(cs[1..])
  }

  /** Placement names that use neither separator of the key. */
  predicate PlainPlacements(cs: CardinalityMap)
  {
    forall i | 0 <= i < |cs| :: ',' !in cs[i].placement && '=' !in cs[i].placement
  }

  /** The position of the first `c` in `s`. */
  function IndexOf(s: string, c: char): (i: nat)
    requires c in s
    ensures i < |s| && s[i] == c && c !in s[..i]
  {
    if s[0] == c then 0 else 1 + IndexOf(s[1..], c)
  }

  lemma {:induction false} IndexOfSeparator(x: string, y: string, sep: char)
    requires sep !in x
    ensures sep in x + [sep] + y && IndexOf(x + [sep] + y, sep) == |x|
  {
    var s := x + [sep] + y;
    assert s[|x|] == sep;
    if |x| > 0 {
      assert s[1..] == x[1..] + [sep] + y;
      IndexOfSeparator(x[1..], y, sep);
    }
  }

  /** `x + [sep] + y` splits at the first `sep` when `x` has none. */
  lemma SplitAtSeparator(x: string, y: string, x2: string, y2: string, sep: char)
    requires sep !in x && sep !in x2
    requires x + [sep] + y == x2 + [sep] + y2
    ensures x == x2 && y == y2
  {
    var s := x + [sep] + y;
    IndexOfSeparator(x, y, sep);
    IndexOfSeparator(x2, y2, sep);
    assert x == s[..|x|] == x2;
    assert y == s[|x| + 1..] == y2;
  }

  lemma EntryHasNoComma(c: Cardinality)
    requires ',' !in c.placement
    ensures ',' !in EntryToString(c)
  {
    var e := EntryToString(c);
    forall i | 0 <= i < |e| ensures e[i] != ',' {
      if i > |c.placement| {
        assert e[i] == IntToString(c.count)[i - |c.placement| - 1];
      }
    }
  }

  /** Different plain entries have different texts. */
  lemma EntryToStringInjective(a: Cardinality, b: Cardinality)
    requires '=' !in a.placement && '=' !in b.placement
    requires EntryToString(a) == EntryToString(b)
    ensures a == b
  {
    assert a.placement + ['='] + IntToString(a.count) == EntryToString(a);
    assert b.placement + ['='] + IntToString(b.count) == EntryToString(b);
    SplitAtSeparator(a.placement, IntToString(a.count), b.placement, IntToString(b.count), '=');
    IntToStringInjective(a.count, b.count);
  }

  /** The text of a cardinality map with plain placement names determines the map: the key is unique. */
  lemma {:induction false} CardinalitiesToStringInjective(a: CardinalityMap, b: CardinalityMap)
    requires PlainPlacements(a) && PlainPlacements(b)
    requires CardinalitiesToString(a) == CardinalitiesToString(b)
    ensures a == b
    decreases |a|
  {
    if |a| == 0 || |b| == 0 {
      return;
    }
    var ea, eb := EntryToString(a[0]), EntryToString(b[0]);
    EntryHasNoComma(a[0]);
    EntryHasNoComma(b[0]);
    var s := CardinalitiesToString(a);
    if |a| == 1 && |b| == 1 {
      EntryToStringInjective(a[0], b[0]);
    } else if |a| == 1 || |b| == 1 {
      assert false;
    } else {
      assert s == ea + [','] + CardinalitiesToString(a[1..]);
      assert s == eb + [','] + CardinalitiesToString(b[1..]);
      SplitAtSeparator(ea, CardinalitiesToString(a[1..]), eb, CardinalitiesToString(b[1..]), ',');
      EntryToStringInjective(a[0], b[0]);
      assert PlainPlacements(a[1..]) && PlainPlacements(b[1..]);
      CardinalitiesToStringInjective(a[1..], b[1..]);
      assert a == [a[0]] + a[1..];
      assert b == [b[0]] + b[1..];
    }
  }

  // ----- value ids -----

  const TWO_TO_64: nat := 0x1_0000_0000_0000_0000

  /** An executor's value id: an unsigned 64-bit integer. */
  type ValueId = n: nat | n < TWO_TO_64

  /** The value reference a client receives for `id`: its decimal text. */
  function IdToRemoteValue(id: ValueId): (s: string)
    ensures |s| >= 1 && AllDigits(s)
  {
    NatToString(id)
  }

  /** The characters `absl::ascii_isspace` accepts: space, tab, newline, vertical tab, form feed, return. */
  predicate IsAsciiSpace(c: char)
  {
    c == ' ' || '\t' <= c <= '\r'
  }

  function TrimLeft(s: string): (t: string)
    ensures |t| <= |s| && t == s[|s| - |t|..]
    ensures |t| > 0 ==> !IsAsciiSpace(t[0])
    ensures (forall i | 0 <= i < |s| :: !IsAsciiSpace(s[i])) ==> t == s
  {
    if |s| > 0 && IsAsciiSpace(s[0]) then TrimLeft(s[1..]) else s
  }

  function TrimRight(s: string): (t: string)
    ensures |t| <= |s| && t == s[..|t|]
    ensures |t| > 0 ==> !IsAsciiSpace(t[|t| - 1])
    ensures (forall i | 0 <= i < |s| :: !IsAsciiSpace(s[i])) ==> t == s
  {
    if |s| > 0 && IsAsciiSpace(s[|s| - 1]) then TrimRight(s[..|s| - 1]) else s
  }

  /** `absl::StripAsciiWhitespace`. */
  function Trim(s: string): string
  {
    TrimRight(TrimLeft(s))
  }

  /**
   * `absl::SimpleAtoi` into an unsigned 64-bit integer: surrounding ASCII
   * white space is ignored, a `+` sign is allowed and a `-` sign is not, at
   * least one decimal digit must follow and nothing else, and the value must
   * fit in 64 bits.
   */
  function SimpleAtoiU64(s: string): (r: Option<ValueId>)
  {
    var t := Trim(s);
    var digits := if |t| > 0 && t[0] == '+' then t[1..] else t;
    if |digits| == 0 || !AllDigits(digits) then None
    else if DigitsValue(digits) < TWO_TO_64 then Some(DigitsValue(digits))
    else None
  }

  /**
   * `RemoteValueToId`: the id a value reference names, or `INVALID_ARGUMENT`
   * quoting the reference.
   */
  function RemoteValueToId(ref: string): (r: StatusOr<ValueId>)
    ensures r.Success? <==> SimpleAtoiU64(ref).Some?
    ensures r.Success? ==> r.value == SimpleAtoiU64(ref).value
    ensures r.Failure? ==> r.error == Status(InvalidArgument, "Expected value ref to be an integer id, found " + ref)
  {
    match SimpleAtoiU64(ref)
    case Some(v) => Success(v)
    case None =>
      var e := Status(InvalidArgument, "Expected value ref to be an integer id, found " + ref);
      assert e.code == InvalidArgument;
      Failure(e)
  }

  lemma DigitsAreNotSpace(s: string)
    requires AllDigits(s)
    ensures forall i | 0 <= i < |s| :: !IsAsciiSpace(s[i])
  {
  }

  /** A plain, non-empty digit string is accepted exactly when its value fits in 64 bits, as that value. */
  lemma SimpleAtoiOfDigits(s: string)
    requires |s| > 0 && AllDigits(s)
    ensures SimpleAtoiU64(s) == if DigitsValue(s) < TWO_TO_64 then Some(DigitsValue(s)) else None
  {
    DigitsAreNotSpace(s);
    assert TrimLeft(s) == s;
    assert TrimRight(s) == s;
    assert s[0] != '+';
  }

  /** No text `SimpleAtoiU64` accepts holds a minus sign once its surrounding white space is trimmed. */
  lemma SimpleAtoiHasNoMinus(s: string)
    requires SimpleAtoiU64(s).Some?
    ensures '-' !in Trim(s)
  {
    var t := Trim(s);
    var digits := if |t| > 0 && t[0] == '+' then t[1..] else t;
    assert AllDigits(digits);
    forall i | 0 <= i < |t| ensures t[i] != '-' {
      if |t| > 0 && t[0] == '+' {
        if i > 0 { assert t[i] == digits[i - 1]; }
      } else {
        assert t[i] == digits[i];
      }
    }
  }

  /** Decimal text is accepted exactly when its value fits in 64 bits. */
  lemma SimpleAtoiOfDecimal(n: nat)
    ensures SimpleAtoiU64(NatToString(n)) == if n < TWO_TO_64 then Some(n) else None
  {
    var s := NatToString(n);
    DigitsAreNotSpace(s);
    assert TrimLeft(s) == s;
    assert TrimRight(s) == s;
    assert Trim(s) == s;
    assert s[0] != '+';
    DigitsValueOfNatToString(n);
  }

  /** A value reference the service hands out names the id it was made from. */
  lemma RemoteValueToIdOfIdToRemoteValue(id: ValueId)
    ensures RemoteValueToId(IdToRemoteValue(id)) == Success(id)
  {
    SimpleAtoiOfDecimal(id);
  }

  /** Distinct ids give distinct references. */
  lemma IdToRemoteValueInjective(a: ValueId, b: ValueId)
    requires IdToRemoteValue(a) == IdToRemoteValue(b)
    ensures a == b
  {
    RemoteValueToIdOfIdToRemoteValue(a);
    RemoteValueToIdOfIdToRemoteValue(b);
  }

  /** A reference with a minus sign is never an id, whatever follows. */
  lemma NegativeRefRejected(rest: string)
    ensures RemoteValueToId("-" + rest).Failure?
  {
    var s := "-" + rest;
    assert TrimLeft(s) == s;
    var t := Trim(s);
    if |t| > 0 {
      assert t == TrimRight(s) == s[..|t|];
      assert t[0] == '-';
    }
  }

  /** The smallest id that does not fit, 2^64, is refused with `INVALID_ARGUMENT`. */
  lemma OverflowRefRejected()
    ensures RemoteValueToId(NatToString(TWO_TO_64)).Failure?
    ensures RemoteValueToId(NatToString(TWO_TO_64)).error.code == InvalidArgument
  {
    SimpleAtoiOfDecimal(TWO_TO_64);
  }
}
