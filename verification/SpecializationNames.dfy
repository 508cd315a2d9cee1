/** The names given to specializations: the template name followed by an encoding of each argument.
    The encoding is shown to be uniquely decodable, so equal names mean equal requests. */
module SpecializationNames {
  import opened Wrappers
  import opened CtValues

  // ----- numbers -----

  const DIGITS: string := "0123456789abcdef"

  function Digits(n: nat): (s: string)
    ensures |s| > 0 && forall i :: 0 <= i < |s| ==> IsDigit(s[i])
  {
    if n < 10 then [DIGITS[n]] else Digits(n / 10) + [DIGITS[n % 10]]
  }

  /** Exactly `width` hexadecimal digits. */
  function Hex(n: nat, width: nat): (s: string)
    ensures |s| == width
  {
    if width == 0 then [] else Hex(n / 16, width - 1) + [DIGITS[n % 16]]
  }

  predicate IsDigit(c: char) {
    '0' <= c <= '9'
  }

  function DigitValue(c: char): nat {
    if IsDigit(c) then c as int - '0' as int
    else if 'a' <= c <= 'f' then c as int - 'a' as int + 10
    else 0
  }

  /** The number written by `s` in the given base. */
  function Number(s: string, base: nat): nat {
    if s == [] then 0 else Number(s[..|s| - 1], base) * base + DigitValue(s[|s| - 1])
  }

  /** How many digits `s` starts with. */
  function DigitRun(s: string): (n: nat)
    ensures n <= |s|
  {
    if s == [] || !IsDigit(s[0]) then 0 else 1 + DigitRun(s[1..])
  }

  lemma {:induction false} DigitsNumber(n: nat)
    ensures Number(Digits(n), 10) == n
  {
    if n >= 10 {
      DigitsNumber(n / 10);
      var s := Digits(n);
      assert s[..|s| - 1] == Digits(n / 10);
    } else {
      assert Digits(n)[..0] == [];
    }
  }

  lemma {:induction false} HexNumber(n: nat, width: nat)
    requires n < Pow16(width)
    ensures Number(Hex(n, width), 16) == n
  {
    if width > 0 {
      HexNumber(n / 16, width - 1);
      var s := Hex(n, width);
      assert s[..|s| - 1] == Hex(n / 16, width - 1);
    }
  }

  function Pow16(n: nat): nat {
    if n == 0 then 1 else 16 * Pow16(n - 1)
  }

  lemma {:induction false} DigitRunAppend(s: string, t: string)
    requires forall i :: 0 <= i < |s| ==> IsDigit(s[i])
    requires t == [] || !IsDigit(t[0])
    ensures DigitRun(s + t) == |s|
    decreases |s|
  {
    if s == [] {
      assert s + t == t;
    } else {
      assert (s + t)[0] == s[0] && (s + t)[1..] == s[1..] + t;
      DigitRunAppend(s[1..], t);
    }
  }

  // ----- encoding -----

  function NumberThen(n: nat, stop: char, tail: string): string {
    Digits(n) + ([stop] + tail)
  }

  function Signed(i: int): string {
    if i < 0 then ['-'] + NumberThen(-i, ';', []) else NumberThen(i, ';', [])
  }

  function Lengthed(x: string): string {
    NumberThen(|x|, ':', x)
  }

  function Tag(v: CtValue): char {
    match v
    case Int(_) => 'i'
    case UInt(_) => 'u'
    case Float(_) => 'f'
    case Bool(_) => 'b'
    case Str(_) => 's'
    case Tuple(_) => 't'
    case List(_) => 'l'
    case Type(_) => 'y'
    case Reflected(_) => 'r'
    case Param(_) => 'p'
  }

  function Payload(v: CtValue): string
    decreases v, 0
  {
    match v
    case Int(i) => Signed(i)
    case UInt(n) => NumberThen(n, ';', [])
    case Float(bits) => Hex(bits, 16) + [';']
    case Bool(b) => [if b then '1' else '0', ';']
    case Str(x) => Lengthed(x)
    case Tuple(items) => NumberThen(|items|, '[', EncodedAll(items) + [']'])
    case List(items) => NumberThen(|items|, '[', EncodedAll(items) + [']'])
    case Type(rendered) => Lengthed(rendered)
    case Reflected(rendered) => Lengthed(rendered)
    case Param(name) => Lengthed(name)
  }

  function Encoded(v: CtValue): string
    decreases v, 1
  {
    [Tag(v)] + Payload(v)
  }

  function EncodedAll(vs: seq<CtValue>): string
    decreases vs, 2
  {
    if vs == [] then [] else Encoded(vs[0]) + EncodedAll(vs[1..])
  }

  /** Appends the encoding of `value` to `out`. */
  method EncodeSpecializationValue(value: CtValue, out: string) returns (r: string)
    ensures r == out + Encoded(value)
    decreases value, 0
  {
    match value {
      case Int(i) => r := out + (['i'] + Signed(i));
      case UInt(n) => r := out + (['u'] + NumberThen(n, ';', []));
      case Float(bits) => r := out + (['f'] + (Hex(bits, 16) + [';']));
      case Bool(b) => r := out + (['b'] + [if b then '1' else '0', ';']);
      case Str(x) => r := out + (['s'] + Lengthed(x));
      case Tuple(items) => r := EncodeItems('t', items, out);
      case List(items) => r := EncodeItems('l', items, out);
      case Type(rendered) => r := out + (['y'] + Lengthed(rendered));
      case Reflected(rendered) => r := out + (['r'] + Lengthed(rendered));
      case Param(name) => r := out + (['p'] + Lengthed(name));
    }
  }

  method EncodeItems(tag: char, items: seq<CtValue>, out: string) returns (r: string)
    ensures r == out + ([tag] + NumberThen(|items|, '[', EncodedAll(items) + [']']))
    decreases items, 1
  {
    r := out + ([tag] + (Digits(|items|) + ['[']));
    ghost var start := r;
    assert items[0..] == items;
    for i := 0 to |items|
      invariant r + EncodedAll(items[i..]) == start + EncodedAll(items)
    {
      assert items[i..][1..] == items[i + 1..];
      AppendAssociates(r, Encoded(items[i]), EncodedAll(items[i + 1..]));
      r := EncodeSpecializationValue(items[i], r);
    }
    assert r == start + EncodedAll(items);
    r := r + [']'];
    ClosedItems(out, [tag], Digits(|items|), EncodedAll(items));
  }

  lemma AppendAssociates(a: string, b: string, c: string)
    ensures (a + b) + c == a + (b + c)
  {
  }

  lemma ClosedItems(out: string, tag: string, count: string, all: string)
    ensures ((out + (tag + (count + ['[']))) + all) + [']'] == out + (tag + (count + (['['] + (all + [']']))))
  {
    AppendAssociates(out + (tag + (count + ['['])), all, [']']);
    AppendAssociates(out, tag + (count + ['[']), all + [']']);
    AppendAssociates(tag, count + ['['], all + [']']);
    AppendAssociates(count, ['['], all + [']']);
  }

  // ----- decoding -----

  /** A decimal number followed by `stop`. */
  function DecodeNumber(s: string, stop: char): (r: Option<(nat, string)>)
    ensures r.Some? ==> |r.value.1| < |s|
  {
    var n := DigitRun(s);
    if n == 0 || n == |s| || s[n] != stop then None else Some((Number(s[..n], 10), s[n + 1..]))
  }

  function DecodeLengthed(s: string): (r: Option<(string, string)>)
    ensures r.Some? ==> |r.value.1| < |s|
  {
    match DecodeNumber(s, ':')
    case Some((n, t)) => if n <= |t| then Some((t[..n], t[n..])) else None
    case None => None
  }

  function DecodeSigned(s: string): (r: Option<(int, string)>)
    ensures r.Some? ==> |r.value.1| < |s|
  {
    if s != [] && s[0] == '-' then
      match DecodeNumber(s[1..], ';') {
        case Some((n, t)) => Some((0 - n, t))
        case None => None
      }
    else DecodeNumber(s, ';')
  }

  function DecodeLengthedAs(t: string, make: string -> CtValue): (r: Option<(CtValue, string)>)
    ensures r.Some? ==> |r.value.1| < |t|
  {
    match DecodeLengthed(t)
    case Some((x, rest)) => Some((make(x), rest))
    case None => None
  }

  /** Reads one value off the front of `s`. */
  function Decode(s: string): (r: Option<(CtValue, string)>)
    ensures r.Some? ==> |r.value.1| < |s|
    decreases |s|, 0
  {
    if s == [] then None else DecodePayload(s[0], s[1..])
  }

  function DecodePayload(tag: char, t: string): (r: Option<(CtValue, string)>)
    ensures r.Some? ==> |r.value.1| <= |t|
    decreases |t|, 2
  {
    match tag
    case 'i' =>
      (match DecodeSigned(t)
       case Some((i, rest)) => if I64_MIN <= i <= I64_MAX then Some((Int(i), rest)) else None
       case None => None)
    case 'u' =>
      (match DecodeNumber(t, ';')
       case Some((n, rest)) => if n <= 0xffff_ffff_ffff_ffff then Some((UInt(n), rest)) else None
       case None => None)
    case 'f' =>
      if |t| <= 16 || t[16] != ';' || Number(t[..16], 16) > 0xffff_ffff_ffff_ffff then None
      else Some((Float(Number(t[..16], 16)), t[17..]))
    case 'b' => if |t| < 2 then None else Some((Bool(t[0] == '1'), t[2..]))
    case 's' => DecodeLengthedAs(t, x => Str(x))
    case 'y' => DecodeLengthedAs(t, x => Type(x))
    case 'r' => DecodeLengthedAs(t, x => Reflected(x))
    case 'p' => DecodeLengthedAs(t, x => Param(x))
    case 't' => (match DecodeItems(t) case Some((vs, rest)) => Some((Tuple(vs), rest)) case None => None)
    case 'l' => (match DecodeItems(t) case Some((vs, rest)) => Some((List(vs), rest)) case None => None)
    case _ => None
  }

  function DecodeItems(s: string): (r: Option<(seq<CtValue>, string)>)
    ensures r.Some? ==> |r.value.1| < |s|
    decreases |s|, 1
  {
    match DecodeNumber(s, '[')
    case Some((n, t)) =>
      (match DecodeMany(n, t)
       case Some((vs, rest)) => if rest != [] && rest[0] == ']' then Some((vs, rest[1..])) else None
       case None => None)
    case None => None
  }

  function DecodeMany(n: nat, s: string): (r: Option<(seq<CtValue>, string)>)
    ensures r.Some? ==> |r.value.1| <= |s|
    decreases |s|, 1
  {
    if n == 0 then Some(([], s))
    else
      match Decode(s)
      case Some((v, t)) =>
        (match DecodeMany(n - 1, t)
         case Some((vs, rest)) => Some(([v] + vs, rest))
         case None => None)
      case None => None
  }

  // ----- unique decodability -----

  lemma DecodeNumberOf(n: nat, stop: char, tail: string, rest: string)
    requires !IsDigit(stop)
    ensures DecodeNumber(NumberThen(n, stop, tail) + rest, stop) == Some((n, tail + rest))
  {
    var d := Digits(n);
    var after := ([stop] + tail) + rest;
    var s := d + after;
    AppendAssociates(d, [stop] + tail, rest);
    DigitRunAppend(d, after);
    DigitsNumber(n);
    assert s[..|d|] == d;
    assert s[|d| + 1..] == after[1..] == tail + rest;
  }

  lemma DecodeLengthedOf(x: string, rest: string)
    ensures DecodeLengthed(Lengthed(x) + rest) == Some((x, rest))
  {
    DecodeNumberOf(|x|, ':', x, rest);
    assert (x + rest)[..|x|] == x && (x + rest)[|x|..] == rest;
  }

  lemma DecodeSignedOf(i: int, rest: string)
    ensures DecodeSigned(Signed(i) + rest) == Some((i, rest))
  {
    if i < 0 {
      DecodeNegativeOf(0 - i, rest);
      assert Signed(i) == ['-'] + NumberThen(0 - i, ';', []);
    } else {
      DecodeNaturalOf(i, rest);
      assert Signed(i) == NumberThen(i, ';', []);
    }
  }

  lemma DecodeNegativeOf(n: nat, rest: string)
    ensures DecodeSigned((['-'] + NumberThen(n, ';', [])) + rest) == Some((0 - n, rest))
  {
    var p := NumberThen(n, ';', []);
    AppendAssociates(['-'], p, rest);
    assert (['-'] + (p + rest))[1..] == p + rest;
    DecodeNumberOf(n, ';', [], rest);
    assert [] + rest == rest;
  }

  lemma DecodeNaturalOf(n: nat, rest: string)
    ensures DecodeSigned(NumberThen(n, ';', []) + rest) == Some((n, rest))
  {
    var p := NumberThen(n, ';', []);
    DecodeNumberOf(n, ';', [], rest);
    assert [] + rest == rest;
    assert (p + rest)[0] == p[0] == Digits(n)[0] && IsDigit(Digits(n)[0]);
  }

  lemma HexFits(bits: U64)
    ensures Number(Hex(bits, 16), 16) == bits
  {
    assert Pow16(4) == 0x1_0000;
    assert Pow16(8) == 0x1_0000 * Pow16(4);
    assert Pow16(12) == 0x1_0000 * Pow16(8);
    assert Pow16(16) == 0x1_0000 * Pow16(12);
    HexNumber(bits, 16);
  }

  lemma DecodeFloatOf(bits: U64, rest: string)
    ensures DecodePayload('f', (Hex(bits, 16) + [';']) + rest) == Some((Float(bits), rest))
  {
    HexFits(bits);
    var t := (Hex(bits, 16) + [';']) + rest;
    assert t[..16] == Hex(bits, 16) && t[17..] == rest;
  }

  lemma DecodeBoolOf(b: bool, rest: string)
    ensures DecodePayload('b', [if b then '1' else '0', ';'] + rest) == Some((Bool(b), rest))
  {
    assert ([if b then '1' else '0', ';'] + rest)[2..] == rest;
  }

  lemma DecodeTextOf(tag: char, x: string, rest: string)
    requires tag in "syrp"
    ensures DecodePayload(tag, Lengthed(x) + rest) ==
            Some((if tag == 's' then Str(x) else if tag == 'y' then Type(x)
                  else if tag == 'r' then Reflected(x) else Param(x), rest))
  {
    DecodeLengthedOf(x, rest);
  }

  /** Whatever follows, decoding an encoded value gives the value back and stops exactly at its end. */
  lemma {:induction false} DecodeEncoded(v: CtValue, rest: string)
    ensures Decode(Encoded(v) + rest) == Some((v, rest))
    decreases v, 1
  {
    AppendAssociates([Tag(v)], Payload(v), rest);
    assert ([Tag(v)] + (Payload(v) + rest))[1..] == Payload(v) + rest;
    DecodePayloadOf(v, rest);
  }

  lemma {:induction false} DecodePayloadOf(v: CtValue, rest: string)
    ensures DecodePayload(Tag(v), Payload(v) + rest) == Some((v, rest))
    decreases v, 0
  {
    match v
    case Int(i) => DecodeSignedOf(i, rest);
    case UInt(n) => DecodeNumberOf(n, ';', [], rest); assert [] + rest == rest;
    case Float(bits) => DecodeFloatOf(bits, rest);
    case Bool(b) => DecodeBoolOf(b, rest);
    case Str(x) => DecodeTextOf('s', x, rest);
    case Type(x) => DecodeTextOf('y', x, rest);
    case Reflected(x) => DecodeTextOf('r', x, rest);
    case Param(x) => DecodeTextOf('p', x, rest);
    case Tuple(items) => DecodeItemsOf(items, rest);
    case List(items) => DecodeItemsOf(items, rest);
  }

  lemma {:induction false} DecodeItemsOf(items: seq<CtValue>, rest: string)
    ensures DecodeItems(NumberThen(|items|, '[', EncodedAll(items) + [']']) + rest) == Some((items, rest))
    decreases items, 3
  {
    DecodeNumberOf(|items|, '[', EncodedAll(items) + [']'], rest);
    AppendAssociates(EncodedAll(items), [']'], rest);
    DecodeManyOf(items, [']'] + rest);
    assert ([']'] + rest)[1..] == rest;
  }

  lemma {:induction false} DecodeManyOf(items: seq<CtValue>, rest: string)
    ensures DecodeMany(|items|, EncodedAll(items) + rest) == Some((items, rest))
    decreases items, 2
  {
    if items == [] {
      assert EncodedAll(items) + rest == rest;
    } else {
      AppendAssociates(Encoded(items[0]), EncodedAll(items[1..]), rest);
      DecodeEncoded(items[0], EncodedAll(items[1..]) + rest);
      DecodeManyOf(items[1..], rest);
      assert [items[0]] + items[1..] == items;
    }
  }

  // ----- specialized names -----

  function Suffix(vals: seq<CtValue>): string {
    if vals == [] then [] else ['$'] + (Encoded(vals[0]) + Suffix(vals[1..]))
  }

  function Mangled(orig: string, vals: seq<CtValue>): string {
    orig + Suffix(vals)
  }

  method Mangle(orig: string, vals: seq<CtValue>) returns (s: string)
    ensures s == Mangled(orig, vals)
  {
    s := orig;
    assert vals[0..] == vals;
    for i := 0 to |vals|
      invariant s + Suffix(vals[i..]) == Mangled(orig, vals)
    {
      assert vals[i..][1..] == vals[i + 1..];
      AppendAssociates(s, ['$'], Encoded(vals[i]) + Suffix(vals[i + 1..]));
      AppendAssociates(s + ['$'], Encoded(vals[i]), Suffix(vals[i + 1..]));
      s := s + ['$'];
      s := EncodeSpecializationValue(vals[i], s);
    }
  }

  lemma {:induction false} SuffixInjective(vals: seq<CtValue>, others: seq<CtValue>)
    requires Suffix(vals) == Suffix(others)
    ensures vals == others
    decreases |vals|
  {
    if vals != [] && others != [] {
      assert Suffix(vals)[1..] == Encoded(vals[0]) + Suffix(vals[1..]);
      assert Suffix(others)[1..] == Encoded(others[0]) + Suffix(others[1..]);
      DecodeEncoded(vals[0], Suffix(vals[1..]));
      DecodeEncoded(others[0], Suffix(others[1..]));
      SuffixInjective(vals[1..], others[1..]);
      assert vals == [vals[0]] + vals[1..] && others == [others[0]] + others[1..];
    }
  }

  /** Template names cannot contain `$`, so two requests share a specialization exactly when they name the same
      template with the same arguments. */
  lemma MangledInjective(orig: string, vals: seq<CtValue>, other: string, others: seq<CtValue>)
    requires '$' !in orig && '$' !in other
    ensures Mangled(orig, vals) == Mangled(other, others) <==> orig == other && vals == others
  {
    if Mangled(orig, vals) == Mangled(other, others) {
      SplitAtDollar(orig, Suffix(vals), other, Suffix(others));
      SuffixInjective(vals, others);
    }
  }

  function FirstDollar(s: string): nat {
    if s == [] || s[0] == '$' then 0 else 1 + FirstDollar(s[1..])
  }

  lemma {:induction false} FirstDollarAppend(a: string, s: string)
    requires '$' !in a && (s == [] || s[0] == '$')
    ensures FirstDollar(a + s) == |a|
    decreases |a|
  {
    if a == [] {
      assert a + s == s;
    } else {
      assert (a + s)[0] == a[0] && (a + s)[1..] == a[1..] + s;
      FirstDollarAppend(a[1..], s);
    }
  }

  lemma SplitAtDollar(a: string, s: string, b: string, t: string)
    requires '$' !in a && '$' !in b && a + s == b + t
    requires (s == [] || s[0] == '$') && (t == [] || t[0] == '$')
    ensures a == b && s == t
  {
    FirstDollarAppend(a, s);
    FirstDollarAppend(b, t);
    assert a == (a + s)[..|a|] && b == (b + t)[..|b|];
    assert s == (a + s)[|a|..] && t == (b + t)[|b|..];
  }

  /** Were `$` allowed in template names, different requests could collide. */
  lemma DollarNamesCollide()
    ensures Mangled("f", [Int(0)]) == Mangled("f$i0;", [])
  {
    assert Encoded(Int(0)) == ['i'] + ("0" + ([';'] + []));
    assert Suffix([Int(0)][1..]) == [];
    assert Suffix([Int(0)]) == ['$'] + (Encoded(Int(0)) + []);
    assert Suffix([Int(0)]) == "$i0;";
  }

  /** Names as they are written: a negative number, a pair of a truth value and a text, and a float by its bits. */
  lemma NamesAsWritten()
    ensures Mangled("f", [Int(-12)]) == "f$i-12;"
    ensures Mangled("f", [Tuple([CtValue.Bool(true), Str("ab")])]) == "f$t2[b1;s2:ab]"
    ensures Mangled("g", [UInt(7), Float(0x1f)]) == "g$u7;$" + "f000000000000001f;"
  {
    NegativeAsWritten();
    PairAsWritten();
    FloatAsWritten();
  }

  lemma NegativeAsWritten()
    ensures Mangled("f", [Int(-12)]) == "f$i-12;"
  {
    OneSuffix(Int(-12));
    assert Digits(12) == Digits(1) + ['2'];
    assert Digits(12) == "12";
    assert Encoded(Int(-12)) == "i-12;";
  }

  lemma PairAsWritten()
    ensures Mangled("f", [Tuple([CtValue.Bool(true), Str("ab")])]) == "f$t2[b1;s2:ab]"
  {
    var first, second := CtValue.Bool(true), Str("ab");
    var pair := [first, second];
    OneSuffix(Tuple(pair));
    assert Encoded(first) == "b1;";
    assert Lengthed("ab") == "2:ab" by { assert Digits(2) == "2"; }
    assert Encoded(second) == "s2:ab";
    assert pair[1..] == [second] && [second][1..] == [];
    assert EncodedAll([second]) == Encoded(second) + [] == Encoded(second);
    assert EncodedAll(pair) == Encoded(first) + Encoded(second);
    assert Digits(2) == "2";
    assert Payload(Tuple(pair)) == "2[" + (EncodedAll(pair) + [']']);
  }

  lemma FloatAsWritten()
    ensures Mangled("g", [UInt(7), Float(0x1f)]) == "g$u7;$" + "f000000000000001f;"
  {
    var float := Encoded(Float(0x1f));
    SmallBits();
    assert Digits(7) == "7";
    assert Encoded(UInt(7)) == "u7;";
    OneSuffix(Float(0x1f));
    assert [UInt(7), Float(0x1f)][1..] == [Float(0x1f)];
    assert Suffix([UInt(7), Float(0x1f)]) == ['$'] + (Encoded(UInt(7)) + (['$'] + float));
    assert "g" + (['$'] + ("u7;" + (['$'] + float))) == "g$u7;$" + float;
  }

  lemma OneSuffix(v: CtValue)
    ensures Suffix([v]) == ['$'] + Encoded(v)
  {
    assert [v][1..] == [];
    assert Encoded(v) + [] == Encoded(v);
  }

  lemma {:induction false} LeadingZeros(width: nat)
    ensures Hex(0, width) == seq(width, _ => '0')
  {
    if width > 0 { LeadingZeros(width - 1); }
  }

  lemma SmallBits()
    ensures Encoded(Float(0x1f)) == "f000000000000001f;"
  {
    LeadingZeros(14);
    assert Hex(0, 14) == "00000000000000";
    assert Hex(0x1f, 16) == Hex(1, 15) + ['f'] && Hex(1, 15) == Hex(0, 14) + ['1'];
  }
}
