/** UUIDs by their canonical text, and decimal generations. */
module Identifiers {
  import opened Wrappers

  predicate Canonical(t: string) {
    && |t| == 36
    && forall i :: 0 <= i < 36 ==>
      if i == 8 || i == 13 || i == 18 || i == 23 then t[i] == '-'
      else '0' <= t[i] <= '9' || 'a' <= t[i] <= 'f'
  }

  /** 00000000-0000-0000-0000-000000000000. */
  function NilText(): (t: string)
    ensures Canonical(t)
  {
    seq(36, i => if i == 8 || i == 13 || i == 18 || i == 23 then '-' else '0')
  }

  type CanonicalText = t: string | Canonical(t) witness NilText()

  /** A UUID, known by the text its String method prints. */
  datatype Uuid = Uuid(text: CanonicalText)

  const NIL := Uuid(NilText())

  function Digit(d: nat): char
    requires d < 10
  {
    '0' + d as char
  }

  /** strconv.FormatInt in base ten, on the generations it is used for. */
  function Decimal(n: nat): (t: string)
    ensures t != [] && forall i :: 0 <= i < |t| ==> '0' <= t[i] <= '9'
  {
    if n < 10 then [Digit(n)] else Decimal(n / 10) + [Digit(n % 10)]
  }

  lemma {:induction false} DecimalInjective(a: nat, b: nat)
    requires Decimal(a) == Decimal(b)
    ensures a == b
  {
    var s, t := Decimal(a), Decimal(b);
    assert s[|s| - 1] == Digit(a % 10) && t[|t| - 1] == Digit(b % 10);
    if a >= 10 && b >= 10 {
      assert s[..|s| - 1] == Decimal(a / 10) && t[..|t| - 1] == Decimal(b / 10);
      DecimalInjective(a / 10, b / 10);
    }
  }

  const MAX_INT64 := 0x7fff_ffff_ffff_ffff

  function ParseDigits(s: string): Option<nat> {
    if s == [] then Some(0)
    else
      var c := s[|s| - 1];
      match ParseDigits(s[..|s| - 1])
      case Some(n) => if '0' <= c <= '9' then Some(10 * n + (c as int - '0' as int)) else None
      case None => None
  }

  /** strconv.ParseInt: an optional sign, then decimal digits within 64 bits. */
  function ParseInt(s: string): Option<int> {
    var negative := s != [] && s[0] == '-';
    var digits := if s != [] && (s[0] == '-' || s[0] == '+') then s[1..] else s;
    if digits == [] then None
    else
      match ParseDigits(digits)
      case None => None
      case Some(m) =>
        var n: int := m;
        if negative then (if n <= MAX_INT64 + 1 then Some(-n) else None)
        else if n <= MAX_INT64 then Some(n) else None
  }

  /** Generation.MarshalJSON and UnmarshalJSON, on the decimal string inside the JSON quotes. */
  function EncodeGeneration(g: int): Option<string> {
    if g <= 0 then None else Some(Decimal(g))
  }

  function DecodeGeneration(wire: string): Option<int> {
    match ParseInt(wire)
    case Some(n) => if n > 0 && Decimal(n) == wire then Some(n) else None
    case None => None
  }

  lemma {:induction false} ParseDecimal(n: nat)
    ensures ParseDigits(Decimal(n)) == Some(n)
  {
    var t := Decimal(n);
    if n >= 10 {
      assert t[..|t| - 1] == Decimal(n / 10);
      ParseDecimal(n / 10);
    } else {
      assert t[..0] == [];
    }
  }

  /** Encoding and decoding undo each other, and a wire text is accepted only when it is the
      one canonical text of a positive 64-bit generation. */
  lemma GenerationRoundTrip(wire: string, g: int)
    ensures DecodeGeneration(wire) == Some(g) <==> g <= MAX_INT64 && EncodeGeneration(g) == Some(wire)
  {
    if 0 < g <= MAX_INT64 {
      ParseDecimal(g);
      assert Decimal(g)[0] != '-' && Decimal(g)[0] != '+';
    }
  }
}
