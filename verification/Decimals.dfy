/** Decimal rendering and reading of integers: Java's String.valueOf(long) and Long.valueOf(String)
    on ASCII digits. Order ids become event ids, handoff member fields and JavaScript property
    names through this rendering, so its injectivity is what keeps distinct orders apart. */
module Decimals {
  import opened Wrappers

  const LONG_MIN: int := -0x8000_0000_0000_0000
  const LONG_MAX: int := 0x7fff_ffff_ffff_ffff

  predicate IsDigit(c: char) {
    '0' <= c <= '9'
  }

  predicate AllDigits(s: string) {
    forall i | 0 <= i < |s| :: IsDigit(s[i])
  }

  function DigitChar(d: int): (c: char)
    requires 0 <= d < 10
    ensures IsDigit(c) && DigitValue(c) == d
  {
    ('0' as int + d) as char
  }

  function DigitValue(c: char): (d: int)
    requires IsDigit(c)
  {
    c as int - '0' as int
  }

  function RenderNat(n: nat): (s: string)
    ensures |s| > 0 && AllDigits(s)
    ensures s[0] == '0' ==> n == 0
  {
    if n < 10 then [DigitChar(n)] else RenderNat(n / 10) + [DigitChar(n % 10)]
  }

  function Render(n: int): (s: string) {
    if n < 0 then "-" + RenderNat(-n) else RenderNat(n)
  }

  function ReadNat(s: string): (n: nat)
    requires AllDigits(s)
  {
    if s == [] then 0 else 10 * ReadNat(s[..|s| - 1]) + DigitValue(s[|s| - 1])
  }

  /** Long.valueOf: an optional sign, at least one digit, and a value a signed 64-bit word holds. */
  function Read(s: string): (r: Option<int>)
    ensures r.Some? ==> LONG_MIN <= r.value <= LONG_MAX
  {
    var negative := |s| > 0 && s[0] == '-';
    var digits := if |s| > 0 && (s[0] == '-' || s[0] == '+') then s[1..] else s;
    if digits == [] || !AllDigits(digits) then
      None
    else
      var magnitude: int := ReadNat(digits);
      var v := if negative then -magnitude else magnitude;
      if LONG_MIN <= v <= LONG_MAX then Some(v) else None
  }

  lemma {:induction false} ReadNatOfRenderNat(n: nat)
    ensures ReadNat(RenderNat(n)) == n
  {
    if n < 10 {
      assert RenderNat(n)[..0] == [];
    } else {
      ReadNatOfRenderNat(n / 10);
      var s := RenderNat(n);
      assert s[..|s| - 1] == RenderNat(n / 10);
    }
  }

  /** Reading back what was rendered returns the same long. */
  lemma ReadOfRender(n: int)
    requires LONG_MIN <= n <= LONG_MAX
    ensures Read(Render(n)) == Some(n)
  {
    hide RenderNat, ReadNat;
    if n < 0 {
      ReadNatOfRenderNat(-n);
      assert Render(n)[1..] == RenderNat(-n);
    } else {
      ReadNatOfRenderNat(n);
      assert IsDigit(Render(n)[0]);
    }
  }

  /** Two integers with the same decimal rendering are equal. */
  lemma RenderInjective(a: int, b: int)
    requires Render(a) == Render(b)
    ensures a == b
  {
    SignAndDigits(a);
    SignAndDigits(b);
  }

  lemma SignAndDigits(n: int)
    ensures n < 0 <==> Render(n)[0] == '-'
    ensures n < 0 ==> ReadNat(Render(n)[1..]) == -n
    ensures n >= 0 ==> ReadNat(Render(n)) == n
  {
    if n < 0 {
      ReadNatOfRenderNat(-n);
      assert Render(n)[1..] == RenderNat(-n);
    } else {
      ReadNatOfRenderNat(n);
      assert IsDigit(Render(n)[0]);
    }
  }

  /** A digit string without superfluous leading zeros is the rendering of its value. */
  lemma {:induction false} RenderNatOfReadNat(s: string)
    requires AllDigits(s) && |s| > 0
    requires s[0] == '0' ==> |s| == 1
    ensures RenderNat(ReadNat(s)) == s
    ensures s[0] != '0' ==> ReadNat(s) > 0
  {
    var front, last := s[..|s| - 1], s[|s| - 1];
    if |s| == 1 {
      assert front == [];
    } else {
      RenderNatOfReadNat(front);
      var high, low := ReadNat(front), DigitValue(last);
      assert ReadNat(s) == 10 * high + low && high > 0;
      assert (10 * high + low) / 10 == high && (10 * high + low) % 10 == low;
      assert front + [last] == s;
    }
  }

  /** Digits from the left, the most significant first. */
  lemma RendersAsWritten()
    ensures Render(1) == "1" && Render(10) == "10" && Render(-907) == "-907"
    ensures Read("-907") == Some(-907) && Read("+05") == Some(5) && Read("-") == None && Read("") == None
  {
    assert RenderNat(90) == RenderNat(9) + RenderNat(0);
    assert RenderNat(907) == RenderNat(90) + RenderNat(7);
    ReadOfRender(-907);
    var five := "+05"[1..];
    assert five[..1][..0] == [];
    assert ReadNat(five[..1]) == 0;
  }
}
