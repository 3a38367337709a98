/** Route labels: a 128-bit id printed as 32 hexadecimal digits, the random subdomain of one upstream origin. */
module Labels {
  import opened Wrappers
  import opened Text

  const DIGITS := 32

  type Uuid = n: nat | n < 0x1_0000_0000_0000_0000_0000_0000_0000_0000

  function Pow16(k: nat): (r: nat)
    ensures r > 0
  {
    if k == 0 then 1 else 16 * Pow16(k - 1)
  }

  function HexDigit(d: nat): char
    requires d < 16
  {
    if d < 10 then '0' + d as char else 'a' + (d - 10) as char
  }

  /** Either case, as `uuid.Parse` accepts. */
  function HexValue(c: char): Option<nat> {
    if '0' <= c <= '9' then Some((c - '0') as nat)
    else if 'a' <= c <= 'f' then Some((c - 'a') as nat + 10)
    else if 'A' <= c <= 'F' then Some((c - 'A') as nat + 10)
    else None
  }

  function Hex(n: nat, k: nat): (s: string)
    ensures |s| == k
    ensures forall c :: c in s ==> '0' <= c <= '9' || 'a' <= c <= 'f'
  {
    if k == 0 then "" else Hex(n / 16, k - 1) + [HexDigit(n % 16)]
  }

  function ParseHex(s: string): (r: Option<nat>)
    ensures r.Some? ==> r.value < Pow16(|s|)
  {
    if s == "" then Some(0)
    else
      var (high, low) := (ParseHex(s[..|s| - 1]), HexValue(s[|s| - 1]));
      if high.None? || low.None? then None else Some(high.value * 16 + low.value)
  }

  lemma {:induction false} ParseInvertsHex(n: nat, k: nat)
    requires n < Pow16(k)
    ensures ParseHex(Hex(n, k)) == Some(n)
  {
    if k > 0 {
      ParseInvertsHex(n / 16, k - 1);
      var s := Hex(n, k);
      assert s[..|s| - 1] == Hex(n / 16, k - 1) && s[|s| - 1] == HexDigit(n % 16);
      assert HexValue(HexDigit(n % 16)) == Some(n % 16);
    }
  }

  lemma {:induction false} HexInvertsParse(s: string)
    requires ParseHex(s).Some?
    ensures Hex(ParseHex(s).value, |s|) == Lower(s)
  {
    if s != "" {
      var front, c := s[..|s| - 1], s[|s| - 1];
      HexInvertsParse(front);
      var high, low := ParseHex(front).value, HexValue(c).value;
      assert (high * 16 + low) / 16 == high && (high * 16 + low) % 16 == low;
      assert HexDigit(low) == LowerChar(c);
      assert Lower(s) == Lower(front) + [LowerChar(c)];
    }
  }

  lemma Pow16OfDigits()
    ensures Pow16(DIGITS) == 0x1_0000_0000_0000_0000_0000_0000_0000_0000
  {
    assert Pow16(8) == 0x1_0000_0000;
    assert Pow16(16) == 0x1_0000_0000_0000_0000;
    assert Pow16(24) == 0x1_0000_0000_0000_0000_0000_0000;
  }

  /** `routeLabel`. */
  function Print(id: Uuid): string {
    Hex(id, DIGITS)
  }

  /** `parseLabel`: exactly 32 hexadecimal digits. */
  function Parse(name: string): Option<Uuid> {
    Pow16OfDigits();
    if |name| != DIGITS then None else ParseHex(name)
  }

  /** The two functions are inverse to each other, up to the case of the digits. */
  lemma RoundTrip(id: Uuid, name: string)
    ensures Parse(Print(id)) == Some(id)
    ensures Parse(name).Some? ==> Print(Parse(name).value) == Lower(name)
  {
    Pow16OfDigits();
    ParseInvertsHex(id, DIGITS);
    if Parse(name).Some? {
      HexInvertsParse(name);
    }
  }

  /** Different ids get different subdomains. */
  lemma PrintInjective(a: Uuid, b: Uuid)
    requires Print(a) == Print(b)
    ensures a == b
  {
    RoundTrip(a, "");
    RoundTrip(b, "");
  }
}
