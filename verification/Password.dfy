/** Password hashes as text: printing one, and checking a password against one. */
module Password {
  import opened Wrappers
  import opened Frames
  import opened Text

  // ----- unpadded base64 --------------------------------------------------------------------

  /** The standard alphabet. */
  function Digit(n: nat): char
    requires n < 64
  {
    if n < 26 then 'A' + n as char
    else if n < 52 then 'a' + (n - 26) as char
    else if n < 62 then '0' + (n - 52) as char
    else if n == 62 then '+' else '/'
  }

  function Value(c: char): Option<nat> {
    if 'A' <= c <= 'Z' then Some((c - 'A') as nat)
    else if 'a' <= c <= 'z' then Some((c - 'a') as nat + 26)
    else if '0' <= c <= '9' then Some((c - '0') as nat + 52)
    else if c == '+' then Some(62)
    else if c == '/' then Some(63) else None
  }

  lemma DigitReadsBack(n: nat)
    requires n < 64
    ensures Value(Digit(n)) == Some(n) && Digit(n) != '$' && Digit(n) != '\n' && Digit(n) != '\r'
  {
  }

  predicate IsDigit(c: char) {
    Value(c).Some? && c != '$' && c != '\n' && c != '\r'
  }

  function Group(a: nat, b: nat, c: nat): (s: string)
    requires a < 256 && b < 256 && c < 256
    ensures |s| == 4
  {
    [Digit(a / 4), Digit(a % 4 * 16 + b / 16), Digit(b % 16 * 4 + c / 64), Digit(c % 64)]
  }

  /** `RawStdEncoding.EncodeToString`. */
  function Encode(data: seq<byte>): string {
    if |data| == 0 then ""
    else if |data| == 1 then Group(data[0], 0, 0)[..2]
    else if |data| == 2 then Group(data[0], data[1], 0)[..3]
    else Group(data[0], data[1], data[2]) + Encode(data[3..])
  }

  /** The bytes of up to four digits; the spare low bits of a short group are dropped. */
  function Bytes(a: nat, b: nat, c: nat, d: nat): (r: seq<byte>)
    requires a < 64 && b < 64 && c < 64 && d < 64
    ensures |r| == 3
  {
    [a * 4 + b / 16, b % 16 * 16 + c / 4, c % 4 * 64 + d]
  }

  predicate InRange(v: Option<nat>) {
    v.Some? && v.value < 64
  }

  function DecodeDigits(s: string): Option<seq<byte>> {
    if |s| == 0 then Some([])
    else if |s| == 1 || !InRange(Value(s[0])) || !InRange(Value(s[1])) then None
    else if |s| == 2 then Some(Bytes(Value(s[0]).value, Value(s[1]).value, 0, 0)[..1])
    else if !InRange(Value(s[2])) then None
    else if |s| == 3 then Some(Bytes(Value(s[0]).value, Value(s[1]).value, Value(s[2]).value, 0)[..2])
    else if !InRange(Value(s[3])) then None
    else
      match DecodeDigits(s[4..])
      case None => None
      case Some(rest) => Some(Bytes(Value(s[0]).value, Value(s[1]).value, Value(s[2]).value, Value(s[3]).value) + rest)
  }

  /** Line breaks anywhere are skipped. */
  function WithoutBreaks(s: string): string {
    if s == "" then ""
    else (if s[0] == '\n' || s[0] == '\r' then "" else [s[0]]) + WithoutBreaks(s[1..])
  }

  /** `RawStdEncoding.DecodeString`. */
  function Decode(s: string): Option<seq<byte>> {
    DecodeDigits(WithoutBreaks(s))
  }

  lemma GroupReadsBack(a: nat, b: nat, c: nat)
    requires a < 256 && b < 256 && c < 256
    ensures var g := Group(a, b, c);
            && (forall k :: 0 <= k < 4 ==> IsDigit(g[k]) && InRange(Value(g[k])))
            && Bytes(Value(g[0]).value, Value(g[1]).value, Value(g[2]).value, Value(g[3]).value) == [a, b, c]
            && (c == 0 ==> Bytes(Value(g[0]).value, Value(g[1]).value, Value(g[2]).value, 0)[..2] == [a, b])
            && (b == 0 ==> Bytes(Value(g[0]).value, Value(g[1]).value, 0, 0)[..1] == [a])
  {
    hide Digit, Value, Bytes;
    DigitReadsBack(a / 4);
    DigitReadsBack(a % 4 * 16 + b / 16);
    DigitReadsBack(b % 16 * 4 + c / 64);
    DigitReadsBack(c % 64);
    BitsReadBack(a, b, c);
  }

  lemma BitsReadBack(a: nat, b: nat, c: nat)
    requires a < 256 && b < 256 && c < 256
    ensures Bytes(a / 4, a % 4 * 16 + b / 16, b % 16 * 4 + c / 64, c % 64) == [a, b, c]
    ensures c == 0 ==> Bytes(a / 4, a % 4 * 16 + b / 16, b % 16 * 4, 0)[..2] == [a, b]
    ensures b == 0 ==> Bytes(a / 4, a % 4 * 16, 0, 0)[..1] == [a]
  {
    assert (a % 4 * 16 + b / 16) / 16 == a % 4 && (a % 4 * 16 + b / 16) % 16 == b / 16;
    assert (b % 16 * 4 + c / 64) / 4 == b % 16 && (b % 16 * 4 + c / 64) % 4 == c / 64;
  }

  /** Base64 is read back: every byte string, whatever its length modulo three. */
  lemma {:induction false} DecodeInvertsEncode(data: seq<byte>)
    ensures DecodeDigits(Encode(data)) == Some(data)
    ensures forall k :: 0 <= k < |Encode(data)| ==> IsDigit(Encode(data)[k])
  {
    hide Value, Digit, Bytes, Group;
    if |data| == 1 {
      GroupReadsBack(data[0], 0, 0);
      assert data == [data[0]];
    } else if |data| == 2 {
      GroupReadsBack(data[0], data[1], 0);
      assert data == [data[0], data[1]];
    } else if |data| >= 3 {
      var g := Group(data[0], data[1], data[2]);
      GroupReadsBack(data[0], data[1], data[2]);
      DecodeInvertsEncode(data[3..]);
      assert (g + Encode(data[3..]))[4..] == Encode(data[3..]);
      assert data == [data[0], data[1], data[2]] + data[3..];
    }
  }

  lemma {:induction false} NoBreaks(s: string)
    requires '\n' !in s && '\r' !in s
    ensures WithoutBreaks(s) == s
  {
    if s != "" {
      NoBreaks(s[1..]);
      assert s == [s[0]] + s[1..];
    }
  }

  lemma Base64RoundTrip(data: seq<byte>)
    ensures Decode(Encode(data)) == Some(data) && '$' !in Encode(data)
  {
    hide Encode, DecodeDigits;
    DecodeInvertsEncode(data);
    NoBreaks(Encode(data));
  }

  // ----- the encoded hash -------------------------------------------------------------------

  /** `strconv.ParseUint(value, 10, 32)`. */
  function ParseUint32(value: string): (n: Option<nat>)
    ensures n.Some? ==> n.value < 0x1_0000_0000
  {
    if value != "" && AllDigits(value) && Atoi(value) < 0x1_0000_0000 then Some(Atoi(value)) else None
  }

  datatype Cost = Cost(memory: nat, iterations: nat, parallelism: nat)

  /** One `key=value` item; a later item overrides an earlier one. */
  function SetItem(cost: Cost, item: string): Option<Cost> {
    if '=' !in item then None
    else
      var (key, value) := Cut(item, '=');
      match ParseUint32(value)
      case None => None
      case Some(n) =>
        if key == "m" then Some(cost.(memory := n))
        else if key == "t" then Some(cost.(iterations := n))
        else if key == "p" then Some(cost.(parallelism := n))
        else None
  }

  function SetItems(cost: Cost, items: seq<string>): Option<Cost>
    decreases |items|
  {
    if items == [] then Some(cost)
    else
      match SetItem(cost, items[0])
      case None => None
      case Some(next) => SetItems(next, items[1..])
  }

  predicate CostAllowed(c: Cost) {
    0 < c.memory <= 256 * 1024 && 0 < c.iterations <= 10 && 0 < c.parallelism <= 16
  }

  datatype Encoded = Encoded(cost: Cost, salt: seq<byte>, key: seq<byte>)

  predicate Acceptable(e: Encoded) {
    CostAllowed(e.cost) && 8 <= |e.salt| <= 64 && 16 <= |e.key| <= 64
  }

  const ALGORITHM := "argon2id"
  const ALGORITHM_VERSION := "v=19"

  function Parse(encoded: string): Option<Encoded> {
    var parts := Split(encoded, '$');
    if |parts| != 6 || parts[1] != ALGORITHM || parts[2] != ALGORITHM_VERSION then None
    else
      match SetItems(Cost(0, 0, 0), Split(parts[3], ','))
      case None => None
      case Some(cost) =>
        match Decode(parts[4])
        case None => None
        case Some(salt) =>
          match Decode(parts[5])
          case None => None
          case Some(key) => if Acceptable(Encoded(cost, salt, key)) then Some(Encoded(cost, salt, key)) else None
  }

  function Item(key: string, n: nat): string {
    key + "=" + Itoa(n)
  }

  function CostText(c: Cost): string {
    Join([Item("m", c.memory), Item("t", c.iterations), Item("p", c.parallelism)], ',')
  }

  function Print(e: Encoded): string {
    Join(["", ALGORITHM, ALGORITHM_VERSION, CostText(e.cost), Encode(e.salt), Encode(e.key)], '$')
  }

  // ----- checking a password ----------------------------------------------------------------

  /** The arguments of `argon2.IDKey`, in the integer widths it takes. */
  datatype Input = Input(password: seq<byte>, salt: seq<byte>, iterations: nat, memory: nat, parallelism: nat, length: nat)

  function Uint8(n: nat): nat {
    n % 0x100
  }

  function Uint32(n: nat): nat {
    n % 0x1_0000_0000
  }

  function Narrowed(password: seq<byte>, salt: seq<byte>, cost: Cost, length: nat): Input {
    Input(password, salt, Uint32(cost.iterations), Uint32(cost.memory), Uint8(cost.parallelism), Uint32(length))
  }

  /** An arbitrary key function, given by its values on the inputs that occur. */
  predicate IsKeyFunction(idKey: map<Input, seq<byte>>) {
    forall i :: i in idKey ==> |idKey[i]| == i.length
  }

  const HASH_COST := Cost(64 * 1024, 3, 2)
  const KEY_LENGTH: nat := 32
  const MIN_PASSWORD: nat := 12

  function HashInput(password: seq<byte>, salt: seq<byte>): Input {
    Input(password, salt, HASH_COST.iterations, HASH_COST.memory, HASH_COST.parallelism, KEY_LENGTH)
  }

  function HashPassword(idKey: map<Input, seq<byte>>, password: seq<byte>, salt: seq<byte>): Option<string>
    requires HashInput(password, salt) in idKey
  {
    if |password| < MIN_PASSWORD then None
    else Some(Print(Encoded(HASH_COST, salt, idKey[HashInput(password, salt)])))
  }

  predicate Verifies(idKey: map<Input, seq<byte>>, password: seq<byte>, encoded: string) {
    match Parse(encoded)
    case None => false
    case Some(e) =>
      var i := Narrowed(password, e.salt, e.cost, |e.key|);
      i in idKey && idKey[i] == e.key
  }

  method VerifyPassword(idKey: map<Input, seq<byte>>, password: seq<byte>, encoded: string) returns (r: bool)
    ensures r <==> Verifies(idKey, password, encoded)
  {
    hide Split, SetItem, Decode, CostAllowed;
    var parts := Split(encoded, '$');
    if |parts| != 6 || parts[1] != ALGORITHM || parts[2] != ALGORITHM_VERSION {
      return false;
    }
    var memory, iterations, parallelism := 0, 0, 0;
    var items := Split(parts[3], ',');
    for k := 0 to |items|
      invariant SetItems(Cost(0, 0, 0), items) == SetItems(Cost(memory, iterations, parallelism), items[k..])
    {
      assert items[k..][1..] == items[k + 1..];
      if '=' !in items[k] {
        ItemMeans(Cost(memory, iterations, parallelism), items[k]);
        return false;
      }
      ItemMeans(Cost(memory, iterations, parallelism), items[k]);
      var (key, value) := Cut(items[k], '=');
      var n := ParseUint32(value);
      if n.None? {
        return false;
      }
      if key == "m" {
        memory := n.value;
      } else if key == "t" {
        iterations := n.value;
      } else if key == "p" {
        parallelism := n.value;
      } else {
        return false;
      }
    }
    var cost := Cost(memory, iterations, parallelism);
    if !CostAllowed(cost) {
      return false;
    }
    var salt := Decode(parts[4]);
    if salt.None? || |salt.value| < 8 || |salt.value| > 64 {
      return false;
    }
    var want := Decode(parts[5]);
    if want.None? || |want.value| < 16 || |want.value| > 64 {
      return false;
    }
    var input := Narrowed(password, salt.value, cost, |want.value|);
    return input in idKey && idKey[input] == want.value;
  }

  lemma ItemMeans(cost: Cost, item: string)
    ensures var (key, value) := Cut(item, '=');
            SetItem(cost, item)
            == if '=' !in item || ParseUint32(value).None? then None
               else if key == "m" then Some(cost.(memory := ParseUint32(value).value))
               else if key == "t" then Some(cost.(iterations := ParseUint32(value).value))
               else if key == "p" then Some(cost.(parallelism := ParseUint32(value).value))
               else None
  {
    hide ParseUint32, Cut;
  }

  // ----- printing then parsing --------------------------------------------------------------

  lemma ItemReadsBack(key: string, n: nat)
    requires '=' !in key
    ensures Cut(Item(key, n), '=') == (key, Itoa(n)) && ParseUint32(Itoa(n)) == if n < 0x1_0000_0000 then Some(n) else None
    ensures '=' in Item(key, n)
  {
    hide Itoa, Atoi, Cut;
    AtoiInvertsItoa(n);
    assert Item(key, n) == key + ['='] + Itoa(n);
    CutOf(key, '=', Itoa(n));
    assert (Item(key, n))[|key|] == '=';
  }

  lemma ItemSets(cost: Cost, key: string, n: nat)
    requires key == "m" || key == "t" || key == "p"
    ensures SetItem(cost, Item(key, n))
            == if n >= 0x1_0000_0000 then None
               else Some(if key == "m" then cost.(memory := n) else if key == "t" then cost.(iterations := n) else cost.(parallelism := n))
  {
    hide SetItem, Cut, ParseUint32, Itoa;
    ItemReadsBack(key, n);
    ItemMeans(cost, Item(key, n));
  }

  lemma SetItemsOf(cost: Cost, item: string, rest: seq<string>)
    ensures SetItems(cost, [item] + rest)
            == if SetItem(cost, item).None? then None else SetItems(SetItem(cost, item).value, rest)
    ensures SetItems(cost, []) == Some(cost)
  {
    hide SetItem;
    assert ([item] + rest)[1..] == rest;
  }

  /** A printed cost reads back if its numbers fit 32 bits. */
  lemma CostReadsBack(c: Cost)
    ensures SetItems(Cost(0, 0, 0), Split(CostText(c), ','))
            == if c.memory < 0x1_0000_0000 && c.iterations < 0x1_0000_0000 && c.parallelism < 0x1_0000_0000 then Some(c) else None
    ensures '$' !in CostText(c)
  {
    hide Item, Split, SetItem, SetItems, CostText;
    CostSplits(c);
    var m, t, p := Item("m", c.memory), Item("t", c.iterations), Item("p", c.parallelism);
    var c0 := Cost(0, 0, 0);
    var c1 := c0.(memory := c.memory);
    var c2 := c1.(iterations := c.iterations);
    ItemSets(c0, "m", c.memory);
    ItemSets(c1, "t", c.iterations);
    ItemSets(c2, "p", c.parallelism);
    SetItemsOf(c0, m, [t] + [p]);
    SetItemsOf(c1, t, [p]);
    SetItemsOf(c2, p, []);
    SetItemsOf(c, p, []);
    assert [m, t, p] == [m] + ([t] + [p]) && [p] + [] == [p];
  }

  lemma CostSplits(c: Cost)
    ensures Split(CostText(c), ',')
            == [Item("m", c.memory), Item("t", c.iterations), Item("p", c.parallelism)]
    ensures '$' !in CostText(c)
  {
    ItemIsPlain("m", c.memory);
    ItemIsPlain("t", c.iterations);
    ItemIsPlain("p", c.parallelism);
    hide Item, Split, Join;
    var items := [Item("m", c.memory), Item("t", c.iterations), Item("p", c.parallelism)];
    SplitInvertsJoin(items, ',');
    JoinIsFreeOf(items, ',', '$');
  }

  lemma ItemIsPlain(key: string, n: nat)
    requires ',' !in key && '$' !in key
    ensures ',' !in Item(key, n) && '$' !in Item(key, n)
  {
    hide Itoa;
    var digits := Itoa(n);
    assert ',' !in digits && '$' !in digits;
  }

  /** The limits of an acceptable hash. */
  predicate WithinLimits(e: Encoded) {
    && 1 <= e.cost.memory <= 262_144 && 1 <= e.cost.iterations <= 10 && 1 <= e.cost.parallelism <= 16
    && 8 <= |e.salt| <= 64 && 16 <= |e.key| <= 64
  }

  /** Whatever the cost, salt and key, the printed hash is read back as them if they are within the limits, and rejected
      if not. */
  lemma ParseInvertsPrint(e: Encoded)
    ensures Parse(Print(e)) == if WithinLimits(e) then Some(e) else None
  {
    hide Encode, Decode, Split, Join, SetItems, CostText;
    CostReadsBack(e.cost);
    Base64RoundTrip(e.salt);
    Base64RoundTrip(e.key);
    var parts := ["", ALGORITHM, ALGORITHM_VERSION, CostText(e.cost), Encode(e.salt), Encode(e.key)];
    assert '$' !in ALGORITHM && '$' !in ALGORITHM_VERSION;
    SplitInvertsJoin(parts, '$');
  }

  /** No accepted parameter changes when it is narrowed to the width the key function takes. */
  lemma NarrowingLosesNothing(encoded: string, password: seq<byte>)
    requires Parse(encoded).Some?
    ensures var e := Parse(encoded).value;
            Narrowed(password, e.salt, e.cost, |e.key|)
            == Input(password, e.salt, e.cost.iterations, e.cost.memory, e.cost.parallelism, |e.key|)
  {
    hide Split, SetItems, Decode;
  }

  /** A printed hash accepts a password exactly when the key function gives it the key of the hashed password, so it
      always accepts that password itself. */
  lemma HashVerifies(idKey: map<Input, seq<byte>>, password: seq<byte>, salt: seq<byte>, other: seq<byte>)
    requires IsKeyFunction(idKey) && |password| >= MIN_PASSWORD && |salt| == 16
    requires HashInput(password, salt) in idKey && HashInput(other, salt) in idKey
    ensures HashPassword(idKey, password, salt).Some?
    ensures Verifies(idKey, other, HashPassword(idKey, password, salt).value)
            <==> idKey[HashInput(other, salt)] == idKey[HashInput(password, salt)]
    ensures Verifies(idKey, password, HashPassword(idKey, password, salt).value)
  {
    hide Print, Parse;
    var e := Encoded(HASH_COST, salt, idKey[HashInput(password, salt)]);
    ParseInvertsPrint(e);
  }

  /** A password passes against a printed hash if and only if the hash is within the limits and the key function, at its
      cost, salt and key length, gives its key. */
  lemma VerifiesExactly(idKey: map<Input, seq<byte>>, password: seq<byte>, e: Encoded)
    ensures Verifies(idKey, password, Print(e))
            <==> WithinLimits(e)
                 && var i := Input(password, e.salt, e.cost.iterations, e.cost.memory, e.cost.parallelism, |e.key|);
                    i in idKey && idKey[i] == e.key
  {
    hide Print, Parse;
    ParseInvertsPrint(e);
    if WithinLimits(e) {
      NarrowingLosesNothing(Print(e), password);
    }
  }
}
