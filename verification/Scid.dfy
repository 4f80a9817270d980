/** Short channel ids: three numbers packed into 64 bits, as laid out in section
    "Definition of `short_channel_id`" of BOLT #7, and their text `BLOCKxTXxVOUT`. */
module Scid {
  import opened Wrappers
  import opened Words

  // ---------- decimal numbers ----------

  function DigitChar(n: nat): char
    requires n < 10
  {
    ('0' as nat + n) as char
  }

  function Decimal(n: nat): (s: string)
    ensures s != "" && forall i :: 0 <= i < |s| ==> '0' <= s[i] <= '9'
  {
    if n < 10 then [DigitChar(n)] else Decimal(n / 10) + [DigitChar(n % 10)]
  }

  function PushDigit(acc: Option<u64>, c: char): Option<u64> {
    if acc.Some? && '0' <= c <= '9' then
      var n := 10 * acc.value + (c as nat - '0' as nat);
      if n <= U64_MAX then Some(n) else None
    else None
  }

  function ParseDigits(s: string): Option<u64> {
    if s == "" then Some(0) else PushDigit(ParseDigits(s[..|s| - 1]), s[|s| - 1])
  }

  /** `str::parse::<u64>`: one leading plus sign is accepted, overflow is an error. */
  function ParseU64(s: string): Option<u64> {
    var digits := if s != "" && s[0] == '+' then s[1..] else s;
    if digits == "" then None else ParseDigits(digits)
  }

  lemma {:induction false} ParseOfDecimal(n: nat)
    ensures ParseDigits(Decimal(n)) == if n <= U64_MAX then Some(n) else None
  {
    var s := Decimal(n);
    if n < 10 {
      assert s[..0] == "";
      assert ParseDigits(s[..0]) == Some(0);
    } else {
      ParseOfDecimal(n / 10);
      assert s[..|s| - 1] == Decimal(n / 10);
      assert n == 10 * (n / 10) + n % 10;
    }
  }

  predicate AllDigits(s: string) {
    forall i :: 0 <= i < |s| ==> '0' <= s[i] <= '9'
  }

  /** The number a string of digits stands for. */
  function Value(s: string): nat
    requires AllDigits(s)
  {
    if s == "" then 0 else 10 * Value(s[..|s| - 1]) + (s[|s| - 1] as nat - '0' as nat)
  }

  /** Without leading zeros. */
  predicate Canonical(s: string) {
    AllDigits(s) && s != "" && (s[0] == '0' ==> |s| == 1)
  }

  /** `s` is a numeral of `n`, with or without one plus sign before it. */
  predicate Denotes(s: string, n: nat) {
    && s != ""
    && if s[0] == '+' then s[1..] != "" && AllDigits(s[1..]) && Value(s[1..]) == n
       else AllDigits(s) && Value(s) == n
  }

  /** Digits are read as the number they stand for, up to 64 bits; anything else is refused. */
  lemma {:induction false} ParseDigitsMeans(s: string)
    ensures ParseDigits(s) == if AllDigits(s) && Value(s) <= U64_MAX then Some(Value(s)) else None
    decreases |s|
  {
    if s == "" {
    } else {
      ParseDigitsMeans(s[..|s| - 1]);
    }
  }

  /** A number is read exactly from its numerals. */
  lemma ParseU64Iff(s: string, n: u64)
    ensures ParseU64(s) == Some(n) <==> Denotes(s, n)
  {
    ParseDigitsMeans(if s != "" && s[0] == '+' then s[1..] else s);
  }

  /** Printing gives the one numeral without leading zeros. */
  lemma {:induction false} DecimalCanonical(n: nat)
    ensures Canonical(Decimal(n)) && Value(Decimal(n)) == n
    ensures n > 0 ==> Decimal(n)[0] != '0'
  {
    var s := Decimal(n);
    if n < 10 {
      assert s[..0] == "";
      assert Value(s[..0]) == 0;
    } else {
      DecimalCanonical(n / 10);
      assert s[..|s| - 1] == Decimal(n / 10);
    }
  }

  // ---------- splitting ----------

  function Split(s: string, sep: char): (parts: seq<string>)
    ensures parts != []
  {
    if s == "" then [""]
    else
      var rest := Split(s[1..], sep);
      if s[0] == sep then [""] + rest
      else [[s[0]] + rest[0]] + rest[1..]
  }

  lemma {:induction false} SplitHead(a: string, b: string, sep: char)
    requires sep !in a
    ensures Split(a + [sep] + b, sep) == [a] + Split(b, sep)
    decreases |a|
  {
    var s := a + [sep] + b;
    if a == "" {
      assert s[1..] == b;
    } else {
      SplitHead(a[1..], b, sep);
      assert s[1..] == a[1..] + [sep] + b;
      assert s[0] == a[0] != sep;
      var rest := Split(s[1..], sep);
      assert rest[0] == a[1..] && rest[1..] == Split(b, sep);
      assert [a[0]] + a[1..] == a;
    }
  }

  lemma {:induction false} SplitNone(a: string, sep: char)
    requires sep !in a
    ensures Split(a, sep) == [a]
    decreases |a|
  {
    if a == "" {
    } else {
      SplitNone(a[1..], sep);
      assert [a[0]] + a[1..] == a;
    }
  }

  function Join(parts: seq<string>, sep: char): string
    requires parts != []
  {
    if |parts| == 1 then parts[0] else parts[0] + [sep] + Join(parts[1..], sep)
  }

  /** Nothing is lost in splitting. */
  lemma {:induction false} JoinOfSplit(s: string, sep: char)
    ensures Join(Split(s, sep), sep) == s
    decreases |s|
  {
    if s == "" {
    } else {
      JoinOfSplit(s[1..], sep);
      var rest, parts := Split(s[1..], sep), Split(s, sep);
      assert s == [s[0]] + s[1..];
      if s[0] == sep {
        assert parts[1..] == rest;
      } else {
        assert parts[1..] == rest[1..];
      }
    }
  }

  lemma JoinThree(a: string, b: string, c: string)
    ensures Join([a, b, c], 'x') == a + "x" + b + "x" + c
  {
    assert [a, b, c][1..] == [b, c] && [b, c][1..] == [c];
    assert Join([b, c], 'x') == b + ['x'] + Join([c], 'x');
  }

  // ---------- bits ----------

  function Pow2(k: nat): nat {
    if k == 0 then 1 else 2 * Pow2(k - 1)
  }

  lemma Pow2Byte(k: nat)
    ensures Pow2(k + 8) == 256 * Pow2(k)
  {
    assert Pow2(k + 2) == 2 * Pow2(k + 1) == 4 * Pow2(k);
    assert Pow2(k + 4) == 2 * Pow2(k + 3) == 4 * Pow2(k + 2);
    assert Pow2(k + 6) == 2 * Pow2(k + 5) == 4 * Pow2(k + 4);
    assert Pow2(k + 8) == 2 * Pow2(k + 7) == 4 * Pow2(k + 6);
  }

  lemma Pow2Values()
    ensures Pow2(16) == 0x1_0000 && Pow2(40) == 0x100_0000_0000 && Pow2(64) == 0x1_0000_0000_0000_0000
  {
    Pow2Byte(0);
    Pow2Byte(8);
    Pow2Byte(16);
    Pow2Byte(24);
    Pow2Byte(32);
    Pow2Byte(40);
    Pow2Byte(48);
    Pow2Byte(56);
  }

  /** Bitwise or. */
  function BitOr(a: nat, b: nat): nat
    decreases a + b
  {
    if a == 0 && b == 0 then 0
    else 2 * BitOr(a / 2, b / 2) + (if a % 2 == 1 || b % 2 == 1 then 1 else 0)
  }

  /** The `k`-th binary digit. */
  predicate Bit(n: nat, k: nat) {
    if k == 0 then n % 2 == 1 else Bit(n / 2, k - 1)
  }

  lemma {:induction false} OrBits(a: nat, b: nat, k: nat)
    ensures Bit(BitOr(a, b), k) <==> Bit(a, k) || Bit(b, k)
    decreases k
  {
    if k == 0 {
    } else {
      OrBits(a / 2, b / 2, k - 1);
    }
  }

  lemma {:induction false} ShiftBits(n: nat, j: nat, k: nat)
    ensures Bit(n * Pow2(j), k) <==> j <= k && Bit(n, k - j)
    decreases j
  {
    if j == 0 {
      assert n * Pow2(0) == n;
    } else {
      ShiftStep(n, j);
      if k > 0 {
        ShiftBits(n, j - 1, k - 1);
      }
    }
  }

  lemma HalfModulo(n: nat, p: nat)
    requires p > 0
    ensures n % (2 * p) % 2 == n % 2 && n % (2 * p) / 2 == n / 2 % p
  {
    var h := n / 2;
    var m, q := h % p, h / p;
    assert n == 2 * p * q + (2 * m + n % 2) && 0 <= 2 * m + n % 2 < 2 * p;
    ModuloIs(n, 2 * p, q, 2 * m + n % 2);
  }

  lemma AtLeastOnce(d: nat, m: nat)
    requires m > 0
    ensures d * m >= d
  {
    assert d * m == d + d * (m - 1);
  }

  lemma ModuloIs(n: nat, d: nat, q: nat, r: nat)
    requires n == d * q + r && r < d
    ensures n % d == r
  {
    var e := n / d;
    assert n == d * e + n % d;
    if e > q {
      AtLeastOnce(d, e - q);
    } else if e < q {
      AtLeastOnce(d, q - e);
    }
  }

  lemma {:induction false} LowBits(n: nat, w: nat, k: nat)
    ensures Pow2(w) > 0 && (Bit(n % Pow2(w), k) <==> k < w && Bit(n, k))
    decreases w
  {
    Pow2Positive(w);
    if w == 0 {
      NoBits(k);
    } else {
      HalfModulo(n, Pow2(w - 1));
      if k > 0 {
        LowBits(n / 2, w - 1, k - 1);
      }
    }
  }

  lemma {:induction false} NoBits(k: nat)
    ensures !Bit(0, k)
  {
    if k == 0 {
    } else {
      NoBits(k - 1);
    }
  }

  lemma {:induction false} Pow2Positive(k: nat)
    ensures Pow2(k) > 0
  {
    if k == 0 {
    } else {
      Pow2Positive(k - 1);
    }
  }

  lemma {:induction false} OrBound(a: nat, b: nat, k: nat)
    requires a < Pow2(k) && b < Pow2(k)
    ensures BitOr(a, b) < Pow2(k)
  {
    if k == 0 {
    } else {
      OrBound(a / 2, b / 2, k - 1);
    }
  }

  lemma OrStep(h: nat, v: nat)
    ensures BitOr(2 * h, v) == 2 * BitOr(h, v / 2) + v % 2
  {
    assert 2 * h / 2 == h && 2 * h % 2 == 0;
  }

  lemma ShiftStep(a: nat, k: nat)
    requires k > 0
    ensures a * Pow2(k) == 2 * (a * Pow2(k - 1))
  {
    assert Pow2(k) == 2 * Pow2(k - 1);
  }

  lemma {:induction false} OrZero(a: nat)
    ensures BitOr(a, 0) == a
    decreases a
  {
    if a == 0 {
    } else {
      OrZero(a / 2);
    }
  }

  /** On disjoint bits, or is addition. */
  lemma {:induction false} OrDisjoint(a: nat, v: nat, k: nat)
    requires v < Pow2(k)
    ensures BitOr(a * Pow2(k), v) == a * Pow2(k) + v
    decreases k
  {
    if k == 0 {
      OrZero(a);
      assert a * Pow2(0) == a;
    } else {
      var h := a * Pow2(k - 1);
      ShiftStep(a, k);
      OrStep(h, v);
      OrDisjoint(a, v / 2, k - 1);
    }
  }

  lemma OrAbove16(a: nat, v: nat)
    requires v < 0x1_0000
    ensures BitOr(a * 0x1_0000, v) == a * 0x1_0000 + v
  {
    Pow2Values();
    OrDisjoint(a, v, 16);
  }

  lemma OrAbove40(a: nat, v: nat)
    requires v < 0x100_0000_0000
    ensures BitOr(a * 0x100_0000_0000, v) == a * 0x100_0000_0000 + v
  {
    Pow2Values();
    OrDisjoint(a, v, 40);
  }

  // ---------- the packed id ----------

  function Block(scid: u64): nat { scid / 0x100_0000_0000 }

  function Tx(scid: u64): nat { scid / 0x1_0000 % 0x100_0000 }

  function Vout(scid: u64): nat { scid % 0x1_0000 }

  /** `(block << 40) | (tx << 16) | vout`: bits shifted beyond the 64th are lost
      and overlapping fields are or-ed. */
  function Pack(block: u64, tx: u64, vout: u64): nat {
    BitOr(BitOr(Wrap64(block * 0x100_0000_0000), Wrap64(tx * 0x1_0000)), vout)
  }

  lemma FieldBits(n: nat, shift: nat, k: nat)
    ensures Pow2(64) == 0x1_0000_0000_0000_0000
    ensures Bit(Wrap64(n * Pow2(shift)), k) <==> shift <= k < 64 && Bit(n, k - shift)
  {
    Pow2Values();
    LowBits(n * Pow2(shift), 64, k);
    ShiftBits(n, shift, k);
  }

  /** Each bit of a packed id is that of the output, of the transaction 16 places up,
      or of the block 40 places up, as far as there are 64. */
  lemma PackBits(block: u64, tx: u64, vout: u64, k: nat)
    requires k < 64
    ensures Bit(Pack(block, tx, vout), k) <==>
            Bit(vout, k) || (16 <= k && Bit(tx, k - 16)) || (40 <= k && Bit(block, k - 40))
  {
    Pow2Values();
    FieldBits(block, 40, k);
    FieldBits(tx, 16, k);
    OrBits(Wrap64(block * 0x100_0000_0000), Wrap64(tx * 0x1_0000), k);
    OrBits(BitOr(Wrap64(block * 0x100_0000_0000), Wrap64(tx * 0x1_0000)), vout, k);
  }

  lemma PackFits(block: u64, tx: u64, vout: u64)
    ensures Pack(block, tx, vout) <= U64_MAX
  {
    Pow2Values();
    var high := BitOr(Wrap64(block * 0x100_0000_0000), Wrap64(tx * 0x1_0000));
    OrBound(Wrap64(block * 0x100_0000_0000), Wrap64(tx * 0x1_0000), 64);
    OrBound(high, vout, 64);
  }

  lemma PackInRange(block: nat, tx: nat, vout: nat)
    requires block < 0x100_0000 && tx < 0x100_0000 && vout < 0x1_0000
    ensures Pack(block, tx, vout) == block * 0x100_0000_0000 + tx * 0x1_0000 + vout
  {
    var high, mid := block * 0x100_0000_0000, tx * 0x1_0000;
    assert Wrap64(high) == high && Wrap64(mid) == mid;
    OrAbove40(block, mid);
    var a := block * 0x100_0000 + tx;
    assert high + mid == a * 0x1_0000;
    OrAbove16(a, vout);
    assert BitOr(high, mid) == a * 0x1_0000;
  }

  lemma PartsOfId(scid: u64)
    ensures Block(scid) < 0x100_0000 && Tx(scid) < 0x100_0000 && Vout(scid) < 0x1_0000
    ensures Block(scid) * 0x100_0000_0000 + Tx(scid) * 0x1_0000 + Vout(scid) == scid
  {
    var high := scid / 0x1_0000;
    assert high / 0x100_0000 == Block(scid);
  }

  lemma IdOfParts(block: nat, tx: nat, vout: nat)
    requires block < 0x100_0000 && tx < 0x100_0000 && vout < 0x1_0000
    ensures var scid := block * 0x100_0000_0000 + tx * 0x1_0000 + vout;
            scid <= U64_MAX && Block(scid) == block && Tx(scid) == tx && Vout(scid) == vout
  {
    var scid := block * 0x100_0000_0000 + tx * 0x1_0000 + vout;
    assert scid / 0x1_0000 == block * 0x100_0000 + tx;
  }

  function Text(block: nat, tx: nat, vout: nat): string {
    Decimal(block) + "x" + Decimal(tx) + "x" + Decimal(vout)
  }

  function FormatScid(scid: u64): string {
    Text(Block(scid), Tx(scid), Vout(scid))
  }

  /** The three numbers of a text, each parsed on its own. */
  function Fields(s: string): Option<(u64, u64, u64)> {
    var parts := Split(s, 'x');
    if |parts| != 3 then None
    else match (ParseU64(parts[0]), ParseU64(parts[1]), ParseU64(parts[2]))
      case (Some(b), Some(t), Some(v)) => Some((b, t, v))
      case _ => None
  }

  function ParseScid(s: string): Option<u64> {
    match Fields(s)
    case None => None
    case Some((b, t, v)) => PackFits(b, t, v); Some(Pack(b, t, v))
  }

  lemma SplitInThree(a: string, b: string, c: string)
    requires 'x' !in a && 'x' !in b && 'x' !in c
    ensures Split(a + "x" + b + "x" + c, 'x') == [a, b, c]
  {
    assert a + "x" + b + "x" + c == a + ['x'] + (b + ['x'] + c);
    SplitHead(a, b + ['x'] + c, 'x');
    SplitHead(b, c, 'x');
    SplitNone(c, 'x');
  }

  lemma FieldsOfText(block: u64, tx: u64, vout: u64)
    ensures Fields(Text(block, tx, vout)) == Some((block, tx, vout))
  {
    var b, t, v := Decimal(block), Decimal(tx), Decimal(vout);
    SplitInThree(b, t, v);
    ParseOfDecimal(block);
    ParseOfDecimal(tx);
    ParseOfDecimal(vout);
  }

  lemma NoSeparator(s: string, n: nat)
    requires Denotes(s, n)
    ensures 'x' !in s
  {
    assert s == [s[0]] + s[1..];
  }

  ghost predicate ReadAs(s: string, block: nat, tx: nat, vout: nat) {
    exists a, b, c :: s == a + "x" + b + "x" + c && Denotes(a, block) && Denotes(b, tx) && Denotes(c, vout)
  }

  /** Exactly the accepted texts, and what is read from them: three numerals of 64-bit
      numbers with an `x` between them. */
  lemma FieldsIff(s: string, block: u64, tx: u64, vout: u64)
    ensures Fields(s) == Some((block, tx, vout)) <==> ReadAs(s, block, tx, vout)
  {
    if Fields(s) == Some((block, tx, vout)) {
      var parts := Split(s, 'x');
      JoinOfSplit(s, 'x');
      assert parts == [parts[0], parts[1], parts[2]];
      JoinThree(parts[0], parts[1], parts[2]);
      ParseU64Iff(parts[0], block);
      ParseU64Iff(parts[1], tx);
      ParseU64Iff(parts[2], vout);
      assert s == parts[0] + "x" + parts[1] + "x" + parts[2];
    }
    if a, b, c :| s == a + "x" + b + "x" + c && Denotes(a, block) && Denotes(b, tx) && Denotes(c, vout) {
      NoSeparator(a, block);
      NoSeparator(b, tx);
      NoSeparator(c, vout);
      SplitInThree(a, b, c);
      ParseU64Iff(a, block);
      ParseU64Iff(b, tx);
      ParseU64Iff(c, vout);
    }
  }

  /** A text is accepted exactly if it can be read, and gives the id whose bits are
      those of the three numbers. */
  lemma ParseScidIff(s: string)
    ensures ParseScid(s).Some? <==> exists block: u64, tx: u64, vout: u64 :: ReadAs(s, block, tx, vout)
    ensures forall block: u64, tx: u64, vout: u64 :: ReadAs(s, block, tx, vout) ==>
              ParseScid(s) == Some(Pack(block, tx, vout))
  {
    forall block: u64, tx: u64, vout: u64
      ensures Fields(s) == Some((block, tx, vout)) <==> ReadAs(s, block, tx, vout)
    {
      FieldsIff(s, block, tx, vout);
    }
    if Fields(s).Some? {
      var (block, tx, vout) := Fields(s).value;
      assert ReadAs(s, block, tx, vout);
    }
  }

  /** The text of an id is that of its three numbers, without leading zeros. */
  lemma FormatMeans(scid: u64) returns (a: string, b: string, c: string)
    ensures FormatScid(scid) == a + "x" + b + "x" + c
    ensures Canonical(a) && Canonical(b) && Canonical(c)
    ensures Value(b) < 0x100_0000 && Value(c) < 0x1_0000
    ensures Value(a) * 0x100_0000_0000 + Value(b) * 0x1_0000 + Value(c) == scid
  {
    PartsOfId(scid);
    DecimalCanonical(Block(scid));
    DecimalCanonical(Tx(scid));
    DecimalCanonical(Vout(scid));
    a, b, c := Decimal(Block(scid)), Decimal(Tx(scid)), Decimal(Vout(scid));
  }

  /** Parsing undoes formatting, for every 64-bit id. */
  lemma ParseOfFormat(scid: u64)
    ensures ParseScid(FormatScid(scid)) == Some(scid)
  {
    PartsOfId(scid);
    FieldsOfText(Block(scid), Tx(scid), Vout(scid));
    PackInRange(Block(scid), Tx(scid), Vout(scid));
  }

  lemma TextInjective(b: u64, t: u64, v: u64, b': u64, t': u64, v': u64)
    requires Text(b, t, v) == Text(b', t', v')
    ensures b == b' && t == t' && v == v'
  {
    FieldsOfText(b, t, v);
    FieldsOfText(b', t', v');
  }

  /** Formatting undoes parsing exactly on the field ranges of the layout; the
      parser itself accepts any three 64-bit numbers. */
  lemma FormatOfParseIff(s: string)
    requires Fields(s).Some?
    ensures var (b, t, v) := Fields(s).value;
            FormatScid(ParseScid(s).value) == Text(b, t, v) <==>
            b < 0x100_0000 && t < 0x100_0000 && v < 0x1_0000
  {
    var (b, t, v) := Fields(s).value;
    var scid := ParseScid(s).value;
    if b < 0x100_0000 && t < 0x100_0000 && v < 0x1_0000 {
      assert scid == Pack(b, t, v);
      FormatInRange(scid, b, t, v);
    } else {
      FormatOutOfRange(scid, b, t, v);
    }
  }

  lemma FormatInRange(scid: u64, b: u64, t: u64, v: u64)
    requires b < 0x100_0000 && t < 0x100_0000 && v < 0x1_0000 && scid == Pack(b, t, v)
    ensures FormatScid(scid) == Text(b, t, v)
  {
    PackInRange(b, t, v);
    IdOfParts(b, t, v);
  }

  lemma FormatOutOfRange(scid: u64, b: u64, t: u64, v: u64)
    requires !(b < 0x100_0000 && t < 0x100_0000 && v < 0x1_0000)
    ensures FormatScid(scid) != Text(b, t, v)
  {
    PartsOfId(scid);
    if FormatScid(scid) == Text(b, t, v) {
      TextInjective(Block(scid), Tx(scid), Vout(scid), b, t, v);
    }
  }
}
