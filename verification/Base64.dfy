/** Base64 as section 4 of RFC 4648 has it, and the two loops that compute it with a bit accumulator. */
module Base64 {
  import Masks

  const WORD: nat := 0x1_0000_0000

  /** Text whose characters are bytes. */
  predicate Bytes(s: string) { forall i :: 0 <= i < |s| ==> s[i] as int < 256 }

  // ---- The alphabet -----------------------------------------------------------------------

  function CharOf(v: nat): (c: char)
    requires v < 64
    ensures c != '=' && c != '.' && c != '|' && c as int < 128
  {
    if v < 26 then 'A' + v as char
    else if v < 52 then 'a' + (v - 26) as char
    else if v < 62 then '0' + (v - 52) as char
    else if v == 62 then '+'
    else '/'
  }

  /** The place of a character in the alphabet, or -1. The terminator is found behind the last letter. */
  function ValueOf(c: char): (v: int)
    ensures -1 <= v <= 64
  {
    if 'A' <= c <= 'Z' then (c - 'A') as int
    else if 'a' <= c <= 'z' then (c - 'a') as int + 26
    else if '0' <= c <= '9' then (c - '0') as int + 52
    else if c == '+' then 62
    else if c == '/' then 63
    else if c == 0 as char then 64
    else -1
  }

  lemma ValueBack(v: nat)
    requires v < 64
    ensures ValueOf(CharOf(v)) == v
  {
  }

  const UPPER: string := "ABCDEFGHIJKLMNOPQRSTUVWXYZ"
  const LOWER: string := "abcdefghijklmnopqrstuvwxyz"
  const DIGITS: string := "0123456789"

  lemma UpperTells(v: nat)
    requires v < 26
    ensures |UPPER| == 26 && CharOf(v) == UPPER[v]
  {
  }

  lemma LowerTells(v: nat)
    requires 26 <= v < 52
    ensures |LOWER| == 26 && CharOf(v) == LOWER[v - 26]
  {
  }

  lemma DigitsTell(v: nat)
    requires 52 <= v < 62
    ensures |DIGITS| == 10 && CharOf(v) == DIGITS[v - 52]
  {
  }

  /** The alphabet of table 1 of RFC 4648. */
  lemma AlphabetTells(v: nat)
    requires v < 64
    ensures |UPPER + LOWER + DIGITS + "+/"| == 64 && CharOf(v) == (UPPER + LOWER + DIGITS + "+/")[v]
  {
    if v < 26 {
      UpperTells(v);
    } else if v < 52 {
      LowerTells(v);
    } else if v < 62 {
      DigitsTell(v);
    }
  }

  // ---- Encoding ---------------------------------------------------------------------------

  /** Three bytes as four characters; one or two bytes at the end are padded. */
  function Encode(d: string): string
    requires Bytes(d)
  {
    if |d| == 0 then ""
    else
      var a := d[0] as nat;
      if |d| == 1 then [CharOf(a / 4), CharOf(a % 4 * 16), '=', '=']
      else
        var b := d[1] as nat;
        if |d| == 2 then [CharOf(a / 4), CharOf(a % 4 * 16 + b / 16), CharOf(b % 16 * 4), '=']
        else
          var c := d[2] as nat;
          Group(a, b, c) + Encode(d[3..])
  }

  /** The padded length of section 4 of RFC 4648. */
  lemma {:induction false} EncodedLength(d: string)
    requires Bytes(d)
    ensures |Encode(d)| == 4 * ((|d| + 2) / 3)
  {
    if |d| >= 3 {
      EncodeMore(d);
      EncodedLength(d[3..]);
    }
  }

  lemma {:induction false} EncodedAlphabet(d: string)
    requires Bytes(d)
    ensures forall i :: 0 <= i < |Encode(d)| ==> Encode(d)[i] != '.' && Encode(d)[i] as int < 128
  {
    if |d| >= 3 { EncodedAlphabet(d[3..]); }
  }

  /** What the loop puts out for a byte `c` after the byte `p`, `phase` bytes into a group: each byte
      completes one sextet, every third byte a second one. */
  function Out(phase: nat, p: nat, c: nat): string
    requires p < 256 && c < 256
  {
    if phase == 0 then [CharOf(c / 4)]
    else if phase == 1 then [CharOf(p % 4 * 16 + c / 16)]
    else [CharOf(p % 16 * 4 + c / 64), CharOf(c % 64)]
  }

  function Before(d: string, n: nat): (p: nat)
    requires Bytes(d) && n < |d|
    ensures p < 256
  {
    if n > 0 then d[n - 1] as nat else 0
  }

  /** The characters the loop has put out after the bytes `d`. */
  function Emitted(d: string): string
    requires Bytes(d)
  {
    if d == "" then "" else Emitted(d[..|d| - 1]) + Out((|d| - 1) % 3, Before(d, |d| - 1), d[|d| - 1] as nat)
  }

  /** The bits still to come out after the loop, and the padding. */
  function Rest(d: string): string
    requires Bytes(d)
  {
    if |d| % 3 == 0 then ""
    else
      var p := d[|d| - 1] as nat;
      if |d| % 3 == 1 then [CharOf(p % 4 * 16), '=', '='] else [CharOf(p % 16 * 4), '=']
  }

  lemma EmittedMore(d: string, phase: nat)
    requires Bytes(d) && d != "" && phase == (|d| - 1) % 3
    ensures Emitted(d) == Emitted(d[..|d| - 1]) + Out(phase, Before(d, |d| - 1), d[|d| - 1] as nat)
  {
  }

  lemma Slices(d: string, n: nat)
    requires 3 <= n < |d|
    ensures d[..n][..3] == d[..3] && d[..n][3..] == d[3..][..n - 3]
  {
  }

  lemma FrontMore(d: string, n: nat)
    requires Bytes(d) && n == |d| - 1 && n >= 3
    requires Emitted(d[..n]) == Emitted(d[..3]) + Emitted(d[3..][..n - 3])
    ensures Emitted(d) == Emitted(d[..3]) + Emitted(d[3..])
  {
    EmittedMore(d, n % 3);
    EmittedMore(d[3..], (n - 3) % 3);
    SamePhase(d, n);
    Joined(Emitted(d[..3]), Emitted(d[3..][..n - 3]), Out(n % 3, Before(d, n), d[n] as nat));
  }

  lemma {:induction false} EmittedFront(d: string)
    requires Bytes(d) && |d| >= 3
    ensures Emitted(d) == Emitted(d[..3]) + Emitted(d[3..])
  {
    if |d| == 3 {
      assert d[..3] == d && d[3..] == "";
    } else {
      var n := |d| - 1;
      EmittedFront(d[..n]);
      Slices(d, n);
      FrontMore(d, n);
    }
  }

  lemma Joined(a: string, b: string, c: string)
    ensures a + b + c == a + (b + c)
  {
  }

  lemma SamePhase(d: string, n: nat)
    requires Bytes(d) && 3 <= n < |d|
    ensures Out(n % 3, Before(d, n), d[n] as nat) == Out((n - 3) % 3, Before(d[3..], n - 3), d[3..][n - 3] as nat)
  {
  }

  lemma EmittedOne(d: string)
    requires Bytes(d) && |d| == 1
    ensures Emitted(d) == Out(0, 0, d[0] as nat)
  {
    EmittedMore(d, 0);
    assert Emitted(d[..0]) == "";
  }

  lemma EmittedTwo(d: string)
    requires Bytes(d) && |d| == 2
    ensures Emitted(d) == Out(0, 0, d[0] as nat) + Out(1, d[0] as nat, d[1] as nat)
  {
    EmittedMore(d, 1);
    EmittedOne(d[..1]);
  }

  lemma EmittedThree(d: string)
    requires Bytes(d) && |d| == 3
    ensures Emitted(d) == Out(0, 0, d[0] as nat) + Out(1, d[0] as nat, d[1] as nat) + Out(2, d[1] as nat, d[2] as nat)
  {
    EmittedMore(d, 2);
    EmittedTwo(d[..2]);
  }

  function Group(a: nat, b: nat, c: nat): string
    requires a < 256 && b < 256 && c < 256
  {
    [CharOf(a / 4), CharOf(a % 4 * 16 + b / 16), CharOf(b % 16 * 4 + c / 64), CharOf(c % 64)]
  }

  lemma GroupOut(a: nat, b: nat, c: nat)
    requires a < 256 && b < 256 && c < 256
    ensures Out(0, 0, a) + Out(1, a, b) + Out(2, b, c) == Group(a, b, c)
  {
  }

  lemma EncodeOne(d: string)
    requires Bytes(d) && |d| == 1
    ensures Emitted(d) + Rest(d) == Encode(d)
  {
    var a := d[0] as nat;
    EmittedOne(d);
    assert Rest(d) == [CharOf(a % 4 * 16), '=', '='];
    assert Encode(d) == [CharOf(a / 4), CharOf(a % 4 * 16), '=', '='];
  }

  lemma EncodeTwo(d: string)
    requires Bytes(d) && |d| == 2
    ensures Emitted(d) + Rest(d) == Encode(d)
  {
    var a, b := d[0] as nat, d[1] as nat;
    EmittedTwo(d);
    assert Rest(d) == [CharOf(b % 16 * 4), '='];
    assert Encode(d) == [CharOf(a / 4), CharOf(a % 4 * 16 + b / 16), CharOf(b % 16 * 4), '='];
  }

  lemma EncodeMore(d: string)
    requires Bytes(d) && |d| >= 3
    ensures Encode(d) == Group(d[0] as nat, d[1] as nat, d[2] as nat) + Encode(d[3..])
  {
  }

  lemma RestTail(d: string)
    requires Bytes(d) && |d| >= 3
    ensures Rest(d) == Rest(d[3..])
  {
  }

  lemma EmittedGroup(d: string)
    requires Bytes(d) && |d| >= 3
    ensures Emitted(d) == Group(d[0] as nat, d[1] as nat, d[2] as nat) + Emitted(d[3..])
  {
    EmittedFront(d);
    EmittedThree(d[..3]);
    GroupOut(d[0] as nat, d[1] as nat, d[2] as nat);
  }

  lemma Regroup(g: string, e: string, r: string, all: string)
    requires e + r == all
    ensures g + e + r == g + all
  {
  }

  /** What the loop puts out, and the tail, are the reference encoding. */
  lemma {:induction false} EmittedIsEncode(d: string)
    requires Bytes(d)
    ensures Emitted(d) + Rest(d) == Encode(d)
  {
    if |d| == 0 {
    } else if |d| == 1 {
      EncodeOne(d);
    } else if |d| == 2 {
      EncodeTwo(d);
    } else {
      EmittedGroup(d);
      EmittedIsEncode(d[3..]);
      RestTail(d);
      EncodeMore(d);
      Regroup(Group(d[0] as nat, d[1] as nat, d[2] as nat), Emitted(d[3..]), Rest(d[3..]), Encode(d[3..]));
    }
  }

  // ---- The encoding loop --------------------------------------------------------------------

  function Power(k: nat): (p: nat)
    ensures p > 0
    decreases k, 0
  {
    if k == 0 then 1 else 2 * Power(k - 1)
  }

  /** The accumulator after a byte: a machine word, whatever falls off its top. */
  function Pushed(val: nat, c: nat): nat { (val * 256 + c) % WORD }

  /** A remainder by a word leaves the remainder by a power of two below it. */
  lemma WordRemainder(x: nat, n: nat, k: nat, r: nat)
    requires n > 0 && WORD % n == 0 && r < n && x == n * k + r
    ensures (x % WORD) % n == r
  {
    var m, t, y := WORD / n, x / WORD, x % WORD;
    assert WORD == n * m && x == WORD * t + y;
    assert n * m * t == n * (m * t);
    var q := k - m * t;
    assert n * (k - m * t) == n * k - n * (m * t);
    QuotientPositive(n, q, r);
    Masks.RemainderIs(y, n, q, r);
  }

  lemma QuotientPositive(n: nat, q: int, r: nat)
    requires r < n && n * q + r >= 0
    ensures q >= 0
  {
    assert n * q == -(n * -q);
    if q < 0 { Masks.TimesMonotone(n, 1, -q); }
  }

  lemma LowBits(val: nat, p: nat, c: nat)
    requires p < 256 && c < 256 && val % 256 == p
    ensures Pushed(val, c) % 65536 == p * 256 + c && Pushed(val, c) % 256 == c
  {
    var k, x := val / 256, val * 256 + c;
    WordRemainder(x, 65536, k, p * 256 + c);
    WordRemainder(x, 256, val, c);
  }

  lemma FirstSextet(v: nat, p: nat, c: nat)
    requires p < 256 && c < 256 && v % 65536 == p * 256 + c
    ensures v / 4 % 64 == c / 4
  {
    var m, h, l := v / 65536, c / 4, c % 4;
    Masks.RemainderIs(v, 4, 16384 * m + 64 * p + h, l);
    Masks.RemainderIs(v / 4, 64, 256 * m + p, h);
  }

  lemma SecondSextet(v: nat, p: nat, c: nat)
    requires p < 256 && c < 256 && v % 65536 == p * 256 + c
    ensures v / 16 % 64 == p % 4 * 16 + c / 16
  {
    var m, h, l, i, j := v / 65536, c / 16, c % 16, p / 4, p % 4;
    Masks.RemainderIs(v, 16, 4096 * m + 16 * p + h, l);
    Masks.RemainderIs(v / 16, 64, 64 * m + i, 16 * j + h);
  }

  lemma ThirdSextet(v: nat, p: nat, c: nat)
    requires p < 256 && c < 256 && v % 65536 == p * 256 + c
    ensures v / 64 % 64 == p % 16 * 4 + c / 64
  {
    var m, h, l, i, j := v / 65536, c / 64, c % 64, p / 16, p % 16;
    Masks.RemainderIs(v, 64, 1024 * m + 4 * p + h, l);
    Masks.RemainderIs(v / 64, 64, 16 * m + i, 4 * j + h);
  }

  lemma LastSextet(v: nat, p: nat, c: nat)
    requires p < 256 && c < 256 && v % 65536 == p * 256 + c
    ensures v % 64 == c % 64
  {
    var m, h, l := v / 65536, c / 64, c % 64;
    Masks.RemainderIs(v, 64, 1024 * m + 4 * p + h, l);
  }

  /** Sextets read off the accumulator at the four places the loop reads them. */
  lemma Sextets(v: nat, p: nat, c: nat)
    requires p < 256 && c < 256 && v % 65536 == p * 256 + c
    ensures v / 4 % 64 == c / 4 && v / 16 % 64 == p % 4 * 16 + c / 16
    ensures v / 64 % 64 == p % 16 * 4 + c / 64 && v % 64 == c % 64
  {
    FirstSextet(v, p, c);
    SecondSextet(v, p, c);
    ThirdSextet(v, p, c);
    LastSextet(v, p, c);
  }

  lemma Powers()
    ensures Power(0) == 1 && Power(2) == 4 && Power(4) == 16 && Power(6) == 64 && Power(8) == 256
  {
    assert Power(1) == 2 && Power(3) == 8 && Power(5) == 32 && Power(7) == 128;
  }

  function Behind(phase: nat): int
    requires phase < 3
  {
    if phase == 0 then -6 else if phase == 1 then -4 else -2
  }

  /** The inner loop: put out every whole sextet there is. */
  method PutSextets(val: nat, start: int, ghost phase: nat, ghost p: nat, ghost c: nat) returns (out: string, valb: int)
    requires phase < 3 && p < 256 && c < 256 && start == Behind(phase) + 8 && val % 65536 == p * 256 + c
    ensures out == Out(phase, p, c) && valb == Behind((phase + 1) % 3)
  {
    Sextets(val, p, c);
    Powers();
    out, valb := "", start;
    while valb >= 0
      invariant (valb == start && out == "")
        || (phase == 2 && valb == 0 && out == [CharOf(p % 16 * 4 + c / 64)])
        || (valb == Behind((phase + 1) % 3) && out == Out(phase, p, c))
      decreases valb + 6
    {
      out := out + [CharOf(val / Power(valb) % 64)];
      valb := valb - 6;
    }
  }

  lemma EmittedNext(data: string, i: nat)
    requires Bytes(data) && i < |data|
    ensures Emitted(data[..i + 1]) == Emitted(data[..i]) + Out(i % 3, Before(data, i), data[i] as nat)
  {
    EmittedMore(data[..i + 1], i % 3);
    assert data[..i + 1][..i] == data[..i];
  }

  lemma NextPhase(i: nat)
    ensures (i % 3 + 1) % 3 == (i + 1) % 3
  {
  }

  /** One turn of the outer loop. */
  method PutByte(val: nat, c: nat, encoded: string, valb: int, ghost phase: nat, ghost p: nat)
      returns (val': nat, encoded': string, valb': int)
    requires phase < 3 && p < 256 && c < 256 && valb == Behind(phase) && val % 256 == p
    ensures valb' == Behind((phase + 1) % 3) && encoded' == encoded + Out(phase, p, c) && val' % 256 == c
  {
    LowBits(val, p, c);
    val' := Pushed(val, c);
    var out;
    out, valb' := PutSextets(val', valb + 8, phase, p, c);
    encoded' := encoded + out;
  }

  method Base64Encode(data: string) returns (encoded: string)
    requires Bytes(data)
    ensures encoded == Encode(data)
  {
    encoded := "";
    var val, valb := 0, -6;
    for i := 0 to |data|
      invariant valb == Behind(i % 3) && encoded == Emitted(data[..i])
      invariant val % 256 == if i > 0 then data[i - 1] as nat else 0
    {
      EmittedNext(data, i);
      NextPhase(i);
      val, encoded, valb := PutByte(val, data[i] as nat, encoded, valb, i % 3, Before(data, i));
    }
    assert data[..|data|] == data;
    encoded := Finish(encoded, val, valb, data);
    EmittedIsEncode(data);
  }

  function Padding(n: nat): string {
    if n % 4 == 1 then "===" else if n % 4 == 2 then "==" else if n % 4 == 3 then "=" else ""
  }

  method Pad(text: string) returns (padded: string)
    ensures padded == text + Padding(|text|)
  {
    padded := text;
    while |padded| % 4 != 0
      invariant padded + Padding(|padded|) == text + Padding(|text|)
      decreases |Padding(|padded|)|
    {
      assert Padding(|padded|) == "=" + Padding(|padded| + 1);
      assert padded + "=" + Padding(|padded| + 1) == padded + ("=" + Padding(|padded| + 1));
      padded := padded + "=";
    }
  }

  lemma {:induction false} EmittedLength(d: string)
    requires Bytes(d)
    ensures |Emitted(d)| == 4 * (|d| / 3) + |d| % 3
  {
    if d != "" { EmittedLength(d[..|d| - 1]); }
  }

  function LastChar(phase: nat, p: nat): string
    requires p < 256
  {
    if phase == 0 then "" else if phase == 1 then [CharOf(p % 4 * 16)] else [CharOf(p % 16 * 4)]
  }

  lemma RestIs(d: string)
    requires Bytes(d)
    ensures var x := LastChar(|d| % 3, if d == "" then 0 else d[|d| - 1] as nat);
      Rest(d) == x + Padding(|Emitted(d)| + |x|)
  {
    EmittedLength(d);
    PaddingOf(|d| / 3);
  }

  lemma PaddingOf(q: nat)
    ensures Padding(4 * q) == "" && Padding(4 * q + 2) == "==" && Padding(4 * q + 3) == "="
  {
  }

  /** The bits left over. */
  method PutRest(val: nat, valb: int, ghost phase: nat, ghost p: nat) returns (out: string)
    requires phase < 3 && valb == Behind(phase) && p < 256 && val % 256 == p
    ensures out == LastChar(phase, p)
  {
    out := "";
    if valb > -6 {
      Powers();
      LastBits(val, p);
      out := [CharOf(Pushed(val, 0) / Power(valb + 8) % 64)];
    }
  }

  /** The bits left over, and the padding. */
  method Finish(emitted: string, val: nat, valb: int, ghost data: string) returns (encoded: string)
    requires Bytes(data) && valb == Behind(|data| % 3) && emitted == Emitted(data)
    requires val % 256 == if data == "" then 0 else data[|data| - 1] as nat
    ensures encoded == Emitted(data) + Rest(data)
  {
    RestIs(data);
    var out := PutRest(val, valb, |data| % 3, val % 256);
    encoded := Pad(emitted + out);
  }

  lemma LastBits(val: nat, p: nat)
    requires p < 256 && val % 256 == p
    ensures Pushed(val, 0) / 16 % 64 == p % 4 * 16 && Pushed(val, 0) / 64 % 64 == p % 16 * 4
  {
    LowBits(val, p, 0);
    Sextets(Pushed(val, 0), p, 0);
  }

  // ---- Decoding ---------------------------------------------------------------------------

  /** The accumulator after a sextet. */
  function Shifted(val: nat, v: nat): nat { (val * 64 + v) % WORD }

  predicate Place(valb: int) { valb == -8 || valb == -6 || valb == -4 || valb == -2 }

  /** What the rest of the loop puts out. Characters outside the alphabet are skipped, `=` ends it. */
  function DecodeFrom(s: string, val: nat, valb: int): string
    requires Place(valb)
  {
    if s == "" || s[0] == '=' then ""
    else if ValueOf(s[0]) < 0 then DecodeFrom(s[1..], val, valb)
    else
      var val' := Shifted(val, ValueOf(s[0]));
      if valb == -8 then DecodeFrom(s[1..], val', -2)
      else [(val' / Power(valb + 6) % 256) as char] + DecodeFrom(s[1..], val', valb - 2)
  }

  function Decode(s: string): string { DecodeFrom(s, 0, -8) }

  method Base64Decode(encoded: string) returns (decoded: string)
    ensures decoded == Decode(encoded)
  {
    decoded := "";
    var val: nat, valb: int, i: nat := 0, -8, 0;
    while i < |encoded| && encoded[i] != '='
      invariant i <= |encoded| && Place(valb)
      invariant decoded + DecodeFrom(encoded[i..], val, valb) == Decode(encoded)
    {
      var v := ValueOf(encoded[i]);
      assert encoded[i..][1..] == encoded[i + 1..];
      if v >= 0 {
        val := Shifted(val, v);
        valb := valb + 6;
        if valb >= 0 {
          decoded := decoded + [(val / Power(valb) % 256) as char];
          valb := valb - 8;
        }
      }
      i := i + 1;
    }
  }

  // ---- Round trip -------------------------------------------------------------------------

  lemma LowSextets(val: nat, u: nat, v: nat)
    requires u < 64 && v < 64 && val % 64 == u
    ensures Shifted(val, v) % 4096 == u * 64 + v && Shifted(val, v) % 64 == v
  {
    var k, x := val / 64, val * 64 + v;
    WordRemainder(x, 4096, k, u * 64 + v);
    WordRemainder(x, 64, val, v);
  }

  lemma FirstByte(x: nat, u: nat, v: nat)
    requires u < 64 && v < 64 && x % 4096 == u * 64 + v
    ensures x / 16 % 256 == u * 4 + v / 16
  {
    var m, h, l := x / 4096, v / 16, v % 16;
    Masks.RemainderIs(x, 16, 256 * m + 4 * u + h, l);
    Masks.RemainderIs(x / 16, 256, m, 4 * u + h);
  }

  lemma SecondByte(x: nat, u: nat, v: nat)
    requires u < 64 && v < 64 && x % 4096 == u * 64 + v
    ensures x / 4 % 256 == u % 16 * 16 + v / 4
  {
    var m, h, l, i, j := x / 4096, v / 4, v % 4, u / 16, u % 16;
    Masks.RemainderIs(x, 4, 1024 * m + 16 * u + h, l);
    Masks.RemainderIs(x / 4, 256, 4 * m + i, 16 * j + h);
  }

  lemma ThirdByte(x: nat, u: nat, v: nat)
    requires u < 64 && v < 64 && x % 4096 == u * 64 + v
    ensures x % 256 == u % 4 * 64 + v
  {
    var m, i, j := x / 4096, u / 4, u % 4;
    Masks.RemainderIs(x, 256, 16 * m + i, 64 * j + v);
  }

  lemma DecodeFirst(v: nat, s: string, val: nat)
    requires v < 64
    ensures DecodeFrom([CharOf(v)] + s, val, -8) == DecodeFrom(s, Shifted(val, v), -2) && Shifted(val, v) % 64 == v
  {
    ValueBack(v);
    LowSextets(val, val % 64, v);
    assert ([CharOf(v)] + s)[1..] == s;
  }

  lemma DecodeNext(v: nat, s: string, val: nat, valb: int)
    requires v < 64 && Place(valb) && valb != -8
    ensures DecodeFrom([CharOf(v)] + s, val, valb)
         == [(Shifted(val, v) / Power(valb + 6) % 256) as char] + DecodeFrom(s, Shifted(val, v), valb - 2)
    ensures Shifted(val, v) % 4096 == val % 64 * 64 + v && Shifted(val, v) % 64 == v
  {
    ValueBack(v);
    LowSextets(val, val % 64, v);
    assert ([CharOf(v)] + s)[1..] == s;
  }

  /** Two sextets carry a byte, a third one a second byte, a fourth one a third. */
  lemma DecodeOne(a: nat, v: nat, s: string, val: nat) returns (val': nat)
    requires a < 256 && v < 16
    ensures DecodeFrom([CharOf(a / 4), CharOf(a % 4 * 16 + v)] + s, val, -8) == [a as char] + DecodeFrom(s, val', -4)
    ensures val' % 64 == a % 4 * 16 + v
  {
    var u, w := a / 4, a % 4 * 16 + v;
    var val1 := Shifted(val, u);
    val' := Shifted(val1, w);
    assert [CharOf(u), CharOf(w)] + s == [CharOf(u)] + ([CharOf(w)] + s);
    DecodeFirst(u, [CharOf(w)] + s, val);
    DecodeNext(w, s, val1, -2);
    FirstByte(val', u, w);
    Powers();
  }

  lemma Residues(x: nat)
    ensures x % 64 % 16 == x % 16 && x % 64 % 4 == x % 4
  {
    var m, r := x / 64, x % 64;
    var i, j, h, l := r / 16, r % 16, r / 4, r % 4;
    Masks.RemainderIs(x, 16, 4 * m + i, j);
    Masks.RemainderIs(x, 4, 16 * m + h, l);
  }

  lemma ResiduesOf(x: nat, u: nat, v: nat)
    requires v < 16 && x % 64 == u % 4 * 16 + v
    ensures x % 16 == v
  {
    Residues(x);
  }

  lemma ResiduesIn(x: nat, u: nat, v: nat)
    requires v < 4 && x % 64 == u % 16 * 4 + v
    ensures x % 4 == v
  {
    Residues(x);
  }

  lemma DecodeTwo(b: nat, v: nat, s: string, val: nat) returns (val': nat)
    requires b < 256 && v < 4 && val % 16 == b / 16
    ensures DecodeFrom([CharOf(b % 16 * 4 + v)] + s, val, -4) == [b as char] + DecodeFrom(s, val', -6)
    ensures val' % 64 == b % 16 * 4 + v
  {
    var w := b % 16 * 4 + v;
    val' := Shifted(val, w);
    DecodeNext(w, s, val, -4);
    SecondByte(val', val % 64, w);
    Residues(val);
    Powers();
  }

  lemma DecodeThree(c: nat, s: string, val: nat) returns (val': nat)
    requires c < 256 && val % 4 == c / 64
    ensures DecodeFrom([CharOf(c % 64)] + s, val, -6) == [c as char] + DecodeFrom(s, val', -8)
  {
    val' := Shifted(val, c % 64);
    DecodeNext(c % 64, s, val, -6);
    ThirdByte(val', val % 64, c % 64);
    Residues(val);
    Powers();
  }

  lemma DecodeGroup(a: nat, b: nat, c: nat, s: string, val: nat) returns (val': nat)
    requires a < 256 && b < 256 && c < 256
    ensures DecodeFrom(Group(a, b, c) + s, val, -8) == [a as char, b as char, c as char] + DecodeFrom(s, val', -8)
  {
    var s3 := [CharOf(c % 64)] + s;
    var s2 := [CharOf(b % 16 * 4 + c / 64)] + s3;
    assert Group(a, b, c) + s == [CharOf(a / 4), CharOf(a % 4 * 16 + b / 16)] + s2;
    var v1 := DecodeOne(a, b / 16, s2, val);
    ResiduesOf(v1, a, b / 16);
    var v2 := DecodeTwo(b, c / 64, s3, v1);
    ResiduesIn(v2, b, c / 64);
    val' := DecodeThree(c, s, v2);
  }

  lemma {:induction false} DecodeEncodeFrom(d: string, val: nat)
    requires Bytes(d)
    ensures DecodeFrom(Encode(d), val, -8) == d
  {
    if |d| == 1 {
      var v := DecodeOne(d[0] as nat, 0, "==", val);
      assert Encode(d) == [CharOf(d[0] as nat / 4), CharOf(d[0] as nat % 4 * 16)] + "==";
    } else if |d| == 2 {
      DecodePair(d, val);
    } else if |d| >= 3 {
      var v := DecodeGroup(d[0] as nat, d[1] as nat, d[2] as nat, Encode(d[3..]), val);
      EncodeMore(d);
      DecodeEncodeFrom(d[3..], v);
      assert d == [d[0], d[1], d[2]] + d[3..];
    }
  }

  lemma DecodePair(d: string, val: nat)
    requires Bytes(d) && |d| == 2
    ensures DecodeFrom(Encode(d), val, -8) == d
  {
    var a, b := d[0] as nat, d[1] as nat;
    var s := [CharOf(b % 16 * 4)] + "=";
    assert Encode(d) == [CharOf(a / 4), CharOf(a % 4 * 16 + b / 16)] + s;
    var v1 := DecodeOne(a, b / 16, s, val);
    ResiduesOf(v1, a, b / 16);
    var v2 := DecodeTwo(b, 0, "=", v1);
  }

  /** Decoding undoes encoding on every byte string. */
  lemma DecodeEncode(d: string)
    requires Bytes(d)
    ensures Decode(Encode(d)) == d
  {
    DecodeEncodeFrom(d, 0);
  }

  /** A whole group is encoded apart from what follows it. */
  lemma {:induction false} GroupFirst(group: string, rest: string)
    requires Bytes(group) && Bytes(rest) && |group| == 3
    ensures Bytes(group + rest) && Encode(group + rest) == Encode(group) + Encode(rest)
  {
    EncodeMore(group);
    EncodeMore(group + rest);
    assert (group + rest)[3..] == rest && group[3..] == "";
  }

  /** Whether a text character means anything to the decoder. */
  predicate Foreign(c: char) {
    !('A' <= c <= 'Z' || 'a' <= c <= 'z' || '0' <= c <= '9') && c !in {'+', '/', '=', 0 as char}
  }

  lemma {:induction false} ForeignFrom(s: string, c: char, t: string, val: nat, valb: int)
    requires Foreign(c) && Place(valb)
    ensures DecodeFrom(s + [c] + t, val, valb) == DecodeFrom(s + t, val, valb)
  {
    if s == "" {
      assert s + [c] + t == [c] + t && s + t == t && ([c] + t)[1..] == t;
    } else {
      assert (s + [c] + t)[1..] == s[1..] + [c] + t && (s + t)[1..] == s[1..] + t;
      var v := ValueOf(s[0]);
      if s[0] == '=' {
      } else if v < 0 {
        ForeignFrom(s[1..], c, t, val, valb);
      } else {
        ForeignFrom(s[1..], c, t, Shifted(val, v), if valb == -8 then -2 else valb - 2);
      }
    }
  }

  lemma {:induction false} PaddedFrom(s: string, t: string, val: nat, valb: int)
    requires Place(valb)
    ensures DecodeFrom(s + "=" + t, val, valb) == DecodeFrom(s, val, valb)
  {
    if s == "" {
      assert s + "=" + t == "=" + t;
    } else {
      assert (s + "=" + t)[1..] == s[1..] + "=" + t;
      var v := ValueOf(s[0]);
      if s[0] == '=' {
      } else if v < 0 {
        PaddedFrom(s[1..], t, val, valb);
      } else {
        PaddedFrom(s[1..], t, Shifted(val, v), if valb == -8 then -2 else valb - 2);
      }
    }
  }

  /** The decoder passes over characters outside the alphabet wherever they stand, and reads nothing from the first
      `=` on. */
  lemma ForeignIgnored(s: string, c: char, t: string)
    ensures Foreign(c) ==> Decode(s + [c] + t) == Decode(s + t)
    ensures Decode(s + "=" + t) == Decode(s)
  {
    if Foreign(c) { ForeignFrom(s, c, t, 0, -8); }
    PaddedFrom(s, t, 0, -8);
  }

  // ---- Known answers ------------------------------------------------------------------------

  lemma Starts()
    ensures Encode("") == "" && Encode("f") == "Zg==" && Encode("fo") == "Zm8=" && Encode("b") == "Yg=="
    ensures Encode("ba") == "YmE="
  {
  }

  lemma Groups()
    ensures Encode("foo") == "Zm9v" && Encode("bar") == "YmFy"
  {
    EncodeMore("foo");
    EncodeMore("bar");
  }

  /** The test vectors of section 10 of RFC 4648. */
  lemma KnownAnswers()
    ensures Encode("") == "" && Encode("f") == "Zg==" && Encode("fo") == "Zm8=" && Encode("foo") == "Zm9v"
    ensures Encode("foob") == "Zm9vYg==" && Encode("fooba") == "Zm9vYmE=" && Encode("foobar") == "Zm9vYmFy"
  {
    Starts();
    Groups();
    GroupFirst("foo", "b");
    GroupFirst("foo", "ba");
    GroupFirst("foo", "bar");
  }
}
