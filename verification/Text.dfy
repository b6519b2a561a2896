/** Decimal numbers and delimited fields, as the streams of the program print and read them. */
module Text {
  datatype Option<T> = None | Some(value: T)

  // ---- Numbers ----------------------------------------------------------------------------

  predicate IsDigit(c: char) { '0' <= c <= '9' }

  function Digit(n: nat): char
    requires n < 10
  {
    '0' + n as char
  }

  function DigitValue(c: char): nat
    requires IsDigit(c)
  {
    (c - '0') as nat
  }

  function ShowNat(n: nat): (s: string)
    ensures s != [] && forall i :: 0 <= i < |s| ==> IsDigit(s[i])
  {
    if n < 10 then [Digit(n)] else ShowNat(n / 10) + [Digit(n % 10)]
  }

  function ShowInt(i: int): (s: string)
    ensures s != [] && forall k :: 0 <= k < |s| ==> IsDigit(s[k]) || s[k] == '-'
    ensures s[0] != '-' ==> IsDigit(s[0])
  {
    if i < 0 then "-" + ShowNat(-i) else ShowNat(i)
  }

  predicate IsSpace(c: char) { c == ' ' || '\t' <= c <= '\r' }

  function SkipSpaces(s: string): string {
    if s != [] && IsSpace(s[0]) then SkipSpaces(s[1..]) else s
  }

  /** The digits at the front of `s`. */
  function DigitPrefix(s: string): (n: nat)
    ensures n <= |s| && forall i :: 0 <= i < n ==> IsDigit(s[i])
    ensures n < |s| ==> !IsDigit(s[n])
  {
    if s != [] && IsDigit(s[0]) then 1 + DigitPrefix(s[1..]) else 0
  }

  function NatOf(s: string): nat
    requires forall i :: 0 <= i < |s| ==> IsDigit(s[i])
  {
    if s == [] then 0 else 10 * NatOf(s[..|s| - 1]) + DigitValue(s[|s| - 1])
  }

  function ParseNat(s: string): Option<nat> {
    var n := DigitPrefix(s);
    if n == 0 then None else Some(NatOf(s[..n]))
  }

  function Signed(n: Option<nat>, sign: int): Option<int> {
    match n
    case None => None
    case Some(v) => var i: int := sign * v; Some(i)
  }

  /** Leading spaces and a sign are accepted, what follows the digits is ignored, and no digits is an error. */
  function ParseInt(s: string): Option<int> {
    var t := SkipSpaces(s);
    if t != [] && t[0] == '-' then
      Signed(ParseNat(t[1..]), -1)
    else
      Signed(ParseNat(if t != [] && t[0] == '+' then t[1..] else t), 1)
  }

  lemma {:induction false} NatOfShow(n: nat)
    ensures NatOf(ShowNat(n)) == n
  {
    if n >= 10 {
      NatOfShow(n / 10);
      assert ShowNat(n)[..|ShowNat(n)| - 1] == ShowNat(n / 10);
    }
  }

  lemma {:induction false} PrefixOfDigits(s: string)
    requires forall i :: 0 <= i < |s| ==> IsDigit(s[i])
    ensures DigitPrefix(s) == |s|
  {
    if s != [] { PrefixOfDigits(s[1..]); }
  }

  lemma ParseShowNat(n: nat)
    ensures ParseNat(ShowNat(n)) == Some(n)
  {
    PrefixOfDigits(ShowNat(n));
    NatOfShow(n);
    assert ShowNat(n)[..|ShowNat(n)|] == ShowNat(n);
  }

  lemma ParseShow(i: int)
    ensures ParseInt(ShowInt(i)) == Some(i)
  {
    if i < 0 {
      ParseShowNat(-i);
      assert ShowInt(i)[1..] == ShowNat(-i);
    } else {
      ParseShowNat(i);
      assert IsDigit(ShowNat(i)[0]);
    }
  }

  lemma {:induction false} SpacesSkipped(space: string, s: string)
    requires forall i :: 0 <= i < |space| ==> space[i] == ' '
    requires s != "" && !IsSpace(s[0])
    ensures SkipSpaces(space + s) == s
  {
    if space == "" {
      assert space + s == s;
    } else {
      assert (space + s)[1..] == space[1..] + s;
      SpacesSkipped(space[1..], s);
    }
  }

  lemma {:induction false} PrefixAlone(digits: string, rest: string)
    requires forall i :: 0 <= i < |digits| ==> IsDigit(digits[i])
    requires rest == "" || !('0' <= rest[0] <= '9')
    ensures DigitPrefix(digits + rest) == |digits|
  {
    if digits == "" {
      assert digits + rest == rest;
    } else {
      assert (digits + rest)[1..] == digits[1..] + rest;
      PrefixAlone(digits[1..], rest);
    }
  }

  /** A number is read behind spaces, with or without a sign, up to what is no digit. */
  lemma ParseLoose(space: string, sign: string, n: nat, rest: string)
    requires forall i :: 0 <= i < |space| ==> space[i] == ' '
    requires sign in {"", "+", "-"} && (rest == "" || !('0' <= rest[0] <= '9'))
    ensures ParseInt(space + (sign + (ShowNat(n) + rest))) == Some(if sign == "-" then -(n as int) else n as int)
  {
    var digits := ShowNat(n) + rest;
    SpacesSkipped(space, sign + digits);
    PrefixAlone(ShowNat(n), rest);
    assert digits[..|ShowNat(n)|] == ShowNat(n);
    NatOfShow(n);
    if sign == "" { assert sign + digits == digits; } else { assert (sign + digits)[1..] == digits; }
  }

  /** Text that starts with neither a space, a sign nor a digit is no number. */
  lemma NotANumber(s: string)
    requires s == [] || !(IsSpace(s[0]) || IsDigit(s[0]) || s[0] == '-' || s[0] == '+')
    ensures ParseInt(s) == None
  {
  }

  // ---- Machine types ----------------------------------------------------------------------

  /** The machine type a number is stored in: an unsigned or a signed word, a half word, a byte. */
  datatype Field = Wide | Signed | Narrow | Code

  const WORD: int := 0x1_0000_0000_0000_0000
  const HALF_WORD: int := 0x1_0000_0000
  const MAX_SIGNED: int := 0x7FFF_FFFF_FFFF_FFFF

  predicate Fits(f: Field, x: int) {
    match f
    case Wide => 0 <= x < WORD
    case Signed => -MAX_SIGNED - 1 <= x <= MAX_SIGNED
    case Narrow => 0 <= x < HALF_WORD
    case Code => 0 <= x < 256
  }

  /** A number read for the field. The parsers refuse what does not fit a word, and the unsigned ones wrap negative
      numbers; storing it drops its high part. */
  function Fitted(f: Field, x: int): (r: Option<int>)
    ensures r.Some? ==> Fits(f, r.value)
    ensures Fits(f, x) ==> r == Some(x)
  {
    if f.Signed? then if Fits(f, x) then Some(x) else None
    else if -WORD < x < WORD then
      Some(if f.Narrow? then x % HALF_WORD else if f.Code? then x % 256 else x % WORD)
    else None
  }

  // ---- Fields -----------------------------------------------------------------------------

  /** A stream read field by field, with the field last read. Reading past the end leaves that field as it was. */
  datatype Reader = Reader(rest: string, atEnd: bool, field: string)

  function Find(s: string, c: char): (n: nat)
    ensures n <= |s| && (n < |s| ==> s[n] == c) && forall i :: 0 <= i < n ==> s[i] != c
  {
    if s == [] || s[0] == c then 0 else 1 + Find(s[1..], c)
  }

  /** Read up to the next `c`, which is dropped. */
  function Next(r: Reader, c: char): Reader {
    if r.atEnd then r
    else
      var n := Find(r.rest, c);
      if n < |r.rest| then Reader(r.rest[n + 1..], false, r.rest[..n]) else Reader("", true, r.rest)
  }

  lemma FindAt(s: string, c: char, n: nat)
    requires n <= |s| && (n < |s| ==> s[n] == c) && forall i :: 0 <= i < n ==> s[i] != c
    ensures Find(s, c) == n
  {
  }

  /** A field that does not hold the separator is read back whole. */
  lemma NextField(t: string, rest: string, c: char, field: string)
    requires forall i :: 0 <= i < |t| ==> t[i] != c
    ensures Next(Reader(t + [c] + rest, false, field), c) == Reader(rest, false, t)
    ensures Next(Reader(t, false, field), c) == Reader("", true, t)
  {
    var s := t + [c] + rest;
    FindAt(s, c, |t|);
    FindAt(t, c, |t|);
    assert s[|t| + 1..] == rest && s[..|t|] == t;
  }

  // ---- Lists of numbers -------------------------------------------------------------------

  /** Numbers separated by commas. */
  function Join(xs: seq<int>): string {
    if xs == [] then "" else if |xs| == 1 then ShowInt(xs[0]) else ShowInt(xs[0]) + "," + Join(xs[1..])
  }

  datatype Numbers = Unreadable | Numbers(values: seq<int>, reader: Reader)

  /** Read `n` comma-separated numbers. */
  function ReadInts(r: Reader, n: nat): (k: Numbers)
    ensures k.Numbers? ==> |k.values| == n
    decreases n
  {
    if n == 0 then Numbers([], r)
    else
      var r' := Next(r, ',');
      match ParseInt(r'.field)
      case None => Unreadable
      case Some(x) =>
        match ReadInts(r', n - 1)
        case Unreadable => Unreadable
        case Numbers(xs, r'') => Numbers([x] + xs, r'')
  }

  lemma ShownHasNo(i: int, c: char)
    requires !IsDigit(c) && c != '-'
    ensures forall k :: 0 <= k < |ShowInt(i)| ==> ShowInt(i)[k] != c
  {
  }

  lemma ReadFirst(r: Reader, n: nat, r': Reader, x: int, xs: seq<int>, end: Reader)
    requires n > 0 && Next(r, ',') == r' && ParseInt(r'.field) == Some(x) && ReadInts(r', n - 1) == Numbers(xs, end)
    ensures ReadInts(r, n) == Numbers([x] + xs, end)
  {
  }

  /** A printed number is read back, in front of a comma and at the end. */
  lemma ShownField(x: int, rest: string, field: string)
    ensures Next(Reader(ShowInt(x) + "," + rest, false, field), ',') == Reader(rest, false, ShowInt(x))
    ensures Next(Reader(ShowInt(x), false, field), ',') == Reader("", true, ShowInt(x))
    ensures ParseInt(ShowInt(x)) == Some(x)
  {
    ShownHasNo(x, ',');
    ParseShow(x);
    NextField(ShowInt(x), rest, ',', field);
  }

  lemma ReadMore(x: int, more: string, n: nat, xs: seq<int>, end: Reader, field: string)
    requires n > 0 && ReadInts(Reader(more, false, ShowInt(x)), n - 1) == Numbers(xs, end)
    ensures ReadInts(Reader(ShowInt(x) + "," + more, false, field), n) == Numbers([x] + xs, end)
  {
    ShownField(x, more, field);
    ReadFirst(Reader(ShowInt(x) + "," + more, false, field), n, Reader(more, false, ShowInt(x)), x, xs, end);
  }

  lemma ReadLast(x: int, field: string)
    ensures ReadInts(Reader(ShowInt(x), false, field), 1) == Numbers([x], Reader("", true, ShowInt(x)))
  {
    ShownField(x, "", field);
    ReadFirst(Reader(ShowInt(x), false, field), 1, Reader("", true, ShowInt(x)), x, [], Reader("", true, ShowInt(x)));
    assert [x] + [] == [x];
  }

  lemma ReadText(text: string, x: int, more: string, n: nat, xs: seq<int>, all: seq<int>, end: Reader, field: string)
    requires n > 0 && text == ShowInt(x) + "," + more && all == [x] + xs
    requires ReadInts(Reader(more, false, ShowInt(x)), n - 1) == Numbers(xs, end)
    ensures ReadInts(Reader(text, false, field), n) == Numbers(all, end)
  {
    ReadMore(x, more, n, xs, end, field);
  }

  lemma HeadTail(xs: seq<int>)
    requires xs != []
    ensures [xs[0]] + xs[1..] == xs
  {
  }

  lemma ReadOne(xs: seq<int>, field: string)
    requires |xs| == 1
    ensures ReadInts(Reader(Join(xs), false, field), 1) == Numbers(xs, Reader("", true, ShowInt(xs[0])))
  {
    ReadLast(xs[0], field);
    assert xs == [xs[0]];
  }

  lemma {:induction false} ReadJoinedTo(xs: seq<int>, field: string, end: Reader)
    requires xs != [] && end == Reader("", true, ShowInt(xs[|xs| - 1]))
    ensures ReadInts(Reader(Join(xs), false, field), |xs|) == Numbers(xs, end)
    decreases |xs|
  {
    if |xs| == 1 {
      ReadOne(xs, field);
    } else {
      ReadJoinedTo(xs[1..], ShowInt(xs[0]), end);
      HeadTail(xs);
      JoinMore(xs);
      ReadText(Join(xs), xs[0], Join(xs[1..]), |xs|, xs[1..], xs, end, field);
    }
  }

  /** What `Join` writes, `ReadInts` reads, at the end of the text. */
  lemma ReadJoined(xs: seq<int>, field: string)
    requires xs != []
    ensures ReadInts(Reader(Join(xs), false, field), |xs|) == Numbers(xs, Reader("", true, ShowInt(xs[|xs| - 1])))
  {
    ReadJoinedTo(xs, field, Reader("", true, ShowInt(xs[|xs| - 1])));
  }

  lemma JoinMore(xs: seq<int>)
    requires |xs| > 1
    ensures Join(xs) == ShowInt(xs[0]) + "," + Join(xs[1..])
  {
  }

  lemma Regroup(a: string, b: string, c: string, d: string)
    ensures a + b + c + b + d == a + b + (c + b + d)
  {
  }

  lemma JoinBefore(xs: seq<int>, tail: string)
    requires |xs| > 1
    ensures Join(xs) + "," + tail == ShowInt(xs[0]) + "," + (Join(xs[1..]) + "," + tail)
  {
    JoinMore(xs);
    Regroup(ShowInt(xs[0]), ",", Join(xs[1..]), tail);
  }

  lemma {:induction false} ReadBeforeTo(xs: seq<int>, tail: string, field: string, end: Reader)
    requires xs != [] && end == Reader(tail, false, ShowInt(xs[|xs| - 1]))
    ensures ReadInts(Reader(Join(xs) + "," + tail, false, field), |xs|) == Numbers(xs, end)
    decreases |xs|
  {
    if |xs| == 1 {
      ReadOneBefore(xs, tail, field);
    } else {
      ReadBeforeTo(xs[1..], tail, ShowInt(xs[0]), end);
      ReadManyBefore(xs, tail, field, end);
    }
  }

  /** And in front of a comma. */
  lemma ReadJoinedBefore(xs: seq<int>, tail: string, field: string)
    requires xs != []
    ensures ReadInts(Reader(Join(xs) + "," + tail, false, field), |xs|)
         == Numbers(xs, Reader(tail, false, ShowInt(xs[|xs| - 1])))
  {
    ReadBeforeTo(xs, tail, field, Reader(tail, false, ShowInt(xs[|xs| - 1])));
  }

  lemma ReadManyBefore(xs: seq<int>, tail: string, field: string, end: Reader)
    requires |xs| > 1
    requires ReadInts(Reader(Join(xs[1..]) + "," + tail, false, ShowInt(xs[0])), |xs| - 1) == Numbers(xs[1..], end)
    ensures ReadInts(Reader(Join(xs) + "," + tail, false, field), |xs|) == Numbers(xs, end)
  {
    JoinBefore(xs, tail);
    HeadTail(xs);
    ReadText(Join(xs) + "," + tail, xs[0], Join(xs[1..]) + "," + tail, |xs|, xs[1..], xs, end, field);
  }

  lemma ReadOneBefore(xs: seq<int>, tail: string, field: string)
    requires |xs| == 1
    ensures ReadInts(Reader(Join(xs) + "," + tail, false, field), 1) == Numbers(xs, Reader(tail, false, ShowInt(xs[0])))
  {
    ReadMore(xs[0], tail, 1, [], Reader(tail, false, ShowInt(xs[0])), field);
    assert [xs[0]] + [] == xs;
  }
}
