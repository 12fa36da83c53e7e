/** Reading order, as a tuple and as a stored string (`ordering.py`). A text is the sequence of its code
    points, so comparing texts is comparing sequences of numbers. */
module Ordering {
  import opened Common

  type Text = seq<int>

  const TEXT_END := 1
  const KEY_END := 2
  const DIGITS := 30

  // ---- Lexicographic order -----------------------------------------------------------------

  predicate Below(a: seq<int>, b: seq<int>) {
    if b == [] then false
    else if a == [] then true
    else a[0] < b[0] || (a[0] == b[0] && Below(a[1..], b[1..]))
  }

  /** `a` is smaller at a position both have, so nothing appended to either can matter. */
  predicate Apart(a: seq<int>, b: seq<int>) {
    a != [] && b != [] && (a[0] < b[0] || (a[0] == b[0] && Apart(a[1..], b[1..])))
  }

  lemma {:induction false} ApartExtends(a: seq<int>, b: seq<int>, u: seq<int>, v: seq<int>)
    requires Apart(a, b)
    ensures Apart(a + u, b + v) && Below(a + u, b + v)
    decreases |a|
  {
    assert (a + u)[1..] == a[1..] + u && (b + v)[1..] == b[1..] + v;
    if a[0] == b[0] {
      ApartExtends(a[1..], b[1..], u, v);
    }
  }

  lemma {:induction false} PrefixCancels(x: seq<int>, u: seq<int>, v: seq<int>)
    ensures Apart(x + u, x + v) == Apart(u, v) && Below(x + u, x + v) == Below(u, v)
  {
    if x == [] {
      assert x + u == u && x + v == v;
    } else {
      assert (x + u)[1..] == x[1..] + u && (x + v)[1..] == x[1..] + v;
      PrefixCancels(x[1..], u, v);
    }
  }

  lemma {:induction false} BelowStrict(a: seq<int>, b: seq<int>)
    ensures Below(a, b) ==> !Below(b, a) && a != b
    ensures a != b ==> Below(a, b) || Below(b, a)
    decreases |a|
  {
    if a != [] && b != [] && a[0] == b[0] {
      BelowStrict(a[1..], b[1..]);
      assert a == [a[0]] + a[1..] && b == [b[0]] + b[1..];
    }
  }

  // ---- Natural keys ------------------------------------------------------------------------

  datatype Part = Number(value: nat) | Word(text: Text)

  type Key = seq<Part>

  predicate IsDigit(c: int) {
    48 <= c <= 57
  }

  /** The length of the longest run of digits, or of other characters, that a text starts with. */
  function RunLength(s: Text): (n: nat)
    requires s != []
    ensures 1 <= n <= |s|
    ensures forall i :: 0 <= i < n ==> IsDigit(s[i]) == IsDigit(s[0])
    ensures n < |s| ==> IsDigit(s[n]) != IsDigit(s[0])
  {
    if |s| == 1 || IsDigit(s[1]) != IsDigit(s[0]) then 1 else 1 + RunLength(s[1..])
  }

  /** `re.split` on runs of digits, without the empty pieces. */
  function Split(s: Text): seq<Text>
    decreases |s|
  {
    if s == [] then [] else [s[..RunLength(s)]] + Split(s[RunLength(s)..])
  }

  function Value(digits: Text): nat
    requires AllDigits(digits)
  {
    if digits == [] then 0
    else
      assert IsDigit(digits[|digits| - 1]);
      10 * Value(digits[..|digits| - 1]) + (digits[|digits| - 1] - 48)
  }

  predicate AllDigits(s: Text) {
    forall i :: 0 <= i < |s| ==> IsDigit(s[i])
  }

  function ToPart(fold: Text -> Text, piece: Text): Part {
    if AllDigits(piece) then Number(Value(piece)) else Word(fold(piece))
  }

  function ToParts(fold: Text -> Text, pieces: seq<Text>): Key {
    if pieces == [] then [] else [ToPart(fold, pieces[0])] + ToParts(fold, pieces[1..])
  }

  function NaturalKey(fold: Text -> Text, s: Text): Key {
    ToParts(fold, Split(s))
  }

  function Flatten(pieces: seq<Text>): Text {
    if pieces == [] then [] else pieces[0] + Flatten(pieces[1..])
  }

  ghost predicate Pure(piece: Text) {
    piece != [] && forall i :: 0 <= i < |piece| ==> IsDigit(piece[i]) == IsDigit(piece[0])
  }

  ghost predicate Turns(left: Text, right: Text) {
    left != [] && right != [] && IsDigit(left[0]) != IsDigit(right[0])
  }

  lemma RunIsPure(s: Text)
    requires s != []
    ensures Pure(s[..RunLength(s)]) && s[..RunLength(s)][0] == s[0]
  {
    var n := RunLength(s);
    hide IsDigit, RunLength;
    assert forall i :: 0 <= i < n ==> s[..n][i] == s[i];
  }

  lemma SplitIs(s: Text)
    requires s != []
    ensures Split(s) == [s[..RunLength(s)]] + Split(s[RunLength(s)..])
  {
    hide IsDigit, RunLength;
  }

  lemma TakeDrop(s: Text, n: nat)
    requires n <= |s|
    ensures s[..n] + s[n..] == s
  {
  }

  lemma FirstPiece(s: Text)
    requires s != []
    ensures Split(s) != [] && Split(s)[0] == s[..RunLength(s)] && Pure(Split(s)[0]) && Split(s)[0][0] == s[0]
    ensures Split(s)[1..] == Split(s[RunLength(s)..])
    ensures s[..RunLength(s)] + s[RunLength(s)..] == s
  {
    hide IsDigit, RunLength, Pure, Split;
    RunIsPure(s);
    SplitIs(s);
    TakeDrop(s, RunLength(s));
  }

  /** Splitting loses nothing, and the pieces are maximal: neighbours are of different kinds. */
  lemma {:induction false} SplitIsFaithful(s: Text)
    ensures Flatten(Split(s)) == s
    ensures forall i :: 0 <= i < |Split(s)| ==> Pure(Split(s)[i])
    ensures forall i :: 0 < i < |Split(s)| ==> Turns(Split(s)[i - 1], Split(s)[i])
    decreases |s|
  {
    if s != [] {
      var (n, pieces) := (RunLength(s), Split(s));
      FirstPiece(s);
      SplitIsFaithful(s[n..]);
      if n < |s| {
        FirstPiece(s[n..]);
        assert pieces[1] == Split(s[n..])[0] && Turns(pieces[0], pieces[1]);
      }
      hide Split, Turns, Pure;
      assert forall i :: 0 < i < |pieces| ==> pieces[i] == pieces[1..][i - 1];
    }
  }

  // ---- The tuple order ---------------------------------------------------------------------

  predicate PartLess(a: Part, b: Part) {
    match (a, b)
    case (Number(m), Number(n)) => m < n
    case (Number(_), Word(_)) => true
    case (Word(_), Number(_)) => false
    case (Word(t), Word(u)) => Below(t, u)
  }

  predicate KeyLess(a: Key, b: Key) {
    if b == [] then false
    else if a == [] then true
    else PartLess(a[0], b[0]) || (a[0] == b[0] && KeyLess(a[1..], b[1..]))
  }

  datatype Order = Order(numbered: int, primary: Key, title: Key, filename: Key, id: Text)

  predicate OrderLess(a: Order, b: Order) {
    || a.numbered < b.numbered
    || (a.numbered == b.numbered && (
      || KeyLess(a.primary, b.primary)
      || (a.primary == b.primary && (
        || KeyLess(a.title, b.title)
        || (a.title == b.title && (
          || KeyLess(a.filename, b.filename)
          || (a.filename == b.filename && Below(a.id, b.id))))))))
  }

  // ---- The stored string -------------------------------------------------------------------

  /** Decimal digits, zero-padded to at least `width`. */
  function Padded(n: nat, width: nat): Text
    decreases width, n
  {
    if width > 0 then Padded(n / 10, width - 1) + [48 + n % 10]
    else if n > 0 then Padded(n / 10, 0) + [48 + n % 10]
    else []
  }

  function EncodePart(p: Part): Text {
    match p
    case Number(n) => [48] + Padded(n, DIGITS)
    case Word(t) => [49] + t + [TEXT_END]
  }

  function EncodeParts(k: Key): Text {
    if k == [] then [] else EncodePart(k[0]) + EncodeParts(k[1..])
  }

  function Encode(k: Key): Text {
    EncodeParts(k) + [KEY_END]
  }

  function EncodeOrder(o: Order): Text {
    [48 + o.numbered] + (Encode(o.primary) + (Encode(o.title) + (Encode(o.filename) + o.id)))
  }

  // ---- The string sorts as the tuple does --------------------------------------------------

  function Pow10(n: nat): nat {
    if n == 0 then 1 else 10 * Pow10(n - 1)
  }

  /** What a key may hold for its string to stand in for it. */
  ghost predicate PartOk(p: Part) {
    match p
    case Number(n) => n < Pow10(DIGITS)
    case Word(t) => forall i :: 0 <= i < |t| ==> t[i] > TEXT_END
  }

  ghost predicate KeyOk(k: Key) {
    forall i :: 0 <= i < |k| ==> PartOk(k[i])
  }

  lemma {:induction false} PaddedWidth(n: nat, width: nat)
    requires n < Pow10(width)
    ensures |Padded(n, width)| == width
  {
    if width > 0 {
      PaddedWidth(n / 10, width - 1);
    }
  }

  lemma {:induction false} PaddedApart(m: nat, n: nat, width: nat)
    requires m < n < Pow10(width)
    ensures Apart(Padded(m, width), Padded(n, width))
  {
    if m / 10 < n / 10 {
      PaddedApart(m / 10, n / 10, width - 1);
      ApartExtends(Padded(m / 10, width - 1), Padded(n / 10, width - 1), [48 + m % 10], [48 + n % 10]);
    } else {
      PrefixCancels(Padded(m / 10, width - 1), [48 + m % 10], [48 + n % 10]);
    }
  }

  lemma {:induction false} WordApart(t: Text, u: Text)
    requires Below(t, u) && PartOk(Word(u))
    ensures Apart(t + [TEXT_END], u + [TEXT_END])
    decreases |t|
  {
    if t != [] && t[0] == u[0] {
      assert (t + [TEXT_END])[1..] == t[1..] + [TEXT_END] && (u + [TEXT_END])[1..] == u[1..] + [TEXT_END];
      assert PartOk(Word(u[1..]));
      WordApart(t[1..], u[1..]);
    }
  }

  lemma PartApart(p: Part, q: Part)
    requires PartLess(p, q) && PartOk(p) && PartOk(q)
    ensures Apart(EncodePart(p), EncodePart(q))
  {
    match (p, q)
    case (Number(m), Number(n)) =>
      PaddedApart(m, n, DIGITS);
      PrefixCancels([48], Padded(m, DIGITS), Padded(n, DIGITS));
    case (Word(t), Word(u)) =>
      WordApart(t, u);
      PrefixCancels([49], t + [TEXT_END], u + [TEXT_END]);
      assert EncodePart(p) == [49] + (t + [TEXT_END]) && EncodePart(q) == [49] + (u + [TEXT_END]);
    case _ =>
  }

  lemma {:induction false} KeyApart(a: Key, b: Key)
    requires KeyLess(a, b) && KeyOk(a) && KeyOk(b)
    ensures Apart(Encode(a), Encode(b))
    decreases |a|
  {
    assert Encode(b) == EncodePart(b[0]) + Encode(b[1..]);
    if a == [] {
      assert Encode(b)[0] >= 48;
    } else {
      assert Encode(a) == EncodePart(a[0]) + Encode(a[1..]);
      if PartLess(a[0], b[0]) {
        PartApart(a[0], b[0]);
        ApartExtends(EncodePart(a[0]), EncodePart(b[0]), Encode(a[1..]), Encode(b[1..]));
      } else {
        KeyApart(a[1..], b[1..]);
        PrefixCancels(EncodePart(a[0]), Encode(a[1..]), Encode(b[1..]));
      }
    }
  }

  lemma {:induction false} KeysComparable(a: Key, b: Key)
    ensures a == b || KeyLess(a, b) || KeyLess(b, a)
    decreases |a|
  {
    if a != [] && b != [] {
      if a[0].Word? && b[0].Word? {
        BelowStrict(a[0].text, b[0].text);
      }
      if a[0] == b[0] {
        KeysComparable(a[1..], b[1..]);
        assert a == [a[0]] + a[1..] && b == [b[0]] + b[1..];
      }
    }
  }

  /** Comparing two codes first, and what follows only when the keys are the same. */
  lemma FieldOrder(a: Key, b: Key, u: Text, v: Text)
    requires KeyOk(a) && KeyOk(b)
    ensures Below(Encode(a) + u, Encode(b) + v) <==> KeyLess(a, b) || (a == b && Below(u, v))
  {
    KeysComparable(a, b);
    BelowStrict(Encode(a) + u, Encode(b) + v);
    if KeyLess(a, b) {
      KeyApart(a, b);
      ApartExtends(Encode(a), Encode(b), u, v);
    }
    if KeyLess(b, a) {
      KeyApart(b, a);
      ApartExtends(Encode(b), Encode(a), v, u);
    }
    if a == b {
      PrefixCancels(Encode(a), u, v);
    }
    KeyLessStrict(a, b);
  }

  lemma {:induction false} KeyLessStrict(a: Key, b: Key)
    ensures KeyLess(a, b) ==> !KeyLess(b, a) && a != b
    decreases |a|
  {
    if a != [] && b != [] {
      if a[0].Word? && b[0].Word? {
        BelowStrict(a[0].text, b[0].text);
      }
      if a[0] == b[0] {
        KeyLessStrict(a[1..], b[1..]);
      }
    }
  }

  ghost predicate OrderOk(o: Order) {
    0 <= o.numbered <= 1 && KeyOk(o.primary) && KeyOk(o.title) && KeyOk(o.filename)
  }

  /** The order embedding: the strings compare exactly as the tuples do, in both directions. */
  lemma SortKeyEmbeds(a: Order, b: Order)
    requires OrderOk(a) && OrderOk(b)
    ensures Below(EncodeOrder(a), EncodeOrder(b)) <==> OrderLess(a, b)
  {
    FieldOrder(a.filename, b.filename, a.id, b.id);
    FieldOrder(a.title, b.title, Encode(a.filename) + a.id, Encode(b.filename) + b.id);
    FieldOrder(a.primary, b.primary, Encode(a.title) + (Encode(a.filename) + a.id),
      Encode(b.title) + (Encode(b.filename) + b.id));
    var (u, v) := (EncodeOrder(a)[1..], EncodeOrder(b)[1..]);
    assert EncodeOrder(a) == [48 + a.numbered] + u && EncodeOrder(b) == [48 + b.numbered] + v;
  }

  lemma {:induction false} PaddedTop(width: nat)
    ensures Padded(Pow10(width), width) == [49] + Padded(0, width)
    ensures width > 0 ==> Padded(9 * Pow10(width - 1), width) == [57] + Padded(0, width - 1)
    ensures Padded(9, 0) == [57]
  {
    if width == 0 {
      assert Padded(1, 0) == Padded(0, 0) + [49] == [49];
      assert Padded(9, 0) == Padded(0, 0) + [57];
    } else {
      PaddedTop(width - 1);
      if width > 1 {
        assert 9 * Pow10(width - 1) == 10 * (9 * Pow10(width - 2));
      } else {
        assert Padded(9, 1) == Padded(0, 0) + [57];
      }
    }
  }

  ghost predicate CodesSortAs(m: nat, n: nat) {
    Below(Encode([Number(m)]), Encode([Number(n)])) <==> m < n
  }

  lemma ShortCodesSort(m: nat, n: nat)
    requires m < Pow10(DIGITS) && n < Pow10(DIGITS)
    ensures CodesSortAs(m, n)
  {
    assert KeyOk([Number(m)]) && KeyOk([Number(n)]);
    hide Pow10, KeyOk, CodesAgree, CodesSortAs;
    WithinAgree([Number(m)], [Number(n)]);
    NumbersAgree(m, n);
  }

  lemma NumberCode(n: nat, first: int, rest: Text)
    requires Padded(n, DIGITS) == [first] + rest
    ensures Encode([Number(n)]) == [48, first] + (rest + [KEY_END])
  {
    assert EncodeParts([Number(n)]) == EncodePart(Number(n)) + EncodeParts([]);
  }

  lemma LargerDigitLater(u: Text, v: Text)
    ensures !Below([48, 57] + u, [48, 49] + v)
  {
  }

  lemma LongCodeSortsFirst(m: nat, n: nat, width: nat)
    requires 0 < width == DIGITS && m == 9 * Pow10(width - 1) && n == Pow10(width)
    ensures m < n && !CodesSortAs(m, n)
  {
    PaddedTop(width);
    NumberCode(m, 57, Padded(0, width - 1));
    NumberCode(n, 49, Padded(0, width));
    LargerDigitLater(Padded(0, width - 1) + [KEY_END], Padded(0, width) + [KEY_END]);
    assert m < n;
    hide Padded, Pow10, Encode, Below;
  }

  /** Thirty digits are exactly enough: among numbers below a bound the codes sort as the numbers do if
      and only if the bound is at most ten to the thirtieth. */
  lemma PaddingExact(bound: nat)
    ensures (forall m: nat, n: nat :: m < bound && n < bound ==> CodesSortAs(m, n)) <==> bound <= Pow10(30)
  {
    if bound <= Pow10(DIGITS) {
      forall m: nat, n: nat | m < bound && n < bound
        ensures CodesSortAs(m, n)
      {
        ShortCodesSort(m, n);
      }
    } else {
      LongCodeSortsFirst(9 * Pow10(DIGITS - 1), Pow10(DIGITS), DIGITS);
    }
  }

  /** Keys of numbers below a bound and words of characters from a bound on. */
  ghost predicate PartWithin(p: Part, bound: nat, least: int) {
    match p
    case Number(n) => n < bound
    case Word(t) => forall i :: 0 <= i < |t| ==> t[i] >= least
  }

  ghost predicate KeyWithin(k: Key, bound: nat, least: int) {
    forall i :: 0 <= i < |k| ==> PartWithin(k[i], bound, least)
  }

  ghost predicate CodesAgree(a: Key, b: Key) {
    Below(Encode(a), Encode(b)) <==> KeyLess(a, b)
  }

  /** "a" sorts before "a" with U+0001 behind it, their codes the other way round. */
  lemma LowCharacterBreaksOrder()
    ensures !CodesAgree([Word([97])], [Word([97, 1])])
  {
    var (s, t) := ([Word([97])], [Word([97, 1])]);
    assert Encode(s) == [49, 97, 1, 2] && Encode(t) == [49, 97, 1, 1, 2] by {
      assert EncodeParts(s) == EncodePart(s[0]) && EncodeParts(t) == EncodePart(t[0]);
    }
    assert Below([97], [97, 1]) by { assert Below([], [1]); }
    BelowStrict(Encode(s), Encode(t));
    assert Below([1, 2], [2]) && Below([1, 1, 2], [1, 2]) && Below([97, 1, 1, 2], [97, 1, 2]);
    assert Encode(t)[1..] == [97, 1, 1, 2] && Encode(s)[1..] == [97, 1, 2];
  }

  lemma WithinAgree(a: Key, b: Key)
    requires KeyOk(a) && KeyOk(b)
    ensures CodesAgree(a, b)
  {
    FieldOrder(a, b, [], []);
    assert Encode(a) + [] == Encode(a) && Encode(b) + [] == Encode(b);
  }

  lemma NumbersAgree(m: nat, n: nat)
    ensures CodesAgree([Number(m)], [Number(n)]) <==> CodesSortAs(m, n)
  {
    var (a, b) := ([Number(m)], [Number(n)]);
    assert KeyLess(a, b) <==> m < n by { assert a[0] == Number(m) && b[0] == Number(n); }
    hide Encode, Below;
  }

  /** The limits of the stored order, exactly: the codes of all keys with numbers below one bound and characters
      from another on compare as the keys do if and only if the numbers stay below ten to the thirtieth and the
      characters above the terminator. */
  lemma KeysSortExactly(bound: nat, least: int)
    ensures (forall a, b :: KeyWithin(a, bound, least) && KeyWithin(b, bound, least) ==> CodesAgree(a, b)) <==>
      bound <= Pow10(30) && least > 1
  {
    if bound <= Pow10(DIGITS) && least > TEXT_END {
      forall a, b | KeyWithin(a, bound, least) && KeyWithin(b, bound, least)
        ensures CodesAgree(a, b)
      {
        assert forall i :: 0 <= i < |a| ==> PartWithin(a[i], bound, least);
        assert forall i :: 0 <= i < |b| ==> PartWithin(b[i], bound, least);
        hide CodesAgree;
        WithinAgree(a, b);
      }
    } else if bound > Pow10(DIGITS) {
      var (m, n) := (9 * Pow10(DIGITS - 1), Pow10(DIGITS));
      LongCodeSortsFirst(m, n, DIGITS);
      NumbersAgree(m, n);
      hide CodesAgree, CodesSortAs, Pow10;
      assert KeyWithin([Number(m)], bound, least) && KeyWithin([Number(n)], bound, least);
    } else {
      LowCharacterBreaksOrder();
      hide CodesAgree, Pow10;
      assert KeyWithin([Word([97])], bound, least) && KeyWithin([Word([97, 1])], bound, least);
    }
  }

  // ---- Fields that qualify -----------------------------------------------------------------

  lemma {:induction false} ValueBound(digits: Text)
    requires AllDigits(digits)
    ensures Value(digits) < Pow10(|digits|)
  {
    if digits != [] {
      ValueBound(digits[..|digits| - 1]);
    }
  }

  lemma {:induction false} Pow10Monotone(m: nat, n: nat)
    requires m <= n
    ensures Pow10(m) <= Pow10(n)
    decreases n
  {
    if m < n {
      Pow10Monotone(m, n - 1);
    }
  }

  ghost predicate Printable(s: Text) {
    forall i :: 0 <= i < |s| ==> s[i] > TEXT_END
  }

  /** Case folding invents no control characters. */
  ghost predicate TameFold(fold: Text -> Text) {
    forall s :: Printable(s) ==> Printable(fold(s))
  }

  ghost predicate ShortRuns(pieces: seq<Text>) {
    forall i :: 0 <= i < |pieces| ==> AllDigits(pieces[i]) ==> |pieces[i]| <= DIGITS
  }

  /** A field qualifies when it has no control characters and no run of more than thirty digits. */
  lemma {:induction false} FieldQualifies(fold: Text -> Text, s: Text)
    requires TameFold(fold) && Printable(s) && ShortRuns(Split(s))
    ensures KeyOk(NaturalKey(fold, s))
    decreases |s|
  {
    if s != [] {
      var (n, piece) := (RunLength(s), s[..RunLength(s)]);
      var rest := Split(s[n..]);
      assert Split(s)[0] == piece && Split(s)[1..] == rest;
      assert forall i :: 0 <= i < |rest| ==> rest[i] == Split(s)[i + 1];
      FieldQualifies(fold, s[n..]);
      if AllDigits(piece) {
        ValueBound(piece);
        Pow10Monotone(|piece|, DIGITS);
      } else {
        assert Printable(piece);
      }
      assert NaturalKey(fold, s) == [ToPart(fold, piece)] + NaturalKey(fold, s[n..]);
    }
  }

  // ---- Byte by byte ------------------------------------------------------------------------

  ghost predicate Character(c: int) {
    0 <= c < 0x11_0000
  }

  ghost predicate Characters(s: Text) {
    forall i :: 0 <= i < |s| ==> Character(s[i])
  }

  /** A marked lead byte and `tail` continuation bytes of six bits each. */
  function Tailed(mark: int, c: nat, tail: nat): (bytes: seq<int>)
    ensures bytes != []
    ensures tail == 0 ==> bytes[0] == mark + c
    ensures tail == 1 ==> bytes[0] == mark + c / 64
    ensures tail == 2 ==> bytes[0] == mark + c / 64 / 64
    ensures tail == 3 ==> bytes[0] == mark + c / 64 / 64 / 64
    decreases tail
  {
    if tail == 0 then [mark + c] else Tailed(mark, c / 64, tail - 1) + [0x80 + c % 64]
  }

  /** A code point in UTF-8. */
  function Utf8(c: nat): (bytes: seq<int>)
    ensures bytes != []
  {
    if c < 0x80 then Tailed(0, c, 0)
    else if c < 0x800 then Tailed(0xC0, c, 1)
    else if c < 0x1_0000 then Tailed(0xE0, c, 2)
    else Tailed(0xF0, c, 3)
  }

  function Bytes(s: Text): seq<int>
    requires Characters(s)
  {
    if s == [] then [] else Utf8(s[0]) + Bytes(s[1..])
  }

  lemma {:induction false} TailedApart(mark: int, c: nat, d: nat, tail: nat)
    requires c < d
    ensures Apart(Tailed(mark, c, tail), Tailed(mark, d, tail))
    decreases tail
  {
    if tail == 0 {
    } else if c / 64 < d / 64 {
      TailedApart(mark, c / 64, d / 64, tail - 1);
      ApartExtends(Tailed(mark, c / 64, tail - 1), Tailed(mark, d / 64, tail - 1), [0x80 + c % 64], [0x80 + d % 64]);
    } else {
      PrefixCancels(Tailed(mark, c / 64, tail - 1), [0x80 + c % 64], [0x80 + d % 64]);
    }
  }

  lemma LeadByte(c: nat)
    requires Character(c)
    ensures c < 0x80 ==> Utf8(c)[0] < 0x80
    ensures 0x80 <= c < 0x800 ==> 0xC0 <= Utf8(c)[0] < 0xE0
    ensures 0x800 <= c < 0x1_0000 ==> 0xE0 <= Utf8(c)[0] < 0xF0
    ensures 0x1_0000 <= c ==> 0xF0 <= Utf8(c)[0]
  {
  }

  lemma Utf8Apart(c: nat, d: nat)
    requires c < d && Character(d)
    ensures Apart(Utf8(c), Utf8(d))
  {
    if 0x1_0000 <= c {
      TailedApart(0xF0, c, d, 3);
    } else if 0x800 <= c && d < 0x1_0000 {
      TailedApart(0xE0, c, d, 2);
    } else if 0x80 <= c && d < 0x800 {
      TailedApart(0xC0, c, d, 1);
    } else {
      LeadByte(c);
      LeadByte(d);
      hide Tailed;
    }
  }

  lemma {:induction false} BytesBelow(a: Text, b: Text)
    requires Characters(a) && Characters(b) && Below(a, b)
    ensures Below(Bytes(a), Bytes(b))
    decreases |a|
  {
    if a == [] {
      assert Bytes(b) != [];
    } else if a[0] < b[0] {
      Utf8Apart(a[0], b[0]);
      ApartExtends(Utf8(a[0]), Utf8(b[0]), Bytes(a[1..]), Bytes(b[1..]));
    } else {
      BytesBelow(a[1..], b[1..]);
      PrefixCancels(Utf8(a[0]), Bytes(a[1..]), Bytes(b[1..]));
    }
  }

  /** Comparing the UTF-8 bytes is comparing the code points, and different texts have different bytes. */
  lemma BytesCompare(a: Text, b: Text)
    requires Characters(a) && Characters(b)
    ensures Below(Bytes(a), Bytes(b)) <==> Below(a, b)
    ensures Bytes(a) == Bytes(b) <==> a == b
  {
    BelowStrict(a, b);
    BelowStrict(Bytes(a), Bytes(b));
    if Below(a, b) {
      BytesBelow(a, b);
    } else if a != b {
      BytesBelow(b, a);
    }
  }

  // ---- The first volume of a series --------------------------------------------------------

  datatype Publication = Publication(number: Option<Text>, title: Text, filename: Text, id: Text)

  /** `number or title or filename`: an empty number counts as none. */
  function OrderKey(fold: Text -> Text, p: Publication): Order {
    var numbered := p.number.Some? && p.number.value != [];
    var primary := if numbered then p.number.value else if p.title != [] then p.title else p.filename;
    Order(if numbered then 0 else 1, NaturalKey(fold, primary), NaturalKey(fold, p.title),
      NaturalKey(fold, p.filename), p.id)
  }

  function SortKey(fold: Text -> Text, p: Publication): Text {
    EncodeOrder(OrderKey(fold, p))
  }

  ghost predicate FieldOk(s: Text) {
    Printable(s) && ShortRuns(Split(s))
  }

  /** Fields without control characters or runs of more than thirty digits. */
  ghost predicate Qualifies(fold: Text -> Text, p: Publication) {
    && TameFold(fold)
    && (p.number.Some? ==> FieldOk(p.number.value))
    && FieldOk(p.title)
    && FieldOk(p.filename)
    && Characters(SortKey(fold, p))
    && Characters(p.id)
  }

  lemma QualifiedOrder(fold: Text -> Text, p: Publication)
    requires Qualifies(fold, p)
    ensures OrderOk(OrderKey(fold, p))
  {
    FieldQualifies(fold, p.title);
    FieldQualifies(fold, p.filename);
    if p.number.Some? {
      FieldQualifies(fold, p.number.value);
    }
  }

  /** `ORDER BY sort_key, id`, both columns compared byte by byte. */
  ghost predicate RowBefore(fold: Text -> Text, p: Publication, q: Publication)
    requires Qualifies(fold, p) && Qualifies(fold, q)
  {
    || Below(Bytes(SortKey(fold, p)), Bytes(SortKey(fold, q)))
    || (Bytes(SortKey(fold, p)) == Bytes(SortKey(fold, q)) && Below(Bytes(p.id), Bytes(q.id)))
  }

  lemma {:induction false} OrderStrict(a: Order, b: Order)
    ensures OrderLess(a, b) ==> a != b && !OrderLess(b, a)
    ensures a != b ==> OrderLess(a, b) || OrderLess(b, a)
  {
    KeyLessStrict(a.primary, b.primary);
    KeyLessStrict(a.title, b.title);
    KeyLessStrict(a.filename, b.filename);
    KeysComparable(a.primary, b.primary);
    KeysComparable(a.title, b.title);
    KeysComparable(a.filename, b.filename);
    KeyLessStrict(b.primary, a.primary);
    KeyLessStrict(b.title, a.title);
    KeyLessStrict(b.filename, a.filename);
    BelowStrict(a.id, b.id);
    hide KeyLess, Below;
  }

  /** The database and the series page agree about any two volumes. */
  lemma RowsSortAsTuples(fold: Text -> Text, p: Publication, q: Publication)
    requires Qualifies(fold, p) && Qualifies(fold, q)
    ensures RowBefore(fold, p, q) <==> OrderLess(OrderKey(fold, p), OrderKey(fold, q))
  {
    var (a, b) := (OrderKey(fold, p), OrderKey(fold, q));
    QualifiedOrder(fold, p);
    QualifiedOrder(fold, q);
    SortKeyEmbeds(a, b);
    SortKeyEmbeds(b, a);
    BytesCompare(SortKey(fold, p), SortKey(fold, q));
    BytesCompare(p.id, q.id);
    BelowStrict(SortKey(fold, p), SortKey(fold, q));
    OrderStrict(a, b);
    BelowStrict(p.id, q.id);
    assert a.id == p.id && b.id == q.id && SortKey(fold, p) == EncodeOrder(a) && SortKey(fold, q) == EncodeOrder(b);
    hide Below, OrderLess, EncodeOrder, OrderKey, Bytes, SortKey, Qualifies, OrderOk;
  }

  ghost predicate Series(fold: Text -> Text, volumes: seq<Publication>) {
    && (forall i :: 0 <= i < |volumes| ==> Qualifies(fold, volumes[i]))
    && (forall i, j :: 0 <= i < j < |volumes| ==> volumes[i].id != volumes[j].id)
  }

  /** Python's `sorted`: nothing stands before something smaller. */
  ghost predicate SortedByTuple(fold: Text -> Text, volumes: seq<Publication>) {
    forall i, j :: 0 <= i < j < |volumes| ==> !OrderLess(OrderKey(fold, volumes[j]), OrderKey(fold, volumes[i]))
  }

  ghost predicate InRowOrder(fold: Text -> Text, volumes: seq<Publication>)
    requires Series(fold, volumes)
  {
    forall i, j :: 0 <= i < j < |volumes| ==> RowBefore(fold, volumes[i], volumes[j])
  }

  /** A series is sorted for the page exactly when its rows stand in the database's order; in particular the
      volume the series' cover is taken from is the page's first. */
  lemma CoverComesFromFirstVolume(fold: Text -> Text, volumes: seq<Publication>)
    requires Series(fold, volumes)
    ensures SortedByTuple(fold, volumes) <==> InRowOrder(fold, volumes)
  {
    forall i, j | 0 <= i < j < |volumes|
      ensures !OrderLess(OrderKey(fold, volumes[j]), OrderKey(fold, volumes[i])) <==>
        RowBefore(fold, volumes[i], volumes[j])
    {
      RowsSortAsTuples(fold, volumes[i], volumes[j]);
      OrderStrict(OrderKey(fold, volumes[i]), OrderKey(fold, volumes[j]));
      assert OrderKey(fold, volumes[i]).id != OrderKey(fold, volumes[j]).id;
    }
  }
}
