/** What the reading order means, written out on the texts themselves: which pieces a text has, how they compare, and
    which of two volumes comes first. */
module VolumeOrder {
  import opened Common
  import opened Ordering

  // ---- Pieces ------------------------------------------------------------------------------

  /** Runs of digits and runs of other characters in turn, that together are the text. */
  ghost predicate Pieces(s: Text, pieces: seq<Text>) {
    && Flatten(pieces) == s
    && (forall i :: 0 <= i < |pieces| ==> Pure(pieces[i]))
    && (forall i :: 0 < i < |pieces| ==> Turns(pieces[i - 1], pieces[i]))
  }

  lemma RunEnds(s: Text, n: nat)
    requires 0 < n <= |s| && Pure(s[..n]) && (n < |s| ==> IsDigit(s[n]) != IsDigit(s[0]))
    ensures RunLength(s) == n
  {
    var r := RunLength(s);
    hide IsDigit, RunLength;
    assert forall i :: 0 <= i < n ==> s[..n][i] == s[i];
  }

  lemma {:induction false} PiecesAreSplit(s: Text, pieces: seq<Text>)
    requires Pieces(s, pieces)
    ensures pieces == Split(s)
    decreases |pieces|
  {
    if pieces != [] {
      var (first, rest) := (pieces[0], pieces[1..]);
      assert s == first + Flatten(rest) && s[..|first|] == first && s[|first|..] == Flatten(rest);
      if rest != [] {
        assert Turns(pieces[0], pieces[1]) && Pure(rest[0]) && Flatten(rest)[0] == rest[0][0] == s[|first|];
      }
      RunEnds(s, |first|);
      assert forall i :: 0 <= i < |rest| ==> rest[i] == pieces[i + 1];
      forall i | 0 < i < |rest| ensures Turns(rest[i - 1], rest[i]) {
        assert Turns(pieces[i], pieces[i + 1]);
      }
      hide Turns, Pure;
      PiecesAreSplit(s[|first|..], rest);
      FirstPiece(s);
      assert pieces == [first] + rest;
    }
  }

  /** A text has one such list of pieces, and `Split` finds it. */
  lemma SplitExactly(s: Text, pieces: seq<Text>)
    ensures pieces == Split(s) <==> Pieces(s, pieces)
  {
    SplitIsFaithful(s);
    if Pieces(s, pieces) {
      PiecesAreSplit(s, pieces);
    }
  }

  // ---- Numbers -----------------------------------------------------------------------------

  /** A run of digits is the decimal writing of its value, zeros in front included. */
  lemma {:induction false} DigitsSpellValue(digits: Text)
    requires AllDigits(digits)
    ensures digits == Padded(Value(digits), |digits|)
  {
    if digits != [] {
      var (init, last) := (digits[..|digits| - 1], digits[|digits| - 1]);
      assert IsDigit(last);
      DigitsSpellValue(init);
      assert Value(digits) / 10 == Value(init) && Value(digits) % 10 == last - 48;
      assert digits == init + [last];
    }
  }

  /** However many zeros a number is written with, its value is the number. */
  lemma {:induction false} ValueReadsNumber(n: nat, width: nat)
    ensures AllDigits(Padded(n, width)) && Value(Padded(n, width)) == n
    decreases width, n
  {
    if width > 0 || n > 0 {
      var shorter := if width > 0 then width - 1 else 0;
      ValueReadsNumber(n / 10, shorter);
      var all := Padded(n, width);
      assert all == Padded(n / 10, shorter) + [48 + n % 10];
      assert all[..|all| - 1] == Padded(n / 10, shorter);
    }
  }

  // ---- Comparing texts ---------------------------------------------------------------------

  /** Numbers before words; numbers by value, words by their folded characters. */
  ghost predicate PieceBefore(fold: Text -> Text, a: Text, b: Text) {
    if AllDigits(a) && AllDigits(b) then exists m: nat, n: nat :: m < n && Spells(a, m) && Spells(b, n)
    else if AllDigits(a) || AllDigits(b) then AllDigits(a)
    else Below(fold(a), fold(b))
  }

  ghost predicate PieceSame(fold: Text -> Text, a: Text, b: Text) {
    if AllDigits(a) && AllDigits(b) then exists n: nat :: Spells(a, n) && Spells(b, n)
    else !AllDigits(a) && !AllDigits(b) && fold(a) == fold(b)
  }

  /** The text is the number in decimal, with any zeros in front. */
  ghost predicate Spells(text: Text, n: nat) {
    text == Padded(n, |text|)
  }

  ghost predicate AllSame(fold: Text -> Text, a: seq<Text>, b: seq<Text>) {
    |a| == |b| && forall j :: 0 <= j < |a| ==> PieceSame(fold, a[j], b[j])
  }

  /** The first piece in which the lists differ decides, and of two that agree as far as they go the shorter is
      first. */
  ghost predicate DecidedAt(fold: Text -> Text, a: seq<Text>, b: seq<Text>, i: nat) {
    && i <= |a| && i < |b|
    && AllSame(fold, a[..i], b[..i])
    && (i == |a| || PieceBefore(fold, a[i], b[i]))
  }

  ghost predicate NaturalBefore(fold: Text -> Text, s: Text, t: Text) {
    exists i: nat :: DecidedAt(fold, Split(s), Split(t), i)
  }

  ghost predicate NaturalSame(fold: Text -> Text, s: Text, t: Text) {
    AllSame(fold, Split(s), Split(t))
  }

  lemma SpellsValue(text: Text, n: nat)
    requires AllDigits(text)
    ensures Spells(text, n) <==> n == Value(text)
  {
    DigitsSpellValue(text);
    ValueReadsNumber(n, |text|);
  }

  lemma PartsCompare(fold: Text -> Text, a: Text, b: Text)
    ensures PieceBefore(fold, a, b) <==> PartLess(ToPart(fold, a), ToPart(fold, b))
    ensures PieceSame(fold, a, b) <==> ToPart(fold, a) == ToPart(fold, b)
  {
    if AllDigits(a) && AllDigits(b) {
      SpellsValue(a, Value(a));
      SpellsValue(b, Value(b));
      SpellsValue(b, Value(a));
      forall m: nat, n: nat | Spells(a, m) && Spells(b, n)
        ensures m == Value(a) && n == Value(b)
      {
        SpellsValue(a, m);
        SpellsValue(b, n);
      }
      hide Spells, Value;
    }
  }

  lemma {:induction false} SameParts(fold: Text -> Text, a: seq<Text>, b: seq<Text>)
    ensures AllSame(fold, a, b) <==> ToParts(fold, a) == ToParts(fold, b)
  {
    hide PieceSame, ToPart;
    if a != [] && b != [] {
      SameParts(fold, a[1..], b[1..]);
      PartsCompare(fold, a[0], b[0]);
      SameStep(fold, a, b);
      var (x, y) := (ToParts(fold, a), ToParts(fold, b));
      assert x[0] == ToPart(fold, a[0]) && y[0] == ToPart(fold, b[0]);
      assert x[1..] == ToParts(fold, a[1..]) && y[1..] == ToParts(fold, b[1..]);
      assert x == [x[0]] + x[1..] && y == [y[0]] + y[1..];
    }
  }

  lemma SameStep(fold: Text -> Text, a: seq<Text>, b: seq<Text>)
    requires a != [] && b != []
    ensures AllSame(fold, a, b) <==> PieceSame(fold, a[0], b[0]) && AllSame(fold, a[1..], b[1..])
  {
    hide PieceSame;
    if PieceSame(fold, a[0], b[0]) && AllSame(fold, a[1..], b[1..]) {
      forall j | 0 <= j < |a| ensures PieceSame(fold, a[j], b[j]) {
        assert j > 0 ==> PieceSame(fold, a[1..][j - 1], b[1..][j - 1]);
      }
    }
    if AllSame(fold, a, b) {
      assert PieceSame(fold, a[0], b[0]);
      forall j | 0 <= j < |a| - 1 ensures PieceSame(fold, a[1..][j], b[1..][j]) {
        assert PieceSame(fold, a[j + 1], b[j + 1]);
      }
    }
  }

  lemma DecidedLater(fold: Text -> Text, a: seq<Text>, b: seq<Text>, i: nat)
    requires a != [] && b != []
    ensures DecidedAt(fold, a, b, i + 1) <==> PieceSame(fold, a[0], b[0]) && DecidedAt(fold, a[1..], b[1..], i)
    ensures DecidedAt(fold, a, b, 0) <==> PieceBefore(fold, a[0], b[0])
  {
    hide PieceSame, PieceBefore;
    if i + 1 <= |a| && i + 1 < |b| {
      var (x, y) := (a[..i + 1], b[..i + 1]);
      SameStep(fold, x, y);
      assert x[1..] == a[1..][..i] && y[1..] == b[1..][..i] && x[0] == a[0] && y[0] == b[0];
    }
    hide AllSame;
  }

  lemma {:induction false} KeyLessIfDecided(fold: Text -> Text, a: seq<Text>, b: seq<Text>, i: nat)
    requires DecidedAt(fold, a, b, i)
    ensures KeyLess(ToParts(fold, a), ToParts(fold, b))
  {
    if a != [] {
      PartsCompare(fold, a[0], b[0]);
      hide PieceSame, PieceBefore, PartLess, ToPart;
      if i > 0 {
        DecidedLater(fold, a, b, i - 1);
        KeyLessIfDecided(fold, a[1..], b[1..], i - 1);
      } else {
        DecidedLater(fold, a, b, 0);
      }
    }
  }

  lemma {:induction false} DecidedIfKeyLess(fold: Text -> Text, a: seq<Text>, b: seq<Text>) returns (i: nat)
    requires KeyLess(ToParts(fold, a), ToParts(fold, b))
    ensures DecidedAt(fold, a, b, i)
  {
    hide PieceSame, PieceBefore, PartLess, ToPart;
    i := 0;
    if a != [] {
      PartsCompare(fold, a[0], b[0]);
      DecidedLater(fold, a, b, 0);
      var (x, y) := (ToParts(fold, a), ToParts(fold, b));
      assert x[1..] == ToParts(fold, a[1..]) && y[1..] == ToParts(fold, b[1..]);
      if !PartLess(x[0], y[0]) {
        var later := DecidedIfKeyLess(fold, a[1..], b[1..]);
        DecidedLater(fold, a, b, later);
        i := later + 1;
      }
    }
  }

  /** Natural keys compare as the texts' pieces do. */
  lemma NaturalKeysCompare(fold: Text -> Text, s: Text, t: Text)
    ensures KeyLess(NaturalKey(fold, s), NaturalKey(fold, t)) <==> NaturalBefore(fold, s, t)
    ensures NaturalKey(fold, s) == NaturalKey(fold, t) <==> NaturalSame(fold, s, t)
  {
    SameParts(fold, Split(s), Split(t));
    hide AllSame, Split, ToParts, KeyLess, DecidedAt;
    if KeyLess(ToParts(fold, Split(s)), ToParts(fold, Split(t))) {
      var i := DecidedIfKeyLess(fold, Split(s), Split(t));
    }
    if i: nat :| DecidedAt(fold, Split(s), Split(t), i) {
      KeyLessIfDecided(fold, Split(s), Split(t), i);
    }
  }

  // ---- Comparing volumes -------------------------------------------------------------------

  /** A volume has a number unless it is missing or empty. */
  predicate HasNumber(p: Publication) {
    p.number.Some? && p.number.value != []
  }

  /** Of two volumes on a par otherwise: natural order of title, then of file name, then the identifier. */
  ghost predicate TieBroken(fold: Text -> Text, p: Publication, q: Publication) {
    || NaturalBefore(fold, p.title, q.title)
    || (NaturalSame(fold, p.title, q.title)
        && (NaturalBefore(fold, p.filename, q.filename)
            || (NaturalSame(fold, p.filename, q.filename) && Below(p.id, q.id))))
  }

  /** The text an unnumbered volume goes by. */
  ghost predicate GoesBy(p: Publication, text: Text) {
    (p.title != [] ==> text == p.title) && (p.title == [] ==> text == p.filename)
  }

  /** Numbered volumes come before unnumbered ones; numbered ones in the natural order of their numbers, unnumbered ones
      of their titles, or of the file name where there is no title; and ties are broken by title, file name and
      identifier. */
  ghost predicate ComesBefore(fold: Text -> Text, p: Publication, q: Publication) {
    if HasNumber(p) && HasNumber(q) then
      || NaturalBefore(fold, p.number.value, q.number.value)
      || (NaturalSame(fold, p.number.value, q.number.value) && TieBroken(fold, p, q))
    else if HasNumber(p) || HasNumber(q) then HasNumber(p)
    else
      exists a, b :: GoesBy(p, a) && GoesBy(q, b) &&
        (NaturalBefore(fold, a, b) || (NaturalSame(fold, a, b) && TieBroken(fold, p, q)))
  }

  /** The tuple the series page sorts by orders any two volumes as described. */
  lemma TupleOrdersVolumes(fold: Text -> Text, p: Publication, q: Publication)
    ensures OrderLess(OrderKey(fold, p), OrderKey(fold, q)) <==> ComesBefore(fold, p, q)
  {
    NaturalKeysCompare(fold, p.title, q.title);
    NaturalKeysCompare(fold, p.filename, q.filename);
    if HasNumber(p) && HasNumber(q) {
      NaturalKeysCompare(fold, p.number.value, q.number.value);
    } else {
      var a := if p.title != [] then p.title else p.filename;
      var b := if q.title != [] then q.title else q.filename;
      NaturalKeysCompare(fold, a, b);
      assert GoesBy(p, a) && GoesBy(q, b);
    }
    hide NaturalBefore, NaturalSame, NaturalKey, KeyLess, Below;
  }

  /** So does `ORDER BY sort_key, id`. */
  lemma RowsOrderVolumes(fold: Text -> Text, p: Publication, q: Publication)
    requires Qualifies(fold, p) && Qualifies(fold, q)
    ensures RowBefore(fold, p, q) <==> ComesBefore(fold, p, q)
  {
    RowsSortAsTuples(fold, p, q);
    TupleOrdersVolumes(fold, p, q);
    hide RowBefore, ComesBefore, OrderLess, OrderKey;
  }

  lemma OnePiece(digits: Text)
    requires digits != [] && AllDigits(digits)
    ensures Split(digits) == [digits]
  {
    assert Flatten([digits]) == digits + Flatten([]);
    assert Pieces(digits, [digits]);
    SplitExactly(digits, [digits]);
  }

  lemma NumberKey(fold: Text -> Text, text: Text, n: nat)
    requires text != [] && Spells(text, n)
    ensures NaturalKey(fold, text) == [Number(n)]
  {
    ValueReadsNumber(n, |text|);
    OnePiece(text);
    hide Split, Padded;
    assert ToParts(fold, [text]) == [ToPart(fold, text)] + ToParts(fold, []);
  }

  lemma NumbersCompare(fold: Text -> Text, s: Text, t: Text, m: nat, n: nat)
    requires s != [] && Spells(s, m) && t != [] && Spells(t, n)
    ensures NaturalBefore(fold, s, t) <==> m < n
    ensures NaturalSame(fold, s, t) <==> m == n
  {
    NumberKey(fold, s, m);
    NumberKey(fold, t, n);
    NaturalKeysCompare(fold, s, t);
    hide Spells, NaturalBefore, NaturalSame, NaturalKey;
    assert KeyLess([Number(m)], [Number(n)]) <==> m < n;
  }

  /** Plain numbers order volumes by value, whatever zeros they are written with: "2" before "010". */
  lemma ByNumber(fold: Text -> Text, p: Publication, q: Publication, m: nat, n: nat)
    requires HasNumber(p) && Spells(p.number.value, m) && HasNumber(q) && Spells(q.number.value, n)
    ensures m < n ==> ComesBefore(fold, p, q) && !ComesBefore(fold, q, p)
    ensures m == n ==> (ComesBefore(fold, p, q) <==> TieBroken(fold, p, q))
  {
    NumbersCompare(fold, p.number.value, q.number.value, m, n);
    NumbersCompare(fold, q.number.value, p.number.value, n, m);
    hide Spells, NaturalBefore, NaturalSame, TieBroken;
  }
}
