/**
 * `ListParser`: free text such as "bread, milk; cheese\napples" becomes the
 * list of product names. The text is split on runs of ',', ';' and newline,
 * each piece is trimmed, empty pieces are dropped and the rest capitalised.
 */
module ListParser {
  import opened Wrappers
  import opened Strings

  /** The characters of the class `[,;\n]`. */
  predicate IsSeparator(c: char) {
    c == ',' || c == ';' || c == '\n'
  }

  predicate NoSeparators(s: string) {
    forall i :: 0 <= i < |s| ==> !IsSeparator(s[i])
  }

  function CountSeparators(s: string): nat {
    if s == [] then 0 else (if IsSeparator(s[0]) then 1 else 0) + CountSeparators(s[1..])
  }

  // ---------------------------------------------------------------------------
  // `text.split("[,;\\n]+")`
  // ---------------------------------------------------------------------------

  /** The longest prefix of `s` that holds no separator. */
  function Token(s: string): (t: string)
    ensures |t| <= |s|
    ensures |t| < |s| ==> IsSeparator(s[|t|])
  {
    if s == [] || IsSeparator(s[0]) then [] else [s[0]] + Token(s[1..])
  }

  lemma {:induction false} TokenIsPrefix(s: string)
    ensures Token(s) == s[..|Token(s)|] && NoSeparators(Token(s))
  {
    if s != [] && !IsSeparator(s[0]) {
      TokenIsPrefix(s[1..]);
    }
  }

  /** `s` without its leading run of separators. */
  function SkipSeparators(s: string): (r: string)
    ensures |r| <= |s|
    ensures s != [] && IsSeparator(s[0]) ==> |r| < |s|
  {
    if s != [] && IsSeparator(s[0]) then SkipSeparators(s[1..]) else s
  }

  lemma {:induction false} SkipIsSuffix(s: string)
    ensures SkipSeparators(s) == s[|s| - |SkipSeparators(s)|..]
    ensures SkipSeparators(s) == [] || !IsSeparator(SkipSeparators(s)[0])
  {
    if s != [] && IsSeparator(s[0]) {
      SkipIsSuffix(s[1..]);
    }
  }

  /**
   * The pieces between maximal runs of separators, in order. A run at the
   * very start leaves an empty first piece and a run at the end an empty
   * last piece; a text without separators is one piece.
   */
  function Pieces(s: string): (ps: seq<string>)
    ensures |ps| >= 1
    decreases |s|
  {
    var t := Token(s);
    if |t| == |s| then [t] else [t] + Pieces(SkipSeparators(s[|t|..]))
  }

  lemma {:induction false} PiecesNoSeparators(s: string)
    ensures forall i :: 0 <= i < |Pieces(s)| ==> NoSeparators(Pieces(s)[i])
    decreases |s|
  {
    var t := Token(s);
    TokenIsPrefix(s);
    if |t| < |s| {
      PiecesNoSeparators(SkipSeparators(s[|t|..]));
    }
  }

  /** `ps` without its trailing empty strings, as `String.split` with no limit returns it. */
  function DropTrailingEmpty(ps: seq<string>): (r: seq<string>)
    ensures r <= ps
    ensures r == [] || r[|r| - 1] != []
    ensures forall i :: |r| <= i < |ps| ==> ps[i] == []
  {
    if ps == [] then []
    else if ps[|ps| - 1] == [] then DropTrailingEmpty(ps[..|ps| - 1])
    else ps
  }

  /** `text.split("[,;\\n]+")`. */
  function Split(s: string): seq<string> {
    DropTrailingEmpty(Pieces(s))
  }

  // ---------------------------------------------------------------------------
  // `.map(String::trim).filter(item -> !item.isEmpty())` and `capitalize`
  // ---------------------------------------------------------------------------

  /** Every piece trimmed, the empty results dropped, order kept. */
  function Clean(ps: seq<string>): (items: seq<string>)
    ensures |items| <= |ps|
    ensures forall i :: 0 <= i < |items| ==> items[i] != [] && IsTrimmed(items[i])
  {
    if ps == [] then [] else CleanPiece(ps[0]) + Clean(ps[1..])
  }

  /** One piece trimmed: nothing when it trims to empty, else the trimmed piece. */
  function CleanPiece(p: string): (items: seq<string>)
    ensures |items| <= 1
    ensures forall i :: 0 <= i < |items| ==> items[i] != [] && IsTrimmed(items[i])
  {
    var t := Trim(p);
    if t == [] then [] else [t]
  }

  /** Trimming keeps a piece free of separators. */
  lemma {:induction false} TrimNoSeparators(p: string)
    requires NoSeparators(p)
    ensures NoSeparators(Trim(p))
  {
    var t := Trim(p);
    forall i | 0 <= i < |t| ensures !IsSeparator(t[i]) {
      assert t[i] in t;
    }
  }

  /** Cleaning pieces free of separators leaves items free of separators. */
  lemma {:induction false} CleanNoSeparators(ps: seq<string>)
    requires forall i :: 0 <= i < |ps| ==> NoSeparators(ps[i])
    ensures forall i :: 0 <= i < |Clean(ps)| ==> NoSeparators(Clean(ps)[i])
    decreases |ps|
  {
    if ps != [] {
      TrimNoSeparators(ps[0]);
      CleanNoSeparators(ps[1..]);
    }
  }

  /** `capitalize`: the first character upper-cased, the rest lower-cased. */
  function Capitalize(s: string): (r: string)
    ensures |r| == |s|
    ensures s != [] ==> r[0] == UpperChar(s[0])
    ensures forall i :: 1 <= i < |s| ==> r[i] == LowerChar(s[i])
  {
    if s == [] then s else [UpperChar(s[0])] + LowerCase(s[1..])
  }

  /** Case mapping never turns a character into, or out of, a separator or a character `trim` strips. */
  lemma {:induction false} CaseMappingKeepsClass(c: char)
    ensures IsSeparator(UpperChar(c)) == IsSeparator(c) && IsSeparator(LowerChar(c)) == IsSeparator(c)
    ensures IsTrimmable(UpperChar(c)) == IsTrimmable(c) && IsTrimmable(LowerChar(c)) == IsTrimmable(c)
  {
  }

  function CapitalizeAll(items: seq<string>): (r: seq<string>)
    ensures |r| == |items|
    ensures forall i :: 0 <= i < |items| ==> r[i] == Capitalize(items[i])
  {
    seq(|items|, i requires 0 <= i < |items| => Capitalize(items[i]))
  }

  /** The stream pipeline on a text that is not blank. */
  function Items(s: string): seq<string> {
    CapitalizeAll(Clean(Split(s)))
  }

  // ---------------------------------------------------------------------------
  // `ListParser.parse`
  // ---------------------------------------------------------------------------

  /**
   * `parse`: `null` and blank text give no items; otherwise every item is
   * non-empty, holds no separator, has nothing `trim` would strip at either
   * end, and there are at most one more items than separators.
   */
  function Parse(text: Option<string>): (r: seq<string>)
    ensures text.None? || IsBlank(text.value) ==> r == []
    ensures forall i :: 0 <= i < |r| ==> r[i] != [] && NoSeparators(r[i]) && IsTrimmed(r[i])
    ensures text.Some? ==> |r| <= 1 + CountSeparators(text.value)
    ensures text.Some? && !IsBlank(text.value) && NoSeparators(text.value) ==>
      r == if Trim(text.value) == [] then [] else [Capitalize(Trim(text.value))]
  {
    if text.None? || IsBlank(text.value) then []
    else
      ItemsShape(text.value);
      ItemsOfPiece(text.value);
      Items(text.value)
  }

  /** A text without separators is one piece: its items are its trimmed text, capitalised, unless that is empty. */
  lemma ItemsOfPiece(w: string)
    ensures NoSeparators(w) ==> Items(w) == if Trim(w) == [] then [] else [Capitalize(Trim(w))]
  {
    if NoSeparators(w) {
      OnePiece(w);
    }
  }

  lemma OnePiece(w: string)
    requires NoSeparators(w)
    ensures Items(w) == if Trim(w) == [] then [] else [Capitalize(Trim(w))]
  {
    SplitOnePiece(w);
    if w == [] {
      assert IsTrimmed(w);
      assert Clean([]) == [];
    } else {
      var ps: seq<string> := [w];
      assert ps[1..] == [];
      var c := CleanPiece(w);
      assert Clean(ps) == c + Clean([]);
      assert Items(w) == CapitalizeAll(c);
    }
  }

  /** A text without separators splits into itself, or into nothing when it is empty. */
  lemma SplitOnePiece(w: string)
    requires NoSeparators(w)
    ensures Split(w) == if w == [] then [] else [w]
  {
    var t := Token(w);
    TokenIsPrefix(w);
    assert |t| == |w|;
    assert t == w;
    assert Pieces(w) == [w];
  }

  /**
   * Joining two texts that are not blank with a separator: the parsed
   * items are those of the first text followed by those of the second.
   */
  lemma ParseJoin(a: string, c: char, b: string)
    requires IsSeparator(c) && !IsBlank(a) && !IsBlank(b)
    ensures Parse(Some(a + [c] + b)) == Parse(Some(a)) + Parse(Some(b))
  {
    var i :| 0 <= i < |a| && !IsWhitespace(a[i]);
    assert (a + [c] + b)[i] == a[i];
    ItemsInOrder(a, c, b);
  }

  /** Capitalising keeps an item non-empty, free of separators and trimmed. */
  lemma CapitalizeKeepsShape(item: string)
    requires item != [] && NoSeparators(item) && IsTrimmed(item)
    ensures Capitalize(item) != [] && NoSeparators(Capitalize(item)) && IsTrimmed(Capitalize(item))
  {
    var r := Capitalize(item);
    CaseMappingKeepsClass(item[0]);
    CaseMappingKeepsClass(item[|item| - 1]);
    forall j | 0 <= j < |item| ensures !IsSeparator(r[j]) {
      CaseMappingKeepsClass(item[j]);
    }
  }

  /** The items of a text are non-empty, free of separators, trimmed, and at most one more than its separators. */
  lemma ItemsShape(s: string)
    ensures forall i :: 0 <= i < |Items(s)| ==> Items(s)[i] != [] && NoSeparators(Items(s)[i]) && IsTrimmed(Items(s)[i])
    ensures |Items(s)| <= 1 + CountSeparators(s)
  {
    var cleaned := Clean(Split(s));
    PiecesCount(s);
    PiecesNoSeparators(s);
    CleanNoSeparators(Split(s));
    forall i | 0 <= i < |cleaned| ensures Items(s)[i] == Capitalize(cleaned[i]) && Capitalize(cleaned[i]) != [] && NoSeparators(Capitalize(cleaned[i])) && IsTrimmed(Capitalize(cleaned[i])) {
      CapitalizeKeepsShape(cleaned[i]);
    }
  }

  // ---------------------------------------------------------------------------
  // The bound on the number of items
  // ---------------------------------------------------------------------------

  lemma {:induction false} CountSuffix(s: string, k: nat)
    requires k <= |s|
    ensures CountSeparators(s[k..]) <= CountSeparators(s)
    decreases k
  {
    if k > 0 {
      CountSuffix(s[1..], k - 1);
      assert s[1..][k - 1..] == s[k..];
    }
  }

  lemma {:induction false} CountPastToken(s: string, k: nat)
    requires k <= |s|
    requires forall i :: 0 <= i < k ==> !IsSeparator(s[i])
    ensures CountSeparators(s[k..]) == CountSeparators(s)
    decreases k
  {
    if k > 0 {
      CountPastToken(s[1..], k - 1);
      assert s[1..][k - 1..] == s[k..];
    }
  }

  /** Past the first token and the run of separators after it, at least one separator fewer remains. */
  lemma CountPastRun(s: string)
    requires |Token(s)| < |s|
    ensures CountSeparators(SkipSeparators(s[|Token(s)|..])) < CountSeparators(s)
  {
    var t := Token(s);
    var tail := s[|t|..];
    var rest := SkipSeparators(tail);
    TokenIsPrefix(s);
    assert forall i :: 0 <= i < |t| ==> s[i] == t[i];
    CountPastToken(s, |t|);
    assert CountSeparators(tail) == 1 + CountSeparators(tail[1..]);
    SkipIsSuffix(tail);
    assert tail[1..][|tail| - |rest| - 1..] == rest;
    CountSuffix(tail[1..], |tail| - |rest| - 1);
  }

  /** A text with `n` separators splits into at most `n + 1` pieces. */
  lemma {:induction false} PiecesCount(s: string)
    ensures |Pieces(s)| <= 1 + CountSeparators(s)
    decreases |s|
  {
    var t := Token(s);
    if |t| < |s| {
      var rest := SkipSeparators(s[|t|..]);
      CountPastRun(s);
      assert Pieces(s) == [t] + Pieces(rest);
      PiecesCount(rest);
    }
  }

  // ---------------------------------------------------------------------------
  // Order: the items of a text are the items of its parts, part by part
  // ---------------------------------------------------------------------------

  lemma {:induction false} CleanConcat(x: seq<string>, y: seq<string>)
    ensures Clean(x + y) == Clean(x) + Clean(y)
    decreases |x|
  {
    if x == [] {
      assert x + y == y;
    } else {
      assert (x + y)[0] == x[0];
      assert (x + y)[1..] == x[1..] + y;
      CleanConcat(x[1..], y);
    }
  }

  /** Some piece of `ps` trims to `x`. */
  predicate TrimsTo(ps: seq<string>, x: string) {
    exists j :: 0 <= j < |ps| && x == Trim(ps[j])
  }

  /**
   * What cleaning keeps: exactly the pieces that do not trim to empty,
   * trimmed. `CleanConcat` adds the order.
   */
  lemma {:induction false} CleanContents(ps: seq<string>)
    ensures forall x :: x in Clean(ps) <==> x != [] && TrimsTo(ps, x)
  {
    if ps == [] {
      assert Clean(ps) == [];
    } else {
      CleanContents(ps[1..]);
      forall x ensures x in Clean(ps) <==> x != [] && TrimsTo(ps, x) {
        CleanContentsStep(ps, x);
      }
    }
  }

  lemma CleanContentsStep(ps: seq<string>, x: string)
    requires ps != []
    requires x in Clean(ps[1..]) <==> x != [] && TrimsTo(ps[1..], x)
    ensures x in Clean(ps) <==> x != [] && TrimsTo(ps, x)
  {
    var head := CleanPiece(ps[0]);
    var rest := Clean(ps[1..]);
    assert Clean(ps) == head + rest;
    if TrimsTo(ps, x) {
      var j :| 0 <= j < |ps| && x == Trim(ps[j]);
      if j > 0 {
        assert ps[1..][j - 1] == ps[j];
      }
    }
    if TrimsTo(ps[1..], x) {
      var j :| 0 <= j < |ps[1..]| && x == Trim(ps[1..][j]);
      assert x == Trim(ps[j + 1]);
    }
  }

  lemma CleanEmptyPiece()
    ensures Clean([[]]) == []
  {
    var e: string := [];
    var ps: seq<string> := [e];
    assert IsTrimmed(e);
    assert Trim(e) == e;
    assert CleanPiece(e) == [];
    assert ps[1..] == [];
    assert Clean(ps) == CleanPiece(ps[0]) + Clean(ps[1..]);
  }

  lemma {:induction false} CleanDropTrailing(ps: seq<string>)
    ensures Clean(DropTrailingEmpty(ps)) == Clean(ps)
    decreases |ps|
  {
    if ps != [] && ps[|ps| - 1] == [] {
      var init := ps[..|ps| - 1];
      var empty: seq<string> := [[]];
      assert DropTrailingEmpty(ps) == DropTrailingEmpty(init);
      CleanDropTrailing(init);
      assert ps == init + empty;
      CleanConcat(init, empty);
      CleanEmptyPiece();
      assert Clean(ps) == Clean(init) + [];
    }
  }

  /** A text that opens with a separator has an empty first piece. */
  lemma PiecesLeadingRun(b: string)
    requires b != [] && IsSeparator(b[0])
    ensures Pieces(b) == [[]] + Pieces(SkipSeparators(b))
  {
    assert Token(b) == [];
    assert b[0..] == b;
  }

  lemma CleanEmptyHead(later: seq<string>)
    ensures Clean([[]] + later) == Clean(later)
  {
    CleanConcat([[]], later);
    assert Clean([[]]) == [];
  }

  /** A leading run of separators only adds an empty first piece, which cleaning drops. */
  lemma PiecesSkip(b: string)
    ensures Clean(Pieces(SkipSeparators(b))) == Clean(Pieces(b))
  {
    if b != [] && IsSeparator(b[0]) {
      PiecesLeadingRun(b);
      CleanEmptyHead(Pieces(SkipSeparators(b)));
    } else {
      assert SkipSeparators(b) == b;
    }
  }

  lemma {:induction false} TokenConcat(a: string, y: string)
    requires |Token(a)| < |a|
    ensures Token(a + y) == Token(a)
    decreases |a|
  {
    if !IsSeparator(a[0]) {
      assert (a + y)[1..] == a[1..] + y;
      TokenConcat(a[1..], y);
    }
  }

  lemma {:induction false} TokenWhole(a: string, y: string)
    requires NoSeparators(a)
    requires y != [] && IsSeparator(y[0])
    ensures Token(a + y) == a
    decreases |a|
  {
    if a != [] {
      assert (a + y)[1..] == a[1..] + y;
      TokenWhole(a[1..], y);
    } else {
      assert a + y == y;
    }
  }

  lemma {:induction false} SkipConcat(r: string, y: string)
    ensures SkipSeparators(r + y) == if SkipSeparators(r) == [] then SkipSeparators(y) else SkipSeparators(r) + y
    decreases |r|
  {
    if r == [] {
      assert r + y == y;
    } else if IsSeparator(r[0]) {
      assert (r + y)[1..] == r[1..] + y;
      SkipConcat(r[1..], y);
    }
  }

  lemma SkipLeadingSeparator(c: char, b: string)
    requires IsSeparator(c)
    ensures SkipSeparators([c] + b) == SkipSeparators(b)
  {
    assert ([c] + b)[1..] == b;
  }

  /** When `a` holds no separator, `a` is the first piece of `a + [c] + b`. */
  lemma PiecesAfterWholeToken(a: string, c: char, b: string)
    requires |Token(a)| == |a| && IsSeparator(c)
    ensures Pieces(a + [c] + b) == [a] + Pieces(SkipSeparators(b))
  {
    var s := a + [c] + b;
    TokenIsPrefix(a);
    TokenWhole(a, [c] + b);
    assert s == a + ([c] + b);
    assert s[|a|..] == [c] + b;
    SkipLeadingSeparator(c, b);
  }

  /** When `a` holds a separator, the first piece of `a + y` is the first piece of `a`. */
  lemma PiecesAfterShortToken(a: string, y: string)
    requires |Token(a)| < |a|
    ensures Pieces(a + y) == [Token(a)] + Pieces(SkipSeparators(a[|Token(a)|..] + y))
  {
    var t := Token(a);
    TokenConcat(a, y);
    assert (a + y)[|t|..] == a[|t|..] + y;
  }

  /** The base case: `a` is one piece. */
  lemma PiecesConcatWhole(a: string, c: char, b: string)
    requires |Token(a)| == |a| && IsSeparator(c)
    ensures Clean(Pieces(a + [c] + b)) == Clean(Pieces(a)) + Clean(Pieces(b))
  {
    PiecesAfterWholeToken(a, c, b);
    TokenIsPrefix(a);
    assert a[..|a|] == a;
    assert Pieces(a) == [a];
    CleanConcat([a], Pieces(SkipSeparators(b)));
    PiecesSkip(b);
  }

  /** The other base case: `a` is one piece followed by a run of separators. */
  lemma PiecesConcatTrailingRun(a: string, c: char, b: string)
    requires |Token(a)| < |a| && IsSeparator(c)
    requires SkipSeparators(a[|Token(a)|..]) == []
    ensures Clean(Pieces(a + [c] + b)) == Clean(Pieces(a)) + Clean(Pieces(b))
  {
    var t := Token(a);
    var y := [c] + b;
    assert a + [c] + b == a + y;
    PiecesAfterShortToken(a, y);
    SkipConcat(a[|t|..], y);
    SkipLeadingSeparator(c, b);
    assert Pieces(a + [c] + b) == [t] + Pieces(SkipSeparators(b));
    CleanConcat([t], Pieces(SkipSeparators(b)));
    PiecesSkip(b);
    assert Pieces(a) == [t] + [[]];
    CleanConcat([t], [[]]);
    assert Clean([[]]) == [];
  }

  /** The inductive step: `a` is a first piece, a run of separators and a non-empty rest `u`. */
  lemma PiecesConcatStep(a: string, c: char, b: string)
    requires |Token(a)| < |a| && IsSeparator(c)
    requires SkipSeparators(a[|Token(a)|..]) != []
    ensures |SkipSeparators(a[|Token(a)|..])| < |a|
    ensures Pieces(a) == [Token(a)] + Pieces(SkipSeparators(a[|Token(a)|..]))
    ensures Pieces(a + [c] + b) == [Token(a)] + Pieces(SkipSeparators(a[|Token(a)|..]) + [c] + b)
  {
    var t := Token(a);
    var y := [c] + b;
    var r := a[|t|..];
    var u := SkipSeparators(r);
    assert a + [c] + b == a + y;
    PiecesAfterShortToken(a, y);
    SkipConcat(r, y);
    assert u + y == u + [c] + b;
  }

  /** Cutting at one separator: the pieces of `a + [c] + b` clean to those of `a` followed by those of `b`. */
  lemma {:induction false} PiecesConcat(a: string, c: char, b: string)
    requires IsSeparator(c)
    ensures Clean(Pieces(a + [c] + b)) == Clean(Pieces(a)) + Clean(Pieces(b))
    decreases |a|
  {
    var t := Token(a);
    if |t| == |a| {
      PiecesConcatWhole(a, c, b);
    } else if SkipSeparators(a[|t|..]) == [] {
      PiecesConcatTrailingRun(a, c, b);
    } else {
      var u := SkipSeparators(a[|t|..]);
      PiecesConcatStep(a, c, b);
      CleanConcat([t], Pieces(u));
      CleanConcat([t], Pieces(u + [c] + b));
      PiecesConcat(u, c, b);
      ConcatAssoc(Clean([t]), Clean(Pieces(u)), Clean(Pieces(b)));
    }
  }

  lemma {:induction false} CapitalizeAllConcat(x: seq<string>, y: seq<string>)
    ensures CapitalizeAll(x + y) == CapitalizeAll(x) + CapitalizeAll(y)
  {
  }

  /**
   * Items keep the order of the text: the items of two texts joined by a
   * separator are the items of the first followed by the items of the second.
   */
  lemma {:induction false} ItemsInOrder(a: string, c: char, b: string)
    requires IsSeparator(c)
    ensures Items(a + [c] + b) == Items(a) + Items(b)
  {
    CleanDropTrailing(Pieces(a + [c] + b));
    CleanDropTrailing(Pieces(a));
    CleanDropTrailing(Pieces(b));
    PiecesConcat(a, c, b);
    CapitalizeAllConcat(Clean(Pieces(a)), Clean(Pieces(b)));
  }

  // ---------------------------------------------------------------------------
  // `capitalize` is a normal form
  // ---------------------------------------------------------------------------

  lemma CaseMappingIdempotent(c: char)
    ensures UpperChar(UpperChar(c)) == UpperChar(c) && LowerChar(LowerChar(c)) == LowerChar(c)
  {
  }

  /** Capitalising twice is capitalising once. */
  lemma {:induction false} CapitalizeIdempotent(s: string)
    ensures Capitalize(Capitalize(s)) == Capitalize(s)
  {
    var r := Capitalize(s);
    var rr := Capitalize(r);
    forall i | 0 <= i < |s| ensures rr[i] == r[i] {
      CaseMappingIdempotent(s[i]);
    }
  }
}
