/** More layout changes no lookup: blanks, or a closed comment, put in after a
    blank or '=' that the parser itself takes as one. */
module TextInsertion {
  import opened Wrappers
  import opened TextSpec
  import opened TextLayout

  // ---------------------------------------------- shifting a whole text

  lemma {:induction false} ShiftComment(t: string, p: nat, u: string, q: nat)
    requires 1 <= p <= |t| && 1 <= q <= |u| && t[p..] == u[q..]
    requires t[p - 1] == '*' <==> u[q - 1] == '*'
    ensures match CommentEnd(t, p) {
              case None => CommentEnd(u, q).None?
              case Some(e) => p <= e && CommentEnd(u, q) == Some(e - p + q) }
    decreases |t| - p
  {
    assert |t| - p == |u| - q;
    CommentEndBounds(t, p);
    if p < |t| {
      assert t[p] == t[p..][0] == u[q];
      assert t[p + 1..] == t[p..][1..] == u[q + 1..];
      if !(t[p - 1] == '*' && t[p] == '/') {
        ShiftComment(t, p + 1, u, q + 1);
      }
    }
  }

  lemma {:induction false} ShiftEnds(t: string, p: nat, u: string, q: nat)
    requires p <= |t| && q <= |u| && t[p..] == u[q..]
    ensures match LineEnd(t, p) {
              case None => LineEnd(u, q).None? case Some(e) => p <= e && LineEnd(u, q) == Some(e - p + q) }
    ensures match WordEnd(t, p) {
              case None => WordEnd(u, q).None? case Some(e) => p <= e && WordEnd(u, q) == Some(e - p + q) }
    ensures match QuoteEnd(t, p) {
              case None => QuoteEnd(u, q).None? case Some(e) => p <= e && QuoteEnd(u, q) == Some(e - p + q) }
    decreases |t| - p
  {
    assert |t| - p == |u| - q;
    if p < |t| {
      assert t[p] == t[p..][0] == u[q];
      assert t[p + 1..] == t[p..][1..] == u[q + 1..];
      ShiftEnds(t, p + 1, u, q + 1);
    }
  }

  // Both positions see the same text ahead, and the same as far as comments go
  // behind.
  predicate Alike(t: string, p: nat, u: string, q: nat) {
    && 1 <= p <= |t| && 1 <= q <= |u| && t[p..] == u[q..]
    && (t[p - 1] == '*' <==> u[q - 1] == '*')
  }

  lemma AlikeStep(t: string, p: nat, u: string, q: nat, n: nat)
    requires Alike(t, p, u, q) && 0 < n <= |t| - p
    ensures q + n <= |u| && Alike(t, p + n, u, q + n)
    ensures t[p..p + n] == u[q..q + n]
  {
    assert t[p + n..] == t[p..][n..] == u[q + n..];
    assert t[p..p + n] == t[p..][..n] == u[q..q + n];
    assert t[p + n - 1] == t[p..][n - 1] == u[q + n - 1];
  }

  lemma ShiftLexeme(t: string, p: nat, u: string, q: nat)
    requires Alike(t, p, u, q)
    ensures LexemeAt(t, p) == LexemeAt(u, q)
  {
    assert |t| - p == |u| - q;
    if p < |t| {
      AlikeStep(t, p, u, q, 1);
      assert t[p] == t[p..][0] == u[q];
    }
    if p + 1 < |t| {
      assert t[p + 1] == t[p..][1] == u[q + 1];
    }
    ShiftComment(t, p, u, q);
    ShiftEnds(t, p, u, q);
    hide CommentEnd, LineEnd;
  }

  lemma ShiftWord(t: string, p: nat, u: string, q: nat)
    requires Alike(t, p, u, q) && LexemeAt(t, p) == Start
    ensures LexemeAt(u, q) == Start
    ensures match WordFrom(t, p) {
              case None => WordFrom(u, q).None? case Some(e) => WordFrom(u, q) == Some(e - p + q) }
  {
    ShiftLexeme(t, p, u, q);
    ShiftEnds(t, p, u, q);
    assert t[p] == t[p..][0] == u[q];
    hide LexemeAt, WordEnd;
  }

  lemma {:induction false} ShiftSkip(t: string, p: nat, u: string, q: nat)
    requires Alike(t, p, u, q)
    ensures match SkipFrom(t, p) {
              case Overrun => SkipFrom(u, q) == Overrun
              case Stop(r) => SkipFrom(u, q) == Stop(r - p + q)
              case At(r) => SkipFrom(u, q) == At(r - p + q) && Alike(t, r, u, r - p + q) }
    decreases |t| - p
  {
    hide Alike, LexemeAt;
    ShiftLexeme(t, p, u, q);
    if LexemeAt(t, p).Gap? {
      var n := LexemeAt(t, p).len;
      AlikeStep(t, p, u, q, n);
      ShiftSkip(t, p + n, u, q + n);
    }
  }

  // The string, if one begins here.
  function QuotedAt(t: string, r: nat): Quoted
    requires r < |t|
  {
    if t[r] != '"' then NoString
    else
      QuoteEndBounds(t, r + 1);
      match QuoteEnd(t, r + 1) { case None => Unclosed case Some(e) => Text(t[r + 1..e]) }
  }

  lemma ShiftQuoted(t: string, r: nat, u: string, s: nat)
    requires Alike(t, r, u, s) && r < |t|
    ensures s < |u| && QuotedAt(t, r) == QuotedAt(u, s)
  {
    hide QuoteEnd;
    AlikeStep(t, r, u, s, 1);
    assert t[r] == t[r..][0] == u[s];
    ShiftEnds(t, r + 1, u, s + 1);
    QuoteEndBounds(t, r + 1);
    if QuoteEnd(t, r + 1).Some? {
      var e := QuoteEnd(t, r + 1).value;
      assert t[r + 1..e] == t[r + 1..][..e - r - 1];
      assert u[s + 1..e - r + s] == u[s + 1..][..e - r - 1];
    }
  }

  lemma StringIs(t: string, p: nat)
    ensures match SkipFrom(t, p) {
              case Overrun => StringAt(t, p) == Unclosed
              case Stop(_) => StringAt(t, p) == NoString
              case At(r) => StringAt(t, p) == QuotedAt(t, r) }
  {
    hide QuoteEnd;
  }

  lemma ShiftString(t: string, p: nat, u: string, q: nat)
    requires Alike(t, p, u, q)
    ensures StringAt(t, p) == StringAt(u, q)
  {
    hide StringAt, QuotedAt, SkipFrom, Alike;
    ShiftSkip(t, p, u, q);
    StringIs(t, p);
    StringIs(u, q);
    if SkipFrom(t, p).At? {
      var r := SkipFrom(t, p).pos;
      ShiftQuoted(t, r, u, r - p + q);
    }
  }

  lemma {:induction false} ShiftTokens(t: string, p: nat, u: string, q: nat)
    requires Alike(t, p, u, q)
    ensures LexTokens(t, p) == LexTokens(u, q)
    decreases |t| - p
  {
    hide TokenOf, Alike, WordFrom, LexemeAt;
    ShiftLexeme(t, p, u, q);
    match LexemeAt(t, p) {
      case Gap(n) =>
        AlikeStep(t, p, u, q, n);
        ShiftTokens(t, p + n, u, q + n);
      case Start =>
        ShiftWord(t, p, u, q);
        if WordFrom(t, p).Some? {
          var e := WordFrom(t, p).value;
          AlikeStep(t, p, u, q, e - p);
          ShiftTokens(t, e, u, e - p + q);
          ShiftToken(t, p, e, u, q);
        }
      case _ =>
    }
  }

  lemma ShiftToken(t: string, p: nat, e: nat, u: string, q: nat)
    requires p < e <= |t| && Alike(t, p, u, q) && Alike(t, e, u, e - p + q) && t[p..e] == u[q..e - p + q]
    ensures TokenOf(t, p, e) == TokenOf(u, q, e - p + q)
  {
    ShiftString(t, e, u, e - p + q);
  }

  // -------------------------------------- the text before the insertion

  // Where the lexeme at p ends.
  function NextHead(t: string, p: nat): (q: Option<nat>)
    ensures q.Some? ==> p < q.value <= |t|
  {
    match LexemeAt(t, p)
    case Gap(n) => Some(p + n)
    case Start => WordFrom(t, p)
    case _ => None
  }

  // The parser, going from p, comes to stand at h between two lexemes.
  predicate HeadAt(t: string, p: nat, h: nat)
    decreases |t| - p
  {
    p == h || (NextHead(t, p).Some? && HeadAt(t, NextHead(t, p).value, h))
  }

  lemma {:induction false} HeadsGoOn(t: string, p: nat, h: nat)
    requires HeadAt(t, p, h)
    ensures p <= h
    decreases |t| - p
  {
    if p != h {
      HeadsGoOn(t, NextHead(t, p).value, h);
    }
  }

  // A blank or '=': the places after which layout may be put in.
  predicate Break(c: char) {
    Skips(c) || c == '='
  }

  predicate SamePrefix(t: string, u: string, h: nat) {
    h <= |t| && h <= |u| && forall i :: 0 <= i < h ==> t[i] == u[i]
  }

  lemma {:induction false} EndsPrefix(t: string, u: string, q: nat, h: nat)
    requires SamePrefix(t, u, h)
    ensures LineEnd(t, q).Some? && LineEnd(t, q).value < h ==> LineEnd(u, q) == LineEnd(t, q)
    ensures WordEnd(t, q).Some? && WordEnd(t, q).value < h ==> WordEnd(u, q) == WordEnd(t, q)
    ensures QuoteEnd(t, q).Some? && QuoteEnd(t, q).value < h ==> QuoteEnd(u, q) == QuoteEnd(t, q)
    ensures q >= 1 && CommentEnd(t, q).Some? && CommentEnd(t, q).value < h ==> CommentEnd(u, q) == CommentEnd(t, q)
    decreases |t| - q
  {
    LineEndBounds(t, q);
    WordEndBounds(t, q);
    QuoteEndBounds(t, q);
    if q >= 1 {
      CommentEndBounds(t, q);
    }
    if q < h {
      EndsPrefix(t, u, q + 1, h);
    }
  }

  // A lexeme that ends before h is decided by the text before h.
  lemma PrefixStep(t: string, u: string, p: nat, h: nat)
    requires SamePrefix(t, u, h) && NextHead(t, p).Some? && NextHead(t, p).value < h
    ensures LexemeAt(u, p) == LexemeAt(t, p) && NextHead(u, p) == NextHead(t, p)
  {
    EndsPrefix(t, u, p, h);
    if p >= 1 {
      CommentEndBounds(t, p);
    }
    LineEndBounds(t, p);
    WordEndBounds(t, p);
    hide CommentEnd, LineEnd, WordEnd, QuoteEnd;
  }

  lemma BreakStep(t: string, u: string, h: nat)
    requires SamePrefix(t, u, h) && h >= 1 && Break(t[h - 1])
    ensures LexemeAt(u, h - 1) == LexemeAt(t, h - 1) == if IsBlank(t[h - 1]) then Gap(1) else Start
    ensures NextHead(u, h - 1) == NextHead(t, h - 1) == Some(h)
  {
  }

  lemma StringAfterGap(t: string, q: nat)
    requires LexemeAt(t, q).Gap?
    ensures StringAt(t, q) == StringAt(t, q + LexemeAt(t, q).len)
  {
    assert SkipFrom(t, q) == SkipFrom(t, q + LexemeAt(t, q).len);
  }

  lemma StringHere(t: string, q: nat)
    requires LexemeAt(t, q) == Start
    ensures StringAt(t, q) == QuotedAt(t, q)
  {
    assert SkipFrom(t, q) == At(q);
  }

  /** The string that is read from q on opens before h and does not close there. */
  predicate Crosses(t: string, q: nat, h: nat) {
    match SkipFrom(t, q)
    case At(r) =>
      r < h && t[r] == '"' &&
      (QuoteEnd(t, r + 1) == None || QuoteEnd(t, r + 1).value >= h)
    case _ => false
  }

  // A text, and the same text with s put in at h.
  predicate Inserted(t: string, u: string, h: nat, s: string) {
    h <= |t| && u == t[..h] + s + t[h..]
  }

  // The string as it was, with s inside.
  predicate Widened(x: Quoted, y: Quoted, s: string) {
    match x
    case NoString => false
    case Unclosed => y == Unclosed
    case Text(w) => exists k :: 0 <= k <= |w| && y == Text(w[..k] + s + w[k..])
  }

  /** What becomes of one string: nothing, unless it crosses h; and then s goes in
      where it was put. */
  predicate Moved(t: string, q: nat, u: string, v: nat, h: nat, s: string) {
    && (!Crosses(t, q, h) ==> StringAt(u, v) == StringAt(t, q))
    && (Crosses(t, q, h) && '"' !in s ==> Widened(StringAt(t, q), StringAt(u, v), s))
  }

  lemma {:induction false} PrefixString(t: string, u: string, q: nat, h: nat, s: string)
    requires Inserted(t, u, h, s) && h >= 1 && Break(t[h - 1]) && HeadAt(t, q, h - 1)
    requires StringAt(t, h) == StringAt(u, h)
    ensures Moved(t, q, u, q, h, s)
    decreases h - q
  {
    hide StringAt, LexemeAt, WordFrom, Break, Crosses, QuotedAt, Widened;
    HeadsGoOn(t, q, h - 1);
    if q == h - 1 {
      PrefixStringLast(t, u, h, s);
    } else {
      var next := NextHead(t, q).value;
      HeadsGoOn(t, next, h - 1);
      PrefixStep(t, u, q, h);
      if LexemeAt(t, q).Gap? {
        StringAfterGap(t, q);
        StringAfterGap(u, q);
        CrossesAfterGap(t, q, h);
        PrefixString(t, u, next, h, s);
      } else {
        StringHere(t, q);
        StringHere(u, q);
        QuoteHere(t, u, q, h, s);
      }
    }
  }

  lemma CrossesAfterGap(t: string, q: nat, h: nat)
    requires LexemeAt(t, q).Gap?
    ensures Crosses(t, q, h) == Crosses(t, q + LexemeAt(t, q).len, h)
  {
    assert SkipFrom(t, q) == SkipFrom(t, q + LexemeAt(t, q).len);
  }

  lemma PrefixStringLast(t: string, u: string, h: nat, s: string)
    requires Inserted(t, u, h, s) && h >= 1 && Break(t[h - 1]) && StringAt(t, h) == StringAt(u, h)
    ensures Moved(t, h - 1, u, h - 1, h, s)
  {
    hide StringAt, LexemeAt;
    BreakStep(t, u, h);
    if IsBlank(t[h - 1]) {
      StringAfterGap(t, h - 1);
      StringAfterGap(u, h - 1);
      CrossesAfterGap(t, h - 1, h);
    } else {
      StringHere(t, h - 1);
      StringHere(u, h - 1);
    }
  }

  // The string, if any, begins at q itself.
  lemma QuoteHere(t: string, u: string, q: nat, h: nat, s: string)
    requires Inserted(t, u, h, s) && q < h && LexemeAt(t, q) == Start && LexemeAt(u, q) == Start
    ensures Moved(t, q, u, q, h, s)
  {
    hide StringAt, LexemeAt, Widened;
    StringHere(t, q);
    StringHere(u, q);
    assert SkipFrom(t, q) == At(q);
    assert u[q] == t[q];
    if t[q] == '"' {
      QuoteEndBounds(t, q + 1);
      hide QuoteEnd, SkipFrom;
      EndsPrefix(t, u, q + 1, h);
      if !Crosses(t, q, h) {
        var c := QuoteEnd(t, q + 1).value;
        assert t[q + 1..c] == u[q + 1..c];
      } else if '"' !in s {
        QuoteAround(t, u, q, h, s);
      }
    }
  }

  lemma QuoteAround(t: string, u: string, q: nat, h: nat, s: string)
    requires Inserted(t, u, h, s) && q < h <= |t| && h <= |u| && t[q] == u[q] == '"' && '"' !in s
    requires QuoteEnd(t, q + 1).Some? ==> QuoteEnd(t, q + 1).value >= h
    ensures Widened(QuotedAt(t, q), QuotedAt(u, q), s)
  {
    hide *;
    QuoteThrough(t, u, q + 1, h, s);
    QuoteEndBounds(t, q + 1);
    if QuoteEnd(t, q + 1).Some? {
      var c := QuoteEnd(t, q + 1).value;
      InsertedSlice(t, u, q + 1, c, h, s);
      TextWidens(t, u, q, c, h, s);
    } else {
      UnclosedStays(t, u, q, s);
    }
  }

  lemma TextWidens(t: string, u: string, q: nat, c: nat, h: nat, s: string)
    requires q < h <= c < |t| && c + |s| <= |u| && t[q] == u[q] == '"'
    requires QuoteEnd(t, q + 1) == Some(c) && QuoteEnd(u, q + 1) == Some(c + |s|)
    requires u[q + 1..c + |s|] == t[q + 1..c][..h - q - 1] + s + t[q + 1..c][h - q - 1..]
    ensures Widened(QuotedAt(t, q), QuotedAt(u, q), s)
  {
    hide QuoteEnd;
    var w, k := t[q + 1..c], h - q - 1;
    assert QuotedAt(u, q) == Text(w[..k] + s + w[k..]);
  }

  lemma UnclosedStays(t: string, u: string, q: nat, s: string)
    requires q < |t| && q < |u| && t[q] == u[q] == '"' && QuoteEnd(t, q + 1) == QuoteEnd(u, q + 1) == None
    ensures Widened(QuotedAt(t, q), QuotedAt(u, q), s)
  {
    hide QuoteEnd;
  }

  lemma InsertedSlice(t: string, u: string, p: nat, c: nat, h: nat, s: string)
    requires Inserted(t, u, h, s) && p <= h <= c <= |t|
    ensures c + |s| <= |u| && u[p..c + |s|] == t[p..c][..h - p] + s + t[p..c][h - p..]
  {
    assert t[p..c][..h - p] == t[p..h] && t[p..c][h - p..] == t[h..c];
    assert u[p..h] == t[p..h] && u[h..h + |s|] == s;
    assert u[h + |s|..c + |s|] == t[h..c];
    assert u[p..c + |s|] == u[p..h] + u[h..h + |s|] + u[h + |s|..c + |s|];
  }

  // A search for a quote that gets past h gets past what was put in there.
  lemma {:induction false} QuoteThrough(t: string, u: string, q: nat, h: nat, s: string)
    requires Inserted(t, u, h, s) && q <= h && '"' !in s
    requires QuoteEnd(t, q).Some? ==> QuoteEnd(t, q).value >= h
    ensures QuoteEnd(u, q) == match QuoteEnd(t, q) { case None => None case Some(c) => Some(c + |s|) }
    decreases h - q
  {
    if q < h {
      assert u[q] == t[q];
      QuoteThrough(t, u, q + 1, h, s);
    } else {
      assert u[h..][|s|..] == t[h..];
      QuoteOver(u, h, h + |s|);
      assert u[h + |s|..] == u[h..][|s|..];
      ShiftEnds(t, h, u, h + |s|);
    }
  }

  lemma {:induction false} QuoteOver(u: string, q: nat, e: nat)
    requires q <= e <= |u| && '"' !in u[q..e]
    ensures QuoteEnd(u, q) == QuoteEnd(u, e)
    decreases e - q
  {
    if q < e {
      assert u[q] == u[q..e][0] && u[q + 1..e] == u[q..e][1..];
      QuoteOver(u, q + 1, e);
    }
  }

  // Both lists have the same words.
  predicate SameWords(x: Option<seq<Token>>, y: Option<seq<Token>>) {
    && (x.Some? <==> y.Some?)
    && (x.Some? ==> |x.value| == |y.value|)
    && (x.Some? ==> forall i :: 0 <= i < |x.value| ==> x.value[i].word == y.value[i].word)
  }

  lemma SameCons(x: Option<seq<Token>>, y: Option<seq<Token>>, a: Token, b: Token)
    requires SameWords(x, y) && a.word == b.word
    ensures SameWords(Cons(a, x), Cons(b, y))
  {
  }

  lemma {:induction false} Prefix(t: string, u: string, p: nat, h: nat)
    requires SamePrefix(t, u, h) && h >= 1 && Break(t[h - 1]) && HeadAt(t, p, h - 1)
    requires LexTokens(t, h) == LexTokens(u, h)
    ensures SameWords(LexTokens(t, p), LexTokens(u, p))
    decreases h - p
  {
    hide TokenOf, LexemeAt, WordFrom;
    HeadsGoOn(t, p, h - 1);
    if p == h - 1 {
      BreakStep(t, u, h);
      TokenSame(t, u, p, h, h);
    } else {
      var next := NextHead(t, p).value;
      HeadsGoOn(t, next, h - 1);
      PrefixStep(t, u, p, h);
      Prefix(t, u, next, h);
      if LexemeAt(t, p).Start? {
        TokenSame(t, u, p, next, h);
        SameCons(LexTokens(t, next), LexTokens(u, next), TokenOf(t, p, next), TokenOf(u, p, next));
      }
    }
  }

  lemma TokenSame(t: string, u: string, p: nat, e: nat, h: nat)
    requires SamePrefix(t, u, h) && p < e <= h
    ensures TokenOf(t, p, e).word == TokenOf(u, p, e).word
  {
    assert t[p..e] == u[p..e];
  }

  // Where the ith word from p on ends.
  function EndOf(t: string, p: nat, i: nat): (e: nat)
    ensures e >= p
    decreases |t| - p
  {
    match LexemeAt(t, p)
    case Gap(n) => EndOf(t, p + n, i)
    case Start =>
      (match WordFrom(t, p) {
         case None => p
         case Some(e) => if i == 0 then e else EndOf(t, e, i - 1)
       })
    case _ => p
  }

  // What becomes of the ith word and its string.
  predicate WordMoved(t: string, x: Token, y: Token, q: nat, h: nat, s: string) {
    && y.word == x.word
    && (x.word != "=" || !Crosses(t, q, h) ==> y == x)
    && (x.word == "=" && Crosses(t, q, h) && '"' !in s ==> Widened(x.str, y.str, s))
  }

  // A string that is read from h on opens at h or after.
  lemma BehindCrossesNot(t: string, q: nat, h: nat)
    requires q >= h
    ensures !Crosses(t, q, h)
  {
  }

  lemma {:induction false} EachWord(t: string, u: string, p: nat, h: nat, s: string, i: nat)
    requires Inserted(t, u, h, s) && h >= 1 && Break(t[h - 1]) && HeadAt(t, p, h - 1)
    requires LexTokens(t, h) == LexTokens(u, h) && StringAt(t, h) == StringAt(u, h)
    requires LexTokens(t, p).Some? && i < |LexTokens(t, p).value|
    ensures LexTokens(u, p).Some? && i < |LexTokens(u, p).value|
    ensures WordMoved(t, LexTokens(t, p).value[i], LexTokens(u, p).value[i], EndOf(t, p, i), h, s)
    decreases h - p
  {
    hide TokenOf, LexemeAt, WordFrom, SameWords, WordMoved, Break, Inserted, StringAt;
    HeadsGoOn(t, p, h - 1);
    if p == h - 1 {
      LastWord(t, u, h, s, i);
    } else {
      var next := NextHead(t, p).value;
      HeadsGoOn(t, next, h - 1);
      InsertedPrefix(t, u, h, s);
      PrefixStep(t, u, p, h);
      if LexemeAt(t, p).Gap? {
        EachWord(t, u, next, h, s, i);
      } else {
        FirstWord(t, u, p, next, h, s);
        Prefix(t, u, next, h);
        SameLength(LexTokens(t, next), LexTokens(u, next));
        if i > 0 {
          EachWord(t, u, next, h, s, i - 1);
        }
      }
    }
  }

  lemma InsertedPrefix(t: string, u: string, h: nat, s: string)
    requires Inserted(t, u, h, s)
    ensures SamePrefix(t, u, h)
  {
  }

  lemma FirstWord(t: string, u: string, p: nat, e: nat, h: nat, s: string)
    requires Inserted(t, u, h, s) && h >= 1 && Break(t[h - 1]) && p < e < h && HeadAt(t, e, h - 1)
    requires StringAt(t, h) == StringAt(u, h)
    ensures WordMoved(t, TokenOf(t, p, e), TokenOf(u, p, e), e, h, s)
  {
    TokenSame(t, u, p, e, h);
    PrefixString(t, u, e, h, s);
  }

  // The word, if any, that is the break itself, and those after it.
  lemma LastWord(t: string, u: string, h: nat, s: string, i: nat)
    requires Inserted(t, u, h, s) && h >= 1 && Break(t[h - 1])
    requires LexTokens(t, h) == LexTokens(u, h) && StringAt(t, h) == StringAt(u, h)
    requires LexTokens(t, h - 1).Some? && i < |LexTokens(t, h - 1).value|
    ensures LexTokens(u, h - 1).Some? && i < |LexTokens(u, h - 1).value|
    ensures WordMoved(t, LexTokens(t, h - 1).value[i], LexTokens(u, h - 1).value[i], EndOf(t, h - 1, i), h, s)
  {
    hide LexemeAt, StringAt, Crosses, Break;
    BreakStep(t, u, h);
    BehindCrossesNot(t, EndOf(t, h - 1, i), h);
    if LexemeAt(t, h - 1).Start? {
      TokenSame(t, u, h - 1, h, h);
    }
  }

  // --------------------------------------------------- what is put in

  predicate ClosedComment(s: string) {
    && |s| >= 3 && s[0] == '/' && s[1] == '*' && s[|s| - 2] == '*' && s[|s| - 1] == '/'
    && forall i :: 1 <= i < |s| - 1 ==> s[i - 1] != '*' || s[i] != '/'
  }

  predicate LineComment(s: string) {
    && |s| >= 3 && s[0] == '/' && s[1] == '/' && s[|s| - 1] == '\r'
    && forall i :: 0 <= i < |s| - 1 ==> s[i] != '\r'
  }

  predicate IsLayout(s: string) {
    ClosedComment(s) || LineComment(s) || forall c <- s :: Skips(c)
  }

  lemma {:induction false} CommentEndAt(u: string, q: nat, e: nat)
    requires 1 <= q <= e < |u| && u[e - 1] == '*' && u[e] == '/'
    requires forall i :: q <= i < e ==> u[i - 1] != '*' || u[i] != '/'
    ensures CommentEnd(u, q) == Some(e)
    decreases e - q
  {
    if q < e {
      CommentEndAt(u, q + 1, e);
    }
  }

  lemma {:induction false} LineEndAt(u: string, q: nat, e: nat)
    requires q <= e < |u| && u[e] == '\r' && forall i :: q <= i < e ==> u[i] != '\r'
    ensures LineEnd(u, q) == Some(e)
    decreases e - q
  {
    if q < e {
      LineEndAt(u, q + 1, e);
    }
  }

  // A gap is skipped by both kinds of scan.
  lemma GapSkipped(u: string, h: nat, n: nat)
    requires LexemeAt(u, h) == Gap(n)
    ensures LexTokens(u, h) == LexTokens(u, h + n) && StringAt(u, h) == StringAt(u, h + n)
  {
    assert SkipFrom(u, h) == SkipFrom(u, h + n);
  }

  lemma BlankHere(u: string, h: nat)
    requires h < |u| && IsBlank(u[h])
    ensures LexemeAt(u, h) == Gap(1)
  {
  }

  lemma {:induction false} BlanksSkipped(u: string, h: nat, n: nat)
    requires h + n <= |u| && forall i :: h <= i < h + n ==> IsBlank(u[i])
    ensures LexTokens(u, h) == LexTokens(u, h + n) && StringAt(u, h) == StringAt(u, h + n)
    decreases n
  {
    hide LexTokens, StringAt, LexemeAt;
    if n > 0 {
      BlankHere(u, h);
      GapSkipped(u, h, 1);
      BlanksSkipped(u, h + 1, n - 1);
    }
  }

  lemma LayoutSkipped(u: string, h: nat, s: string)
    requires 1 <= h && h + |s| <= |u| && u[h..h + |s|] == s && u[h - 1] != '*' && IsLayout(s)
    ensures LexTokens(u, h) == LexTokens(u, h + |s|) && StringAt(u, h) == StringAt(u, h + |s|)
  {
    hide LexTokens, StringAt, CommentEnd, LineEnd;
    var n := |s|;
    assert forall i :: 0 <= i < n ==> u[h + i] == s[i];
    if ClosedComment(s) {
      forall i | h <= i < h + n - 1 ensures u[i - 1] != '*' || u[i] != '/' {
        assert i > h ==> u[i - 1] == s[i - h - 1] && u[i] == s[i - h];
      }
      assert u[h + (n - 1)] == '/' && u[h + (n - 2)] == '*' && u[h + 0] == '/' && u[h + 1] == '*';
      CommentEndAt(u, h, h + n - 1);
      GapSkipped(u, h, n);
    } else if LineComment(s) {
      assert u[h + (n - 1)] == '\r' && u[h + 0] == '/' && u[h + 1] == '/';
      forall i | h <= i < h + n - 1 ensures u[i] != '\r' {
        assert u[h + (i - h)] == s[i - h];
      }
      LineEndAt(u, h, h + n - 1);
      GapSkipped(u, h, n - 1);
      GapSkipped(u, h + n - 1, 1);
    } else {
      forall i | h <= i < h + n ensures IsBlank(u[i]) {
        assert u[h + (i - h)] == s[i - h] && s[i - h] in s;
      }
      BlanksSkipped(u, h, n);
    }
  }

  // The text before, the layout, and the text after, in the longer text.
  lemma Parts(a: string, s: string, b: string)
    requires a != "" && Break(a[|a| - 1]) && IsLayout(s)
    ensures SamePrefix(a + b, a + s + b, |a|)
    ensures (a + b)[|a| - 1] == (a + s + b)[|a| - 1] == a[|a| - 1] != '*'
    ensures (a + s + b)[|a|..|a| + |s|] == s
    ensures Alike(a + b, |a|, a + s + b, |a| + |s|)
  {
    var t, u, h := a + b, a + s + b, |a|;
    assert u[h..h + |s|] == s;
    assert u[h + |s|..] == b == t[h..];
    if s != "" {
      assert s[|s| - 1] in s;
      assert u[h + |s| - 1] == s[|s| - 1] != '*';
    }
  }

  lemma InsertedParts(a: string, s: string, b: string)
    ensures Inserted(a + b, a + s + b, |a|, s)
  {
    assert (a + b)[..|a|] == a && (a + b)[|a|..] == b;
  }

  // Behind the layout everything is as it was.
  lemma Behind(a: string, s: string, b: string)
    requires a != "" && Break(a[|a| - 1]) && IsLayout(s)
    ensures var t, u, h := a + b, a + s + b, |a|;
            && t[h - 1] == a[h - 1]
            && LexTokens(t, h) == LexTokens(u, h) && StringAt(t, h) == StringAt(u, h)
  {
    var t, u, h := a + b, a + s + b, |a|;
    Parts(a, s, b);
    hide *;
    LayoutSkipped(u, h, s);
    ShiftTokens(t, h, u, h + |s|);
    ShiftString(t, h, u, h + |s|);
  }

  lemma SameLength(x: Option<seq<Token>>, y: Option<seq<Token>>)
    requires SameWords(x, y) && x.Some?
    ensures y.Some? && |y.value| == |x.value|
  {
  }

  // Every word of t is in u, with its string if that is not open at h.
  predicate AllMoved(t: string, u: string, h: nat, s: string)
    requires Tokens(t, 0).Some?
  {
    && Tokens(u, 0).Some? && |Tokens(u, 0).value| == |Tokens(t, 0).value|
    && forall i :: 0 <= i < |Tokens(t, 0).value| ==>
         WordMoved(t, Tokens(t, 0).value[i], Tokens(u, 0).value[i], EndOf(t, 0, i), h, s)
  }

  /** Layout put in after a blank or '=' that the parser takes as such changes no
      word. A string changes only if it is open there, and then, if the layout
      has no quote in it, by just that much. */
  lemma LayoutIgnored(a: string, s: string, b: string)
    requires a != "" && Break(a[|a| - 1]) && HeadAt(a + b, 0, |a| - 1) && IsLayout(s)
    ensures SameWords(Tokens(a + b, 0), Tokens(a + s + b, 0))
    ensures Tokens(a + b, 0).Some? ==> AllMoved(a + b, a + s + b, |a|, s)
  {
    var t, u, h := a + b, a + s + b, |a|;
    InsertedParts(a, s, b);
    Behind(a, s, b);
    LexTokensIs(t, 0);
    LexTokensIs(u, 0);
    InsertedPrefix(t, u, h, s);
    hide HeadAt, IsLayout, LexTokens, Tokens, StringAt, SamePrefix, Break, Inserted, SameWords, WordMoved, EndOf;
    Prefix(t, u, 0, h);
    if Tokens(t, 0).Some? {
      SameLength(Tokens(t, 0), Tokens(u, 0));
      forall i | 0 <= i < |Tokens(t, 0).value|
        ensures WordMoved(t, Tokens(t, 0).value[i], Tokens(u, 0).value[i], EndOf(t, 0, i), h, s)
      {
        EachWord(t, u, 0, h, s, i);
      }
    }
  }

  // Lookups of words depend on the words alone.
  lemma {:induction false} SameIndex(x: seq<Token>, y: seq<Token>, key: string)
    requires SameWords(Some(x), Some(y))
    ensures IndexOf(x, key) == IndexOf(y, key) && LookupWord(x, key) == LookupWord(y, key)
  {
    if x != [] {
      assert x[0].word == y[0].word;
      forall i | 0 <= i < |x| - 1 ensures x[1..][i].word == y[1..][i].word {
        assert x[i + 1].word == y[i + 1].word;
      }
      SameIndex(x[1..], y[1..], key);
    }
  }

  /** The string of this key, if it has one, is open at h. */
  predicate KeyCrosses(t: string, key: string, h: nat)
    requires Tokens(t, 0).Some?
  {
    var ts := Tokens(t, 0).value;
    var i := IndexOf(ts, key);
    i + 1 < |ts| && ts[i + 1].word == "=" && Crosses(t, EndOf(t, 0, i + 1), h)
  }

  lemma WidenedDiffers(x: Quoted, y: Quoted, s: string)
    requires Widened(x, y, s) && s != ""
    ensures y == x <==> x.Unclosed?
  {
    if x.Text? {
      var k :| 0 <= k <= |x.s| && y == Text(x.s[..k] + s + x.s[k..]);
      assert |x.s[..k] + s + x.s[k..]| == |x.s| + |s|;
    }
  }

  /** So every lookup of a number finds what it found before, and every lookup of
      a string does unless that very string is open where the layout is put in.
      For layout without a quote that is exact. */
  lemma LookupsIgnoreLayout(a: string, s: string, b: string, key: string)
    requires a != "" && Break(a[|a| - 1]) && HeadAt(a + b, 0, |a| - 1) && IsLayout(s)
    requires Tokens(a + b, 0).Some?
    ensures Tokens(a + s + b, 0).Some? && ValueOf(a + s + b, key) == ValueOf(a + b, key)
    ensures !KeyCrosses(a + b, key, |a|) ==> StringOf(a + s + b, key) == StringOf(a + b, key)
    ensures s != "" && '"' !in s ==>
              (StringOf(a + s + b, key) == StringOf(a + b, key) <==>
               !(KeyCrosses(a + b, key, |a|) && StringOf(a + b, key).Some?))
  {
    var t, u := a + b, a + s + b;
    LayoutIgnored(a, s, b);
    hide *;
    StringsMove(t, u, |a|, s, key);
  }

  lemma StringsMove(t: string, u: string, h: nat, s: string, key: string)
    requires SameWords(Tokens(t, 0), Tokens(u, 0)) && Tokens(t, 0).Some? && AllMoved(t, u, h, s)
    ensures Tokens(u, 0).Some? && ValueOf(u, key) == ValueOf(t, key)
    ensures !KeyCrosses(t, key, h) ==> StringOf(u, key) == StringOf(t, key)
    ensures s != "" && '"' !in s ==>
              (StringOf(u, key) == StringOf(t, key) <==> !(KeyCrosses(t, key, h) && StringOf(t, key).Some?))
  {
    hide Tokens, LookupWord, IndexOf, Atoi, WordMoved, EndOf, Crosses, QuotedOf, SameWords;
    var x, y := Tokens(t, 0).value, Tokens(u, 0).value;
    SameIndex(x, y, key);
    QuotedMoves(t, x, y, h, s, key);
  }

  lemma QuotedMoves(t: string, x: seq<Token>, y: seq<Token>, h: nat, s: string, key: string)
    requires |y| == |x| && IndexOf(x, key) == IndexOf(y, key)
    requires forall i :: 0 <= i < |x| ==> WordMoved(t, x[i], y[i], EndOf(t, 0, i), h, s)
    requires Tokens(t, 0) == Some(x)
    ensures !KeyCrosses(t, key, h) ==> QuotedOf(y, key) == QuotedOf(x, key)
    ensures s != "" && '"' !in s && KeyCrosses(t, key, h) ==>
              (QuotedOf(y, key) == QuotedOf(x, key) <==> QuotedOf(x, key).Unclosed?)
              && !QuotedOf(x, key).NoString? && (QuotedOf(x, key).Unclosed? <==> QuotedOf(y, key).Unclosed?)
              && !QuotedOf(y, key).NoString?
  {
    var i := IndexOf(x, key);
    hide Tokens, IndexOf, EndOf, Crosses;
    if i + 1 < |x| {
      assert WordMoved(t, x[i + 1], y[i + 1], EndOf(t, 0, i + 1), h, s);
      if KeyCrosses(t, key, h) && s != "" && '"' !in s {
        WidenedDiffers(x[i + 1].str, y[i + 1].str, s);
      }
    }
  }
}
