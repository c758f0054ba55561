/** Layout does not matter: the words are exactly the text that is neither blank
    nor comment, and more blanks or comments in the right places change no
    lookup. */
module TextLayout {
  import opened Wrappers
  import opened TextSpec

  // The characters that separate words, written out: the first four end a word and
  // are skipped, the others are skipped only where a word would begin.
  predicate Breaks(c: char) {
    c == ' ' || c == '\t' || c == '\n' || c == '\r'
  }

  predicate Skips(c: char) {
    Breaks(c) || c == '{' || c == '.' || c == ',' || c == '\U{08}'
  }

  // The words again, one lexeme at a time.
  function Cons(x: Token, rest: Option<seq<Token>>): Option<seq<Token>> {
    match rest case None => None case Some(ts) => Some([x] + ts)
  }

  function LexTokens(t: string, p: nat): Option<seq<Token>>
    decreases |t| - p
  {
    match LexemeAt(t, p)
    case Outside => None
    case Close => Some([])
    case Gap(n) => LexTokens(t, p + n)
    case Start => match WordFrom(t, p) { case None => None case Some(e) => Cons(TokenOf(t, p, e), LexTokens(t, e)) }
  }

  lemma {:induction false} LexTokensIs(t: string, p: nat)
    ensures LexTokens(t, p) == Tokens(t, p)
    decreases |t| - p
  {
    hide TokenOf;
    match LexemeAt(t, p) {
      case Gap(n) => LexTokensIs(t, p + n);
      case Start =>
        if WordFrom(t, p).Some? {
          LexTokensIs(t, WordFrom(t, p).value);
        }
      case _ =>
    }
  }

  // -------------------------------------------------- nothing is lost

  datatype Segment = Filler(s: string) | Run(s: string)

  function Segments(t: string, p: nat): Option<seq<Segment>>
    decreases |t| - p
  {
    match LexemeAt(t, p)
    case Outside => None
    case Close => Some([])
    case Gap(n) =>
      (match Segments(t, p + n) { case None => None case Some(ss) => Some([Filler(t[p..p + n])] + ss) })
    case Start =>
      match WordFrom(t, p) {
        case None => None
        case Some(e) => match Segments(t, e) { case None => None case Some(ss) => Some([Run(t[p..e])] + ss) }
      }
  }

  function Concat(ss: seq<Segment>): string {
    if ss == [] then "" else ss[0].s + Concat(ss[1..])
  }

  // The words among the segments, as C strings.
  function WordsOf(ss: seq<Segment>): seq<string> {
    if ss == [] then []
    else (if ss[0].Run? then [CString(ss[0].s)] else []) + WordsOf(ss[1..])
  }

  function WordsIn(ts: seq<Token>): seq<string> {
    if ts == [] then [] else [ts[0].word] + WordsIn(ts[1..])
  }

  predicate IsComment(s: string) {
    || (|s| >= 3 && s[0] == '/' && s[1] == '*' && s[|s| - 2] == '*' && s[|s| - 1] == '/')
    || (|s| >= 2 && s[0] == '/' && s[1] == '/' && forall i :: 0 <= i < |s| ==> s[i] != '\r')
  }

  /** A gap is one blank or one comment (a comment that follows a '*' may be cut
      short); a run is '=' or has no blank that ends a word, and begins neither a
      gap nor the end. */
  predicate Proper(x: Segment) {
    match x
    case Filler(s) => (|s| == 1 && Skips(s[0])) || IsComment(s) || s == "/"
    case Run(s) =>
      && s != "" && !Skips(s[0]) && s[0] != '}'
      && (s == "=" || forall i :: 0 <= i < |s| ==> !Breaks(s[i]) && s[i] != '=')
  }

  lemma GapProper(t: string, p: nat)
    requires LexemeAt(t, p).Gap?
    ensures Proper(Filler(t[p..p + LexemeAt(t, p).len]))
  {
    var n := LexemeAt(t, p).len;
    var s := t[p..p + n];
    hide CommentEnd, LineEnd;
    if t[p] == '/' && t[p + 1] == '*' {
      CommentEndBounds(t, p);
      assert n == 1 ==> s == "/";
    } else if t[p] == '/' {
      LineEndBounds(t, p);
    }
  }

  // The segments ss are the text from p to the closing brace, and ts its words.
  predicate Accounts(t: string, p: nat, ss: seq<Segment>, ts: seq<Token>) {
    var n := |Concat(ss)|;
    && p + n < |t| && t[p + n] == '}' && t[p..p + n] == Concat(ss)
    && (forall x <- ss :: Proper(x))
    && WordsIn(ts) == WordsOf(ss)
  }

  /** The words, in order and disjoint, are exactly the text up to the closing
      brace that is not in a gap: the segments put together are the text. */
  lemma {:induction false} NothingLost(t: string, p: nat)
    ensures Segments(t, p).Some? <==> Tokens(t, p).Some?
    ensures Tokens(t, p).Some? ==> Accounts(t, p, Segments(t, p).value, Tokens(t, p).value)
    decreases |t| - p
  {
    hide TokenOf, Proper, Accounts, Tokens;
    LexTokensIs(t, p);
    match LexemeAt(t, p) {
      case Gap(n) =>
        LexTokensIs(t, p + n);
        NothingLost(t, p + n);
        GapProper(t, p);
        if Tokens(t, p).Some? {
          Join(t, p, p + n, Filler(t[p..p + n]), Segments(t, p + n).value, Tokens(t, p + n).value, []);
        }
      case Start =>
        if WordFrom(t, p).Some? {
          var e := WordFrom(t, p).value;
          LexTokensIs(t, e);
          NothingLost(t, e);
          RunProper(t, p);
          if Tokens(t, p).Some? {
            Join(t, p, e, Run(t[p..e]), Segments(t, e).value, Tokens(t, e).value, [TokenOf(t, p, e)]);
          }
        }
      case Close => AccountsEnd(t, p);
      case Outside =>
    }
  }

  lemma AccountsEnd(t: string, p: nat)
    requires p < |t| && t[p] == '}'
    ensures Accounts(t, p, [], [])
  {
  }

  // One segment more in front, with the word it is, if it is one.
  lemma Join(t: string, p: nat, e: nat, x: Segment, ss: seq<Segment>, ts: seq<Token>, w: seq<Token>)
    requires p <= e <= |t| && x.s == t[p..e] && Proper(x) && Accounts(t, e, ss, ts)
    requires if x.Run? then |w| == 1 && w[0].word == CString(x.s) else w == []
    ensures Accounts(t, p, [x] + ss, w + ts)
    ensures w == [] ==> w + ts == ts
  {
    hide Proper;
    assert ([x] + ss)[1..] == ss;
    if w != [] {
      assert (w + ts)[1..] == ts;
    } else {
      assert w + ts == ts;
    }
  }

  lemma RunProper(t: string, p: nat)
    requires LexemeAt(t, p) == Start && WordFrom(t, p).Some?
    ensures Proper(Run(t[p..WordFrom(t, p).value]))
    ensures TokenOf(t, p, WordFrom(t, p).value).word == CString(t[p..WordFrom(t, p).value])
  {
    WordEndBounds(t, p);
    if t[p] == '=' {
      assert t[p..p + 1] == "=";
    }
  }
}
